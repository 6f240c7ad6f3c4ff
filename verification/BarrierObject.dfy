/**
 The barrier as an object updated in place: the fields of barrier_t, the mutex, and the
 worker threads' registers. Step executes one statement of one worker; RunAll is the
 exercise's main program under an arbitrary scheduler.
 */
module BarrierObject {
  import opened Barrier
  import opened BarrierInvariant
  import opened BarrierTheorems

  class Workers {
    const threshold: nat
    const phases: nat
    var owner: Mutex
    var count: nat
    var serial: nat
    const threads: array<Thread>

    ghost function View(): State
      reads this, threads
    {
      State(threshold, phases, 0, owner, count, serial, threads[..])
    }

    constructor (n: nat, phases: nat)
      ensures View() == Init(n, n, phases, 0) && fresh(threads)
    {
      this.threshold, this.phases := n, phases;
      owner, count, serial := Free, 0, 0;
      threads := new Thread[n](_ => Thread(Outside, 0, 0));
    }

    /** Moves every sleeper to the mutex queue. */
    method WakeAll()
      modifies threads
      ensures threads[..] == seq(threads.Length, i requires 0 <= i < threads.Length => old(Wake(threads[i])))
    {
      for i := 0 to threads.Length
        invariant forall j :: 0 <= j < i ==> threads[j] == old(Wake(threads[j]))
        invariant forall j :: i <= j < threads.Length ==> threads[j] == old(threads[j])
      {
        if threads[i].pc == Asleep {
          threads[i] := threads[i].(pc := Reacquire);
        }
      }
    }

    method Step(t: nat)
      requires Enabled(View(), Run(t))
      modifies this, threads
      ensures View() == Next(old(View()), Run(t))
    {
      var me := threads[t];
      var pc := me.pc;
      match me.pc {
        case Outside => owner := HeldBy(t); pc := Remember;
        case Remember => me := me.(mine := serial); pc := Arrive;
        case Arrive => count := count + 1; pc := Test;
        case Test => pc := if count == threshold then Reset else Check;
        case Reset => count := 0; pc := Advance;
        case Advance => serial := serial + 1; pc := Broadcast;
        case Broadcast => WakeAll(); pc := Leave;
        case Check => pc := if me.mine == serial then Wait else Leave;
        case Wait => owner := Free; pc := Asleep;
        case Reacquire => owner := HeldBy(t); pc := Check;
        case Leave => owner := Free; me := me.(passed := me.passed + 1); pc := Outside;
      }
      threads[t] := me.(pc := pc);
    }

    method SpuriousWakeup(t: nat)
      requires Enabled(View(), Spurious(t))
      modifies threads
      ensures View() == Next(old(View()), Spurious(t))
      ensures threads[..] == old(threads[..])[t := old(threads[t]).(pc := Reacquire)]
    {
      threads[t] := threads[t].(pc := Reacquire);
    }

    /**
     Every scheduler that keeps running some runnable worker brings all of them home, even if it
     wakes sleepers spuriously, up to `spurious` times, whenever it likes.
     */
    method RunAll(spurious: nat)
      requires Inv(View())
      modifies this, threads
      ensures AllDone(View()) && serial == phases && count == 0 && owner == Free
    {
      var done, left := false, spurious;
      RemainingNat(View());
      while !done
        invariant Inv(View()) && Remaining(View()) >= 0
        invariant done ==> forall t :: 0 <= t < |View().threads| ==> !Enabled(View(), Run(t))
        decreases Remaining(View()) + 4 * left, !done
      {
        ghost var before := View();
        var wake := *;
        if wake && left > 0 && exists t: nat :: t < threads.Length && threads[t].pc == Asleep {
          var t: nat :| t < threads.Length && threads[t].pc == Asleep;
          StepInv(before, Spurious(t));
          StepWork(before, Spurious(t));
          SpuriousWakeup(t);
          left := left - 1;
        } else if t: nat :| t < threads.Length && Runnable(t) {
          StepInv(before, Run(t));
          StepWork(before, Run(t));
          Step(t);
        } else {
          done := true;
          forall t: nat | t < threads.Length ensures !Enabled(View(), Run(t)) {
            assert !Runnable(t);
          }
        }
        RemainingNat(View());
      }
      Finished(View());
    }

    predicate Runnable(t: nat)
      requires t < threads.Length
      reads this, threads
      ensures Runnable(t) <==> Enabled(View(), Run(t))
    {
      match threads[t].pc
      case Outside => owner == Free && threads[t].passed < phases
      case Asleep => false
      case Reacquire => owner == Free
      case _ => true
    }
  }

  /** main(): start the workers, let them run, join them. */
  method RunExercise(n: nat, phases: nat, spurious: nat) returns (serial: nat, count: nat)
    requires n >= 1
    ensures serial == phases && count == 0
  {
    var w := new Workers(n, phases);
    InitInv(n, phases);
    w.RunAll(spurious);
    serial, count := w.serial, w.count;
  }
}
