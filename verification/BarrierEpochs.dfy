/**
 Keeping `serial` modulo K. With N = threshold threads the epochs in use never differ by more
 than one, so for every K >= 2 (a single sense bit, or a wrapping machine integer) the folded
 barrier takes exactly the same steps as the unbounded one. With K = 1 it deadlocks.
 */
module BarrierEpochs {
  import opened Arithmetic
  import opened Barrier
  import opened BarrierInvariant
  import opened BarrierTheorems

  function FoldThread(k: nat, th: Thread): Thread
    requires k > 0
  {
    th.(mine := th.mine % k)
  }

  /** The same state with every epoch number reduced modulo k. */
  function Fold(k: nat, s: State): State
    requires k > 0
  {
    s.(wrap := k, serial := s.serial % k,
       threads := seq(|s.threads|, i requires 0 <= i < |s.threads| => FoldThread(k, s.threads[i])))
  }

  lemma TickFolds(k: nat, x: nat)
    requires k >= 2
    ensures Tick(k, x % k) == (x + 1) % k
    ensures (x + 1) % k != x % k
  {
    RemainderNext(k, x);
    SmallSuccessor(k, x % k);
  }

  lemma FoldStep(k: nat, s: State, a: Action)
    requires k >= 2 && Inv(s)
    ensures Enabled(Fold(k, s), a) == Enabled(s, a)
    ensures Enabled(s, a) ==> Next(Fold(k, s), a) == Fold(k, Next(s, a))
  {
    if Enabled(s, a) {
      var th := s.threads[a.t];
      TickFolds(k, s.serial);
      TickFolds(k, th.mine);
      assert ThreadOk(s.serial, s.phases, OwnerPc(s).Broadcast?, th);
      var x, y := Next(Fold(k, s), a), Fold(k, Next(s, a));
      assert x.threads == y.threads;
    }
  }

  lemma {:induction false} FoldRun(k: nat, s: State, run: seq<Action>)
    requires k >= 2 && Inv(s)
    ensures Legal(Fold(k, s), run) == Legal(s, run)
    ensures Legal(s, run) ==> Exec(Fold(k, s), run) == Fold(k, Exec(s, run))
    decreases |run|
  {
    if run != [] {
      FoldStep(k, s, run[0]);
      if Enabled(s, run[0]) {
        StepInv(s, run[0]);
        FoldRun(k, Next(s, run[0]), run[1..]);
      }
    }
  }

  /** The barrier that keeps `serial` modulo k has exactly the runs of the unbounded one. */
  lemma {:induction false} FoldedEpochsSameRuns(k: nat, n: nat, phases: nat, run: seq<Action>)
    requires k >= 2 && n >= 1
    ensures Legal(Init(n, n, phases, k), run) <==> Legal(Init(n, n, phases, 0), run)
    ensures Legal(Init(n, n, phases, 0), run) ==>
              Exec(Init(n, n, phases, k), run) == Fold(k, Exec(Init(n, n, phases, 0), run))
  {
    InitInv(n, phases);
    assert Fold(k, Init(n, n, phases, 0)) == Init(n, n, phases, k);
    FoldRun(k, Init(n, n, phases, 0), run);
  }

  // ---------- One epoch value is not enough ----------

  predicate Trapped(pc: Pc)
  {
    pc.Check? || pc.Wait? || pc.Asleep? || pc.Reacquire?
  }

  ghost predicate SomeTrapped(s: State)
  {
    exists t :: 0 <= t < |s.threads| && Trapped(s.threads[t].pc)
  }

  /** Before the first thread has gone to wait. */
  ghost predicate NobodyWaitsYet(s: State)
  {
    && OwnerOk(s)
    && s.count == (if OwnerPc(s).Test? then 1 else 0)
    && forall t :: 0 <= t < |s.threads| ==>
         var th := s.threads[t];
         th.passed == 0 && (th.pc.Outside? || th.pc.Remember? || th.pc.Arrive? || th.pc.Test?)
  }

  ghost predicate Stuck(s: State)
  {
    && s.wrap == 1 && s.serial == 0 && |s.threads| == s.threshold >= 2
    && (forall t :: 0 <= t < |s.threads| ==> s.threads[t].mine == 0)
    && (SomeTrapped(s) || NobodyWaitsYet(s))
  }

  lemma StuckStep(s: State, a: Action)
    requires Stuck(s) && Enabled(s, a)
    ensures Stuck(Next(s, a))
  {
    var r := Next(s, a);
    if SomeTrapped(s) {
      var t :| 0 <= t < |s.threads| && Trapped(s.threads[t].pc);
      assert Trapped(r.threads[t].pc);
    } else {
      assert Holding(s.threads[a.t].pc) ==> s.owner == HeldBy(a.t);
      assert r.threads[a.t].pc.Check? ==> Trapped(r.threads[a.t].pc);
    }
  }

  lemma {:induction false} StuckRun(s: State, run: seq<Action>)
    requires Stuck(s) && Legal(s, run)
    ensures Stuck(Exec(s, run))
    decreases |run|
  {
    if run != [] {
      StuckStep(s, run[0]);
      StuckRun(Next(s, run[0]), run[1..]);
    }
  }

  /** With a single epoch value the first waiter never leaves: no run ever completes a phase. */
  lemma {:induction false} OneEpochNeverCompletes(n: nat, phases: nat, run: seq<Action>)
    requires n >= 2 && phases >= 1 && Legal(Init(n, n, phases, 1), run)
    ensures !AllDone(Exec(Init(n, n, phases, 1), run))
  {
    var s := Init(n, n, phases, 1);
    assert NobodyWaitsYet(s);
    StuckRun(s, run);
    ConfigKept(s, run);
    assert NobodyWaitsYet(Exec(s, run)) ==> Exec(s, run).threads[0].passed == 0;
  }

  /** From any good state some run completes. */
  lemma {:induction false} CompletingRun(s: State) returns (run: seq<Action>)
    requires Inv(s)
    ensures Legal(s, run) && AllDone(Exec(s, run))
    decreases Remaining(s)
  {
    if AllDone(s) {
      run := [];
    } else {
      CanStep(s);
      var t :| 0 <= t < |s.threads| && Enabled(s, Run(t));
      StepInv(s, Run(t));
      StepWork(s, Run(t));
      RemainingNat(Next(s, Run(t)));
      RemainingNat(s);
      var rest := CompletingRun(Next(s, Run(t)));
      run := [Run(t)] + rest;
      assert run[1..] == rest;
    }
  }

  ghost predicate Completes(s: State)
  {
    exists run: seq<Action> :: Legal(s, run) && AllDone(Exec(s, run))
  }

  lemma CompletesBefore(s: State, a: Action)
    requires Enabled(s, a) && Completes(Next(s, a))
    ensures Completes(s)
  {
    var rest: seq<Action> :| Legal(Next(s, a), rest) && AllDone(Exec(Next(s, a), rest));
    var run := [a] + rest;
    assert run[1..] == rest;
    assert Legal(s, run) && AllDone(Exec(s, run));
  }

  lemma DoneCompletes(s: State)
    requires AllDone(s)
    ensures Completes(s)
  {
    assert Legal(s, []) && AllDone(Exec(s, []));
  }

  /** A thread alone never waits: it is always the last to arrive. */
  function Alone(phases: nat, pc: Pc, count: nat, passed: nat): State
  {
    State(1, phases, 1, if pc.Outside? then Free else HeldBy(0), count, 0, [Thread(pc, 0, passed)])
  }

  lemma AloneBefore(phases: nat, pc: Pc, count: nat, p: nat, next: Pc, count': nat, p': nat)
    requires Completes(Alone(phases, next, count', p'))
    requires var s := Alone(phases, pc, count, p);
             && Enabled(s, Run(0))
             && var r := Next(s, Run(0));
                && r.serial == 0 && r.count == count' && r.owner == Alone(phases, next, count', p').owner
                && r.threads[0] == Thread(next, 0, p')
    ensures Completes(Alone(phases, pc, count, p))
  {
    var s := Alone(phases, pc, count, p);
    assert Next(s, Run(0)).threads == [Thread(next, 0, p')];
    CompletesBefore(s, Run(0));
  }

  lemma AloneSteps(phases: nat, p: nat)
    requires p < phases && Completes(Alone(phases, Outside, 0, p + 1))
    ensures Completes(Alone(phases, Outside, 0, p))
  {
    AloneBefore(phases, Leave, 0, p, Outside, 0, p + 1);
    AloneBefore(phases, Broadcast, 0, p, Leave, 0, p);
    AloneBefore(phases, Advance, 0, p, Broadcast, 0, p);
    AloneBefore(phases, Reset, 1, p, Advance, 0, p);
    AloneBefore(phases, Test, 1, p, Reset, 1, p);
    AloneBefore(phases, Arrive, 0, p, Test, 1, p);
    AloneBefore(phases, Remember, 0, p, Arrive, 0, p);
    AloneBefore(phases, Outside, 0, p, Remember, 0, p);
  }

  lemma {:induction false} AloneCompletes(phases: nat, p: nat)
    requires p <= phases
    ensures Completes(Alone(phases, Outside, 0, p))
    decreases phases - p
  {
    if p == phases {
      DoneCompletes(Alone(phases, Outside, 0, p));
    } else {
      AloneCompletes(phases, p + 1);
      AloneSteps(phases, p);
    }
  }

  lemma FoldedCompletes(k: nat, n: nat, phases: nat)
    requires k >= 2 && n >= 1
    ensures Completes(Init(n, n, phases, k))
  {
    InitInv(n, phases);
    var run := CompletingRun(Init(n, n, phases, 0));
    FoldedEpochsSameRuns(k, n, phases, run);
  }

  /** Two epoch values are exactly what a reusable barrier of two or more threads needs. */
  lemma {:induction false} FoldedBarrierCompletesIff(k: nat, n: nat, phases: nat)
    requires k >= 1
    ensures Completes(Init(n, n, phases, k)) <==> k >= 2 || n < 2 || phases == 0
  {
    var s := Init(n, n, phases, k);
    if n == 0 || phases == 0 {
      DoneCompletes(s);
    } else if k >= 2 {
      FoldedCompletes(k, n, phases);
    } else if n == 1 {
      AloneCompletes(phases, 0);
      assert s == Alone(phases, Outside, 0, 0);
    } else {
      forall run: seq<Action> | Legal(s, run) ensures !AllDone(Exec(s, run)) {
        OneEpochNeverCompletes(n, phases, run);
      }
    }
  }
}
