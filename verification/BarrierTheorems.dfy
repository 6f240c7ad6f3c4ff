/**
 What the barrier guarantees over every run of N = threshold >= 1 threads making P calls each,
 spurious wakeups included.
 */
module BarrierTheorems {
  import opened Tallies
  import opened Barrier
  import opened BarrierInvariant

  /** A state some run of the exercise reaches. */
  ghost predicate Reachable(n: nat, phases: nat, s: State)
  {
    exists run: seq<Action> :: Legal(Init(n, n, phases, 0), run) && s == Exec(Init(n, n, phases, 0), run)
  }

  lemma ReachableInv(n: nat, phases: nat, s: State)
    requires n >= 1 && Reachable(n, phases, s)
    ensures Inv(s) && s.threshold == n && s.phases == phases
  {
    var run :| Legal(Init(n, n, phases, 0), run) && s == Exec(Init(n, n, phases, 0), run);
    InitInv(n, phases);
    RunInv(Init(n, n, phases, 0), run);
    ConfigKept(Init(n, n, phases, 0), run);
  }

  lemma {:induction false} ConfigKept(s: State, run: seq<Action>)
    requires Legal(s, run)
    ensures Exec(s, run).threshold == s.threshold && Exec(s, run).phases == s.phases
    decreases |run|
  {
    if run != [] { ConfigKept(Next(s, run[0]), run[1..]); }
  }

  // ---------- Phase separation ----------

  /** Calls of barrier_wait that have executed `count++`. */
  function Arrivals(th: Thread): nat
  {
    th.passed + if HasArrived(th.pc) then 1 else 0
  }

  /**
   No thread returns from its k-th call before every thread has arrived in its k-th call,
   and completed phase counts differ by at most one.
   */
  lemma PhaseSeparation(n: nat, phases: nat, s: State, t: nat, u: nat)
    requires n >= 1 && Reachable(n, phases, s) && t < |s.threads| && u < |s.threads|
    ensures s.threads[t].passed <= s.serial <= Arrivals(s.threads[u])
    ensures s.threads[t].passed <= s.threads[u].passed + 1
  {
    ReachableInv(n, phases, s);
    assert ThreadOk(s.serial, s.phases, OwnerPc(s).Broadcast?, s.threads[t]);
    assert ThreadOk(s.serial, s.phases, OwnerPc(s).Broadcast?, s.threads[u]);
  }

  /** A thread inside the call, once it has read its epoch, lags the barrier by 0 or 1. */
  lemma EpochLag(n: nat, phases: nat, s: State, t: nat)
    requires n >= 1 && Reachable(n, phases, s) && t < |s.threads|
    requires !s.threads[t].pc.Outside? && !s.threads[t].pc.Remember?
    ensures s.threads[t].mine <= s.serial <= s.threads[t].mine + 1
  {
    ReachableInv(n, phases, s);
    assert ThreadOk(s.serial, s.phases, OwnerPc(s).Broadcast?, s.threads[t]);
  }

  // ---------- Conservation ----------

  ghost function ArrivalsOf(): Thread -> int
  {
    (th: Thread) => Arrivals(th)
  }

  /** Whenever the mutex is free, serial * N + count is the number of arrivals so far. */
  lemma Conservation(n: nat, phases: nat, s: State)
    requires n >= 1 && Reachable(n, phases, s) && s.owner == Free
    ensures s.serial * n + s.count == Sum(ArrivalsOf(), s.threads)
    ensures s.count < n && s.serial <= phases
  {
    ReachableInv(n, phases, s);
    forall i | 0 <= i < |s.threads|
      ensures ArrivalsOf()(s.threads[i]) == s.serial + ArrivedIn(s.serial)(s.threads[i])
    {
      assert ThreadOk(s.serial, s.phases, false, s.threads[i]);
    }
    SumAffine(ArrivalsOf(), s.serial, ArrivedIn(s.serial), s.threads);
    assert ThreadOk(s.serial, s.phases, false, s.threads[0]);
  }

  // ---------- No lost wakeup, no deadlock ----------

  ghost function Sleeping(): Thread -> int
  {
    (th: Thread) => if th.pc.Asleep? then 1 else 0
  }

  /** Whenever the mutex is free, sleepers belong to the current epoch and are fewer than N. */
  lemma NoLostWakeup(n: nat, phases: nat, s: State)
    requires n >= 1 && Reachable(n, phases, s) && s.owner == Free
    ensures forall t :: 0 <= t < |s.threads| && s.threads[t].pc == Asleep ==> s.threads[t].mine == s.serial
    ensures Sum(Sleeping(), s.threads) < n
  {
    ReachableInv(n, phases, s);
    forall i | 0 <= i < |s.threads|
      ensures Sleeping()(s.threads[i]) <= ArrivedIn(s.serial)(s.threads[i])
    {
      assert ThreadOk(s.serial, s.phases, false, s.threads[i]);
    }
    SumLe(Sleeping(), s.threads, ArrivedIn(s.serial), s.threads);
  }

  /**
   A spurious wakeup is real and harmless: the sleeper takes the free mutex, tests its epoch again and
   goes back to sleep, and the state is the one before.
   */
  lemma {:induction false} SpuriousWakeupRechecks(n: nat, phases: nat, s: State, t: nat)
    requires n >= 1 && Reachable(n, phases, s) && s.owner == Free
    requires t < |s.threads| && s.threads[t].pc == Asleep
    ensures Enabled(s, Spurious(t)) && Next(s, Spurious(t)).threads[t].pc == Reacquire
    ensures var run := [Spurious(t), Run(t), Run(t), Run(t)]; Legal(s, run) && Exec(s, run) == s
  {
    NoLostWakeup(n, phases, s);
    var s1 := Next(s, Spurious(t));
    var s2 := Next(s1, Run(t));
    var s3 := Next(s2, Run(t));
    var s4 := Next(s3, Run(t));
    assert s4.threads == s.threads;
    var d, c, b, a := [Run(t)], [Run(t), Run(t)], [Run(t), Run(t), Run(t)], [Spurious(t), Run(t), Run(t), Run(t)];
    assert d[1..] == [] && c[1..] == d && b[1..] == c && a[1..] == b;
    assert Legal(s4, []) && Exec(s4, []) == s;
    assert Legal(s3, d) && Exec(s3, d) == s;
    assert Legal(s2, c) && Exec(s2, c) == s;
    assert Legal(s1, b) && Exec(s1, b) == s;
  }

  /** Until all threads are done, some thread can take a step that is not a spurious wakeup. */
  lemma NoDeadlock(n: nat, phases: nat, s: State)
    requires n >= 1 && Reachable(n, phases, s)
    ensures AllDone(s) || exists t :: 0 <= t < n && Enabled(s, Run(t))
  {
    ReachableInv(n, phases, s);
    CanStep(s);
  }

  lemma CanStep(s: State)
    requires Inv(s)
    ensures AllDone(s) || exists t :: 0 <= t < |s.threads| && Enabled(s, Run(t))
  {
    if s.owner.HeldBy? {
      assert Enabled(s, Run(s.owner.t));
    } else if forall t :: 0 <= t < |s.threads| ==> !Enabled(s, Run(t)) {
      forall t | 0 <= t < |s.threads|
        ensures s.threads[t].pc.Asleep? || (s.threads[t].pc.Outside? && s.serial == s.phases)
      {
        assert !Enabled(s, Run(t)) && ThreadOk(s.serial, s.phases, false, s.threads[t]);
      }
      if s.serial < s.phases {
        SumConst(ArrivedIn(s.serial), s.threads, 1);
        assert false;
      }
      forall t | 0 <= t < |s.threads| ensures s.threads[t].pc.Outside? && s.threads[t].passed == s.phases {
        assert ThreadOk(s.serial, s.phases, false, s.threads[t]);
      }
    }
  }

  // ---------- Termination ----------

  /** Statements a thread may still execute before its current call returns. */
  function StepsLeft(serial: nat, th: Thread): nat
  {
    match th.pc
    case Outside => 0
    case Remember => 15
    case Arrive => 14
    case Test => 13
    case Reset => 12
    case Advance => 11
    case Broadcast => 10
    case Reacquire => if th.mine == serial then 9 else 4
    case Check => if th.mine == serial then 8 else 3
    case Wait => 7
    case Asleep => if th.mine == serial then 6 else 5
    case Leave => 1
  }

  function CallsLeft(phases: nat, th: Thread): int
  {
    phases - th.passed - if th.pc.Outside? then 0 else 1
  }

  ghost function Work(serial: nat, phases: nat): Thread -> int
  {
    (th: Thread) => 16 * CallsLeft(phases, th) + StepsLeft(serial, th)
  }

  ghost function Remaining(s: State): int
  {
    Sum(Work(s.serial, s.phases), s.threads)
  }

  lemma RemainingNat(s: State)
    requires Inv(s)
    ensures Remaining(s) >= 0
  {
    var zero := (th: Thread) => 0;
    forall i | 0 <= i < |s.threads| ensures 0 <= Work(s.serial, s.phases)(s.threads[i]) {
      assert ThreadOk(s.serial, s.phases, OwnerPc(s).Broadcast?, s.threads[i]);
    }
    SumLe(zero, s.threads, Work(s.serial, s.phases), s.threads);
    SumConst(zero, s.threads, 0);
  }

  /** `serial++` and the broadcast change other threads too, and add no work to any of them. */
  lemma GlobalStepWork(s: State, a: Action)
    requires Inv(s) && Enabled(s, a) && (s.threads[a.t].pc.Advance? || s.threads[a.t].pc.Broadcast?)
    ensures Remaining(Next(s, a)) < Remaining(s)
  {
    var r := Next(s, a);
    var f, g := Work(s.serial, s.phases), Work(r.serial, r.phases);
    forall i | 0 <= i < |s.threads| ensures g(r.threads[i]) <= f(s.threads[i]) {
      assert ThreadOk(s.serial, s.phases, OwnerPc(s).Broadcast?, s.threads[i]);
      if s.threads[a.t].pc.Broadcast? && i != a.t { assert r.threads[i] == Wake(s.threads[i]); }
    }
    SumLt(g, r.threads, f, s.threads, a.t);
  }

  /** One thread's statement, judged by the epoch it sees and the one it leaves behind. */
  lemma ThreadWork(s: State, a: Action)
    requires Inv(s) && Enabled(s, a) && !s.threads[a.t].pc.Advance? && !s.threads[a.t].pc.Broadcast?
    ensures var f, v, w := Work(s.serial, s.phases), s.threads[a.t], Next(s, a).threads[a.t];
            if a.Run? then f(w) < f(v) else f(w) <= f(v) + 3
  {
    assert ThreadOk(s.serial, s.phases, OwnerPc(s).Broadcast?, s.threads[a.t]);
  }

  /** Every other statement changes the record of its own thread only. */
  lemma LocalRecord(s: State, a: Action)
    requires Enabled(s, a) && !s.threads[a.t].pc.Advance? && !s.threads[a.t].pc.Broadcast?
    ensures var r := Next(s, a);
            && r.serial == s.serial && r.phases == s.phases && |r.threads| == |s.threads|
            && r.threads == s.threads[a.t := r.threads[a.t]]
  {
  }

  /** Every statement uses up work, whoever executes it; a spurious wakeup adds at most three. */
  lemma StepWork(s: State, a: Action)
    requires Inv(s) && Enabled(s, a)
    ensures a.Run? ==> Remaining(Next(s, a)) < Remaining(s)
    ensures a.Spurious? ==> Remaining(Next(s, a)) <= Remaining(s) + 3
  {
    if s.threads[a.t].pc.Advance? || s.threads[a.t].pc.Broadcast? {
      GlobalStepWork(s, a);
    } else {
      LocalRecord(s, a);
      ThreadWork(s, a);
      SumUpdate(Work(s.serial, s.phases), s.threads, a.t, Next(s, a).threads[a.t]);
    }
  }

  lemma {:induction false} RunLength(s: State, run: seq<Action>)
    requires Inv(s) && Legal(s, run)
    ensures |run| <= Remaining(s) + 4 * SpuriousIn(run)
    decreases |run|
  {
    if run == [] {
      RemainingNat(s);
    } else {
      StepInv(s, run[0]);
      StepWork(s, run[0]);
      RunLength(Next(s, run[0]), run[1..]);
    }
  }

  /** Every run of N threads and P phases with k spurious wakeups has at most 16NP + 4k steps. */
  lemma {:induction false} Termination(n: nat, phases: nat, run: seq<Action>)
    requires n >= 1 && Legal(Init(n, n, phases, 0), run)
    ensures |run| <= 16 * phases * n + 4 * SpuriousIn(run)
  {
    var s := Init(n, n, phases, 0);
    InitInv(n, phases);
    RunLength(s, run);
    SumConst(Work(0, phases), s.threads, 16 * phases);
  }

  lemma Finished(s: State)
    requires Inv(s)
    requires forall t :: 0 <= t < |s.threads| ==> !Enabled(s, Run(t))
    ensures AllDone(s) && s.serial == s.phases && s.count == 0 && s.owner == Free
  {
    CanStep(s);
    assert s.threads[0].pc.Outside? && ThreadOk(s.serial, s.phases, OwnerPc(s).Broadcast?, s.threads[0]);
    SumConst(ArrivedIn(s.serial), s.threads, 0);
  }

  /** A run that can only be extended by spurious wakeups has finished, with a clean barrier. */
  lemma MaximalRunCompletes(n: nat, phases: nat, s: State)
    requires n >= 1 && Reachable(n, phases, s)
    requires forall t :: 0 <= t < n ==> !Enabled(s, Run(t))
    ensures AllDone(s) && s.serial == phases && s.count == 0 && s.owner == Free
  {
    ReachableInv(n, phases, s);
    Finished(s);
  }
}
