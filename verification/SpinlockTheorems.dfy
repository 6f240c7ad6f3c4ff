/** What every run of every spinlock guarantees, for any number of workers and iterations. */
module SpinlockTheorems {
  import opened Tallies
  import opened ViewMemory
  import opened Arithmetic
  import opened Backoff
  import opened Spinlock
  import opened SpinlockInvariant
  import opened AbstractLock

  ghost predicate Reachable(kind: Kind, n: nat, iters: nat, s: State)
  {
    exists run: seq<Action> :: Legal(Init(kind, n, iters), run) && s == Exec(Init(kind, n, iters), run)
  }

  lemma ReachableInv(kind: Kind, n: nat, iters: nat, s: State)
    requires Reachable(kind, n, iters, s)
    ensures Inv(s) && |s.workers| == n && s.iters == iters && s.kind == kind
  {
    var run :| Legal(Init(kind, n, iters), run) && s == Exec(Init(kind, n, iters), run);
    InitInv(kind, n, iters);
    RunInv(Init(kind, n, iters), run);
    ConfigKept(Init(kind, n, iters), run);
  }

  lemma {:induction false} ConfigKept(s: State, run: seq<Action>)
    requires Legal(s, run)
    ensures var r := Exec(s, run); |r.workers| == |s.workers| && r.iters == s.iters && r.kind == s.kind
    decreases |run|
  {
    if run != [] { ConfigKept(Next(s, run[0]), run[1..]); }
  }

  // ---------- Mutual exclusion and publication ----------

  /** The newest lock word is 1 exactly when exactly one worker is inside, and otherwise nobody is. */
  lemma MutualExclusion(kind: Kind, n: nat, iters: nat, s: State)
    requires Reachable(kind, n, iters, s)
    ensures Value(s.mem, LOCK) == 1 <==> Sum(Holding(), s.workers) == 1
    ensures Value(s.mem, LOCK) != 1 <==> Sum(Holding(), s.workers) == 0
    ensures forall t, u :: 0 <= t < u < |s.workers| ==> !(Inside(s.workers[t].pc) && Inside(s.workers[u].pc))
  {
    ReachableInv(kind, n, iters, s);
    forall t, u | 0 <= t < u < |s.workers| ensures !(Inside(s.workers[t].pc) && Inside(s.workers[u].pc)) {
      if Inside(s.workers[t].pc) { AtMostOneInside(s, t, u); }
    }
  }

  /**
   The plain counter is free of data races, and the only message the holder can read is the one
   the previous holder wrote, which counts every increment made so far.
   */
  lemma CounterPublished(kind: Kind, n: nat, iters: nat, s: State, t: nat, i: nat)
    requires Reachable(kind, n, iters, s) && t < |s.workers|
    ensures !s.mem.racy
    ensures s.workers[t].pc.ReadCounter? && CanRead(s.mem, t, COUNTER, i) ==>
              i == Newest(s.mem, COUNTER) && Message(s.mem, COUNTER, i).val == Sum(Credited(), s.workers)
  {
    ReachableInv(kind, n, iters, s);
    assert WorkerOk(s, t);
  }

  /** When all workers are done the counter is exactly N times the iterations. */
  lemma ExactTotal(kind: Kind, n: nat, iters: nat, s: State)
    requires Reachable(kind, n, iters, s) && AllDone(s)
    ensures Value(s.mem, COUNTER) == iters * n && Value(s.mem, LOCK) == 0
  {
    ReachableInv(kind, n, iters, s);
    forall t | 0 <= t < n ensures Credited()(s.workers[t]) == iters && Holding()(s.workers[t]) == 0 {
      assert WorkerOk(s, t);
    }
    SumConst(Credited(), s.workers, iters);
    SumConst(Holding(), s.workers, 0);
  }

  /** The pauses of k failed rounds, in closed form. */
  function Pauses(k: nat): int { if k <= 8 then 4 * (Pow2(k) - 1) else 1020 + 1024 * (k - 8) }

  lemma {:induction false} PausesClosedForm(k: nat)
    ensures Delay(k) == Min(1024, 4 * Pow2(k)) && TotalPauses(k) == Pauses(k)
  {
    BackoffClosedForm(k);
  }

  /** Backoff in every run: the delay and the pauses made, or still to make, are the closed forms. */
  lemma BackoffInRuns(n: nat, iters: nat, s: State, t: nat)
    requires Reachable(ExpBackoff, n, iters, s) && t < |s.workers|
    ensures var w := s.workers[t];
            && w.backoff == Min(1024, 4 * Pow2(w.rounds))
            && (!w.pc.Pause? ==> w.paused == Pauses(w.rounds))
            && (w.pc.Pause? ==> w.paused + w.pc.left == Pauses(w.rounds + 1) && w.pc.left <= w.backoff)
  {
    ReachableInv(ExpBackoff, n, iters, s);
    assert WorkerOk(s, t);
    PausesClosedForm(s.workers[t].rounds);
    PausesClosedForm(s.workers[t].rounds + 1);
  }

  // ---------- Refinement ----------

  function ClientOf(w: Worker): Client
  {
    Client(if w.pc.Release? then Bumped else if Inside(w.pc) then In else Out, w.done)
  }

  function Abs(s: State): Abstract
  {
    Abstract(Value(s.mem, LOCK) == 1, Value(s.mem, COUNTER), s.iters,
             seq(|s.workers|, i requires 0 <= i < |s.workers| => ClientOf(s.workers[i])))
  }

  /** The abstract event a step performs; spinning steps and the plain read perform none. */
  function Events(s: State, a: Action): seq<Event>
    requires Enabled(s, a)
  {
    if Acquires(s, a) then [Take(a.t)]
    else match s.workers[a.t].pc
         case WriteCounter(_) => [Bump(a.t)]
         case Release => [Give(a.t)]
         case _ => []
  }

  function Trace(s: State, run: seq<Action>): seq<Event>
    requires Legal(s, run)
    decreases |run|
  {
    if run == [] then [] else Events(s, run[0]) + Trace(Next(s, run[0]), run[1..])
  }

  /** Only the acting worker's abstract record can change. */
  lemma ClientsAfter(s: State, r: State, t: nat)
    requires t < |s.workers| == |r.workers| && r.workers == s.workers[t := r.workers[t]]
    ensures Abs(r).clients == Abs(s).clients[t := ClientOf(r.workers[t])]
  {
  }

  lemma {:induction false} OneEvent(s: Abstract, e: Event)
    requires Allowed(s, e)
    ensures AllowedAll(s, [e]) && AfterAll(s, [e]) == After(s, e)
  {
    assert [e][1..] == [];
  }

  lemma SimulateHolder(s: State, a: Action)
    requires Core(s) && Enabled(s, a) && Inside(s.workers[a.t].pc)
    ensures AllowedAll(Abs(s), Events(s, a))
    ensures AfterAll(Abs(s), Events(s, a)) == Abs(Next(s, a))
  {
    var r := Next(s, a);
    ClientsAfter(s, r, a.t);
    HolderMem(s, a);
    AtMostOneInside(s, a.t, a.t);
    if s.workers[a.t].pc.ReadCounter? {
      assert Abs(r).clients == Abs(s).clients;
    } else {
      OneEvent(Abs(s), Events(s, a)[0]);
    }
  }

  lemma AcquireEffect(s: State, a: Action)
    requires Core(s) && Acquires(s, a)
    ensures var r := Next(s, a);
            && r.workers == s.workers[a.t := s.workers[a.t].(pc := ReadCounter)] && r.iters == s.iters
            && Value(r.mem, LOCK) == 1 && Value(r.mem, COUNTER) == Value(s.mem, COUNTER)
  {
    AcquireMem(s, a);
  }

  lemma SimulateAcquire(s: State, a: Action)
    requires Core(s) && Acquires(s, a)
    ensures AllowedAll(Abs(s), Events(s, a))
    ensures AfterAll(Abs(s), Events(s, a)) == Abs(Next(s, a))
  {
    AcquireEffect(s, a);
    TakeMatches(s, Next(s, a), a.t);
    OneEvent(Abs(s), Take(a.t));
  }

  lemma TakeMatches(s: State, r: State, t: nat)
    requires t < |s.workers| && !Inside(s.workers[t].pc) && s.workers[t].done < s.iters == r.iters
    requires r.workers == s.workers[t := s.workers[t].(pc := ReadCounter)]
    requires Value(s.mem, LOCK) == 0 && Value(r.mem, LOCK) == 1 && Value(r.mem, COUNTER) == Value(s.mem, COUNTER)
    ensures Allowed(Abs(s), Take(t)) && After(Abs(s), Take(t)) == Abs(r)
  {
    ClientsAfter(s, r, t);
  }

  lemma SimulateSpin(s: State, a: Action)
    requires Core(s) && Enabled(s, a) && !Inside(s.workers[a.t].pc) && !Acquires(s, a)
    ensures Events(s, a) == [] && Abs(Next(s, a)) == Abs(s)
  {
    var r := Next(s, a);
    ClientsAfter(s, r, a.t);
    SpinMem(s, a);
    SpinWorker(s, a);
    assert Abs(r).clients == Abs(s).clients;
  }

  lemma SimulateStep(s: State, a: Action)
    requires Inv(s) && Enabled(s, a)
    ensures AllowedAll(Abs(s), Events(s, a))
    ensures AfterAll(Abs(s), Events(s, a)) == Abs(Next(s, a))
  {
    if Acquires(s, a) {
      SimulateAcquire(s, a);
    } else if Inside(s.workers[a.t].pc) {
      SimulateHolder(s, a);
    } else {
      SimulateSpin(s, a);
    }
  }

  lemma {:induction false} AfterAllConcat(s: Abstract, a: seq<Event>, b: seq<Event>)
    requires AllowedAll(s, a) && AllowedAll(AfterAll(s, a), b)
    ensures AllowedAll(s, a + b) && AfterAll(s, a + b) == AfterAll(AfterAll(s, a), b)
    decreases |a|
  {
    if a == [] {
      assert a + b == b;
    } else {
      assert (a + b)[1..] == a[1..] + b;
      AfterAllConcat(After(s, a[0]), a[1..], b);
    }
  }

  lemma {:induction false} SimulateRun(s: State, run: seq<Action>)
    requires Inv(s) && Legal(s, run)
    ensures AllowedAll(Abs(s), Trace(s, run))
    ensures AfterAll(Abs(s), Trace(s, run)) == Abs(Exec(s, run))
    decreases |run|
  {
    if run != [] {
      SimulateStep(s, run[0]);
      StepInv(s, run[0]);
      SimulateRun(Next(s, run[0]), run[1..]);
      AfterAllConcat(Abs(s), Events(s, run[0]), Trace(Next(s, run[0]), run[1..]));
    }
  }

  /** Every run of every spinlock is, up to stuttering, a run of the one abstract lock. */
  lemma {:induction false} Refinement(kind: Kind, n: nat, iters: nat, run: seq<Action>)
    requires Legal(Init(kind, n, iters), run)
    ensures var s := Init(kind, n, iters);
            && AllowedAll(Start(n, iters), Trace(s, run))
            && AfterAll(Start(n, iters), Trace(s, run)) == Abs(Exec(s, run))
  {
    InitInv(kind, n, iters);
    assert Abs(Init(kind, n, iters)) == Start(n, iters);
    SimulateRun(Init(kind, n, iters), run);
  }

  // ---------- Progress ----------

  function Rank(pc: Pc): nat
  {
    match pc
    case Pause(left) => 6 + left
    case TestAndSet => 5
    case Precheck => 5
    case Cas => 4
    case ReadCounter => 3
    case WriteCounter(_) => 2
    case Release => 1
  }

  ghost function Work(iters: nat): Worker -> int
  {
    (w: Worker) => if w.done < iters then 10 * (iters - w.done - 1) + Rank(w.pc) else 0
  }

  ghost function Remaining(s: State): int { Sum(Work(s.iters), s.workers) }

  lemma RemainingNat(s: State)
    ensures Remaining(s) >= 0
  {
    var zero := (w: Worker) => 0;
    SumLe(zero, s.workers, Work(s.iters), s.workers);
    SumConst(zero, s.workers, 0);
  }

  /** A step reading the newest messages, taken by the holder or while the lock is free, helps. */
  lemma Helps(s: State, a: Action)
    requires Core(s) && Enabled(s, a) && a.success
    requires Value(s.mem, LOCK) == 0 || Inside(s.workers[a.t].pc)
    requires s.workers[a.t].pc.Precheck? ==> a.i == Newest(s.mem, LOCK)
    ensures Remaining(Next(s, a)) < Remaining(s)
  {
    var w, w' := s.workers[a.t], NextWorker(s, a);
    assert WorkerOk(s, a.t);
    assert Work(s.iters)(w') < Work(s.iters)(w);
    SumUpdate(Work(s.iters), s.workers, a.t, w');
  }

  /** In every good state that is not finished, some step brings the end nearer. */
  lemma HelpfulStep(s: State) returns (a: Action)
    requires Inv(s) && !AllDone(s)
    ensures Enabled(s, a) && Remaining(Next(s, a)) < Remaining(s)
  {
    if t :| 0 <= t < |s.workers| && Inside(s.workers[t].pc) {
      a := Action(t, Newest(s.mem, COUNTER), true);
    } else {
      SumConst(Holding(), s.workers, 0);
      var t :| 0 <= t < |s.workers| && s.workers[t].done != s.iters;
      a := Action(t, Newest(s.mem, LOCK), true);
    }
    assert WorkerOk(s, a.t) && Within(s.mem, ViewOf(s.mem, a.t));
    Helps(s, a);
  }

  lemma {:induction false} CanFinish(s: State) returns (run: seq<Action>)
    requires Inv(s)
    ensures Legal(s, run) && AllDone(Exec(s, run))
    decreases Remaining(s)
  {
    if AllDone(s) {
      run := [];
    } else {
      var a := HelpfulStep(s);
      StepInv(s, a);
      RemainingNat(s);
      RemainingNat(Next(s, a));
      var rest := CanFinish(Next(s, a));
      run := [a] + rest;
      assert run[1..] == rest;
    }
  }

  /** From every reachable state some schedule lets every worker finish with the exact total. */
  lemma Progress(kind: Kind, n: nat, iters: nat, s: State) returns (run: seq<Action>)
    requires Reachable(kind, n, iters, s)
    ensures Legal(s, run) && AllDone(Exec(s, run)) && Value(Exec(s, run).mem, COUNTER) == iters * n
  {
    ReachableInv(kind, n, iters, s);
    run := CanFinish(s);
    RunInv(s, run);
    ConfigKept(s, run);
    var r := Exec(s, run);
    forall t | 0 <= t < n ensures Credited()(r.workers[t]) == iters {
      assert WorkerOk(r, t);
    }
    SumConst(Credited(), r.workers, iters);
  }
}
