/** The acquire/release pair is exactly what keeps the plain counter free of data races. */
module SpinlockOrders {
  import opened Tallies
  import opened ViewMemory
  import opened Spinlock
  import opened SpinlockInvariant

  ghost predicate Reaches(a: State, s: State)
  {
    exists run: seq<Action> :: Legal(a, run) && Exec(a, run) == s
  }

  lemma {:induction false} Extend(s: State, run: seq<Action>, a: Action)
    requires Legal(s, run) && Enabled(Exec(s, run), a)
    ensures Legal(s, run + [a]) && Exec(s, run + [a]) == Next(Exec(s, run), a)
    decreases |run|
  {
    if run == [] {
      var one := run + [a];
      assert one[1..] == [] && Legal(Next(s, a), []) && Exec(Next(s, a), []) == Next(s, a);
    } else {
      assert (run + [a])[1..] == run[1..] + [a];
      Extend(Next(s, run[0]), run[1..], a);
    }
  }

  lemma ReachNext(a: State, s: State, act: Action)
    requires Reaches(a, s) && Enabled(s, act)
    ensures Reaches(a, Next(s, act))
  {
    var run: seq<Action> :| Legal(a, run) && Exec(a, run) == s;
    Extend(a, run, act);
    assert Exec(a, run + [act]) == Next(s, act);
  }

  /** r differs from m at most in the lock word's log and in thread t's view. */
  ghost predicate Quiet(m: Mem, r: Mem, t: nat)
  {
    SameCounter(m, r) && r.racy == m.racy && forall u :: u != t ==> ViewOf(r, u) == ViewOf(m, u)
  }

  /** Thread t has learnt nothing about plain accesses, nor about the counter's messages. */
  ghost predicate NothingLearnt(m: Mem, r: Mem, t: nat)
  {
    && (forall u :: At(ViewOf(r, t).clock, u) == At(ViewOf(m, t).clock, u))
    && At(ViewOf(r, t).seen, COUNTER) == At(ViewOf(m, t).seen, COUNTER)
  }

  /** A view from which neither can be learnt. */
  predicate Silent(v: View) { v.clock == map[] && At(v.seen, COUNTER) == 0 }

  lemma LoadQuiet(m: Mem, t: nat, i: nat)
    requires CanRead(m, t, LOCK, i)
    ensures var r := Load(m, t, LOCK, i, false); Quiet(m, r, t) && NothingLearnt(m, r, t) && r.log == m.log
  {
  }

  lemma ExchangeQuiet(m: Mem, t: nat, acquire: bool)
    ensures Quiet(m, Exchange(m, t, LOCK, 1, acquire), t)
  {
  }

  /** An exchange that is relaxed, or that reads a silent message, teaches nothing. */
  lemma ExchangeClock(m: Mem, t: nat, acquire: bool, from: View)
    requires from == Message(m, LOCK, Newest(m, LOCK)).view && (acquire ==> Silent(from))
    ensures NothingLearnt(m, Exchange(m, t, LOCK, 1, acquire), t)
  {
    var msg, v := ExchangeAppends(m, t, LOCK, 1, acquire);
    assert ViewOf(SetView(Append(m, LOCK, msg), t, v), t) == v;
  }

  /** Worker t takes the free lock without ever having to spin. */
  ghost predicate Entered(s: State, r: State, t: nat)
  {
    && t < |s.workers| && r.kind == s.kind && r.orders == s.orders && r.iters == s.iters
    && r.workers == s.workers[t := s.workers[t].(pc := ReadCounter)]
    && Quiet(s.mem, r.mem, t)
    && (!s.orders.acquire || Silent(Message(s.mem, LOCK, Newest(s.mem, LOCK)).view) ==>
          NothingLearnt(s.mem, r.mem, t))
  }

  lemma Enter(a: State, s: State, t: nat) returns (r: State)
    requires Reaches(a, s) && t < |s.workers| && s.workers[t].pc == Entry(s.kind) && s.workers[t].done < s.iters
    requires Bounded(s.mem) && Value(s.mem, LOCK) == 0
    ensures Reaches(a, r) && Entered(s, r, t) && Bounded(r.mem)
  {
    var act := Action(t, Newest(s.mem, LOCK), true);
    assert CanRead(s.mem, t, LOCK, act.i) by { assert Within(s.mem, ViewOf(s.mem, t)); }
    ReachNext(a, s, act);
    NextBounded(s, act);
    r := Next(s, act);
    if s.kind.Tas? {
      TakeQuiet(s.mem, s.mem, t, s.orders.acquire);
    } else {
      LoadQuiet(s.mem, t, act.i);
      r := FinishCas(a, s, r, act);
    }
  }

  lemma TakeQuiet(m: Mem, m1: Mem, t: nat, acquire: bool)
    requires Quiet(m, m1, t) && NothingLearnt(m, m1, t) && m1.log == m.log
    ensures var r := Exchange(m1, t, LOCK, 1, acquire);
            && Quiet(m, r, t)
            && (!acquire || Silent(Message(m, LOCK, Newest(m, LOCK)).view) ==> NothingLearnt(m, r, t))
  {
    var from := Message(m1, LOCK, Newest(m1, LOCK)).view;
    ExchangeQuiet(m1, t, acquire);
    if !acquire || Silent(from) { ExchangeClock(m1, t, acquire, from); }
  }

  lemma CasTakes(s: State, act: Action)
    requires act.t < |s.workers| && act.success && s.workers[act.t].pc.Cas? && s.workers[act.t].done < s.iters
    requires Value(s.mem, LOCK) == 0
    ensures Enabled(s, act)
    ensures Next(s, act) == s.(mem := Exchange(s.mem, act.t, LOCK, 1, s.orders.acquire),
                               workers := s.workers[act.t := s.workers[act.t].(pc := ReadCounter)])
  {
  }

  /** s1 is s with worker act.t past its pre-check. */
  ghost predicate AtCas(s: State, s1: State, act: Action)
  {
    && act.t < |s.workers| && act.success && s.workers[act.t].done < s.iters
    && s1 == s.(mem := s1.mem, workers := s.workers[act.t := s.workers[act.t].(pc := Cas)])
    && s1.mem.log == s.mem.log && Value(s.mem, LOCK) == 0
    && Quiet(s.mem, s1.mem, act.t) && NothingLearnt(s.mem, s1.mem, act.t)
  }

  lemma CasEnters(s: State, s1: State, act: Action)
    requires AtCas(s, s1, act)
    ensures Enabled(s1, act) && Entered(s, Next(s1, act), act.t)
  {
    CasTakes(s1, act);
    TakeQuiet(s.mem, s1.mem, act.t, s.orders.acquire);
    assert Next(s1, act).workers == s.workers[act.t := s.workers[act.t].(pc := ReadCounter)];
  }

  lemma FinishCas(a: State, s: State, s1: State, act: Action) returns (r: State)
    requires Reaches(a, s1) && AtCas(s, s1, act) && Bounded(s1.mem)
    ensures Reaches(a, r) && Entered(s, r, act.t) && Bounded(r.mem)
  {
    CasEnters(s, s1, act);
    ReachNext(a, s1, act);
    NextBounded(s1, act);
    r := Next(s1, act);
  }

  /** Nothing but the memory and worker 0 has changed, and worker 1 has learnt nothing. */
  predicate SameOthers(s: State, r: State)
  {
    && r.kind == s.kind && r.orders == s.orders && r.iters == s.iters
    && |r.workers| == |s.workers| >= 2 && r.workers[1] == s.workers[1]
    && ViewOf(r.mem, 1) == ViewOf(s.mem, 1)
  }

  lemma ReadStep(a: State, s: State, act: Action)
    requires Reaches(a, s) && |s.workers| >= 2 && act.t == 0 && Enabled(s, act) && s.workers[0].pc.ReadCounter?
    ensures var r := Next(s, act); Reaches(a, r) && SameOthers(s, r) && r.workers[0].pc.WriteCounter?
    ensures Next(s, act).workers[0].done == s.workers[0].done
  {
    ReachNext(a, s, act);
  }

  /** The plain write leaves its clock behind. */
  predicate Wrote(m: Mem) { 0 in Writes(m, COUNTER) && Writes(m, COUNTER)[0] > 0 }

  lemma WriteMem(m: Mem, val: int)
    ensures var r := PlainWrite(m, 0, COUNTER, val); Wrote(r) && ViewOf(r, 1) == ViewOf(m, 1)
  {
  }

  lemma WriteStep(a: State, s: State, act: Action)
    requires Reaches(a, s) && |s.workers| >= 2 && act.t == 0 && Enabled(s, act) && s.workers[0].pc.WriteCounter?
    ensures var r := Next(s, act); Reaches(a, r) && SameOthers(s, r) && r.workers[0].pc.Release? && Wrote(r.mem)
    ensures Next(s, act).workers[0].done == s.workers[0].done
  {
    ReachNext(a, s, act);
    WriteMem(s.mem, s.workers[0].pc.reg + 1);
  }

  /** The lock is free and its newest message is silent unless it was a release. */
  predicate Unlocked(m: Mem, release: bool)
  {
    Value(m, LOCK) == 0 && (!release ==> Silent(Message(m, LOCK, Newest(m, LOCK)).view))
  }

  lemma UnlockMem(m: Mem, release: bool)
    ensures var r := Store(m, 0, LOCK, 0, release);
            Unlocked(r, release) && Writes(r, COUNTER) == Writes(m, COUNTER) && ViewOf(r, 1) == ViewOf(m, 1)
  {
  }

  lemma UnlockStep(a: State, s: State, act: Action)
    requires Reaches(a, s) && |s.workers| >= 2 && act.t == 0 && Enabled(s, act) && s.workers[0].pc.Release?
    ensures var r := Next(s, act);
            Reaches(a, r) && SameOthers(s, r) && Unlocked(r.mem, s.orders.release) && (Wrote(s.mem) ==> Wrote(r.mem))
    ensures Next(s, act).workers[0].done == s.workers[0].done + 1
  {
    ReachNext(a, s, act);
    UnlockMem(s.mem, s.orders.release);
  }

  /** The critical section of worker 0, from the plain read to the unlock. */
  lemma Section(a: State, s: State, act: Action) returns (r: State)
    requires Reaches(a, s) && |s.workers| >= 2 && act.t == 0 && Enabled(s, act) && s.workers[0].pc.ReadCounter?
    requires Bounded(s.mem)
    ensures Reaches(a, r) && SameOthers(s, r) && Unlocked(r.mem, s.orders.release) && Wrote(r.mem) && Bounded(r.mem)
    ensures r.workers[0].done == s.workers[0].done + 1
  {
    ReadStep(a, s, act);
    NextBounded(s, act);
    r := WriteAndUnlock(a, Next(s, act), act);
  }

  lemma WriteAndUnlock(a: State, s: State, act: Action) returns (r: State)
    requires Reaches(a, s) && |s.workers| >= 2 && act.t == 0 && Enabled(s, act) && s.workers[0].pc.WriteCounter?
    requires Bounded(s.mem)
    ensures Reaches(a, r) && SameOthers(s, r) && Unlocked(r.mem, s.orders.release) && Wrote(r.mem) && Bounded(r.mem)
    ensures r.workers[0].done == s.workers[0].done + 1
  {
    WriteStep(a, s, act);
    NextBounded(s, act);
    r := Unlock(a, Next(s, act), act);
  }

  lemma Unlock(a: State, s: State, act: Action) returns (r: State)
    requires Reaches(a, s) && |s.workers| >= 2 && act.t == 0 && Enabled(s, act) && s.workers[0].pc.Release?
    requires Bounded(s.mem) && Wrote(s.mem)
    ensures Reaches(a, r) && SameOthers(s, r) && Unlocked(r.mem, s.orders.release) && Wrote(r.mem) && Bounded(r.mem)
    ensures r.workers[0].done == s.workers[0].done + 1
  {
    UnlockStep(a, s, act);
    NextBounded(s, act);
    r := Next(s, act);
  }

  /** A reader that has learnt nothing since the start races with that write, and may miss it. */
  lemma ReaderMisses(a: State, s: State) returns (r: State)
    requires Reaches(a, s) && |s.workers| >= 2 && s.workers[1].pc.ReadCounter? && s.workers[1].done < s.iters
    requires Wrote(s.mem) && At(ViewOf(s.mem, 1).clock, 0) == 0 && At(ViewOf(s.mem, 1).seen, COUNTER) == 0
    ensures Reaches(a, r) && r.mem.racy && |r.workers| == |s.workers| && r.iters == s.iters
    ensures r.workers[0] == s.workers[0] && r.workers[1] == s.workers[1].(pc := WriteCounter(0))
  {
    var read := Action(1, 0, true);
    ReachNext(a, s, read);
    r := Next(s, read);
  }

  /** Its write then undoes an increment. */
  lemma WriterUndoes(a: State, s: State) returns (r: State)
    requires Reaches(a, s) && |s.workers| >= 2 && s.workers[1].pc == WriteCounter(0) && s.workers[1].done < s.iters
    ensures Reaches(a, r) && (s.mem.racy ==> r.mem.racy) && |r.workers| == |s.workers|
    ensures r.workers[0] == s.workers[0] && r.workers[1].pc.Release? && Value(r.mem, COUNTER) == 1
  {
    var write := Action(1, 0, true);
    ReachNext(a, s, write);
    r := Next(s, write);
  }

  /** More increments have been written than the counter shows. */
  ghost predicate Lost(s: State) { Value(s.mem, COUNTER) < Sum(Credited(), s.workers) }

  lemma TwoWrittenOneLeft(s: State)
    requires |s.workers| >= 2 && s.workers[0].done >= 1 && s.workers[1].pc.Release? && Value(s.mem, COUNTER) == 1
    ensures Lost(s)
  {
    SumAtLeast(Credited(), s.workers, 0, 1);
  }

  /** The first worker's whole turn, after which the second knows nothing of it. */
  lemma FirstTurn(kind: Kind, o: Orders, n: nat, iters: nat) returns (s: State)
    requires n >= 2 && iters >= 1
    ensures Reaches(InitWith(kind, o, n, iters), s) && |s.workers| == n && s.kind == kind && s.orders == o
    ensures s.iters == iters && s.workers[0].done == 1 && s.workers[1] == Fresh(kind, 0)
    ensures ViewOf(s.mem, 1) == Bottom && Unlocked(s.mem, o.release) && Wrote(s.mem) && Bounded(s.mem)
  {
    var a := InitWith(kind, o, n, iters);
    assert Legal(a, []) && Exec(a, []) == a;
    EmptyBounded();
    var s1 := Enter(a, a, 0);
    var act := Action(0, Newest(s1.mem, COUNTER), true);
    assert CanRead(s1.mem, 0, COUNTER, act.i) by { assert Within(s1.mem, ViewOf(s1.mem, 0)); }
    s := Section(a, s1, act);
  }

  /**
   With either order relaxed, the second worker's read of the counter races with the first's write and
   can miss it, and then two increments leave the counter at 1.
   */
  lemma RelaxedLockRaces(kind: Kind, o: Orders, n: nat, iters: nat) returns (s: State)
    requires n >= 2 && iters >= 1 && !(o.acquire && o.release)
    ensures Reaches(InitWith(kind, o, n, iters), s) && s.mem.racy && Lost(s)
  {
    var a := InitWith(kind, o, n, iters);
    var s4 := FirstTurn(kind, o, n, iters);
    var s5 := Enter(a, s4, 1);
    var s6 := ReaderMisses(a, s5);
    s := WriterUndoes(a, s6);
    TwoWrittenOneLeft(s);
  }

  // ---------- One worker needs no order ----------

  /** Thread 0 knows every access of the counter. */
  ghost predicate KnowsAll(m: Mem)
  {
    && Covers(ViewOf(m, 0).clock, Writes(m, COUNTER)) && Covers(ViewOf(m, 0).clock, Reads(m, COUNTER))
    && !m.racy
  }

  ghost predicate Alone(s: State) { |s.workers| <= 1 && KnowsAll(s.mem) }

  /** Steps that access no plain location, and by which thread 0 forgets nothing. */
  lemma AloneKept(m: Mem, r: Mem)
    requires KnowsAll(m) && r.writeAt == m.writeAt && r.readAt == m.readAt && r.racy == m.racy
    requires forall u :: At(ViewOf(m, 0).clock, u) <= At(ViewOf(r, 0).clock, u)
    ensures KnowsAll(r)
  {
    forall u | u in Writes(m, COUNTER) ensures Writes(m, COUNTER)[u] <= At(ViewOf(r, 0).clock, u) {}
    forall u | u in Reads(m, COUNTER) ensures Reads(m, COUNTER)[u] <= At(ViewOf(r, 0).clock, u) {}
  }

  lemma AloneExchange(m: Mem, acquire: bool)
    requires KnowsAll(m)
    ensures KnowsAll(Exchange(m, 0, LOCK, 1, acquire))
  {
    AloneKept(m, Exchange(m, 0, LOCK, 1, acquire));
  }

  lemma AloneLoad(m: Mem, i: nat)
    requires KnowsAll(m) && CanRead(m, 0, LOCK, i)
    ensures KnowsAll(Load(m, 0, LOCK, i, false))
  {
    AloneKept(m, Load(m, 0, LOCK, i, false));
  }

  lemma AloneRead(m: Mem, i: nat)
    requires KnowsAll(m) && CanRead(m, 0, COUNTER, i)
    ensures KnowsAll(PlainRead(m, 0, COUNTER, i))
  {
    var r := PlainRead(m, 0, COUNTER, i);
    assert Writes(r, COUNTER) == Writes(m, COUNTER);
  }

  lemma AloneWrite(m: Mem, val: int)
    requires KnowsAll(m)
    ensures KnowsAll(PlainWrite(m, 0, COUNTER, val))
  {
    var r := PlainWrite(m, 0, COUNTER, val);
    assert Reads(r, COUNTER) == Reads(m, COUNTER);
  }

  lemma AloneRelease(m: Mem, release: bool)
    requires KnowsAll(m)
    ensures KnowsAll(Store(m, 0, LOCK, 0, release))
  {
    AloneKept(m, Store(m, 0, LOCK, 0, release));
  }

  lemma AloneMem(s: State, a: Action)
    requires KnowsAll(s.mem) && Enabled(s, a) && a.t == 0
    ensures KnowsAll(NextMem(s, a))
  {
    match s.workers[0].pc
    case TestAndSet => AloneExchange(s.mem, s.orders.acquire);
    case Precheck => AloneLoad(s.mem, a.i);
    case Cas => if a.success { AloneExchange(s.mem, s.orders.acquire); } else { AloneLoad(s.mem, a.i); }
    case Pause(_) =>
    case ReadCounter => AloneRead(s.mem, a.i);
    case WriteCounter(reg) => AloneWrite(s.mem, reg + 1);
    case Release => AloneRelease(s.mem, s.orders.release);
  }

  lemma {:induction false} AloneRun(s: State, run: seq<Action>)
    requires Alone(s) && Legal(s, run)
    ensures !Exec(s, run).mem.racy
    decreases |run|
  {
    if run != [] {
      AloneMem(s, run[0]);
      AloneRun(Next(s, run[0]), run[1..]);
    }
  }

  /** Thread 0 has seen the counter's newest message, whose value is val. */
  predicate UpToDate(m: Mem, val: int)
  {
    At(ViewOf(m, 0).seen, COUNTER) == Newest(m, COUNTER) && Value(m, COUNTER) == val
  }

  /** Nor does its counting: it can read only its own latest write. */
  ghost predicate AloneCount(s: State)
  {
    && |s.workers| <= 1 && Bounded(s.mem)
    && UpToDate(s.mem, Value(s.mem, COUNTER)) && Value(s.mem, COUNTER) == Sum(Credited(), s.workers)
    && (s.workers != [] && s.workers[0].pc.WriteCounter? ==> s.workers[0].pc.reg == Value(s.mem, COUNTER))
  }

  lemma AppendedUpToDate(m: Mem, val: int, msg: Msg, v: View)
    requires UpToDate(m, val) && At(v.seen, COUNTER) == Newest(m, COUNTER)
    ensures UpToDate(SetView(Append(m, LOCK, msg), 0, v), val)
  {
    Appended(m, LOCK, msg, 0, v);
  }

  lemma ExchangeUpToDate(m: Mem, val: int, acquire: bool, r: Mem)
    requires Bounded(m) && UpToDate(m, val) && r == Exchange(m, 0, LOCK, 1, acquire)
    ensures UpToDate(r, val)
  {
    var msg, v := ExchangeAppends(m, 0, LOCK, 1, acquire);
    assert Within(m, Message(m, LOCK, Newest(m, LOCK)).view);
    AppendedUpToDate(m, val, msg, v);
  }

  lemma LockUpToDate(m: Mem, val: int, i: nat, release: bool)
    requires UpToDate(m, val)
    ensures UpToDate(Store(m, 0, LOCK, 0, release), val)
    ensures CanRead(m, 0, LOCK, i) ==> UpToDate(Load(m, 0, LOCK, i, false), val)
  {
  }

  lemma CounterUpToDate(m: Mem, val: int, i: nat, next: int)
    requires UpToDate(m, val)
    ensures UpToDate(PlainWrite(m, 0, COUNTER, next), next)
    ensures CanRead(m, 0, COUNTER, i) ==> UpToDate(PlainRead(m, 0, COUNTER, i), val) && i == Newest(m, COUNTER)
  {
  }

  /** The counter's value after the step. */
  function CountAfter(s: State, a: Action): int
    requires Enabled(s, a)
  {
    match s.workers[a.t].pc case WriteCounter(reg) => reg + 1 case _ => Value(s.mem, COUNTER)
  }

  lemma AloneSees(s: State, a: Action)
    requires Bounded(s.mem) && UpToDate(s.mem, Value(s.mem, COUNTER)) && Enabled(s, a) && a.t == 0
    ensures UpToDate(NextMem(s, a), CountAfter(s, a))
    ensures s.workers[0].pc.ReadCounter? ==> Message(s.mem, COUNTER, a.i).val == Value(s.mem, COUNTER)
  {
    var val := Value(s.mem, COUNTER);
    match s.workers[0].pc
    case TestAndSet => ExchangeUpToDate(s.mem, val, s.orders.acquire, NextMem(s, a));
    case Precheck => LockUpToDate(s.mem, val, a.i, true);
    case Cas =>
      if a.success {
        ExchangeUpToDate(s.mem, val, s.orders.acquire, NextMem(s, a));
      } else {
        LockUpToDate(s.mem, val, a.i, true);
      }
    case Pause(_) =>
    case ReadCounter => CounterUpToDate(s.mem, val, a.i, 0);
    case WriteCounter(reg) => CounterUpToDate(s.mem, val, a.i, reg + 1);
    case Release => LockUpToDate(s.mem, val, a.i, s.orders.release);
  }

  /** What the step adds to the worker's increments, and the register it leaves. */
  lemma AloneWorker(s: State, a: Action)
    requires Enabled(s, a) && (s.workers[a.t].pc.WriteCounter? ==> s.workers[a.t].pc.reg == Value(s.mem, COUNTER))
    requires s.workers[a.t].pc.ReadCounter? ==> Message(s.mem, COUNTER, a.i).val == Value(s.mem, COUNTER)
    ensures var v, w := s.workers[a.t], NextWorker(s, a);
            && CountAfter(s, a) == Value(s.mem, COUNTER) + Credited()(w) - Credited()(v)
            && (w.pc.WriteCounter? ==> w.pc.reg == CountAfter(s, a))
  {
  }

  lemma AloneCounts(s: State, a: Action)
    requires AloneCount(s) && Enabled(s, a)
    ensures AloneCount(Next(s, a))
  {
    AloneSees(s, a);
    AloneWorker(s, a);
    NextBounded(s, a);
    Sums(s, a);
  }

  lemma {:induction false} AloneCountRun(s: State, run: seq<Action>)
    requires AloneCount(s) && Legal(s, run)
    ensures AloneCount(Exec(s, run))
    decreases |run|
  {
    if run != [] {
      AloneCounts(s, run[0]);
      AloneCountRun(Next(s, run[0]), run[1..]);
    }
  }

  // ---------- The exact condition ----------

  predicate Synchronised(o: Orders, n: nat, iters: nat)
  {
    n < 2 || iters == 0 || (o.acquire && o.release)
  }

  lemma {:induction false} SafeWith(kind: Kind, o: Orders, n: nat, iters: nat, run: seq<Action>)
    requires Synchronised(o, n, iters) && Legal(InitWith(kind, o, n, iters), run)
    ensures !Exec(InitWith(kind, o, n, iters), run).mem.racy
  {
    var a := InitWith(kind, o, n, iters);
    if n < 2 {
      AloneRun(a, run);
    } else if iters == 0 {
      assert run == [];
    } else {
      InitInv(kind, n, iters);
      RunInv(a, run);
    }
  }

  /** For every lock and any number of workers and iterations. */
  lemma RaceFreeIffOrdered(kind: Kind, o: Orders, n: nat, iters: nat)
    ensures (forall s: State :: Reaches(InitWith(kind, o, n, iters), s) ==> !s.mem.racy) <==> Synchronised(o, n, iters)
  {
    var a := InitWith(kind, o, n, iters);
    if Synchronised(o, n, iters) {
      forall s: State | Reaches(a, s) ensures !s.mem.racy {
        var run: seq<Action> :| Legal(a, run) && Exec(a, run) == s;
        SafeWith(kind, o, n, iters, run);
      }
    } else {
      var s := RelaxedLockRaces(kind, o, n, iters);
    }
  }

  lemma {:induction false} CountsWith(kind: Kind, o: Orders, n: nat, iters: nat, run: seq<Action>)
    requires Synchronised(o, n, iters) && Legal(InitWith(kind, o, n, iters), run)
    ensures !Lost(Exec(InitWith(kind, o, n, iters), run))
  {
    var a := InitWith(kind, o, n, iters);
    SumConst(Credited(), a.workers, 0);
    if n < 2 {
      EmptyBounded();
      AloneCountRun(a, run);
    } else if iters == 0 {
      assert run == [];
    } else {
      InitInv(kind, n, iters);
      RunInv(a, run);
    }
  }

  /** Under the same condition, and no other, no increment is ever lost. */
  lemma NothingLostIffOrdered(kind: Kind, o: Orders, n: nat, iters: nat)
    ensures (forall s: State :: Reaches(InitWith(kind, o, n, iters), s) ==> !Lost(s)) <==> Synchronised(o, n, iters)
  {
    var a := InitWith(kind, o, n, iters);
    if Synchronised(o, n, iters) {
      forall s: State | Reaches(a, s) ensures !Lost(s) {
        var run: seq<Action> :| Legal(a, run) && Exec(a, run) == s;
        CountsWith(kind, o, n, iters, run);
      }
    } else {
      var s := RelaxedLockRaces(kind, o, n, iters);
    }
  }
}
