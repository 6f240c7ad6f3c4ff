/** The inductive invariant shared by the four spinlocks. */
module SpinlockInvariant {
  import opened Tallies
  import opened ViewMemory
  import opened Backoff
  import opened Spinlock

  predicate Inside(pc: Pc)
  {
    pc.ReadCounter? || pc.WriteCounter? || pc.Release?
  }

  /** 1 for a worker between acquire and release. */
  ghost function Holding(): Worker -> int
  {
    (w: Worker) => if Inside(w.pc) then 1 else 0
  }

  /** Increments a worker has written to the counter. */
  ghost function Credited(): Worker -> int
  {
    (w: Worker) => w.done + if w.pc.Release? then 1 else 0
  }

  /** All accesses of the counter so far happen before the holder of this view. */
  predicate Knows(m: Mem, v: View)
  {
    KnowsWrites(m, v, COUNTER) && KnowsReads(m, v, COUNTER)
  }

  /** Facts about one worker that mention no other worker. */
  ghost predicate WorkerOk(s: State, t: nat)
    requires t < |s.workers|
  {
    var w := s.workers[t];
    && w.done <= s.iters
    && (w.pc != Entry(s.kind) ==> w.done < s.iters)
    && (s.kind.Tas? ==> w.pc.TestAndSet? || Inside(w.pc))
    && (!s.kind.Tas? ==> !w.pc.TestAndSet?)
    && (w.pc.WriteCounter? ==> w.pc.reg == Value(s.mem, COUNTER))
    && (Inside(w.pc) ==> Knows(s.mem, ViewOf(s.mem, t)))
    && (s.kind.ExpBackoff? ==>
          && w.backoff == Delay(w.rounds)
          && (if w.pc.Pause? then w.paused + w.pc.left == TotalPauses(w.rounds + 1) && w.pc.left <= w.backoff
              else w.paused == TotalPauses(w.rounds)))
  }

  /** The counter's location is the same in both memories. */
  predicate SameCounter(m: Mem, r: Mem)
  {
    && Log(m, COUNTER) == Log(r, COUNTER)
    && Writes(m, COUNTER) == Writes(r, COUNTER) && Reads(m, COUNTER) == Reads(r, COUNTER)
  }

  ghost predicate LockOk(m: Mem)
  {
    && 0 <= Value(m, LOCK) <= 1
    && (Value(m, LOCK) == 0 ==> Knows(m, Message(m, LOCK, Newest(m, LOCK)).view))
  }

  ghost predicate Inv(s: State)
  {
    Core(s) && Bounded(s.mem)
  }

  ghost predicate Core(s: State)
  {
    && s.orders == Orders(true, true)
    && !s.mem.racy
    && LockOk(s.mem)
    && Sum(Holding(), s.workers) == Value(s.mem, LOCK)
    && Sum(Credited(), s.workers) == Value(s.mem, COUNTER)
    && forall t :: 0 <= t < |s.workers| ==> WorkerOk(s, t)
  }

  lemma InitInv(kind: Kind, n: nat, iters: nat)
    ensures Inv(Init(kind, n, iters))
  {
    var s := Init(kind, n, iters);
    EmptyBounded();
    SumConst(Holding(), s.workers, 0);
    SumConst(Credited(), s.workers, 0);
  }

  lemma AtMostOneInside(s: State, t: nat, u: nat)
    requires Core(s) && t < |s.workers| && u < |s.workers| && Inside(s.workers[t].pc)
    ensures Value(s.mem, LOCK) == 1
    ensures t != u ==> !Inside(s.workers[u].pc)
  {
    SumAtLeast(Holding(), s.workers, t, u);
  }

  /** How the two sums move when worker a.t takes a step. */
  lemma Sums(s: State, a: Action)
    requires Enabled(s, a)
    ensures var v, w, after := s.workers[a.t], NextWorker(s, a), Next(s, a).workers;
            && Sum(Holding(), after) == Sum(Holding(), s.workers) - Holding()(v) + Holding()(w)
            && Sum(Credited(), after) == Sum(Credited(), s.workers) - Credited()(v) + Credited()(w)
  {
    SumUpdate(Holding(), s.workers, a.t, NextWorker(s, a));
    SumUpdate(Credited(), s.workers, a.t, NextWorker(s, a));
  }

  lemma NextBounded(s: State, a: Action)
    requires Bounded(s.mem) && Enabled(s, a)
    ensures Bounded(NextMem(s, a))
  {
    match s.workers[a.t].pc
    case TestAndSet => BoundedExchange(s.mem, a.t, LOCK, 1, s.orders.acquire);
    case Precheck => BoundedLoad(s.mem, a.t, LOCK, a.i, false);
    case Cas =>
      if a.success {
        BoundedExchange(s.mem, a.t, LOCK, 1, s.orders.acquire);
      } else {
        BoundedLoad(s.mem, a.t, LOCK, a.i, false);
      }
    case Pause(_) =>
    case ReadCounter => BoundedPlainRead(s.mem, a.t, COUNTER, a.i);
    case WriteCounter(reg) => BoundedPlainWrite(s.mem, a.t, COUNTER, reg + 1);
    case Release => BoundedStore(s.mem, a.t, LOCK, 0, s.orders.release);
  }

  /** The step takes the lock. */
  predicate Acquires(s: State, a: Action)
  {
    Enabled(s, a) && Value(s.mem, LOCK) == 0 &&
    (s.workers[a.t].pc.TestAndSet? || (s.workers[a.t].pc.Cas? && a.success))
  }

  /** A worker whose step it is not keeps its facts, if it is outside or the counter is untouched. */
  lemma Bystander(s: State, r: State, t: nat)
    requires t < |s.workers| == |r.workers| && r.workers[t] == s.workers[t]
    requires r.kind == s.kind && r.iters == s.iters && WorkerOk(s, t)
    requires !Inside(s.workers[t].pc) || (SameCounter(s.mem, r.mem) && ViewOf(r.mem, t) == ViewOf(s.mem, t))
    ensures WorkerOk(r, t)
  {
  }

  /** A load of the lock word changes nothing but the loading thread's view. */
  lemma LoadMem(m: Mem, t: nat, i: nat)
    requires LockOk(m) && CanRead(m, t, LOCK, i)
    ensures var r := Load(m, t, LOCK, i, false);
            && r.racy == m.racy && LockOk(r) && SameCounter(m, r) && Value(r, LOCK) == Value(m, LOCK)
            && forall u :: u != t ==> ViewOf(r, u) == ViewOf(m, u)
  {
    var r := Load(m, t, LOCK, i, false);
    assert r.log == m.log;
    KnowsFrame(m, r, Message(m, LOCK, Newest(m, LOCK)).view, COUNTER);
  }

  /** What any message of value 1 appended to the lock word changes. */
  lemma Taken(m: Mem, t: nat, msg: Msg, v: View)
    requires msg.val == 1
    ensures var r := SetView(Append(m, LOCK, msg), t, v);
            && r.racy == m.racy && SameCounter(m, r) && Value(r, LOCK) == 1
            && forall u :: u != t ==> ViewOf(r, u) == ViewOf(m, u)
  {
    Appended(m, LOCK, msg, t, v);
  }

  /** Taking the lock word, free or not. */
  lemma ExchangeEffect(m: Mem, t: nat, r: Mem)
    requires r == Exchange(m, t, LOCK, 1, true)
    ensures r.racy == m.racy && SameCounter(m, r) && Value(r, LOCK) == 1
    ensures forall u :: u != t ==> ViewOf(r, u) == ViewOf(m, u)
  {
    var msg, v := ExchangeAppends(m, t, LOCK, 1, true);
    Taken(m, t, msg, v);
  }

  lemma SpinMem(s: State, a: Action)
    requires Core(s) && Enabled(s, a) && !Inside(s.workers[a.t].pc) && !Acquires(s, a)
    ensures var m := NextMem(s, a);
            && !m.racy && LockOk(m) && SameCounter(s.mem, m) && Value(m, LOCK) == Value(s.mem, LOCK)
            && forall t :: t != a.t ==> ViewOf(m, t) == ViewOf(s.mem, t)
  {
    var pc := s.workers[a.t].pc;
    if pc.Precheck? || pc.Cas? {
      LoadMem(s.mem, a.t, a.i);
    } else if pc.TestAndSet? {
      ExchangeEffect(s.mem, a.t, NextMem(s, a));
    }
  }

  lemma SpinWorker(s: State, a: Action)
    requires Core(s) && Enabled(s, a) && !Inside(s.workers[a.t].pc) && !Acquires(s, a)
    ensures WorkerOk(Next(s, a), a.t) && !Inside(NextWorker(s, a).pc)
  {
    assert WorkerOk(s, a.t);
  }

  /** Spinning: failed test-and-set, pre-check, failed compare-exchange, pause. */
  lemma SpinStep(s: State, a: Action)
    requires Core(s) && Enabled(s, a) && !Inside(s.workers[a.t].pc) && !Acquires(s, a)
    ensures Core(Next(s, a))
  {
    var r := Next(s, a);
    Sums(s, a);
    SpinMem(s, a);
    SpinWorker(s, a);
    forall t | 0 <= t < |r.workers| ensures WorkerOk(r, t) {
      if t != a.t { Bystander(s, r, t); }
    }
  }

  /** Whoever takes the free lock acquires what its message knows. */
  lemma ExchangeKnows(m: Mem, t: nat)
    requires Knows(m, Message(m, LOCK, Newest(m, LOCK)).view)
    ensures Knows(m, ViewOf(Exchange(m, t, LOCK, 1, true), t))
  {
    var from := Message(m, LOCK, Newest(m, LOCK)).view;
    KnowsJoin(m, Saw(ViewOf(m, t), LOCK, Newest(m, LOCK) + 1), from, COUNTER);
  }

  lemma AcquireMem(s: State, a: Action)
    requires Core(s) && Acquires(s, a)
    ensures var m := NextMem(s, a);
            && !m.racy && LockOk(m) && SameCounter(s.mem, m) && Value(m, LOCK) == 1
            && Knows(m, ViewOf(m, a.t))
            && forall t :: t != a.t ==> ViewOf(m, t) == ViewOf(s.mem, t)
  {
    var m := NextMem(s, a);
    ExchangeEffect(s.mem, a.t, m);
    ExchangeKnows(s.mem, a.t);
    KnowsFrame(s.mem, m, ViewOf(m, a.t), COUNTER);
  }

  lemma AcquireStep(s: State, a: Action)
    requires Core(s) && Acquires(s, a)
    ensures Core(Next(s, a))
  {
    var r := Next(s, a);
    Sums(s, a);
    AcquireMem(s, a);
    assert WorkerOk(s, a.t);
    forall t | 0 <= t < |r.workers| ensures WorkerOk(r, t) {
      if t != a.t { Bystander(s, r, t); }
    }
  }

  /** What the holder t of the lock relies on before and after its plain accesses. */
  predicate HeldMem(m: Mem, t: nat)
  {
    !m.racy && Value(m, LOCK) == 1 && Knows(m, ViewOf(m, t))
  }

  lemma HolderReads(m: Mem, t: nat, i: nat)
    requires HeldMem(m, t) && CanRead(m, t, COUNTER, i)
    ensures var r := PlainRead(m, t, COUNTER, i);
            HeldMem(r, t) && i == Newest(m, COUNTER) && Value(r, COUNTER) == Value(m, COUNTER)
  {
    var r := PlainRead(m, t, COUNTER, i);
    assert r.log == m.log && Writes(r, COUNTER) == Writes(m, COUNTER);
    forall u ensures At(ViewOf(m, t).clock, u) <= At(ViewOf(r, t).clock, u) {}
  }

  lemma HolderWrites(m: Mem, t: nat, val: int)
    requires HeldMem(m, t)
    ensures var r := PlainWrite(m, t, COUNTER, val); HeldMem(r, t) && Value(r, COUNTER) == val
  {
    var r := PlainWrite(m, t, COUNTER, val);
    assert Log(r, LOCK) == Log(m, LOCK) && Reads(r, COUNTER) == Reads(m, COUNTER);
    forall u ensures At(ViewOf(m, t).clock, u) <= At(ViewOf(r, t).clock, u) {}
  }

  lemma HolderReleases(m: Mem, t: nat)
    requires HeldMem(m, t)
    ensures var r := Store(m, t, LOCK, 0, true);
            && !r.racy && LockOk(r) && Value(r, LOCK) == 0
            && Knows(r, ViewOf(r, t)) && Value(r, COUNTER) == Value(m, COUNTER)
  {
    var r := Store(m, t, LOCK, 0, true);
    assert SameCounter(m, r) && ViewOf(r, t).clock == ViewOf(m, t).clock;
    KnowsFrame(m, r, ViewOf(r, t), COUNTER);
    assert Message(r, LOCK, Newest(r, LOCK)) == Msg(0, ViewOf(r, t));
  }

  /** The plain read, the plain write and the release store of the lock holder. */
  lemma HolderMem(s: State, a: Action)
    requires Core(s) && Enabled(s, a) && Inside(s.workers[a.t].pc)
    ensures var m := NextMem(s, a);
            && !m.racy && LockOk(m) && Knows(m, ViewOf(m, a.t))
            && Value(m, LOCK) == (if s.workers[a.t].pc.Release? then 0 else 1)
            && Value(m, COUNTER) == Value(s.mem, COUNTER) + (if s.workers[a.t].pc.WriteCounter? then 1 else 0)
            && (s.workers[a.t].pc.ReadCounter? ==> a.i == Newest(s.mem, COUNTER))
  {
    assert WorkerOk(s, a.t) && HeldMem(s.mem, a.t) by { AtMostOneInside(s, a.t, a.t); }
    match s.workers[a.t].pc
    case ReadCounter => HolderReads(s.mem, a.t, a.i);
    case WriteCounter(reg) => HolderWrites(s.mem, a.t, reg + 1);
    case Release => HolderReleases(s.mem, a.t);
  }

  lemma HolderStep(s: State, a: Action)
    requires Core(s) && Enabled(s, a) && Inside(s.workers[a.t].pc)
    ensures Core(Next(s, a))
  {
    var r := Next(s, a);
    Sums(s, a);
    HolderMem(s, a);
    AtMostOneInside(s, a.t, a.t);
    assert WorkerOk(s, a.t);
    forall t | 0 <= t < |r.workers| ensures WorkerOk(r, t) {
      if t != a.t {
        AtMostOneInside(s, a.t, t);
        Bystander(s, r, t);
      }
    }
  }

  lemma StepInv(s: State, a: Action)
    requires Inv(s) && Enabled(s, a)
    ensures Inv(Next(s, a))
  {
    NextBounded(s, a);
    if Acquires(s, a) {
      AcquireStep(s, a);
    } else if Inside(s.workers[a.t].pc) {
      HolderStep(s, a);
    } else {
      SpinStep(s, a);
    }
  }

  lemma {:induction false} RunInv(s: State, run: seq<Action>)
    requires Inv(s) && Legal(s, run)
    ensures Inv(Exec(s, run))
    decreases |run|
  {
    if run != [] {
      StepInv(s, run[0]);
      RunInv(Next(s, run[0]), run[1..]);
    }
  }
}
