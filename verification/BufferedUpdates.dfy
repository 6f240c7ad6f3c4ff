/**
 The unsynchronised counter on the store-buffer memories: a store waits in its thread's buffer, and a
 load takes the thread's own newest store first. Total store order makes the race no worse: the
 possible final values are those of the sequentially consistent machine.
 */
module BufferedUpdates {
  import opened Tallies
  import opened StoreBuffer
  import opened LostUpdates

  const COUNTER: nat := 0

  datatype Program = Program(iters: nat, m: Machine, threads: seq<Thread>)

  /** Step(t) executes thread t's next instruction; Drain(t, k) flushes entry k of its buffer. */
  datatype Action = Step(t: nat) | Drain(t: nat, k: nat)

  function Begin(n: nat, iters: nat): Program { Program(iters, Zeroed, Init(n, iters).threads) }

  predicate CanAct(o: Order, s: Program, a: Action)
  {
    && a.t < |s.threads|
    && match a
       case Step(t) => s.threads[t].done < s.iters
       case Drain(t, k) => CanFlush(o, s.m, t, k)
  }

  function Act(o: Order, s: Program, a: Action): Program
    requires CanAct(o, s, a)
  {
    match a
    case Drain(t, k) => s.(m := Flush(s.m, t, k))
    case Step(t) =>
      var th := s.threads[t];
      match th.pc
      case Read => s.(threads := s.threads[t := th.(pc := Increment(Load(s.m, t, COUNTER)))])
      case Increment(r) => s.(threads := s.threads[t := th.(pc := Write(r + 1))])
      case Write(r) =>
        s.(m := Store(o, s.m, t, Entry(COUNTER, r)), threads := s.threads[t := Thread(Read, th.done + 1)])
  }

  predicate Possible(o: Order, s: Program, run: seq<Action>)
    decreases |run|
  {
    run == [] || (CanAct(o, s, run[0]) && Possible(o, Act(o, s, run[0]), run[1..]))
  }

  function Outcome(o: Order, s: Program, run: seq<Action>): Program
    requires Possible(o, s, run)
    decreases |run|
  {
    if run == [] then s else Outcome(o, Act(o, s, run[0]), run[1..])
  }

  ghost predicate LeadsTo(o: Order, a: Program, s: Program)
  {
    exists run: seq<Action> :: Possible(o, a, run) && Outcome(o, a, run) == s
  }

  /** All increments done and all stores flushed, as after joining the threads. */
  predicate Complete(s: Program)
  {
    forall t :: 0 <= t < |s.threads| ==> s.threads[t].done == s.iters && Buffer(s.m, t) == []
  }

  function Counter(s: Program): int { Memory(s.m, COUNTER) }

  // ---------- Bounds ----------

  ghost function Issued(s: Program): int { Sum(Done(), s.threads) }

  /** A thread's first store is at least 1, its later ones at least 2; none exceeds the stores issued. */
  ghost predicate EntryOk(e: Entry, nth: int, issued: int)
  {
    e.loc == COUNTER && (if nth > 0 then 2 else 1) <= e.val <= issued
  }

  ghost predicate BufferOk(b: seq<Entry>, done: nat, issued: int)
  {
    |b| <= done && forall j :: 0 <= j < |b| ==> EntryOk(b[j], done - |b| + j, issued)
  }

  ghost predicate RegisterOk(th: Thread, issued: int)
  {
    match th.pc
    case Read => true
    case Increment(r) => (if th.done > 0 then 1 else 0) <= r <= issued
    case Write(r) => (if th.done > 0 then 2 else 1) <= r <= issued + 1
  }

  /** Thread t has flushed a store, so memory holds one. */
  ghost predicate MemoryOk(s: Program, t: nat)
    requires t < |s.threads|
  {
    s.threads[t].done > |Buffer(s.m, t)| ==> Counter(s) >= 1
  }

  ghost predicate ThreadFine(o: Order, s: Program, t: nat)
    requires t < |s.threads|
  {
    && s.threads[t].done <= s.iters && RegisterOk(s.threads[t], Issued(s))
    && BufferOk(Buffer(s.m, t), s.threads[t].done, Issued(s)) && (o.Direct? ==> Buffer(s.m, t) == [])
    && MemoryOk(s, t)
  }

  /** The last store to be flushed is its thread's last. */
  ghost predicate EndOk(s: Program)
  {
    Complete(s) && s.threads != [] ==> Counter(s) >= (if s.iters < 2 then s.iters else 2)
  }

  ghost predicate Sound(o: Order, s: Program)
  {
    && 0 <= Counter(s) <= Issued(s) && EndOk(s)
    && forall t :: 0 <= t < |s.threads| ==> ThreadFine(o, s, t)
  }

  lemma BeginSound(o: Order, n: nat, iters: nat)
    ensures Sound(o, Begin(n, iters))
  {
    SumConst(Done(), Begin(n, iters).threads, 0);
  }

  /** What a load returns: the thread's own newest store, or else memory. */
  lemma LoadBounds(o: Order, s: Program, t: nat)
    requires t < |s.threads| && ThreadFine(o, s, t) && 0 <= Counter(s) <= Issued(s)
    ensures (if s.threads[t].done > 0 then 1 else 0) <= Load(s.m, t, COUNTER) <= Issued(s)
  {
    var b := Buffer(s.m, t);
    if b != [] { assert EntryOk(b[|b| - 1], s.threads[t].done - 1, Issued(s)); }
  }

  /** A thread that does not act stays fine when more stores are issued or flushed. */
  lemma OthersFine(o: Order, s: Program, r: Program, u: nat)
    requires u < |s.threads| == |r.threads| && r.threads[u] == s.threads[u] && r.iters == s.iters
    requires Buffer(r.m, u) == Buffer(s.m, u) && Issued(s) <= Issued(r) && ThreadFine(o, s, u)
    requires Counter(r) >= 1 || Counter(r) == Counter(s)
    ensures ThreadFine(o, r, u)
  {
    var b := Buffer(s.m, u);
    forall j | 0 <= j < |b| ensures EntryOk(b[j], s.threads[u].done - |b| + j, Issued(r)) {
      assert EntryOk(b[j], s.threads[u].done - |b| + j, Issued(s));
    }
  }

  /** Reading and incrementing change only the thread's register. */
  lemma LocalStep(o: Order, s: Program, t: nat)
    requires Sound(o, s) && CanAct(o, s, Step(t)) && !s.threads[t].pc.Write?
    ensures Sound(o, Act(o, s, Step(t)))
  {
    var r := Act(o, s, Step(t));
    SumUpdate(Done(), s.threads, t, r.threads[t]);
    LoadBounds(o, s, t);
    assert ThreadFine(o, s, t);
    assert !Complete(r) by { assert r.threads[t].done < r.iters; }
    forall u | 0 <= u < |r.threads| ensures ThreadFine(o, r, u) {
      if u != t { OthersFine(o, s, r, u); }
    }
  }

  lemma BufferedWrite(o: Order, s: Program, t: nat)
    requires Sound(o, s) && CanAct(o, s, Step(t)) && s.threads[t].pc.Write? && !o.Direct?
    ensures Sound(o, Act(o, s, Step(t)))
  {
    var r := Act(o, s, Step(t));
    SumUpdate(Done(), s.threads, t, r.threads[t]);
    assert ThreadFine(o, s, t);
    AppendFine(s, r, t);
    assert !Complete(r) by { assert Buffer(r.m, t) != []; }
    forall u | 0 <= u < |r.threads| ensures ThreadFine(o, r, u) {
      if u != t { OthersFine(o, s, r, u); }
    }
  }

  lemma AppendFine(s: Program, r: Program, t: nat)
    requires t < |s.threads| == |r.threads| && s.threads[t].pc.Write? && RegisterOk(s.threads[t], Issued(s))
    requires BufferOk(Buffer(s.m, t), s.threads[t].done, Issued(s)) && Issued(r) == Issued(s) + 1
    requires Buffer(r.m, t) == Buffer(s.m, t) + [Entry(COUNTER, s.threads[t].pc.reg)]
    ensures BufferOk(Buffer(r.m, t), s.threads[t].done + 1, Issued(r))
  {
    var b, c, done := Buffer(s.m, t), Buffer(r.m, t), s.threads[t].done;
    forall j | 0 <= j < |c| ensures EntryOk(c[j], done + 1 - |c| + j, Issued(r)) {
      if j < |b| { assert EntryOk(b[j], done - |b| + j, Issued(s)); }
    }
  }

  lemma DirectWrite(o: Order, s: Program, t: nat)
    requires Sound(o, s) && CanAct(o, s, Step(t)) && s.threads[t].pc.Write? && o.Direct?
    ensures Sound(o, Act(o, s, Step(t)))
  {
    var r := Act(o, s, Step(t));
    SumUpdate(Done(), s.threads, t, r.threads[t]);
    assert ThreadFine(o, s, t);
    if Complete(r) { assert r.threads[t].done == r.iters; }
    forall u | 0 <= u < |r.threads| ensures ThreadFine(o, r, u) {
      if u != t { OthersFine(o, s, r, u); }
    }
  }

  /** All entries concern one location, so every memory flushes them in order. */
  lemma DrainsFirst(o: Order, s: Program, t: nat, k: nat)
    requires CanAct(o, s, Drain(t, k)) && ThreadFine(o, s, t)
    ensures k == 0 && !o.Direct?
  {
    var b := Buffer(s.m, t);
    assert EntryOk(b[k], s.threads[t].done - |b| + k, Issued(s));
    assert EntryOk(b[0], s.threads[t].done - |b|, Issued(s));
  }

  lemma DrainFine(s: Program, t: nat)
    requires t < |s.threads| && BufferOk(Buffer(s.m, t), s.threads[t].done, Issued(s)) && Buffer(s.m, t) != []
    ensures var m := Flush(s.m, t, 0);
            && BufferOk(Buffer(m, t), s.threads[t].done, Issued(s))
            && 1 <= Memory(m, COUNTER) <= Issued(s)
            && (Buffer(m, t) == [] && s.threads[t].done >= 2 ==> Memory(m, COUNTER) >= 2)
  {
    var b, done := Buffer(s.m, t), s.threads[t].done;
    var c := Buffer(Flush(s.m, t, 0), t);
    assert c == b[1..];
    assert EntryOk(b[0], done - |b|, Issued(s));
    forall j | 0 <= j < |c| ensures EntryOk(c[j], done - |c| + j, Issued(s)) {
      assert EntryOk(b[j + 1], done - |b| + (j + 1), Issued(s));
    }
  }

  lemma DrainStep(o: Order, s: Program, t: nat, k: nat)
    requires Sound(o, s) && CanAct(o, s, Drain(t, k))
    ensures Sound(o, Act(o, s, Drain(t, k)))
  {
    var r := Act(o, s, Drain(t, k));
    assert ThreadFine(o, s, t);
    DrainsFirst(o, s, t, k);
    DrainFine(s, t);
    if Complete(r) { assert r.threads[t].done == r.iters && Buffer(r.m, t) == []; }
    forall u | 0 <= u < |r.threads| ensures ThreadFine(o, r, u) {
      if u != t { OthersFine(o, s, r, u); }
    }
  }

  lemma {:induction false} RunSound(o: Order, s: Program, run: seq<Action>)
    requires Sound(o, s) && Possible(o, s, run)
    ensures var r := Outcome(o, s, run);
            Sound(o, r) && |r.threads| == |s.threads| && r.iters == s.iters
    decreases |run|
  {
    if run != [] {
      match run[0] {
        case Drain(t, k) => DrainStep(o, s, t, k);
        case Step(t) =>
          if !s.threads[t].pc.Write? { LocalStep(o, s, t); }
          else if o.Direct? { DirectWrite(o, s, t); }
          else { BufferedWrite(o, s, t); }
      }
      RunSound(o, Act(o, s, run[0]), run[1..]);
    }
  }

  // ---------- One thread ----------

  /** A thread alone sees its own stores: buffer and memory hold consecutive numbers. */
  ghost predicate Single(o: Order, s: Program)
  {
    && |s.threads| == 1 && ThreadFine(o, s, 0)
    && var th, b := s.threads[0], Buffer(s.m, 0);
       && Counter(s) == th.done - |b|
       && (forall j :: 0 <= j < |b| ==> b[j] == Entry(COUNTER, th.done - |b| + j + 1))
       && match th.pc
          case Read => true
          case Increment(r) => r == th.done
          case Write(r) => r == th.done + 1
  }

  lemma SingleDrain(o: Order, s: Program, k: nat)
    requires Single(o, s) && CanAct(o, s, Drain(0, k)) && ThreadFine(o, Act(o, s, Drain(0, k)), 0)
    ensures Single(o, Act(o, s, Drain(0, k)))
  {
    DrainsFirst(o, s, 0, k);
    assert Buffer(Act(o, s, Drain(0, k)).m, 0) == Buffer(s.m, 0)[1..];
  }

  lemma SingleLoad(o: Order, s: Program)
    requires Single(o, s)
    ensures Load(s.m, 0, COUNTER) == s.threads[0].done
  {
    var b := Buffer(s.m, 0);
    if b != [] { assert b[|b| - 1] == Entry(COUNTER, s.threads[0].done); }
  }

  lemma SingleStep(o: Order, s: Program, a: Action)
    requires Single(o, s) && CanAct(o, s, a) && ThreadFine(o, Act(o, s, a), 0)
    ensures Single(o, Act(o, s, a))
  {
    SingleLoad(o, s);
    if a.Drain? { SingleDrain(o, s, a.k); }
  }

  lemma {:induction false} SingleRun(o: Order, s: Program, run: seq<Action>)
    requires Sound(o, s) && Single(o, s) && Possible(o, s, run)
    ensures Single(o, Outcome(o, s, run))
    decreases |run|
  {
    if run != [] {
      var r, one := Act(o, s, run[0]), run[..1];
      assert one[1..] == [] && Possible(o, r, []) && Possible(o, s, one) && Outcome(o, s, one) == r;
      RunSound(o, s, one);
      SingleStep(o, s, run[0]);
      SingleRun(o, r, run[1..]);
    }
  }

  /** A complete run ends between the bounds of the sequentially consistent machine. */
  lemma FinalBounds(o: Order, n: nat, k: nat, s: Program)
    requires LeadsTo(o, Begin(n, k), s) && Complete(s)
    ensures Least(n, k) <= Counter(s) <= k * n
  {
    var run: seq<Action> :| Possible(o, Begin(n, k), run) && Outcome(o, Begin(n, k), run) == s;
    BeginSound(o, n, k);
    RunSound(o, Begin(n, k), run);
    SumConst(Done(), s.threads, k);
    if n == 1 { SingleRun(o, Begin(n, k), run); }
  }

  // ---------- Every sequentially consistent run is possible ----------

  lemma {:induction false} Extend(o: Order, s: Program, run: seq<Action>, a: Action)
    requires Possible(o, s, run) && CanAct(o, Outcome(o, s, run), a)
    ensures Possible(o, s, run + [a]) && Outcome(o, s, run + [a]) == Act(o, Outcome(o, s, run), a)
    decreases |run|
  {
    if run == [] {
      var one, r := run + [a], Act(o, s, a);
      assert one[1..] == [] && Possible(o, r, []) && Outcome(o, r, []) == r;
    } else {
      assert (run + [a])[1..] == run[1..] + [a];
      Extend(o, Act(o, s, run[0]), run[1..], a);
    }
  }

  lemma LeadsOn(o: Order, a: Program, s: Program, act: Action)
    requires LeadsTo(o, a, s) && CanAct(o, s, act)
    ensures LeadsTo(o, a, Act(o, s, act))
  {
    var run: seq<Action> :| Possible(o, a, run) && Outcome(o, a, run) == s;
    Extend(o, a, run, act);
  }

  /** The same state, with nothing waiting in a buffer. */
  ghost predicate Matches(s: Program, c: State)
  {
    && s.threads == c.threads && s.iters == c.iters && Counter(s) == c.counter
    && forall t :: 0 <= t < |s.threads| ==> Buffer(s.m, t) == []
  }

  /** A store flushed at once acts like a store to memory. */
  lemma MatchStep(o: Order, a: Program, s: Program, c: State, t: nat) returns (r: Program)
    requires LeadsTo(o, a, s) && Matches(s, c) && Enabled(c, t)
    ensures LeadsTo(o, a, r) && Matches(r, Next(c, t))
  {
    LeadsOn(o, a, s, Step(t));
    r := Act(o, s, Step(t));
    assert Load(s.m, t, COUNTER) == c.counter;
    if s.threads[t].pc.Write? && !o.Direct? {
      var b := Buffer(r.m, t);
      assert b == [Entry(COUNTER, s.threads[t].pc.reg)] && b[..0] + b[1..] == [];
      LeadsOn(o, a, r, Drain(t, 0));
      r := Act(o, r, Drain(t, 0));
    }
    forall u | 0 <= u < |r.threads| ensures Buffer(r.m, u) == [] { assert Buffer(s.m, u) == []; }
  }

  lemma {:induction false} MatchRun(o: Order, a: Program, s: Program, c: State, run: seq<nat>) returns (r: Program)
    requires LeadsTo(o, a, s) && Matches(s, c) && Legal(c, run)
    ensures LeadsTo(o, a, r) && Matches(r, Exec(c, run))
    decreases |run|
  {
    if run == [] {
      r := s;
    } else {
      var s1 := MatchStep(o, a, s, c, run[0]);
      r := MatchRun(o, a, s1, Next(c, run[0]), run[1..]);
    }
  }

  lemma AnyLossBuffered(o: Order, n: nat, k: nat, v: nat) returns (s: Program)
    requires Least(n, k) <= v <= k * n
    ensures LeadsTo(o, Begin(n, k), s) && Complete(s) && Counter(s) == v
  {
    var c := AnyLoss(n, k, v);
    var run: seq<nat> :| Legal(Init(n, k), run) && Exec(Init(n, k), run) == c;
    var a := Begin(n, k);
    assert Possible(o, a, []) && Outcome(o, a, []) == a;
    s := MatchRun(o, a, a, Init(n, k), run);
  }

  /**
   On every store-buffer memory, total store order among them, the possible final values of n threads
   doing k increments each are exactly Least(n, k) .. k * n.
   */
  lemma FinalValuesSame(o: Order, n: nat, k: nat, v: nat)
    ensures (exists s: Program :: LeadsTo(o, Begin(n, k), s) && Complete(s) && Counter(s) == v)
            <==> Least(n, k) <= v <= k * n
  {
    forall s: Program | LeadsTo(o, Begin(n, k), s) && Complete(s) ensures Least(n, k) <= Counter(s) <= k * n {
      FinalBounds(o, n, k, s);
    }
    if Least(n, k) <= v <= k * n {
      var s := AnyLossBuffered(o, n, k, v);
    }
  }
}
