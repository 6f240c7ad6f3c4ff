/**
 Store-buffer memory, after section 8.2 of the Intel SDM, Vol. 3A. A store waits in its thread's
 buffer and reaches memory later; a load takes the newest matching entry of its own buffer, else
 memory. `Fifo` is x86 total store order; `PerLocation` keeps only the order of stores to one
 location; `Direct` has no buffers and is sequentially consistent.
 */
module StoreBuffer {

  datatype Order = Direct | Fifo | PerLocation

  datatype Entry = Entry(loc: nat, val: int)

  datatype Machine = Machine(memory: map<nat, int>, buffers: map<nat, seq<Entry>>)

  const Zeroed := Machine(map[], map[])

  function Memory(m: Machine, x: nat): int { if x in m.memory then m.memory[x] else 0 }

  function Buffer(m: Machine, t: nat): seq<Entry> { if t in m.buffers then m.buffers[t] else [] }

  function Store(o: Order, m: Machine, t: nat, e: Entry): Machine
  {
    if o.Direct? then m.(memory := m.memory[e.loc := e.val])
    else m.(buffers := m.buffers[t := Buffer(m, t) + [e]])
  }

  /** Whether the k-th entry of t's buffer may go to memory next. */
  predicate CanFlush(o: Order, m: Machine, t: nat, k: nat)
  {
    && k < |Buffer(m, t)|
    && (o.Fifo? ==> k == 0)
    && (o.PerLocation? ==> forall j :: 0 <= j < k ==> Buffer(m, t)[j].loc != Buffer(m, t)[k].loc)
  }

  function Flush(m: Machine, t: nat, k: nat): Machine
    requires k < |Buffer(m, t)|
  {
    var b := Buffer(m, t);
    Machine(m.memory[b[k].loc := b[k].val], m.buffers[t := b[..k] + b[k + 1..]])
  }

  /** The newest value for x among the first n entries of a buffer, or else `initial`. */
  function Newest(b: seq<Entry>, n: nat, x: nat, initial: int): int
    requires n <= |b|
  {
    if n == 0 then initial else if b[n - 1].loc == x then b[n - 1].val else Newest(b, n - 1, x, initial)
  }

  function Load(m: Machine, t: nat, x: nat): int
  {
    Newest(Buffer(m, t), |Buffer(m, t)|, x, Memory(m, x))
  }
}

/** The unsynchronised producer and consumer on that memory, stores issued in source order. */
module BrokenMessagePassing {
  import opened StoreBuffer

  const FLAG: nat := 0
  const PRODUCER: nat := 0
  const CONSUMER: nat := 1

  datatype State = State(m: Machine, issued: nat, left: bool, observed: seq<Entry>)

  datatype Action = Produce | Drain(k: nat) | Spin | Read(x: nat)

  const Start := State(Zeroed, 0, false, [])

  /** The producer's stores: the payload, then flag = 1. */
  function Stores(payload: seq<Entry>): seq<Entry> { payload + [Entry(FLAG, 1)] }

  predicate PayloadOk(payload: seq<Entry>) { forall k :: 0 <= k < |payload| ==> payload[k].loc != FLAG }

  predicate Enabled(o: Order, payload: seq<Entry>, s: State, a: Action)
  {
    match a
    case Produce => s.issued <= |payload|
    case Drain(k) => CanFlush(o, s.m, PRODUCER, k)
    case Spin => !s.left
    case Read(x) => s.left && x != FLAG
  }

  function Next(o: Order, payload: seq<Entry>, s: State, a: Action): State
    requires Enabled(o, payload, s, a)
  {
    match a
    case Produce => s.(m := Store(o, s.m, PRODUCER, Stores(payload)[s.issued]), issued := s.issued + 1)
    case Drain(k) => s.(m := Flush(s.m, PRODUCER, k))
    case Spin => s.(left := Load(s.m, CONSUMER, FLAG) != 0)
    case Read(x) => s.(observed := s.observed + [Entry(x, Load(s.m, CONSUMER, x))])
  }

  predicate Legal(o: Order, payload: seq<Entry>, s: State, run: seq<Action>)
    decreases |run|
  {
    run == [] || (Enabled(o, payload, s, run[0]) && Legal(o, payload, Next(o, payload, s, run[0]), run[1..]))
  }

  function Exec(o: Order, payload: seq<Entry>, s: State, run: seq<Action>): State
    requires Legal(o, payload, s, run)
    decreases |run|
  {
    if run == [] then s else Exec(o, payload, Next(o, payload, s, run[0]), run[1..])
  }

  /** The value the payload leaves in x. */
  function Published(payload: seq<Entry>, x: nat): int { Newest(payload, |payload|, x, 0) }

  ghost predicate AllPublished(payload: seq<Entry>, observed: seq<Entry>)
  {
    forall k :: 0 <= k < |observed| ==> observed[k].val == Published(payload, observed[k].loc)
  }

  // ---------- Store order kept: the payload always arrives before the flag ----------

  /** The first `flushed` stores are in memory, the next ones up to `issued` in the buffer, in order. */
  ghost predicate Split(payload: seq<Entry>, s: State, flushed: nat)
  {
    && flushed <= s.issued <= |payload| + 1
    && Buffer(s.m, PRODUCER) == Stores(payload)[flushed..s.issued]
    && Buffer(s.m, CONSUMER) == []
    && (forall x :: Memory(s.m, x) == Newest(Stores(payload), flushed, x, 0))
    && (s.left ==> flushed == |payload| + 1)
  }

  ghost predicate Inv(payload: seq<Entry>, s: State)
  {
    PayloadOk(payload) && AllPublished(payload, s.observed) && exists flushed: nat :: Split(payload, s, flushed)
  }

  lemma {:induction false} FlagStillZero(payload: seq<Entry>, n: nat)
    requires PayloadOk(payload) && n <= |payload|
    ensures Newest(Stores(payload), n, FLAG, 0) == 0
  {
    if n > 0 { FlagStillZero(payload, n - 1); }
  }

  lemma {:induction false} PayloadPrefix(payload: seq<Entry>, n: nat, x: nat)
    requires n <= |payload|
    ensures Newest(Stores(payload), n, x, 0) == Newest(payload, n, x, 0)
  {
    if n > 0 { PayloadPrefix(payload, n - 1, x); }
  }

  lemma ProduceSplit(o: Order, payload: seq<Entry>, s: State, flushed: nat)
    requires Split(payload, s, flushed) && Enabled(o, payload, s, Produce)
    requires o.Direct? ==> Buffer(s.m, PRODUCER) == []
    ensures Split(payload, Next(o, payload, s, Produce), if o.Direct? then flushed + 1 else flushed)
  {
    var all := Stores(payload);
    assert all[flushed..s.issued + 1] == all[flushed..s.issued] + [all[s.issued]];
    if o.Direct? {
      var r := Next(o, payload, s, Produce);
      assert flushed == s.issued && all[flushed + 1..s.issued + 1] == [];
      forall x ensures Memory(r.m, x) == Newest(all, flushed + 1, x, 0) {
        assert Memory(s.m, x) == Newest(all, flushed, x, 0);
      }
    }
  }

  lemma DrainSplit(payload: seq<Entry>, s: State, flushed: nat)
    requires Split(payload, s, flushed) && Buffer(s.m, PRODUCER) != []
    ensures Split(payload, State(Flush(s.m, PRODUCER, 0), s.issued, s.left, s.observed), flushed + 1)
  {
    var all, b := Stores(payload), Buffer(s.m, PRODUCER);
    assert b[0] == all[flushed] && b[..0] + b[1..] == all[flushed + 1..s.issued];
    forall x ensures Memory(Flush(s.m, PRODUCER, 0), x) == Newest(all, flushed + 1, x, 0) {
      assert Memory(s.m, x) == Newest(all, flushed, x, 0);
    }
  }

  /** Leaving the loop means that the flag, and so everything before it, has been flushed. */
  lemma SpinSplit(o: Order, payload: seq<Entry>, s: State, flushed: nat)
    requires PayloadOk(payload) && Split(payload, s, flushed) && Enabled(o, payload, s, Spin)
    ensures Split(payload, Next(o, payload, s, Spin), flushed)
  {
    if flushed <= |payload| { FlagStillZero(payload, flushed); }
  }

  lemma ReadPublished(o: Order, payload: seq<Entry>, s: State, x: nat, flushed: nat)
    requires AllPublished(payload, s.observed) && Split(payload, s, flushed) && Enabled(o, payload, s, Read(x))
    ensures var r := Next(o, payload, s, Read(x));
            Split(payload, r, flushed) && AllPublished(payload, r.observed) && r.m == s.m
  {
    PayloadPrefix(payload, |payload|, x);
  }

  lemma ProduceInv(o: Order, payload: seq<Entry>, s: State, flushed: nat)
    requires PayloadOk(payload) && AllPublished(payload, s.observed) && Split(payload, s, flushed)
    requires Enabled(o, payload, s, Produce) && (o.Direct? ==> Buffer(s.m, PRODUCER) == [])
    ensures Inv(payload, Next(o, payload, s, Produce))
  {
    ProduceSplit(o, payload, s, flushed);
  }

  lemma DrainInv(o: Order, payload: seq<Entry>, s: State, k: nat, flushed: nat)
    requires PayloadOk(payload) && AllPublished(payload, s.observed) && Split(payload, s, flushed)
    requires o.Fifo? && Enabled(o, payload, s, Drain(k))
    ensures Inv(payload, Next(o, payload, s, Drain(k)))
  {
    DrainSplit(payload, s, flushed);
  }

  lemma SpinInv(o: Order, payload: seq<Entry>, s: State, flushed: nat)
    requires PayloadOk(payload) && AllPublished(payload, s.observed) && Split(payload, s, flushed)
    requires Enabled(o, payload, s, Spin)
    ensures Inv(payload, Next(o, payload, s, Spin))
  {
    SpinSplit(o, payload, s, flushed);
  }

  lemma ReadInv(o: Order, payload: seq<Entry>, s: State, x: nat, flushed: nat)
    requires PayloadOk(payload) && AllPublished(payload, s.observed) && Split(payload, s, flushed)
    requires Enabled(o, payload, s, Read(x))
    ensures Inv(payload, Next(o, payload, s, Read(x)))
  {
    ReadPublished(o, payload, s, x, flushed);
  }

  /** Without buffers nothing is ever buffered. */
  lemma StaysDirect(payload: seq<Entry>, s: State, a: Action)
    requires Enabled(Direct, payload, s, a) && Buffer(s.m, PRODUCER) == []
    ensures Buffer(Next(Direct, payload, s, a).m, PRODUCER) == []
  {
  }

  lemma StepInv(o: Order, payload: seq<Entry>, s: State, a: Action)
    requires !o.PerLocation? && Inv(payload, s) && Enabled(o, payload, s, a)
    requires o.Direct? ==> Buffer(s.m, PRODUCER) == []
    ensures Inv(payload, Next(o, payload, s, a))
    ensures o.Direct? ==> Buffer(Next(o, payload, s, a).m, PRODUCER) == []
  {
    if o.Direct? { StaysDirect(payload, s, a); }
    var flushed: nat :| Split(payload, s, flushed);
    match a
    case Produce => ProduceInv(o, payload, s, flushed);
    case Drain(k) => DrainInv(o, payload, s, k, flushed);
    case Spin => SpinInv(o, payload, s, flushed);
    case Read(x) => ReadInv(o, payload, s, x, flushed);
  }

  lemma {:induction false} RunInv(o: Order, payload: seq<Entry>, s: State, run: seq<Action>)
    requires !o.PerLocation? && Inv(payload, s) && Legal(o, payload, s, run)
    requires o.Direct? ==> Buffer(s.m, PRODUCER) == []
    ensures AllPublished(payload, Exec(o, payload, s, run).observed)
    decreases |run|
  {
    if run != [] {
      StepInv(o, payload, s, run[0]);
      RunInv(o, payload, Next(o, payload, s, run[0]), run[1..]);
    }
  }

  /** Under total store order a consumer that has seen the flag reads every payload store. */
  lemma {:induction false} TsoMasksTheBug(payload: seq<Entry>, run: seq<Action>)
    requires PayloadOk(payload) && Legal(Fifo, payload, Start, run)
    ensures AllPublished(payload, Exec(Fifo, payload, Start, run).observed)
  {
    assert Split(payload, Start, 0);
    RunInv(Fifo, payload, Start, run);
  }

  // ---------- Store order dropped between locations ----------

  ghost predicate Reaches(o: Order, payload: seq<Entry>, a: State, s: State)
  {
    exists run: seq<Action> :: Legal(o, payload, a, run) && Exec(o, payload, a, run) == s
  }

  lemma {:induction false} Extend(o: Order, payload: seq<Entry>, s: State, run: seq<Action>, a: Action)
    requires Legal(o, payload, s, run) && Enabled(o, payload, Exec(o, payload, s, run), a)
    ensures Legal(o, payload, s, run + [a])
    ensures Exec(o, payload, s, run + [a]) == Next(o, payload, Exec(o, payload, s, run), a)
    decreases |run|
  {
    if run == [] {
      var one, r := run + [a], Next(o, payload, s, a);
      assert one[1..] == [] && Legal(o, payload, r, []) && Exec(o, payload, r, []) == r;
    } else {
      assert (run + [a])[1..] == run[1..] + [a];
      Extend(o, payload, Next(o, payload, s, run[0]), run[1..], a);
    }
  }

  lemma ReachNext(o: Order, payload: seq<Entry>, a: State, s: State, act: Action)
    requires Reaches(o, payload, a, s) && Enabled(o, payload, s, act)
    ensures Reaches(o, payload, a, Next(o, payload, s, act))
  {
    var run: seq<Action> :| Legal(o, payload, a, run) && Exec(o, payload, a, run) == s;
    Extend(o, payload, a, run, act);
  }

  /** The first d stores have been issued and flushed, the consumer has not moved. */
  ghost predicate Flushed(payload: seq<Entry>, s: State, d: nat)
  {
    Split(payload, s, d) && !s.left && s.observed == []
  }

  /** The first d stores are issued and reach memory one after the other, on any memory. */
  lemma {:induction false} FlushPrefix(o: Order, payload: seq<Entry>, d: nat) returns (s: State)
    requires d <= |payload| + 1
    ensures Reaches(o, payload, Start, s) && Flushed(payload, s, d) && s.issued == d
    decreases d
  {
    if d == 0 {
      s := Start;
      assert Legal(o, payload, s, []) && Exec(o, payload, s, []) == s;
    } else {
      var s0 := FlushPrefix(o, payload, d - 1);
      s := IssueAndFlush(o, payload, s0, d - 1);
    }
  }

  lemma IssueAndFlush(o: Order, payload: seq<Entry>, s0: State, d: nat) returns (s: State)
    requires d <= |payload|
    requires Reaches(o, payload, Start, s0) && Flushed(payload, s0, d) && s0.issued == d
    ensures Reaches(o, payload, Start, s) && Flushed(payload, s, d + 1) && s.issued == d + 1
  {
    ProduceSplit(o, payload, s0, d);
    ReachNext(o, payload, Start, s0, Produce);
    s := Next(o, payload, s0, Produce);
    if !o.Direct? {
      DrainSplit(payload, s, d);
      ReachNext(o, payload, Start, s, Drain(0));
      s := Next(o, payload, s, Drain(0));
    }
  }

  /** The remaining stores, the flag among them, are issued and wait in the buffer. */
  lemma {:induction false} IssueRest(payload: seq<Entry>, s0: State, d: nat) returns (s: State)
    requires Reaches(PerLocation, payload, Start, s0) && Flushed(payload, s0, d)
    ensures Reaches(PerLocation, payload, Start, s) && Flushed(payload, s, d) && s.issued == |payload| + 1
    decreases |payload| + 1 - s0.issued
  {
    if s0.issued == |payload| + 1 {
      s := s0;
    } else {
      ProduceSplit(PerLocation, payload, s0, d);
      ReachNext(PerLocation, payload, Start, s0, Produce);
      s := IssueRest(payload, Next(PerLocation, payload, s0, Produce), d);
    }
  }

  /** The flag leaves the buffer ahead of the payload stores before it. */
  lemma FlagFirst(payload: seq<Entry>, s: State, d: nat)
    requires PayloadOk(payload) && d <= |payload| && Flushed(payload, s, d) && s.issued == |payload| + 1
    ensures var k := |payload| - d;
            && Enabled(PerLocation, payload, s, Drain(k))
            && var m := Flush(s.m, PRODUCER, k);
               && Memory(m, FLAG) == 1 && Buffer(m, CONSUMER) == []
               && forall x :: x != FLAG ==> Memory(m, x) == Memory(s.m, x)
  {
    var b, k := Buffer(s.m, PRODUCER), |payload| - d;
    assert |b| == k + 1 && b[k] == Entry(FLAG, 1);
    assert forall j :: 0 <= j < k ==> b[j] == payload[d + j];
  }

  lemma SpinAndRead(o: Order, payload: seq<Entry>, s: State, x: nat) returns (r: State)
    requires Reaches(o, payload, Start, s) && x != FLAG && !s.left && s.observed == []
    requires Memory(s.m, FLAG) == 1 && Buffer(s.m, CONSUMER) == []
    ensures Reaches(o, payload, Start, r) && r.observed == [Entry(x, Memory(s.m, x))]
  {
    ReachNext(o, payload, Start, s, Spin);
    var s1 := Next(o, payload, s, Spin);
    ReachNext(o, payload, Start, s1, Read(x));
    r := Next(o, payload, s1, Read(x));
  }

  /** On every memory some run leaves the loop and observes the published value. */
  lemma ObservesPublished(o: Order, payload: seq<Entry>, x: nat) returns (s: State)
    requires PayloadOk(payload) && x != FLAG
    ensures Reaches(o, payload, Start, s) && s.observed == [Entry(x, Published(payload, x))]
  {
    var s0 := FlushPrefix(o, payload, |payload| + 1);
    assert Memory(s0.m, FLAG) == 1;
    s := SpinAndRead(o, payload, s0, x);
    PayloadPrefix(payload, |payload|, x);
    assert Memory(s0.m, x) == Newest(Stores(payload), |payload| + 1, x, 0);
  }

  /**
   Without order between locations the flag can overtake the payload from any store on: for every
   location, the consumer can observe what the first d stores left there.
   */
  lemma FlagOvertakes(payload: seq<Entry>, d: nat, x: nat) returns (s: State)
    requires PayloadOk(payload) && d <= |payload| && x != FLAG
    ensures Reaches(PerLocation, payload, Start, s) && s.observed == [Entry(x, Newest(payload, d, x, 0))]
  {
    var s0 := FlushPrefix(PerLocation, payload, d);
    var s1 := IssueRest(payload, s0, d);
    FlagFirst(payload, s1, d);
    ReachNext(PerLocation, payload, Start, s1, Drain(|payload| - d));
    s := SpinAndRead(PerLocation, payload, Next(PerLocation, payload, s1, Drain(|payload| - d)), x);
    PayloadPrefix(payload, d, x);
  }

  // ---------- Payloads of zeros ----------

  predicate AllZero(payload: seq<Entry>) { forall k :: 0 <= k < |payload| ==> payload[k].val == 0 }

  lemma {:induction false} ZeroPublished(payload: seq<Entry>, n: nat, x: nat)
    requires n <= |payload| && AllZero(payload)
    ensures Newest(payload, n, x, 0) == 0
  {
    if n > 0 { ZeroPublished(payload, n - 1, x); }
  }

  predicate ZeroBuffer(b: seq<Entry>) { forall j :: 0 <= j < |b| ==> b[j].loc == FLAG || b[j].val == 0 }

  /** Nothing but zeros is ever stored outside the flag. */
  ghost predicate Zeros(s: State)
  {
    && ZeroBuffer(Buffer(s.m, PRODUCER))
    && Buffer(s.m, CONSUMER) == []
    && (forall x :: x != FLAG ==> Memory(s.m, x) == 0)
    && (forall k :: 0 <= k < |s.observed| ==> s.observed[k].val == 0)
  }

  lemma ZeroDrain(s: State, k: nat)
    requires Zeros(s) && k < |Buffer(s.m, PRODUCER)|
    ensures Zeros(s.(m := Flush(s.m, PRODUCER, k)))
  {
    var b := Buffer(s.m, PRODUCER);
    var rest := b[..k] + b[k + 1..];
    assert forall j :: 0 <= j < |rest| ==> rest[j] == b[if j < k then j else j + 1];
    var m := Flush(s.m, PRODUCER, k);
    assert b[k].loc == FLAG || b[k].val == 0;
    assert Buffer(m, PRODUCER) == rest && ZeroBuffer(rest);
    assert Buffer(m, CONSUMER) == [];
    forall x | x != FLAG ensures Memory(m, x) == 0 { assert Memory(s.m, x) == 0; }
  }

  lemma ZeroProduce(o: Order, payload: seq<Entry>, s: State)
    requires AllZero(payload) && Zeros(s) && Enabled(o, payload, s, Produce)
    ensures Zeros(Next(o, payload, s, Produce))
  {
    var e := Stores(payload)[s.issued];
    assert e.loc == FLAG || e.val == 0;
    var m := Store(o, s.m, PRODUCER, e);
    assert ZeroBuffer(Buffer(m, PRODUCER));
    forall x | x != FLAG ensures Memory(m, x) == 0 { assert Memory(s.m, x) == 0; }
  }

  lemma ZeroStep(o: Order, payload: seq<Entry>, s: State, a: Action)
    requires AllZero(payload) && Zeros(s) && Enabled(o, payload, s, a)
    ensures Zeros(Next(o, payload, s, a))
  {
    match a
    case Produce => ZeroProduce(o, payload, s);
    case Drain(k) => ZeroDrain(s, k);
    case Spin =>
    case Read(x) =>
  }

  lemma {:induction false} ZeroRun(o: Order, payload: seq<Entry>, s: State, run: seq<Action>)
    requires AllZero(payload) && Zeros(s) && Legal(o, payload, s, run)
    ensures Zeros(Exec(o, payload, s, run))
    decreases |run|
  {
    if run != [] {
      ZeroStep(o, payload, s, run[0]);
      ZeroRun(o, payload, Next(o, payload, s, run[0]), run[1..]);
    }
  }

  // ---------- The exact condition ----------

  ghost predicate Masked(o: Order, payload: seq<Entry>)
  {
    forall run: seq<Action> :: Legal(o, payload, Start, run) ==>
      AllPublished(payload, Exec(o, payload, Start, run).observed)
  }

  /** Some store is not 0: the consumer can miss it, or see it although it is overwritten later. */
  lemma NotMasked(payload: seq<Entry>, k: nat)
    requires PayloadOk(payload) && k < |payload| && payload[k].val != 0
    ensures !Masked(PerLocation, payload)
  {
    var x := payload[k].loc;
    var d := if Published(payload, x) == 0 then k + 1 else 0;
    var s := FlagOvertakes(payload, d, x);
    var run: seq<Action> :| Legal(PerLocation, payload, Start, run) && Exec(PerLocation, payload, Start, run) == s;
    assert s.observed[0] == Entry(x, Newest(payload, d, x, 0));
  }

  /** The broken version is masked exactly by memories that keep stores in order, zeros apart. */
  lemma {:induction false} MaskedIffStoreOrder(o: Order, payload: seq<Entry>)
    requires PayloadOk(payload)
    ensures Masked(o, payload) <==> !o.PerLocation? || AllZero(payload)
  {
    if !o.PerLocation? {
      assert Split(payload, Start, 0);
      forall run: seq<Action> | Legal(o, payload, Start, run)
        ensures AllPublished(payload, Exec(o, payload, Start, run).observed)
      {
        RunInv(o, payload, Start, run);
      }
    } else if AllZero(payload) {
      forall run: seq<Action> | Legal(o, payload, Start, run)
        ensures AllPublished(payload, Exec(o, payload, Start, run).observed)
      {
        ZeroRun(o, payload, Start, run);
        forall x ensures Published(payload, x) == 0 { ZeroPublished(payload, |payload|, x); }
      }
    } else {
      var k :| 0 <= k < |payload| && payload[k].val != 0;
      NotMasked(payload, k);
    }
  }
}

/**
 The one reordering x86 allows: a load may pass an earlier store of the same thread. Each of two
 threads stores 1 to its own location and then loads the other's.
 */
module StoreLoadHole {
  import opened StoreBuffer

  /** pc[t] is 0 before thread t's store, 1 before its load, 2 when done; got[t] is what it loaded. */
  datatype State = State(m: Machine, pc: seq<nat>, got: seq<int>)

  datatype Action = Step(t: nat) | Drain(t: nat, k: nat)

  const Start := State(Zeroed, [0, 0], [0, 0])

  predicate Enabled(o: Order, s: State, a: Action)
  {
    && |s.pc| == |s.got| == 2 && a.t < 2
    && match a
       case Step(t) => s.pc[t] < 2
       case Drain(t, k) => CanFlush(o, s.m, t, k)
  }

  function Next(o: Order, s: State, a: Action): State
    requires Enabled(o, s, a)
  {
    match a
    case Step(t) =>
      if s.pc[t] == 0 then s.(m := Store(o, s.m, t, Entry(t, 1)), pc := s.pc[t := 1])
      else s.(pc := s.pc[t := 2], got := s.got[t := Load(s.m, t, 1 - t)])
    case Drain(t, k) => s.(m := Flush(s.m, t, k))
  }

  predicate Legal(o: Order, s: State, run: seq<Action>)
    decreases |run|
  {
    run == [] || (Enabled(o, s, run[0]) && Legal(o, Next(o, s, run[0]), run[1..]))
  }

  function Exec(o: Order, s: State, run: seq<Action>): State
    requires Legal(o, s, run)
    decreases |run|
  {
    if run == [] then s else Exec(o, Next(o, s, run[0]), run[1..])
  }

  predicate BothMissed(s: State) { s.pc == [2, 2] && s.got == [0, 0] }

  /** Without buffers a store is visible before its thread's load. */
  ghost predicate Inv(s: State)
  {
    && |s.pc| == |s.got| == 2 && s.pc[0] <= 2 && s.pc[1] <= 2
    && Buffer(s.m, 0) == Buffer(s.m, 1) == []
    && (s.pc[0] >= 1 ==> Memory(s.m, 0) == 1)
    && (s.pc[1] >= 1 ==> Memory(s.m, 1) == 1)
    && (s.pc[0] == s.pc[1] == 2 ==> s.got[0] == 1 || s.got[1] == 1)
  }

  lemma {:induction false} DirectRun(s: State, run: seq<Action>)
    requires Inv(s) && Legal(Direct, s, run)
    ensures Inv(Exec(Direct, s, run))
    decreases |run|
  {
    if run != [] {
      assert run[0].Step?;
      DirectRun(Next(Direct, s, run[0]), run[1..]);
    }
  }

  lemma HoleRun(o: Order) returns (run: seq<Action>)
    requires !o.Direct?
    ensures Legal(o, Start, run) && BothMissed(Exec(o, Start, run))
  {
    run := [Step(0), Step(1), Step(0), Step(1)];
    var s1 := Next(o, Start, Step(0));
    var s2 := Next(o, s1, Step(1));
    var s3 := Next(o, s2, Step(0));
    var s4 := Next(o, s3, Step(1));
    assert Buffer(s2.m, 0) == [Entry(0, 1)] && Buffer(s2.m, 1) == [Entry(1, 1)];
    assert Load(s2.m, 0, 1) == Newest(Buffer(s2.m, 0), 0, 1, 0) && Load(s2.m, 1, 0) == Newest(Buffer(s2.m, 1), 0, 0, 0);
    assert s3.got == [0, 0] && s4.got == [0, 0] && s4.pc == [2, 2];
    var b, c, d := [Step(1), Step(0), Step(1)], [Step(0), Step(1)], [Step(1)];
    assert run[1..] == b && b[1..] == c && c[1..] == d && d[1..] == [];
    assert Legal(o, s4, []) && Exec(o, s4, []) == s4;
    assert Legal(o, s3, d) && Exec(o, s3, d) == s4;
    assert Legal(o, s2, c) && Exec(o, s2, c) == s4;
    assert Legal(o, s1, b) && Exec(o, s1, b) == s4;
  }

  /** Both threads are done, having loaded these values, somewhere in this run. */
  predicate LoadsIn(o: Order, run: seq<Action>, a: int, b: int)
  {
    Legal(o, Start, run) && Exec(o, Start, run).pc == [2, 2] && Exec(o, Start, run).got == [a, b]
  }

  ghost predicate Possible(o: Order, a: int, b: int) { exists run: seq<Action> :: LoadsIn(o, run, a, b) }

  /** Both threads can miss each other's store exactly when stores are buffered. */
  lemma BothMissIffBuffered(o: Order)
    ensures Possible(o, 0, 0) <==> !o.Direct?
  {
    if o.Direct? {
      forall run: seq<Action> ensures !LoadsIn(o, run, 0, 0) {
        if Legal(o, Start, run) { DirectRun(Start, run); }
      }
    } else {
      var run := HoleRun(o);
      assert LoadsIn(o, run, 0, 0);
    }
  }

  // ---------- All outcomes ----------

  /** Everything stored, buffered or loaded is 0 or 1. */
  ghost predicate Bits(s: State)
  {
    && |s.pc| == |s.got| == 2 && 0 <= s.got[0] <= 1 && 0 <= s.got[1] <= 1
    && (forall x :: 0 <= Memory(s.m, x) <= 1)
    && BitBuffer(Buffer(s.m, 0)) && BitBuffer(Buffer(s.m, 1))
  }

  predicate BitBuffer(b: seq<Entry>) { forall j :: 0 <= j < |b| ==> b[j].val == 1 }

  lemma {:induction false} BitNewest(b: seq<Entry>, n: nat, x: nat, initial: int)
    requires n <= |b| && BitBuffer(b) && 0 <= initial <= 1
    ensures 0 <= Newest(b, n, x, initial) <= 1
  {
    if n > 0 { BitNewest(b, n - 1, x, initial); }
  }

  lemma BitDrain(s: State, t: nat, k: nat)
    requires Bits(s) && t < 2 && k < |Buffer(s.m, t)|
    ensures Bits(s.(m := Flush(s.m, t, k)))
  {
    var b := Buffer(s.m, t);
    var rest, m := b[..k] + b[k + 1..], Flush(s.m, t, k);
    assert forall j :: 0 <= j < |rest| ==> rest[j] == b[if j < k then j else j + 1];
    assert Buffer(m, t) == rest && Buffer(m, 1 - t) == Buffer(s.m, 1 - t);
    forall x ensures 0 <= Memory(m, x) <= 1 { assert 0 <= Memory(s.m, x) <= 1; }
  }

  lemma BitStep(o: Order, s: State, t: nat)
    requires Bits(s) && Enabled(o, s, Step(t))
    ensures Bits(Next(o, s, Step(t)))
  {
    if s.pc[t] == 0 {
      var m := Store(o, s.m, t, Entry(t, 1));
      forall x ensures 0 <= Memory(m, x) <= 1 { assert 0 <= Memory(s.m, x) <= 1; }
    } else {
      BitNewest(Buffer(s.m, t), |Buffer(s.m, t)|, 1 - t, Memory(s.m, 1 - t));
    }
  }

  lemma {:induction false} BitRun(o: Order, s: State, run: seq<Action>)
    requires Bits(s) && Legal(o, s, run)
    ensures Bits(Exec(o, s, run))
    decreases |run|
  {
    if run != [] {
      match run[0] {
        case Step(t) => BitStep(o, s, t);
        case Drain(t, k) => BitDrain(s, t, k);
      }
      BitRun(o, Next(o, s, run[0]), run[1..]);
    }
  }

  ghost predicate Leads(o: Order, s: State, a: int, b: int)
  {
    exists run: seq<Action> :: Legal(o, s, run) && Exec(o, s, run).pc == [2, 2] && Exec(o, s, run).got == [a, b]
  }

  lemma LeadsBefore(o: Order, s: State, act: Action, a: int, b: int)
    requires Enabled(o, s, act) && Leads(o, Next(o, s, act), a, b)
    ensures Leads(o, s, a, b)
  {
    var r := Next(o, s, act);
    var rest: seq<Action> :| Legal(o, r, rest) && Exec(o, r, rest).pc == [2, 2] && Exec(o, r, rest).got == [a, b];
    var run := [act] + rest;
    assert run[1..] == rest;
    assert Legal(o, s, run) && Exec(o, s, run) == Exec(o, r, rest);
  }

  lemma LeadsNow(o: Order, s: State)
    requires s.pc == [2, 2] && |s.got| == 2
    ensures Leads(o, s, s.got[0], s.got[1])
  {
    assert Legal(o, s, []) && Exec(o, s, []) == s && s.got == [s.got[0], s.got[1]];
  }

  /** Both buffers are empty, whether or not they have ever been used. */
  predicate Clean(s: State) { |s.pc| == |s.got| == 2 && Buffer(s.m, 0) == [] && Buffer(s.m, 1) == [] }

  /** The thread's store, flushed if it was buffered. */
  lemma StoreThrough(o: Order, s: State, t: nat) returns (r: State)
    requires t < 2 && Clean(s) && s.pc[t] == 0
    ensures Clean(r) && r.pc == s.pc[t := 1] && r.got == s.got
    ensures Memory(r.m, t) == 1 && Memory(r.m, 1 - t) == Memory(s.m, 1 - t)
    ensures forall a, b :: Leads(o, r, a, b) ==> Leads(o, s, a, b)
  {
    var s1 := Next(o, s, Step(t));
    r := s1;
    if !o.Direct? {
      var buf := Buffer(s1.m, t);
      assert buf == [Entry(t, 1)] && buf[..0] + buf[1..] == [];
      r := Next(o, s1, Drain(t, 0));
      forall a, b | Leads(o, r, a, b) ensures Leads(o, s1, a, b) { LeadsBefore(o, s1, Drain(t, 0), a, b); }
    }
    forall a, b | Leads(o, r, a, b) ensures Leads(o, s, a, b) { LeadsBefore(o, s, Step(t), a, b); }
  }

  lemma LoadNow(o: Order, s: State, t: nat) returns (r: State)
    requires t < 2 && Clean(s) && s.pc[t] == 1
    ensures Clean(r) && r.pc == s.pc[t := 2] && r.got == s.got[t := Memory(s.m, 1 - t)] && r.m == s.m
    ensures forall a, b :: Leads(o, r, a, b) ==> Leads(o, s, a, b)
  {
    r := Next(o, s, Step(t));
    forall a, b | Leads(o, r, a, b) ensures Leads(o, s, a, b) { LeadsBefore(o, s, Step(t), a, b); }
  }

  /** One thread runs to its end before the other starts. */
  lemma OneAfterTheOther(o: Order, t: nat)
    requires t < 2
    ensures if t == 0 then Possible(o, 0, 1) else Possible(o, 1, 0)
  {
    var s1 := StoreThrough(o, Start, t);
    var s2 := LoadNow(o, s1, t);
    var s3 := StoreThrough(o, s2, 1 - t);
    var s4 := LoadNow(o, s3, 1 - t);
    LeadsNow(o, s4);
    assert Leads(o, Start, s4.got[0], s4.got[1]);
    FromStart(o, s4.got[0], s4.got[1]);
  }

  /** Both store before either loads. */
  lemma BothSee(o: Order)
    ensures Possible(o, 1, 1)
  {
    var s1 := StoreThrough(o, Start, 0);
    var s2 := StoreThrough(o, s1, 1);
    var s3 := LoadNow(o, s2, 0);
    var s4 := LoadNow(o, s3, 1);
    LeadsNow(o, s4);
    FromStart(o, 1, 1);
  }

  lemma FromStart(o: Order, a: int, b: int)
    requires Leads(o, Start, a, b)
    ensures Possible(o, a, b)
  {
    var run: seq<Action> :|
      Legal(o, Start, run) && Exec(o, Start, run).pc == [2, 2] && Exec(o, Start, run).got == [a, b];
    assert LoadsIn(o, run, a, b);
  }

  /** The possible pairs of loaded values are those of 0 and 1, save (0, 0) when nothing is buffered. */
  lemma OutcomesExactly(o: Order, a: int, b: int)
    ensures Possible(o, a, b) <==> 0 <= a <= 1 && 0 <= b <= 1 && (a == 1 || b == 1 || !o.Direct?)
  {
    BothMissIffBuffered(o);
    BothSee(o);
    OneAfterTheOther(o, 0);
    OneAfterTheOther(o, 1);
    forall run: seq<Action> | LoadsIn(o, run, a, b) ensures 0 <= a <= 1 && 0 <= b <= 1 {
      BitRun(o, Start, run);
    }
  }
}
