/** Exactly which of the queue's four memory orders are needed to keep its slots free of data races. */
module SpscOrders {
  import opened Arithmetic
  import opened RingIndex
  import opened ViewMemory
  import opened SpscQueue
  import opened SpscIndices
  import opened SpscSides
  import opened SpscInvariant
  import opened SpscProgress

  // ---------- A side whose partner's index is not ordered learns nothing ----------

  /** Thread t knows no plain access of u, and no message of x it acquires could teach it one. */
  ghost predicate Deaf(m: Mem, t: nat, u: nat, x: nat, acquire: bool)
  {
    && At(ViewOf(m, t).clock, u) == 0
    && (acquire ==> forall k: nat :: k <= Newest(m, x) ==> At(Message(m, x, k).view.clock, u) == 0)
  }

  /** Loads of t either join nothing or join a message of x. */
  lemma DeafLoad(m: Mem, t: nat, u: nat, x: nat, acquire: bool, actor: nat, y: nat, i: nat, acq: bool)
    requires Deaf(m, t, u, x, acquire) && CanRead(m, actor, y, i)
    requires actor == t && acq ==> y == x && acquire
    ensures Deaf(Load(m, actor, y, i, acq), t, u, x, acquire)
  {
    var r := Load(m, actor, y, i, acq);
    assert forall k: nat :: k <= Newest(m, x) ==> Message(r, x, k) == Message(m, x, k);
  }

  lemma DeafStore(m: Mem, t: nat, u: nat, x: nat, acquire: bool, actor: nat, y: nat, val: int, release: bool)
    requires Deaf(m, t, u, x, acquire) && (y == x ==> !(release && acquire))
    ensures Deaf(Store(m, actor, y, val, release), t, u, x, acquire)
  {
    var r := Store(m, actor, y, val, release);
    assert At(ViewOf(r, t).clock, u) == 0;
    forall k: nat | acquire && k <= Newest(r, x) ensures At(Message(r, x, k).view.clock, u) == 0 {
      if k <= Newest(m, x) { assert Message(r, x, k) == Message(m, x, k); }
    }
  }

  lemma DeafWrite(m: Mem, t: nat, u: nat, x: nat, acquire: bool, actor: nat, y: nat, val: int)
    requires Deaf(m, t, u, x, acquire) && t != u && y != x
    ensures Deaf(PlainWrite(m, actor, y, val), t, u, x, acquire)
  {
    var r := PlainWrite(m, actor, y, val);
    assert forall k: nat :: k <= Newest(m, x) ==> Message(r, x, k) == Message(m, x, k);
  }

  lemma DeafRead(m: Mem, t: nat, u: nat, x: nat, acquire: bool, actor: nat, y: nat, i: nat)
    requires Deaf(m, t, u, x, acquire) && t != u && CanRead(m, actor, y, i)
    ensures Deaf(PlainRead(m, actor, y, i), t, u, x, acquire)
  {
    var r := PlainRead(m, actor, y, i);
    assert forall k: nat :: k <= Newest(m, x) ==> Message(r, x, k) == Message(m, x, k);
  }

  predicate Acquires(d: Side, o: Orders) { if d.Head? then o.headAcquire else o.tailAcquire }

  ghost predicate DeafSide(d: Side, s: State)
  {
    Deaf(s.mem, Other(d), Owner(d), Index(d), Acquires(d, s.orders))
  }

  lemma ProduceDeaf(d: Side, s: State, i: nat)
    requires Enabled(s, Produce(i)) && DeafSide(d, s) && !Ordered(d, s.orders)
    ensures DeafSide(d, ProduceNext(s, i))
  {
    var t, u, x, acquire, o := Other(d), Owner(d), Index(d), Acquires(d, s.orders), s.orders;
    match s.prod
    case LoadHead => DeafLoad(s.mem, t, u, x, acquire, PRODUCER, HEAD, i, false);
    case LoadTail(_) => DeafLoad(s.mem, t, u, x, acquire, PRODUCER, TAIL, i, o.tailAcquire);
    case WriteSlot(h) => DeafWrite(s.mem, t, u, x, acquire, PRODUCER, Buffer(h), s.input[s.sent]);
    case StoreHead(h) => DeafStore(s.mem, t, u, x, acquire, PRODUCER, HEAD, Mask(h + 1, s.bits), o.headRelease);
  }

  lemma ConsumeDeaf(d: Side, s: State, i: nat)
    requires Enabled(s, Consume(i)) && DeafSide(d, s) && !Ordered(d, s.orders)
    ensures DeafSide(d, ConsumeNext(s, i))
  {
    var t, u, x, acquire, o := Other(d), Owner(d), Index(d), Acquires(d, s.orders), s.orders;
    match s.cons
    case LoadOwnTail => DeafLoad(s.mem, t, u, x, acquire, CONSUMER, TAIL, i, false);
    case LoadPublished(_) => DeafLoad(s.mem, t, u, x, acquire, CONSUMER, HEAD, i, o.headAcquire);
    case ReadSlot(h) => DeafRead(s.mem, t, u, x, acquire, CONSUMER, Buffer(h), i);
    case StoreTail(h, _) => DeafStore(s.mem, t, u, x, acquire, CONSUMER, TAIL, Mask(h + 1, s.bits), o.tailRelease);
  }

  lemma DeafStep(d: Side, s: State, a: Action)
    requires Enabled(s, a) && DeafSide(d, s) && !Ordered(d, s.orders)
    ensures DeafSide(d, Next(s, a))
  {
    match a
    case Produce(i) => ProduceDeaf(d, s, i);
    case Consume(i) => ConsumeDeaf(d, s, i);
  }

  // ---------- Slot 0 remembers its first write and its first read ----------

  predicate Marked(v: Vec, t: nat) { At(v, t) > 0 }

  ghost predicate FirstSlot(s: State)
  {
    && (Written(s) >= 1 ==> Marked(Writes(s.mem, Buffer(0)), PRODUCER))
    && (Taken(s) >= 1 ==> Marked(Reads(s.mem, Buffer(0)), CONSUMER))
  }

  /** Marks are never erased, and an access of slot 0 leaves one. */
  lemma WriteMark(s: State, a: Action)
    requires Enabled(s, a)
    ensures Marked(Writes(s.mem, Buffer(0)), PRODUCER) || (a.Produce? && s.prod == WriteSlot(0)) ==>
              Marked(Writes(Next(s, a).mem, Buffer(0)), PRODUCER)
  {
  }

  lemma ReadMark(s: State, a: Action)
    requires Enabled(s, a)
    ensures Marked(Reads(s.mem, Buffer(0)), CONSUMER) || (a.Consume? && s.cons == ReadSlot(0)) ==>
              Marked(Reads(Next(s, a).mem, Buffer(0)), CONSUMER)
  {
  }

  lemma FirstSlotStep(s: State, a: Action)
    requires Indices(s) && Enabled(s, a) && FirstSlot(s)
    ensures FirstSlot(Next(s, a))
  {
    WriteMark(s, a);
    ReadMark(s, a);
    match a
    case Produce(i) => ProducerFrame(s, i);
    case Consume(i) => ConsumerFrame(s, i);
  }

  // ---------- Runs into a race ----------

  ghost predicate History(s: State)
  {
    && Indices(s) && FirstSlot(s)
    && (!HeadOrdered(s.orders) ==> DeafSide(Head, s))
    && (!TailOrdered(s.orders) ==> DeafSide(Tail, s))
  }

  lemma HistoryStep(s: State, a: Action)
    requires History(s) && Enabled(s, a)
    ensures History(Next(s, a))
  {
    StepIndices(s, a);
    FirstSlotStep(s, a);
    if !HeadOrdered(s.orders) { DeafStep(Head, s, a); }
    if !TailOrdered(s.orders) { DeafStep(Tail, s, a); }
  }

  /** Some continuation of s reaches a data race. */
  ghost predicate CanRace(s: State)
  {
    exists run: seq<Action> :: Legal(s, run) && Exec(s, run).mem.racy
  }

  lemma RaceBefore(s: State, a: Action)
    requires Enabled(s, a) && CanRace(Next(s, a))
    ensures CanRace(s)
  {
    var rest: seq<Action> :| Legal(Next(s, a), rest) && Exec(Next(s, a), rest).mem.racy;
    var run := [a] + rest;
    assert run[1..] == rest;
    assert Legal(s, run) && Exec(s, run).mem.racy;
  }

  lemma RaceNow(s: State)
    requires s.mem.racy
    ensures CanRace(s)
  {
    assert Legal(s, []) && Exec(s, []).mem.racy;
  }

  /** A consumer that knows no write of the producer races on its first slot read. */
  lemma FirstReadRaces(s: State)
    requires History(s) && !HeadOrdered(s.orders) && s.cons.ReadSlot? && T(s) == 0
    ensures CanRace(s)
  {
    var i := Newest(s.mem, Buffer(0));
    assert Within(s.mem, ViewOf(s.mem, CONSUMER));
    RaceNow(Next(s, Consume(i)));
    RaceBefore(s, Consume(i));
  }

  /** A producer that knows no read of the consumer races when it comes round to slot 0 again. */
  lemma SecondTurnRaces(s: State)
    requires History(s) && !TailOrdered(s.orders) && s.prod.WriteSlot? && H(s) == Size(s)
    ensures CanRace(s)
  {
    SlotPeriod(0, Size(s));
    RaceNow(Next(s, Produce(0)));
    RaceBefore(s, Produce(0));
  }

  /** What a step can do to the loop counters and program points. */
  predicate Shape(s: State, r: State)
  {
    && r.bits == s.bits && r.input == s.input && r.orders == s.orders
    && (r.cons.StoreTail? ==> s.cons.StoreTail? || s.cons.ReadSlot?)
    && (r.out == s.out || s.cons.StoreTail?)
    && (r.prod.StoreHead? ==> r.sent == s.sent && (s.prod.StoreHead? || s.prod.WriteSlot?))
    && (r.sent == s.sent || (s.prod.StoreHead? && r.sent == s.sent + 1))
  }

  lemma StepShape(s: State, a: Action)
    requires Enabled(s, a)
    ensures Shape(s, Next(s, a))
  {
  }

  /** A step towards delivery; and what it changes. */
  lemma Pursue(s: State) returns (r: State, a: Action)
    requires History(s) && s.bits >= 1 && |s.out| < |s.input|
    ensures Enabled(s, a) && r == Next(s, a) && History(r) && Shape(s, r) && 0 <= Remaining(r) < Remaining(s)
  {
    if s.cons.ReadSlot? { NewestReadable(s); }
    a := HelpfulStep(s, NewestInSlot(s));
    r := Next(s, a);
    StepShape(s, a);
    HistoryStep(s, a);
    RemainingNat(r);
  }

  lemma {:induction false} ReachFirstRead(s: State)
    requires History(s) && !HeadOrdered(s.orders) && s.bits >= 1 && s.out == [] != s.input && !s.cons.StoreTail?
    ensures CanRace(s)
    decreases Remaining(s)
  {
    if s.cons.ReadSlot? {
      FirstReadRaces(s);
    } else {
      var r, a := Pursue(s);
      ReachFirstRead(r);
      RaceBefore(s, a);
    }
  }

  lemma {:induction false} ReachSecondTurn(s: State)
    requires History(s) && !TailOrdered(s.orders) && s.bits >= 1
    requires s.sent <= Size(s) < |s.input| && (s.sent == Size(s) ==> !s.prod.StoreHead?)
    ensures CanRace(s)
    decreases Remaining(s)
  {
    if s.sent == Size(s) && s.prod.WriteSlot? {
      SecondTurnRaces(s);
    } else {
      var r, a := Pursue(s);
      ReachSecondTurn(r);
      RaceBefore(s, a);
    }
  }

  // ---------- Inputs that fit need no order on the tail ----------

  /** While the producer is on its first turn, no slot is written after it has been read. */
  ghost predicate FirstTurn(s: State)
  {
    && FifoInv(s) && |s.input| <= Size(s) && !s.mem.racy
    && forall j: nat :: Taken(s) <= j < Size(s) ==> Reads(s.mem, Buffer(j)) == map[]
  }

  lemma {:induction false} SlotOnFirstTurn(k: nat, size: nat)
    requires k < size
    ensures Slot(k, size) == k
  {
    if k > 0 { SlotOnFirstTurn(k - 1, size); }
  }

  lemma TurnRaceFree(s: State, a: Action)
    requires FirstTurn(s) && Enabled(s, a)
    ensures !Next(s, a).mem.racy
  {
    match a
    case Produce(i) =>
      if s.prod.WriteSlot? {
        SlotOnFirstTurn(H(s), Size(s));
        assert Knows(Head, s.mem, ViewOf(s.mem, PRODUCER), s.prod.head);
      }
    case Consume(i) => if s.cons.ReadSlot? { SlotIsFull(s, i); }
  }

  /** Reads appear only by the slot read, in the slot it reads. */
  lemma ReadsElsewhere(s: State, a: Action, j: nat)
    requires Enabled(s, a) && !(a.Consume? && s.cons == ReadSlot(j))
    ensures Reads(Next(s, a).mem, Buffer(j)) == Reads(s.mem, Buffer(j))
  {
  }

  lemma TurnStep(s: State, a: Action)
    requires FirstTurn(s) && Enabled(s, a)
    ensures FirstTurn(Next(s, a))
  {
    var r := Next(s, a);
    StepFifo(s, a);
    TurnRaceFree(s, a);
    TakenStep(s, a);
    forall j: nat | Taken(r) <= j < Size(r) ensures Reads(r.mem, Buffer(j)) == map[] {
      ReadsElsewhere(s, a, j);
    }
  }

  lemma TakenStep(s: State, a: Action)
    requires FirstTurn(s) && Enabled(s, a)
    ensures Taken(Next(s, a)) == Taken(s) + (if a.Consume? && s.cons.ReadSlot? then 1 else 0)
    ensures s.cons.ReadSlot? ==> s.cons.tail == Taken(s)
  {
    if s.cons.ReadSlot? { SlotOnFirstTurn(T(s), Size(s)); }
    match a
    case Produce(i) => ProducerFrame(s, i);
    case Consume(i) => ConsumerFrame(s, i);
  }

  lemma {:induction false} TurnRun(s: State, run: seq<Action>)
    requires FirstTurn(s) && Legal(s, run)
    ensures !Exec(s, run).mem.racy
    decreases |run|
  {
    if run != [] {
      TurnStep(s, run[0]);
      TurnRun(Next(s, run[0]), run[1..]);
    }
  }

  // ---------- Nothing to send, or nowhere to put it ----------

  lemma NoAccessStep(s: State, a: Action)
    requires Indices(s) && Enabled(s, a) && (s.bits == 0 || s.input == []) && H(s) == 0 && !s.mem.racy
    ensures H(Next(s, a)) == 0 && !Next(s, a).mem.racy
  {
    assert s.bits == 0 ==> Size(s) == 1;
    match a
    case Produce(i) => ProducerFrame(s, i);
    case Consume(i) => ConsumerFrame(s, i);
  }

  lemma {:induction false} NoAccessRun(s: State, run: seq<Action>)
    requires Indices(s) && Legal(s, run) && (s.bits == 0 || s.input == []) && H(s) == 0 && !s.mem.racy
    ensures !Exec(s, run).mem.racy
    decreases |run|
  {
    if run != [] {
      StepIndices(s, run[0]);
      NoAccessStep(s, run[0]);
      NoAccessRun(Next(s, run[0]), run[1..]);
    }
  }

  // ---------- The exact condition ----------

  predicate Synchronised(o: Orders, bits: nat, input: seq<int>)
  {
    bits == 0 || input == [] || (HeadOrdered(o) && (TailOrdered(o) || |input| <= Pow2(bits)))
  }

  lemma RacesWithout(o: Orders, bits: nat, input: seq<int>)
    requires !Synchronised(o, bits, input)
    ensures CanRace(InitWith(o, bits, input))
  {
    var s := InitWith(o, bits, input);
    InitIndices(o, bits, input);
    if HeadOrdered(o) { ReachSecondTurn(s); } else { ReachFirstRead(s); }
  }

  lemma {:induction false} SafeWith(o: Orders, bits: nat, input: seq<int>, run: seq<Action>)
    requires Synchronised(o, bits, input) && Legal(InitWith(o, bits, input), run)
    ensures !Exec(InitWith(o, bits, input), run).mem.racy
  {
    var s := InitWith(o, bits, input);
    InitIndices(o, bits, input);
    if bits == 0 || input == [] {
      NoAccessRun(s, run);
    } else if |input| <= Pow2(bits) {
      InitFifo(o, bits, input);
      TurnRun(s, run);
    } else {
      InitInv(bits, input);
      RunInv(s, run);
    }
  }

  /**
   The slots are free of data races in every run exactly when nothing can be sent, or the head is
   released and acquired and so is the tail unless the whole input fits the first turn of the ring.
   */
  lemma RaceFreeIffOrdered(o: Orders, bits: nat, input: seq<int>)
    ensures (forall s: State :: ReachableWith(o, bits, input, s) ==> !s.mem.racy) <==> Synchronised(o, bits, input)
  {
    var a := InitWith(o, bits, input);
    if Synchronised(o, bits, input) {
      forall s: State | ReachableWith(o, bits, input, s) ensures !s.mem.racy {
        var run :| Legal(a, run) && s == Exec(a, run);
        SafeWith(o, bits, input, run);
      }
    } else {
      RacesWithout(o, bits, input);
      var run: seq<Action> :| Legal(a, run) && Exec(a, run).mem.racy;
      assert ReachableWith(o, bits, input, Exec(a, run));
    }
  }
}
