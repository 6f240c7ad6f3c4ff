/**
 The inductive invariants of the intended queue on top of the indices: the two halves of SpscSides,
 the contents of the slots, which need only the head ordered, and freedom from data races, which
 needs both halves.
 */
module SpscInvariant {
  import opened RingIndex
  import opened ViewMemory
  import opened SpscQueue
  import opened SpscIndices
  import opened SpscSides

  // ---------- Both halves, step by step ----------

  lemma LoadHeadSide(d: Side, s: State, i: nat)
    requires SideOk(d, s) && Enabled(s, Produce(i)) && s.prod.LoadHead?
    ensures SideOk(d, ProduceNext(s, i))
  {
    ProducerFrame(s, i);
    if d.Head? {
      OwnerLoads(d, s.mem, HEAD, i, false, Done(d, s), Size(s));
    } else {
      OtherLoadsOwn(d, s.mem, HEAD, i, Done(d, s), Size(s));
    }
  }

  lemma LoadTailSide(d: Side, s: State, i: nat)
    requires IndexLog(s.mem, TAIL, Size(s)) && Ordered(d, s.orders)
    requires SideOk(d, s) && Enabled(s, Produce(i)) && s.prod.LoadTail?
    ensures SideOk(d, ProduceNext(s, i))
  {
    ProducerFrame(s, i);
    if d.Head? {
      OwnerLoads(d, s.mem, TAIL, i, s.orders.tailAcquire, Done(d, s), Size(s));
    } else {
      OtherAcquires(d, s.mem, i, Done(d, s), Size(s));
    }
  }

  lemma WriteSlotSide(d: Side, s: State, i: nat)
    requires ProducerAt(s) && ConsumerAt(s) && SideOk(d, s) && Enabled(s, Produce(i)) && s.prod.WriteSlot?
    ensures SideOk(d, ProduceNext(s, i))
  {
    ProducerFrame(s, i);
    if d.Head? {
      WriteAccess(s.mem, s.prod.head, s.input[s.sent]);
      OwnerAccesses(d, s.mem, ProduceNext(s, i).mem, H(s), Size(s));
    } else {
      OtherWrites(s.mem, s.prod.head, s.input[s.sent], Done(d, s), Size(s));
    }
  }

  lemma StoreHeadSide(d: Side, s: State, i: nat)
    requires Ordered(d, s.orders) && SideOk(d, s) && Enabled(s, Produce(i)) && s.prod.StoreHead?
    ensures SideOk(d, ProduceNext(s, i))
  {
    ProducerFrame(s, i);
    if d.Head? {
      OwnerPublishes(d, s.mem, Mask(s.prod.head + 1, s.bits), Size(s));
    } else {
      OtherStores(d, s.mem, HEAD, Mask(s.prod.head + 1, s.bits), s.orders.headRelease, Done(d, s), Size(s));
    }
  }

  lemma LoadOwnTailSide(d: Side, s: State, i: nat)
    requires SideOk(d, s) && Enabled(s, Consume(i)) && s.cons.LoadOwnTail?
    ensures SideOk(d, ConsumeNext(s, i))
  {
    ConsumerFrame(s, i);
    if d.Tail? {
      OwnerLoads(d, s.mem, TAIL, i, false, Done(d, s), Size(s));
    } else {
      OtherLoadsOwn(d, s.mem, TAIL, i, Done(d, s), Size(s));
    }
  }

  lemma LoadPublishedSide(d: Side, s: State, i: nat)
    requires IndexLog(s.mem, HEAD, Size(s)) && Ordered(d, s.orders)
    requires SideOk(d, s) && Enabled(s, Consume(i)) && s.cons.LoadPublished?
    ensures SideOk(d, ConsumeNext(s, i))
  {
    ConsumerFrame(s, i);
    if d.Tail? {
      OwnerLoads(d, s.mem, HEAD, i, s.orders.headAcquire, Done(d, s), Size(s));
    } else {
      OtherAcquires(d, s.mem, i, Done(d, s), Size(s));
    }
  }

  lemma ReadSlotSide(d: Side, s: State, i: nat)
    requires ProducerAt(s) && ConsumerAt(s) && SideOk(d, s) && Enabled(s, Consume(i)) && s.cons.ReadSlot?
    ensures SideOk(d, ConsumeNext(s, i))
  {
    ConsumerFrame(s, i);
    if d.Tail? {
      ReadAccess(s.mem, s.cons.tail, i);
      OwnerAccesses(d, s.mem, ConsumeNext(s, i).mem, T(s), Size(s));
    } else {
      OtherReads(s.mem, s.cons.tail, i, Done(d, s), Size(s));
    }
  }

  lemma StoreTailSide(d: Side, s: State, i: nat)
    requires Ordered(d, s.orders) && SideOk(d, s) && Enabled(s, Consume(i)) && s.cons.StoreTail?
    ensures SideOk(d, ConsumeNext(s, i))
  {
    ConsumerFrame(s, i);
    if d.Tail? {
      OwnerPublishes(d, s.mem, Mask(s.cons.tail + 1, s.bits), Size(s));
    } else {
      OtherStores(d, s.mem, TAIL, Mask(s.cons.tail + 1, s.bits), s.orders.tailRelease, Done(d, s), Size(s));
    }
  }

  /** Each half is kept by every step, given the release/acquire pair of its own index alone. */
  lemma StepSide(d: Side, s: State, a: Action)
    requires Indices(s) && Ordered(d, s.orders) && SideOk(d, s) && Enabled(s, a)
    ensures SideOk(d, Next(s, a))
  {
    match a
    case Produce(i) =>
      match s.prod {
        case LoadHead => LoadHeadSide(d, s, i);
        case LoadTail(_) => LoadTailSide(d, s, i);
        case WriteSlot(_) => WriteSlotSide(d, s, i);
        case StoreHead(_) => StoreHeadSide(d, s, i);
      }
    case Consume(i) =>
      match s.cons {
        case LoadOwnTail => LoadOwnTailSide(d, s, i);
        case LoadPublished(_) => LoadPublishedSide(d, s, i);
        case ReadSlot(_) => ReadSlotSide(d, s, i);
        case StoreTail(_, _) => StoreTailSide(d, s, i);
      }
  }

  // ---------- Contents, with the head ordered ----------

  /** Every message written and not yet freed is in its slot. */
  ghost predicate SlotsOk(s: State)
  {
    forall k: nat :: T(s) <= k < Written(s) && k < |s.input| ==>
      Value(s.mem, Buffer(Slot(k, Size(s)))) == s.input[k]
  }

  ghost predicate OutOk(s: State)
  {
    && T(s) <= |s.input| && s.out == s.input[..T(s)]
    && (s.cons.StoreTail? ==> T(s) < |s.input| && s.cons.value == s.input[T(s)])
  }

  ghost predicate FifoInv(s: State)
  {
    Indices(s) && HeadOrdered(s.orders) && SideOk(Head, s) && SlotsOk(s) && OutOk(s)
  }

  lemma InitFifo(o: Orders, bits: nat, input: seq<int>)
    requires HeadOrdered(o)
    ensures FifoInv(InitWith(o, bits, input))
  {
    InitIndices(o, bits, input);
  }

  lemma SlotsKept(s: State, r: State)
    requires SlotsOk(s) && r.input == s.input && r.bits == s.bits && T(s) <= T(r) && Written(r) <= Written(s)
    requires forall j: nat :: j < Size(s) ==> Log(r.mem, Buffer(j)) == Log(s.mem, Buffer(j))
    ensures SlotsOk(r)
  {
    forall k: nat | T(r) <= k < Written(r) && k < |r.input|
      ensures Value(r.mem, Buffer(Slot(k, Size(r)))) == r.input[k]
    {
      assert Value(s.mem, Buffer(Slot(k, Size(s)))) == s.input[k];
    }
  }

  lemma WriteElsewhere(m: Mem, h: nat, val: int, j: nat)
    requires j != h
    ensures Value(PlainWrite(m, PRODUCER, Buffer(h), val), Buffer(j)) == Value(m, Buffer(j))
  {
  }

  lemma WriteSlots(s: State, i: nat)
    requires ProducerAt(s) && ConsumerAt(s) && SlotsOk(s) && s.prod.WriteSlot? && Enabled(s, Produce(i))
    ensures SlotsOk(ProduceNext(s, i))
  {
    var r := ProduceNext(s, i);
    ProducerFrame(s, i);
    forall k: nat | T(s) <= k < H(s) + 1 && k < |s.input|
      ensures Value(r.mem, Buffer(Slot(k, Size(s)))) == s.input[k]
    {
      if k < H(s) {
        SlotDistinct(k, H(s), Size(s));
        WriteElsewhere(s.mem, s.prod.head, s.input[s.sent], Slot(k, Size(s)));
      }
    }
  }

  /** Slot logs change only by slot writes. */
  lemma SlotLogs(s: State, a: Action)
    requires Enabled(s, a) && !(a.Produce? && s.prod.WriteSlot?)
    ensures forall j: nat :: Log(Next(s, a).mem, Buffer(j)) == Log(s.mem, Buffer(j))
  {
  }

  /** The slot about to be read: its write happens before, and it holds the next message. */
  lemma SlotIsFull(s: State, i: nat)
    requires FifoInv(s) && s.cons.ReadSlot? && CanRead(s.mem, CONSUMER, Buffer(s.cons.tail), i)
    ensures KnowsWrites(s.mem, ViewOf(s.mem, CONSUMER), Buffer(s.cons.tail))
    ensures i == Newest(s.mem, Buffer(s.cons.tail))
    ensures Message(s.mem, Buffer(s.cons.tail), i).val == s.input[T(s)]
  {
    Untouched(HeadSeen(s), Written(s), T(s), Size(s));
    assert Knows(Head, s.mem, ViewOf(s.mem, CONSUMER), s.cons.tail);
  }

  lemma ProducerContents(s: State, i: nat)
    requires FifoInv(s) && Enabled(s, Produce(i))
    ensures SlotsOk(ProduceNext(s, i)) && OutOk(ProduceNext(s, i))
  {
    ProducerFrame(s, i);
    if s.prod.WriteSlot? {
      WriteSlots(s, i);
    } else {
      SlotLogs(s, Produce(i));
      SlotsKept(s, ProduceNext(s, i));
    }
  }

  lemma ConsumerContents(s: State, i: nat)
    requires FifoInv(s) && Enabled(s, Consume(i))
    ensures SlotsOk(ConsumeNext(s, i))
  {
    ConsumerFrame(s, i);
    SlotLogs(s, Consume(i));
    SlotsKept(s, ConsumeNext(s, i));
  }

  lemma ConsumerOut(s: State, i: nat)
    requires FifoInv(s) && Enabled(s, Consume(i))
    ensures OutOk(ConsumeNext(s, i))
  {
    if s.cons.ReadSlot? { SlotIsFull(s, i); }
    OutStep(s, i);
  }

  lemma OutStep(s: State, i: nat)
    requires ConsumerAt(s) && OutOk(s) && Enabled(s, Consume(i))
    requires s.cons.ReadSlot? ==> Message(s.mem, Buffer(s.cons.tail), i).val == s.input[T(s)]
    ensures OutOk(ConsumeNext(s, i))
  {
    ConsumerFrame(s, i);
  }

  lemma StepFifo(s: State, a: Action)
    requires FifoInv(s) && Enabled(s, a)
    ensures FifoInv(Next(s, a))
  {
    StepIndices(s, a);
    StepSide(Head, s, a);
    match a
    case Produce(i) => ProducerContents(s, i);
    case Consume(i) => ConsumerContents(s, i); ConsumerOut(s, i);
  }

  lemma {:induction false} RunFifo(s: State, run: seq<Action>)
    requires FifoInv(s) && Legal(s, run)
    ensures FifoInv(Exec(s, run))
    decreases |run|
  {
    if run != [] {
      StepFifo(s, run[0]);
      RunFifo(Next(s, run[0]), run[1..]);
    }
  }

  // ---------- Race freedom, with both indices ordered ----------

  ghost predicate Inv(s: State)
  {
    FifoInv(s) && TailOrdered(s.orders) && SideOk(Tail, s) && !s.mem.racy
  }

  lemma InitInv(bits: nat, input: seq<int>)
    ensures Inv(Init(bits, input))
  {
    InitFifo(Strict, bits, input);
  }

  /** The slot about to be written: every earlier access of it happens before. */
  lemma SlotIsFree(s: State)
    requires Inv(s) && s.prod.WriteSlot?
    ensures var v := ViewOf(s.mem, PRODUCER);
            KnowsWrites(s.mem, v, Buffer(s.prod.head)) && KnowsReads(s.mem, v, Buffer(s.prod.head))
  {
    var v, h := ViewOf(s.mem, PRODUCER), s.prod.head;
    Untouched(TailSeen(s), Taken(s), H(s), Size(s));
    assert Knows(Head, s.mem, v, h) && Knows(Tail, s.mem, v, h);
  }

  lemma StepRaceFree(s: State, a: Action)
    requires Inv(s) && Enabled(s, a)
    ensures !Next(s, a).mem.racy
  {
    match a
    case Produce(i) => if s.prod.WriteSlot? { SlotIsFree(s); }
    case Consume(i) => if s.cons.ReadSlot? { SlotIsFull(s, i); }
  }

  lemma StepInv(s: State, a: Action)
    requires Inv(s) && Enabled(s, a)
    ensures Inv(Next(s, a))
  {
    StepFifo(s, a);
    StepSide(Tail, s, a);
    StepRaceFree(s, a);
  }

  lemma {:induction false} RunInv(s: State, run: seq<Action>)
    requires Inv(s) && Legal(s, run)
    ensures Inv(Exec(s, run))
    decreases |run|
  {
    if run != [] {
      StepInv(s, run[0]);
      RunInv(Next(s, run[0]), run[1..]);
    }
  }
}
