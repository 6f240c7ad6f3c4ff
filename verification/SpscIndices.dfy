/**
 What coherence alone gives the queue's indices, whatever the memory orders. The unbounded counters
 are the lengths of the two modification orders: H messages have been published and T freed, and
 message k of an index location holds the masked value of k.
 */
module SpscIndices {
  import opened Arithmetic
  import opened RingIndex
  import opened ViewMemory
  import opened SpscQueue

  function Size(s: State): nat { Pow2(s.bits) }

  function H(s: State): nat { Newest(s.mem, HEAD) }

  function T(s: State): nat { Newest(s.mem, TAIL) }

  /** Slot writes performed, published or not; slot reads performed, freed or not. */
  function Written(s: State): nat { H(s) + if s.prod.StoreHead? then 1 else 0 }

  function Taken(s: State): nat { T(s) + if s.cons.StoreTail? then 1 else 0 }

  /** The newest tail the producer has read, and the newest head the consumer has. */
  function TailSeen(s: State): nat { At(ViewOf(s.mem, PRODUCER).seen, TAIL) }

  function HeadSeen(s: State): nat { At(ViewOf(s.mem, CONSUMER).seen, HEAD) }

  /** Some message in [a, b) uses slot j. */
  ghost predicate Touched(a: nat, b: nat, j: nat, size: nat)
    requires size > 0
  {
    exists k: nat :: a <= k < b && Slot(k, size) == j
  }

  lemma TouchedMore(a: nat, b: nat, j: nat, size: nat)
    requires size > 0 && a <= b
    ensures Touched(a, b, j, size) || j == Slot(b, size) ==> Touched(a, b + 1, j, size)
  {
    if Touched(a, b, j, size) {
      var k: nat :| a <= k < b && Slot(k, size) == j;
      assert a <= k < b + 1;
    }
  }

  /** No message from a up to b shares a slot with h when all lie within one turn of h. */
  lemma {:induction false} Untouched(a: nat, b: nat, h: nat, size: nat)
    requires size > 0
    requires (b <= h && h < a + size) || (h < a && b <= h + size)
    ensures !Touched(a, b, Slot(h, size), size)
  {
    forall k: nat | a <= k < b ensures Slot(k, size) != Slot(h, size) {
      if k < h { SlotDistinct(k, h, size); } else { SlotDistinct(h, k, size); }
    }
  }

  ghost predicate IndexLog(m: Mem, x: nat, size: nat)
    requires size > 0
  {
    forall k: nat :: k <= Newest(m, x) ==>
      Message(m, x, k).val == Slot(k, size) && At(Message(m, x, k).view.seen, x) == k
  }

  ghost predicate ProducerAt(s: State)
  {
    && At(ViewOf(s.mem, PRODUCER).seen, HEAD) == H(s) == s.sent <= |s.input|
    && TailSeen(s) <= T(s) && H(s) < TailSeen(s) + Size(s)
    && (!s.prod.LoadHead? ==> s.prod.head == Slot(H(s), Size(s)) && s.sent < |s.input|)
    && (s.prod.WriteSlot? || s.prod.StoreHead? ==> H(s) + 1 < TailSeen(s) + Size(s))
  }

  ghost predicate ConsumerAt(s: State)
  {
    && At(ViewOf(s.mem, CONSUMER).seen, TAIL) == T(s) == |s.out|
    && T(s) <= HeadSeen(s) <= H(s)
    && (!s.cons.LoadOwnTail? ==> s.cons.tail == Slot(T(s), Size(s)) && T(s) < |s.input|)
    && (s.cons.ReadSlot? || s.cons.StoreTail? ==> T(s) < HeadSeen(s))
  }

  ghost predicate Indices(s: State)
  {
    && Bounded(s.mem)
    && IndexLog(s.mem, HEAD, Size(s)) && IndexLog(s.mem, TAIL, Size(s))
    && ProducerAt(s) && ConsumerAt(s)
  }

  lemma InitIndices(o: Orders, bits: nat, input: seq<int>)
    ensures Indices(InitWith(o, bits, input))
  {
    EmptyBounded();
  }

  lemma NextBounded(s: State, a: Action)
    requires Bounded(s.mem) && Enabled(s, a)
    ensures Bounded(Next(s, a).mem)
  {
    match a
    case Produce(i) =>
      match s.prod {
        case LoadHead => BoundedLoad(s.mem, PRODUCER, HEAD, i, false);
        case LoadTail(_) => BoundedLoad(s.mem, PRODUCER, TAIL, i, s.orders.tailAcquire);
        case WriteSlot(h) => BoundedPlainWrite(s.mem, PRODUCER, Buffer(h), s.input[s.sent]);
        case StoreHead(h) => BoundedStore(s.mem, PRODUCER, HEAD, Mask(h + 1, s.bits), s.orders.headRelease);
      }
    case Consume(i) =>
      match s.cons {
        case LoadOwnTail => BoundedLoad(s.mem, CONSUMER, TAIL, i, false);
        case LoadPublished(_) => BoundedLoad(s.mem, CONSUMER, HEAD, i, s.orders.headAcquire);
        case ReadSlot(t) => BoundedPlainRead(s.mem, CONSUMER, Buffer(t), i);
        case StoreTail(t, _) => BoundedStore(s.mem, CONSUMER, TAIL, Mask(t + 1, s.bits), s.orders.tailRelease);
      }
  }

  // ---------- The two tests ----------

  /** The masked test against message m of the tail is the unbounded test H - m == size - 1. */
  lemma {:induction false} FullTest(h: nat, m: nat, bits: nat)
    requires m <= h < m + Pow2(bits)
    ensures Mask(Slot(h, Pow2(bits)) + 1, bits) == Slot(m, Pow2(bits)) <==> h - m == Pow2(bits) - 1
  {
    var size := Pow2(bits);
    MaskIsNextSlot(h, bits);
    if h - m == size - 1 {
      SlotPeriod(m, size);
    } else {
      SlotDistinct(m, h + 1, size);
    }
  }

  /** Whatever message of the tail the producer reads, its test is exact for that message. */
  lemma ProducerTest(s: State, i: nat)
    requires Indices(s) && Enabled(s, Produce(i)) && s.prod.LoadTail?
    ensures ProduceNext(s, i).prod == if H(s) - i == Size(s) - 1 then LoadHead else WriteSlot(s.prod.head)
    ensures TailSeen(s) <= i <= T(s) && H(s) < i + Size(s)
  {
    assert Message(s.mem, TAIL, i).val == Slot(i, Size(s));
    FullTest(H(s), i, s.bits);
  }

  /** Whatever message of the head the consumer reads, its test is exact for that message. */
  lemma ConsumerTest(s: State, i: nat)
    requires Indices(s) && Enabled(s, Consume(i)) && s.cons.LoadPublished?
    ensures ConsumeNext(s, i).cons == if i == T(s) then LoadOwnTail else ReadSlot(s.cons.tail)
    ensures HeadSeen(s) <= i <= H(s) && T(s) <= i
  {
    assert Message(s.mem, HEAD, i).val == Slot(i, Size(s));
    if i != T(s) { SlotDistinct(T(s), i, Size(s)); }
  }

  // ---------- Preservation ----------

  lemma LogFrame(m: Mem, r: Mem, x: nat, size: nat)
    requires size > 0 && IndexLog(m, x, size) && Log(r, x) == Log(m, x)
    ensures IndexLog(r, x, size)
  {
    forall k: nat | k <= Newest(r, x)
      ensures Message(r, x, k).val == Slot(k, size) && At(Message(r, x, k).view.seen, x) == k
    {
      assert Message(r, x, k) == Message(m, x, k);
    }
  }

  /** Loading message i of index x moves only the loader's view, and of the index locations only to i. */
  lemma LoadIndex(m: Mem, t: nat, x: nat, i: nat, acquire: bool, size: nat)
    requires Bounded(m) && size > 0 && IndexLog(m, x, size) && CanRead(m, t, x, i)
    ensures var r := Load(m, t, x, i, acquire);
            && r.log == m.log && At(ViewOf(r, t).seen, x) == i
            && (forall u :: u != t ==> ViewOf(r, u) == ViewOf(m, u))
            && (forall y :: y != x && At(ViewOf(m, t).seen, y) == Newest(m, y) ==>
                  At(ViewOf(r, t).seen, y) == Newest(m, y))
  {
    assert Within(m, Message(m, x, i).view);
  }

  lemma {:induction false} StoreIndex(m: Mem, t: nat, x: nat, val: int, release: bool, size: nat)
    requires size > 0 && IndexLog(m, x, size) && val == Slot(Newest(m, x) + 1, size)
    ensures var r := Store(m, t, x, val, release);
            IndexLog(r, x, size) && Newest(r, x) == Newest(m, x) + 1 == At(ViewOf(r, t).seen, x)
  {
    var r := Store(m, t, x, val, release);
    forall k: nat | k <= Newest(r, x)
      ensures Message(r, x, k).val == Slot(k, size) && At(Message(r, x, k).view.seen, x) == k
    {
      if k < Newest(r, x) { assert Message(r, x, k) == Message(m, x, k); }
    }
  }

  /** A step of one side leaves the other side's index and view alone. */
  lemma ProducerFrame(s: State, i: nat)
    requires Enabled(s, Produce(i))
    ensures var r := ProduceNext(s, i);
            && Log(r.mem, TAIL) == Log(s.mem, TAIL) && ViewOf(r.mem, CONSUMER) == ViewOf(s.mem, CONSUMER)
            && (!s.prod.StoreHead? ==> Log(r.mem, HEAD) == Log(s.mem, HEAD))
            && (s.prod.StoreHead? ==> H(r) == H(s) + 1)
  {
    var m, r := s.mem, ProduceNext(s, i).mem;
    match s.prod
    case LoadHead => assert r.log == m.log;
    case LoadTail(_) => assert r.log == m.log;
    case WriteSlot(_) => assert Log(r, HEAD) == Log(m, HEAD) && Log(r, TAIL) == Log(m, TAIL);
    case StoreHead(_) => assert Log(r, TAIL) == Log(m, TAIL);
  }

  lemma ConsumerFrame(s: State, i: nat)
    requires Enabled(s, Consume(i))
    ensures var r := ConsumeNext(s, i);
            && Log(r.mem, HEAD) == Log(s.mem, HEAD) && ViewOf(r.mem, PRODUCER) == ViewOf(s.mem, PRODUCER)
            && (!s.cons.StoreTail? ==> Log(r.mem, TAIL) == Log(s.mem, TAIL))
            && (s.cons.StoreTail? ==> T(r) == T(s) + 1)
  {
  }

  lemma ProducerLoads(s: State, i: nat)
    requires Indices(s) && Enabled(s, Produce(i)) && (s.prod.LoadHead? || s.prod.LoadTail?)
    ensures ProducerAt(ProduceNext(s, i))
  {
    ProducerFrame(s, i);
    if s.prod.LoadHead? {
      LoadIndex(s.mem, PRODUCER, HEAD, i, false, Size(s));
    } else {
      LoadIndex(s.mem, PRODUCER, TAIL, i, s.orders.tailAcquire, Size(s));
      ProducerTest(s, i);
    }
  }

  lemma ProducerStores(s: State, i: nat)
    requires ProducerAt(s) && Enabled(s, Produce(i)) && (s.prod.WriteSlot? || s.prod.StoreHead?)
    ensures ProducerAt(ProduceNext(s, i))
  {
    ProducerFrame(s, i);
  }

  lemma ConsumerLoads(s: State, i: nat)
    requires Indices(s) && Enabled(s, Consume(i)) && (s.cons.LoadOwnTail? || s.cons.LoadPublished?)
    ensures ConsumerAt(ConsumeNext(s, i))
  {
    ConsumerFrame(s, i);
    if s.cons.LoadOwnTail? {
      LoadIndex(s.mem, CONSUMER, TAIL, i, false, Size(s));
    } else {
      LoadIndex(s.mem, CONSUMER, HEAD, i, s.orders.headAcquire, Size(s));
      ConsumerTest(s, i);
    }
  }

  lemma ConsumerStores(s: State, i: nat)
    requires ConsumerAt(s) && Enabled(s, Consume(i)) && (s.cons.ReadSlot? || s.cons.StoreTail?)
    ensures ConsumerAt(ConsumeNext(s, i))
  {
    ConsumerFrame(s, i);
  }

  lemma ProducerLog(s: State, i: nat)
    requires ProducerAt(s) && IndexLog(s.mem, HEAD, Size(s)) && Enabled(s, Produce(i))
    ensures IndexLog(ProduceNext(s, i).mem, HEAD, Size(s))
  {
    if s.prod.StoreHead? {
      MaskIsNextSlot(H(s), s.bits);
      StoreIndex(s.mem, PRODUCER, HEAD, Mask(s.prod.head + 1, s.bits), s.orders.headRelease, Size(s));
    } else {
      ProducerFrame(s, i);
      LogFrame(s.mem, ProduceNext(s, i).mem, HEAD, Size(s));
    }
  }

  lemma ConsumerLog(s: State, i: nat)
    requires ConsumerAt(s) && IndexLog(s.mem, TAIL, Size(s)) && Enabled(s, Consume(i))
    ensures IndexLog(ConsumeNext(s, i).mem, TAIL, Size(s))
  {
    if s.cons.StoreTail? {
      MaskIsNextSlot(T(s), s.bits);
      StoreIndex(s.mem, CONSUMER, TAIL, Mask(s.cons.tail + 1, s.bits), s.orders.tailRelease, Size(s));
    } else {
      ConsumerFrame(s, i);
      LogFrame(s.mem, ConsumeNext(s, i).mem, TAIL, Size(s));
    }
  }

  lemma ProducerStep(s: State, i: nat)
    requires Indices(s) && Enabled(s, Produce(i))
    ensures Indices(ProduceNext(s, i))
  {
    NextBounded(s, Produce(i));
    ProducerFrame(s, i);
    ProducerLog(s, i);
    LogFrame(s.mem, ProduceNext(s, i).mem, TAIL, Size(s));
    if s.prod.LoadHead? || s.prod.LoadTail? { ProducerLoads(s, i); } else { ProducerStores(s, i); }
  }

  lemma ConsumerStep(s: State, i: nat)
    requires Indices(s) && Enabled(s, Consume(i))
    ensures Indices(ConsumeNext(s, i))
  {
    NextBounded(s, Consume(i));
    ConsumerFrame(s, i);
    ConsumerLog(s, i);
    LogFrame(s.mem, ConsumeNext(s, i).mem, HEAD, Size(s));
    if s.cons.LoadOwnTail? || s.cons.LoadPublished? { ConsumerLoads(s, i); } else { ConsumerStores(s, i); }
  }

  lemma StepIndices(s: State, a: Action)
    requires Indices(s) && Enabled(s, a)
    ensures Indices(Next(s, a))
  {
    match a
    case Produce(i) => ProducerStep(s, i);
    case Consume(i) => ConsumerStep(s, i);
  }

  lemma {:induction false} RunIndices(s: State, run: seq<Action>)
    requires Indices(s) && Legal(s, run)
    ensures var r := Exec(s, run);
            Indices(r) && r.orders == s.orders && r.bits == s.bits && r.input == s.input
    decreases |run|
  {
    if run != [] {
      StepIndices(s, run[0]);
      RunIndices(Next(s, run[0]), run[1..]);
    }
  }
}
