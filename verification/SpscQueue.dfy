/**
 The single-producer single-consumer queue as its comments specify it, on the release/acquire
 memory: the INTENDED protocol, not the shipped bodies (see QueueSkeleton for those). Each load,
 slot access and index store is one step; the ring has 2^bits slots; the producer sends `input`.
 */
module SpscQueue {
  import opened RingIndex
  import opened ViewMemory

  const HEAD: nat := 0
  const TAIL: nat := 1
  const PRODUCER: nat := 0
  const CONSUMER: nat := 1

  /** Memory location of buffer[i]. */
  function Buffer(i: nat): nat { 2 + i }

  datatype Producer =
    | LoadHead               // load head, relaxed
    | LoadTail(head: nat)    // load tail (acquire); full if (head + 1) & MASK == tail
    | WriteSlot(head: nat)   // buffer[head] = value
    | StoreHead(head: nat)   // store head (release)

  datatype Consumer =
    | LoadOwnTail                       // load tail, relaxed
    | LoadPublished(tail: nat)          // load head (acquire); empty if head == tail
    | ReadSlot(tail: nat)               // *value = buffer[tail]
    | StoreTail(tail: nat, value: int)  // store tail (release); then the caller's check

  /** Which index accesses are release stores and acquire loads; the comments ask for all four. */
  datatype Orders = Orders(headRelease: bool, headAcquire: bool, tailRelease: bool, tailAcquire: bool)

  const Strict := Orders(true, true, true, true)

  predicate HeadOrdered(o: Orders) { o.headRelease && o.headAcquire }

  predicate TailOrdered(o: Orders) { o.tailRelease && o.tailAcquire }

  /** sent and |out| are the two loop counters; failed is set where the consumer would exit(1). */
  datatype State = State(orders: Orders, bits: nat, input: seq<int>, mem: Mem, prod: Producer, cons: Consumer,
                         sent: nat, out: seq<int>, failed: bool)

  /** One step of one side; i is the message a load returns. */
  datatype Action = Produce(i: nat) | Consume(i: nat)

  function InitWith(o: Orders, bits: nat, input: seq<int>): State
  {
    State(o, bits, input, Empty, LoadHead, LoadOwnTail, 0, [], false)
  }

  function Init(bits: nat, input: seq<int>): State { InitWith(Strict, bits, input) }

  /** Index locations hold only naturals (size_t). */
  function AsIndex(v: int): nat { if v < 0 then 0 else v }

  predicate Enabled(s: State, a: Action)
  {
    match a
    case Produce(i) =>
      s.sent < |s.input|
      && (s.prod.LoadHead? ==> CanRead(s.mem, PRODUCER, HEAD, i))
      && (s.prod.LoadTail? ==> CanRead(s.mem, PRODUCER, TAIL, i))
    case Consume(i) =>
      |s.out| < |s.input|
      && (s.cons.LoadOwnTail? ==> CanRead(s.mem, CONSUMER, TAIL, i))
      && (s.cons.LoadPublished? ==> CanRead(s.mem, CONSUMER, HEAD, i))
      && (s.cons.ReadSlot? ==> CanRead(s.mem, CONSUMER, Buffer(s.cons.tail), i))
  }

  function ProduceNext(s: State, i: nat): State
    requires Enabled(s, Produce(i))
  {
    match s.prod
    case LoadHead =>
      s.(mem := Load(s.mem, PRODUCER, HEAD, i, false), prod := LoadTail(AsIndex(Message(s.mem, HEAD, i).val)))
    case LoadTail(h) =>
      s.(mem := Load(s.mem, PRODUCER, TAIL, i, s.orders.tailAcquire),
         prod := if Mask(h + 1, s.bits) == Message(s.mem, TAIL, i).val then LoadHead else WriteSlot(h))
    case WriteSlot(h) =>
      s.(mem := PlainWrite(s.mem, PRODUCER, Buffer(h), s.input[s.sent]), prod := StoreHead(h))
    case StoreHead(h) =>
      s.(mem := Store(s.mem, PRODUCER, HEAD, Mask(h + 1, s.bits), s.orders.headRelease), prod := LoadHead,
         sent := s.sent + 1)
  }

  function ConsumeNext(s: State, i: nat): State
    requires Enabled(s, Consume(i))
  {
    match s.cons
    case LoadOwnTail =>
      s.(mem := Load(s.mem, CONSUMER, TAIL, i, false), cons := LoadPublished(AsIndex(Message(s.mem, TAIL, i).val)))
    case LoadPublished(t) =>
      s.(mem := Load(s.mem, CONSUMER, HEAD, i, s.orders.headAcquire),
         cons := if Message(s.mem, HEAD, i).val == t then LoadOwnTail else ReadSlot(t))
    case ReadSlot(t) =>
      s.(mem := PlainRead(s.mem, CONSUMER, Buffer(t), i), cons := StoreTail(t, Message(s.mem, Buffer(t), i).val))
    case StoreTail(t, v) =>
      s.(mem := Store(s.mem, CONSUMER, TAIL, Mask(t + 1, s.bits), s.orders.tailRelease), cons := LoadOwnTail,
         out := s.out + [v], failed := s.failed || v != |s.out|)
  }

  function Next(s: State, a: Action): State
    requires Enabled(s, a)
  {
    match a
    case Produce(i) => ProduceNext(s, i)
    case Consume(i) => ConsumeNext(s, i)
  }

  predicate Legal(s: State, run: seq<Action>)
    decreases |run|
  {
    run == [] || (Enabled(s, run[0]) && Legal(Next(s, run[0]), run[1..]))
  }

  function Exec(s: State, run: seq<Action>): State
    requires Legal(s, run)
    decreases |run|
  {
    if run == [] then s else Exec(Next(s, run[0]), run[1..])
  }
}
