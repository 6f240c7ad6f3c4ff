/** Runs of the queue under any memory orders, and how to move every run towards delivery. */
module SpscProgress {
  import opened Arithmetic
  import opened ViewMemory
  import opened SpscQueue
  import opened SpscIndices

  ghost predicate ReachableWith(o: Orders, bits: nat, input: seq<int>, s: State)
  {
    exists run: seq<Action> :: Legal(InitWith(o, bits, input), run) && s == Exec(InitWith(o, bits, input), run)
  }

  lemma ReachableIndices(o: Orders, bits: nat, input: seq<int>, s: State)
    requires ReachableWith(o, bits, input, s)
    ensures Indices(s) && s.orders == o && s.bits == bits && s.input == input
    ensures bits == 0 ==> H(s) == 0
  {
    var run :| Legal(InitWith(o, bits, input), run) && s == Exec(InitWith(o, bits, input), run);
    InitIndices(o, bits, input);
    RunIndices(InitWith(o, bits, input), run);
    if bits == 0 { OneSlotRun(InitWith(o, bits, input), run); }
  }

  lemma {:induction false} Extend(s: State, run: seq<Action>, a: Action)
    requires Legal(s, run) && Enabled(Exec(s, run), a)
    ensures Legal(s, run + [a]) && Exec(s, run + [a]) == Next(Exec(s, run), a)
    decreases |run|
  {
    if run == [] {
      var one, r := run + [a], Next(s, a);
      assert one[1..] == [] && Legal(r, []) && Exec(r, []) == r;
    } else {
      assert (run + [a])[1..] == run[1..] + [a];
      Extend(Next(s, run[0]), run[1..], a);
    }
  }

  lemma ReachNext(o: Orders, bits: nat, input: seq<int>, s: State, a: Action)
    requires ReachableWith(o, bits, input, s) && Enabled(s, a)
    ensures ReachableWith(o, bits, input, Next(s, a))
  {
    var run :| Legal(InitWith(o, bits, input), run) && s == Exec(InitWith(o, bits, input), run);
    Extend(InitWith(o, bits, input), run, a);
  }

  /** A ring of one slot is full from the start: nothing is ever published. */
  lemma {:induction false} OneSlotRun(s: State, run: seq<Action>)
    requires Indices(s) && Legal(s, run) && s.bits == 0 && H(s) == 0
    ensures H(Exec(s, run)) == 0
    decreases |run|
  {
    if run != [] {
      StepIndices(s, run[0]);
      OneSlotStep(s, run[0]);
      OneSlotRun(Next(s, run[0]), run[1..]);
    }
  }

  lemma OneSlotStep(s: State, a: Action)
    requires Indices(s) && Enabled(s, a) && s.bits == 0 && H(s) == 0
    ensures H(Next(s, a)) == 0
  {
    assert Size(s) == 1;
    match a
    case Produce(i) => ProducerFrame(s, i);
    case Consume(i) => ConsumerFrame(s, i);
  }

  function ProducerProgress(p: Producer): nat
  {
    match p
    case LoadHead => 0
    case LoadTail(_) => 1
    case WriteSlot(_) => 2
    case StoreHead(_) => 3
  }

  function ConsumerProgress(c: Consumer): nat
  {
    match c
    case LoadOwnTail => 0
    case LoadPublished(_) => 1
    case ReadSlot(_) => 2
    case StoreTail(_, _) => 3
  }

  function Remaining(s: State): int
  {
    4 * (|s.input| - s.sent) - ProducerProgress(s.prod) + 4 * (|s.input| - |s.out|) - ConsumerProgress(s.cons)
  }

  lemma RemainingNat(s: State)
    requires Indices(s)
    ensures Remaining(s) >= 0
  {
  }

  /** Both sides can read the newest message of both indices. */
  lemma NewestIndices(s: State)
    requires Bounded(s.mem)
    ensures CanRead(s.mem, PRODUCER, HEAD, H(s)) && CanRead(s.mem, PRODUCER, TAIL, T(s))
    ensures CanRead(s.mem, CONSUMER, HEAD, H(s)) && CanRead(s.mem, CONSUMER, TAIL, T(s))
  {
    assert Within(s.mem, ViewOf(s.mem, PRODUCER)) && Within(s.mem, ViewOf(s.mem, CONSUMER));
  }

  lemma ConsumerHelps(s: State, i: nat)
    requires Enabled(s, Consume(i)) && (s.cons.LoadPublished? ==> ConsumeNext(s, i).cons.ReadSlot?)
    ensures Remaining(ConsumeNext(s, i)) < Remaining(s)
  {
  }

  lemma RoomWhenEmpty(s: State)
    requires Indices(s) && s.bits >= 1 && s.prod.LoadTail? && T(s) == H(s) && Enabled(s, Produce(T(s)))
    ensures ProduceNext(s, T(s)).prod.WriteSlot?
  {
    assert Size(s) == 2 * Pow2(s.bits - 1);
    ProducerTest(s, T(s));
  }

  lemma ProducerHelps(s: State, i: nat)
    requires Enabled(s, Produce(i)) && (s.prod.LoadTail? ==> ProduceNext(s, i).prod.WriteSlot?)
    ensures Remaining(ProduceNext(s, i)) < Remaining(s)
  {
  }

  /**
   Reading the newest index, the consumer advances when something is published, else the producer
   does; of a slot any readable message i will do.
   */
  lemma HelpfulStep(s: State, i: nat) returns (a: Action)
    requires Indices(s) && s.bits >= 1 && |s.out| < |s.input|
    requires s.cons.ReadSlot? ==> CanRead(s.mem, CONSUMER, Buffer(s.cons.tail), i)
    ensures Enabled(s, a) && Remaining(Next(s, a)) < Remaining(s)
    ensures a.Consume? && s.cons.ReadSlot? ==> a.i == i
  {
    NewestIndices(s);
    if T(s) < H(s) {
      a := Consume(if s.cons.LoadOwnTail? then T(s) else if s.cons.LoadPublished? then H(s) else i);
      if s.cons.LoadPublished? { ConsumerTest(s, a.i); }
      ConsumerHelps(s, a.i);
    } else {
      a := Produce(if s.prod.LoadHead? then H(s) else T(s));
      if s.prod.LoadTail? { RoomWhenEmpty(s); }
      ProducerHelps(s, a.i);
    }
  }

  /** The newest message of the slot about to be read. */
  function NewestInSlot(s: State): nat { if s.cons.ReadSlot? then Newest(s.mem, Buffer(s.cons.tail)) else 0 }

  lemma NewestReadable(s: State)
    requires Bounded(s.mem) && s.cons.ReadSlot?
    ensures CanRead(s.mem, CONSUMER, Buffer(s.cons.tail), NewestInSlot(s))
  {
    assert Within(s.mem, ViewOf(s.mem, CONSUMER));
  }

  lemma {:induction false} CanDeliver(s: State) returns (run: seq<Action>)
    requires Indices(s) && s.bits >= 1
    ensures Legal(s, run) && |Exec(s, run).out| == |s.input|
    decreases Remaining(s)
  {
    if |s.out| == |s.input| {
      run := [];
    } else {
      if s.cons.ReadSlot? { NewestReadable(s); }
      var a := HelpfulStep(s, NewestInSlot(s));
      StepIndices(s, a);
      RemainingNat(s);
      RemainingNat(Next(s, a));
      var rest := CanDeliver(Next(s, a));
      run := [a] + rest;
      assert run[1..] == rest;
    }
  }
}
