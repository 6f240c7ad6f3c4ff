/** Exactly when the queue is FIFO: the head ordered, unless there is nothing to tell apart. */
module SpscFifo {
  import opened RingIndex
  import opened ViewMemory
  import opened SpscQueue
  import opened SpscIndices
  import opened SpscProgress
  import opened SpscTheorems

  predicate AllZero(input: seq<int>) { forall k :: 0 <= k < |input| ==> input[k] == 0 }

  /** The consumer has delivered nothing but zeros, and holds none else. */
  predicate OnlyZeros(s: State)
  {
    && (forall k :: 0 <= k < |s.out| ==> s.out[k] == 0)
    && (s.cons.StoreTail? ==> s.cons.value == 0)
  }

  // ---------- A consumer that is told nothing can read 0 for ever ----------

  ghost predicate SeesNoSlot(v: View) { forall j: nat :: At(v.seen, Buffer(j)) == 0 }

  /** With the head not ordered, no view that reaches the consumer forbids the initial messages. */
  ghost predicate BlindMem(m: Mem, acquire: bool)
  {
    && SeesNoSlot(ViewOf(m, CONSUMER))
    && (acquire ==> forall k: nat :: k <= Newest(m, HEAD) ==> SeesNoSlot(Message(m, HEAD, k).view))
  }

  ghost predicate Blind(s: State) { BlindMem(s.mem, s.orders.headAcquire) && OnlyZeros(s) }

  lemma BlindFrame(m: Mem, r: Mem, acquire: bool)
    requires BlindMem(m, acquire) && Log(r, HEAD) == Log(m, HEAD) && SeesNoSlot(ViewOf(r, CONSUMER))
    ensures BlindMem(r, acquire)
  {
    assert forall k: nat :: k <= Newest(r, HEAD) ==> Message(r, HEAD, k) == Message(m, HEAD, k);
  }

  lemma BlindStoreHead(m: Mem, val: int, release: bool, acquire: bool)
    requires BlindMem(m, acquire) && !(release && acquire)
    ensures BlindMem(Store(m, PRODUCER, HEAD, val, release), acquire)
  {
    var r := Store(m, PRODUCER, HEAD, val, release);
    forall k: nat | acquire && k <= Newest(r, HEAD) ensures SeesNoSlot(Message(r, HEAD, k).view) {
      if k <= Newest(m, HEAD) { assert Message(r, HEAD, k) == Message(m, HEAD, k); }
    }
  }

  lemma BlindProduce(s: State, i: nat)
    requires BlindMem(s.mem, s.orders.headAcquire) && !HeadOrdered(s.orders) && Enabled(s, Produce(i))
    ensures BlindMem(ProduceNext(s, i).mem, s.orders.headAcquire)
  {
    if s.prod.StoreHead? {
      BlindStoreHead(s.mem, Mask(s.prod.head + 1, s.bits), s.orders.headRelease, s.orders.headAcquire);
    } else {
      ProducerFrame(s, i);
      BlindFrame(s.mem, ProduceNext(s, i).mem, s.orders.headAcquire);
    }
  }

  /** A load leaves the slots unseen if what it joins does, a slot read if it reads message 0. */
  lemma BlindView(s: State, i: nat)
    requires BlindMem(s.mem, s.orders.headAcquire) && Enabled(s, Consume(i)) && (s.cons.ReadSlot? ==> i == 0)
    ensures SeesNoSlot(ViewOf(ConsumeNext(s, i).mem, CONSUMER))
  {
  }

  lemma BlindConsume(s: State, i: nat)
    requires Blind(s) && Enabled(s, Consume(i)) && (s.cons.ReadSlot? ==> i == 0)
    ensures Blind(ConsumeNext(s, i))
  {
    ConsumerFrame(s, i);
    BlindView(s, i);
    BlindFrame(s.mem, ConsumeNext(s, i).mem, s.orders.headAcquire);
  }

  lemma BlindStep(s: State, a: Action)
    requires Blind(s) && !HeadOrdered(s.orders) && Enabled(s, a) && (a.Consume? && s.cons.ReadSlot? ==> a.i == 0)
    ensures Blind(Next(s, a))
  {
    match a
    case Produce(i) => BlindProduce(s, i);
    case Consume(i) => BlindConsume(s, i);
  }

  /** A step towards delivery that reads message 0 of the slot. */
  lemma BlindProgress(s: State) returns (a: Action)
    requires Indices(s) && Blind(s) && !HeadOrdered(s.orders) && s.bits >= 1 && |s.out| < |s.input|
    ensures Enabled(s, a) && Indices(Next(s, a)) && Blind(Next(s, a)) && 0 <= Remaining(Next(s, a)) < Remaining(s)
  {
    a := HelpfulStep(s, 0);
    BlindStep(s, a);
    StepIndices(s, a);
    RemainingNat(Next(s, a));
  }

  /** Always reading message 0, the consumer receives as many zeros as there are messages. */
  lemma {:induction false} ReceiveZeros(s: State) returns (run: seq<Action>)
    requires Indices(s) && Blind(s) && !HeadOrdered(s.orders) && s.bits >= 1
    ensures Legal(s, run) && |Exec(s, run).out| == |s.input| && OnlyZeros(Exec(s, run))
    decreases Remaining(s)
  {
    if |s.out| == |s.input| {
      run := [];
    } else {
      var a := BlindProgress(s);
      var rest := ReceiveZeros(Next(s, a));
      run := [a] + rest;
      assert run[1..] == rest;
    }
  }

  // ---------- With nothing but zeros to send, every read is right ----------

  ghost predicate ZeroMem(m: Mem)
  {
    forall x, i: nat :: x >= 2 && i <= Newest(m, x) ==> Message(m, x, i).val == 0
  }

  lemma ZeroProduce(s: State, i: nat)
    requires AllZero(s.input) && ZeroMem(s.mem) && Enabled(s, Produce(i))
    ensures ZeroMem(ProduceNext(s, i).mem)
  {
    var r := ProduceNext(s, i).mem;
    forall x, i: nat | x >= 2 && i <= Newest(r, x) ensures Message(r, x, i).val == 0 {
      if i <= Newest(s.mem, x) { assert Message(r, x, i) == Message(s.mem, x, i); }
    }
  }

  lemma ZeroConsume(s: State, i: nat)
    requires ZeroMem(s.mem) && OnlyZeros(s) && Enabled(s, Consume(i))
    ensures ZeroMem(ConsumeNext(s, i).mem) && OnlyZeros(ConsumeNext(s, i))
  {
    var r := ConsumeNext(s, i).mem;
    forall x | x >= 2 ensures Log(r, x) == Log(s.mem, x) {}
    forall x, i: nat | x >= 2 && i <= Newest(r, x) ensures Message(r, x, i).val == 0 {
      assert Message(r, x, i) == Message(s.mem, x, i);
    }
  }

  lemma ZeroStep(s: State, a: Action)
    requires AllZero(s.input) && ZeroMem(s.mem) && OnlyZeros(s) && Enabled(s, a)
    ensures ZeroMem(Next(s, a).mem) && OnlyZeros(Next(s, a))
  {
    match a
    case Produce(i) => ZeroProduce(s, i);
    case Consume(i) => ZeroConsume(s, i);
  }

  lemma {:induction false} ZeroRun(s: State, run: seq<Action>)
    requires AllZero(s.input) && ZeroMem(s.mem) && OnlyZeros(s) && Legal(s, run)
    ensures OnlyZeros(Exec(s, run))
    decreases |run|
  {
    if run != [] {
      ZeroStep(s, run[0]);
      ZeroRun(Next(s, run[0]), run[1..]);
    }
  }

  // ---------- The exact condition ----------

  /** In every run, what has been dequeued is a prefix of what has been enqueued. */
  ghost predicate AlwaysFifo(o: Orders, bits: nat, input: seq<int>)
  {
    forall s: State :: ReachableWith(o, bits, input, s) ==> s.sent <= |input| && s.out <= input[..s.sent]
  }

  lemma FifoWithout(o: Orders, bits: nat, input: seq<int>, s: State)
    requires (bits == 0 || AllZero(input)) && ReachableWith(o, bits, input, s)
    ensures s.sent <= |input| && s.out <= input[..s.sent]
  {
    ReachableIndices(o, bits, input, s);
    if AllZero(input) {
      var a := InitWith(o, bits, input);
      var run :| Legal(a, run) && s == Exec(a, run);
      ZeroRun(a, run);
    }
  }

  lemma NotFifo(o: Orders, bits: nat, input: seq<int>)
    requires bits >= 1 && !HeadOrdered(o) && !AllZero(input)
    ensures !AlwaysFifo(o, bits, input)
  {
    var a := InitWith(o, bits, input);
    InitIndices(o, bits, input);
    var run := ReceiveZeros(a);
    var s := Exec(a, run);
    assert ReachableWith(o, bits, input, s);
    var k :| 0 <= k < |input| && input[k] != 0;
    assert s.out[k] == 0;
  }

  /** The queue is FIFO in every run exactly when the head is ordered, one slot or zeros apart. */
  lemma FifoIffHeadOrdered(o: Orders, bits: nat, input: seq<int>)
    ensures AlwaysFifo(o, bits, input) <==> HeadOrdered(o) || bits == 0 || AllZero(input)
  {
    if HeadOrdered(o) || bits == 0 || AllZero(input) {
      forall s: State | ReachableWith(o, bits, input, s) ensures s.sent <= |input| && s.out <= input[..s.sent] {
        if HeadOrdered(o) { Fifo(o, bits, input, s); } else { FifoWithout(o, bits, input, s); }
      }
    } else {
      NotFifo(o, bits, input);
    }
  }
}
