/**
 Stale index loads really happen: exactly when a call can report full although there is room, and
 when one can report empty although something is published. No memory order prevents either.
 */
module SpscStale {
  import opened Arithmetic
  import opened ViewMemory
  import opened SpscQueue
  import opened SpscIndices
  import opened SpscProgress

  /** Reading message i of the tail, enqueue gives up although the ring has room now. */
  ghost predicate SpuriousFull(s: State, i: nat)
  {
    && s.prod.LoadTail? && Enabled(s, Produce(i)) && Next(s, Produce(i)).prod.LoadHead?
    && H(s) - T(s) < Size(s) - 1
  }

  /** Reading message i of the head, dequeue gives up although a message is published now. */
  ghost predicate SpuriousEmpty(s: State, i: nat)
  {
    && s.cons.LoadPublished? && Enabled(s, Consume(i)) && Next(s, Consume(i)).cons.LoadOwnTail?
    && T(s) < H(s)
  }

  // ---------- Filling the ring ----------

  /** s is reached by some run of this configuration. */
  ghost predicate InRun(o: Orders, bits: nat, input: seq<int>, s: State)
  {
    ReachableWith(o, bits, input, s) && Indices(s) && s.bits == bits && s.input == input && s.orders == o
  }

  /** k messages sent, and the consumer has not moved. */
  ghost predicate Filled(s: State, k: nat)
  {
    && s.prod.LoadHead? && s.cons.LoadOwnTail? && s.out == [] && H(s) == k && T(s) == 0
    && ViewOf(s.mem, CONSUMER) == Bottom
  }

  lemma Step(o: Orders, bits: nat, input: seq<int>, s: State, a: Action)
    requires InRun(o, bits, input, s) && Enabled(s, a)
    ensures InRun(o, bits, input, Next(s, a))
  {
    ReachNext(o, bits, input, s, a);
    StepIndices(s, a);
  }

  lemma Begin(o: Orders, bits: nat, input: seq<int>)
    ensures InRun(o, bits, input, InitWith(o, bits, input)) && Filled(InitWith(o, bits, input), 0)
  {
    var s := InitWith(o, bits, input);
    InitIndices(o, bits, input);
    assert Legal(s, []) && Exec(s, []) == s;
  }

  /** One step of the producer, and what it leaves alone. */
  lemma ProducerMoves(o: Orders, bits: nat, input: seq<int>, s: State, i: nat) returns (r: State)
    requires InRun(o, bits, input, s) && Enabled(s, Produce(i))
    ensures InRun(o, bits, input, r) && r == ProduceNext(s, i)
    ensures T(r) == T(s) && ViewOf(r.mem, CONSUMER) == ViewOf(s.mem, CONSUMER) && r.cons == s.cons && r.out == s.out
    ensures H(r) == H(s) + if s.prod.StoreHead? then 1 else 0
  {
    r := ProduceNext(s, i);
    Step(o, bits, input, s, Produce(i));
    ProducerFrame(s, i);
  }

  lemma FillOne(o: Orders, bits: nat, input: seq<int>, s: State, k: nat) returns (r: State)
    requires InRun(o, bits, input, s) && Filled(s, k) && k + 1 < Pow2(bits) && k < |input|
    ensures InRun(o, bits, input, r) && Filled(r, k + 1)
  {
    var s1 := ProducerMoves(o, bits, input, s, k);
    ProducerTest(s1, 0);
    var s2 := ProducerMoves(o, bits, input, s1, 0);
    var s3 := ProducerMoves(o, bits, input, s2, 0);
    r := ProducerMoves(o, bits, input, s3, 0);
  }

  lemma {:induction false} Fill(o: Orders, bits: nat, input: seq<int>, k: nat) returns (s: State)
    requires k < Pow2(bits) && k <= |input|
    ensures InRun(o, bits, input, s) && Filled(s, k)
  {
    if k == 0 {
      s := InitWith(o, bits, input);
      Begin(o, bits, input);
    } else {
      var s0 := Fill(o, bits, input, k - 1);
      s := FillOne(o, bits, input, s0, k - 1);
    }
  }

  // ---------- Spurious empty ----------

  lemma MissPublished(o: Orders, bits: nat, input: seq<int>) returns (s: State)
    requires bits >= 1 && input != []
    ensures ReachableWith(o, bits, input, s) && SpuriousEmpty(s, 0)
  {
    assert Pow2(bits) == 2 * Pow2(bits - 1);
    var s0 := Fill(o, bits, input, 1);
    Step(o, bits, input, s0, Consume(0));
    s := ConsumeNext(s0, 0);
    ConsumerFrame(s0, 0);
    ConsumerTest(s, 0);
  }

  /** Dequeue can report empty while something is published exactly when something can be published. */
  lemma SpuriousEmptyIff(o: Orders, bits: nat, input: seq<int>)
    ensures (exists s: State, i: nat :: ReachableWith(o, bits, input, s) && SpuriousEmpty(s, i))
            <==> bits >= 1 && input != []
  {
    forall s: State, i: nat | ReachableWith(o, bits, input, s) && SpuriousEmpty(s, i) ensures bits >= 1 && input != [] {
      ReachableIndices(o, bits, input, s);
    }
    if bits >= 1 && input != [] {
      var s := MissPublished(o, bits, input);
    }
  }

  // ---------- Spurious full ----------

  lemma ConsumerMoves(o: Orders, bits: nat, input: seq<int>, s: State, i: nat) returns (r: State)
    requires InRun(o, bits, input, s) && Enabled(s, Consume(i))
    ensures InRun(o, bits, input, r) && r == ConsumeNext(s, i)
    ensures H(r) == H(s) && ViewOf(r.mem, PRODUCER) == ViewOf(s.mem, PRODUCER) && r.prod == s.prod && r.sent == s.sent
    ensures T(r) == T(s) + if s.cons.StoreTail? then 1 else 0
  {
    r := ConsumeNext(s, i);
    Step(o, bits, input, s, Consume(i));
    ConsumerFrame(s, i);
  }

  /** The consumer finds the first message. */
  lemma FindOne(o: Orders, bits: nat, input: seq<int>, s: State, k: nat) returns (r: State)
    requires InRun(o, bits, input, s) && Filled(s, k) && 1 <= k <= |input|
    ensures InRun(o, bits, input, r) && r.cons.ReadSlot? && r.out == [] && r.prod == s.prod
    ensures H(r) == k && T(r) == 0 && ViewOf(r.mem, PRODUCER) == ViewOf(s.mem, PRODUCER)
  {
    var s1 := ConsumerMoves(o, bits, input, s, 0);
    NewestIndices(s1);
    ConsumerTest(s1, k);
    r := ConsumerMoves(o, bits, input, s1, k);
  }

  /** The consumer frees one slot; the producer has not heard of it. */
  lemma TakeOne(o: Orders, bits: nat, input: seq<int>, s: State, k: nat) returns (r: State)
    requires InRun(o, bits, input, s) && Filled(s, k) && 1 <= k <= |input|
    ensures InRun(o, bits, input, r) && r.prod.LoadHead? && H(r) == k && T(r) == 1 && TailSeen(r) == 0
  {
    assert TailSeen(s) == 0;
    var s2 := FindOne(o, bits, input, s, k);
    r := FreeOne(o, bits, input, s2);
  }

  lemma FreeOne(o: Orders, bits: nat, input: seq<int>, s: State) returns (r: State)
    requires InRun(o, bits, input, s) && s.cons.ReadSlot? && |s.out| < |input|
    ensures InRun(o, bits, input, r) && r.prod == s.prod && H(r) == H(s) && T(r) == T(s) + 1
    ensures ViewOf(r.mem, PRODUCER) == ViewOf(s.mem, PRODUCER)
  {
    NewestReadable(s);
    var s1 := ConsumerMoves(o, bits, input, s, NewestInSlot(s));
    r := ConsumerMoves(o, bits, input, s1, 0);
  }

  lemma MissFreed(o: Orders, bits: nat, input: seq<int>) returns (s: State)
    requires bits >= 1 && |input| >= Pow2(bits)
    ensures ReachableWith(o, bits, input, s) && SpuriousFull(s, 0)
  {
    var size := Pow2(bits);
    assert size == 2 * Pow2(bits - 1);
    var s0 := Fill(o, bits, input, size - 1);
    var s1 := TakeOne(o, bits, input, s0, size - 1);
    s := ProducerMoves(o, bits, input, s1, size - 1);
    assert TailSeen(s) == 0;
    ProducerTest(s, 0);
  }

  /** Enqueue can report full while there is room exactly when the input is long enough to fill the ring. */
  lemma {:induction false} SpuriousFullIff(o: Orders, bits: nat, input: seq<int>)
    ensures (exists s: State, i: nat :: ReachableWith(o, bits, input, s) && SpuriousFull(s, i))
            <==> bits >= 1 && |input| >= Pow2(bits)
  {
    forall s: State, i: nat | ReachableWith(o, bits, input, s) && SpuriousFull(s, i)
      ensures bits >= 1 && |input| >= Pow2(bits)
    {
      ReachableIndices(o, bits, input, s);
      ProducerTest(s, i);
    }
    if bits >= 1 && |input| >= Pow2(bits) {
      var s := MissFreed(o, bits, input);
    }
  }
}
