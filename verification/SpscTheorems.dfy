/** What every run of the intended queue guarantees, for every power-of-two size and every input. */
module SpscTheorems {
  import opened Arithmetic
  import opened RingIndex
  import opened ViewMemory
  import opened SpscQueue
  import opened SpscIndices
  import opened SpscInvariant
  import opened SpscProgress

  lemma ReachableFifo(o: Orders, bits: nat, input: seq<int>, s: State)
    requires HeadOrdered(o) && ReachableWith(o, bits, input, s)
    ensures FifoInv(s) && FailedOk(s) && s.bits == bits && s.input == input
    ensures TailOrdered(o) ==> Inv(s)
  {
    var a := InitWith(o, bits, input);
    var run :| Legal(a, run) && s == Exec(a, run);
    InitFifo(o, bits, input);
    RunFifo(a, run);
    History(a, run);
    ReachableIndices(o, bits, input, s);
    if TailOrdered(o) {
      InitInv(bits, input);
      RunInv(a, run);
    }
  }

  /** The consumer's check has fired exactly when an output differs from its position. */
  ghost predicate FailedOk(s: State)
  {
    s.failed <==> exists k: nat :: k < |s.out| && s.out[k] != k
  }

  lemma FailedStep(s: State, a: Action)
    requires Enabled(s, a) && FailedOk(s)
    ensures FailedOk(Next(s, a))
  {
    var r := Next(s, a);
    if r.out != s.out {
      var n := |s.out|;
      assert r.out == s.out + [r.out[n]] && r.failed == (s.failed || r.out[n] != n);
      assert forall k: nat :: k < n ==> r.out[k] == s.out[k];
    }
  }

  lemma {:induction false} History(s: State, run: seq<Action>)
    requires Legal(s, run) && FailedOk(s)
    ensures FailedOk(Exec(s, run))
    decreases |run|
  {
    if run != [] {
      FailedStep(s, run[0]);
      History(Next(s, run[0]), run[1..]);
    }
  }

  // ---------- FIFO ----------

  /**
   With the head a release/acquire pair, whatever the orders of the tail, what has been dequeued is a
   prefix of what has been enqueued; with the tail ordered as well no slot access is a race.
   */
  lemma Fifo(o: Orders, bits: nat, input: seq<int>, s: State)
    requires HeadOrdered(o) && ReachableWith(o, bits, input, s)
    ensures s.sent <= |input| && s.out <= input[..s.sent]
    ensures TailOrdered(o) ==> !s.mem.racy
  {
    ReachableFifo(o, bits, input, s);
  }

  /** With the exercise's messages 0, 1, 2, ... the consumer's check never fires. */
  lemma CheckNeverFires(o: Orders, bits: nat, input: seq<int>, s: State)
    requires HeadOrdered(o) && ReachableWith(o, bits, input, s) && forall k :: 0 <= k < |input| ==> input[k] == k
    ensures !s.failed
  {
    ReachableFifo(o, bits, input, s);
    assert forall k: nat :: k < |s.out| ==> s.out[k] == input[k];
  }

  // ---------- Masked indices refine unbounded counters ----------

  /**
   Message k of either index location holds k modulo the size, and 0 <= H - T <= size - 1. Like the
   next two results this holds whatever the memory orders.
   */
  lemma {:induction false} IndicesRefineCounters(o: Orders, bits: nat, input: seq<int>, s: State, k: nat)
    requires ReachableWith(o, bits, input, s)
    ensures T(s) <= H(s) < T(s) + Pow2(bits)
    ensures H(s) == s.sent && T(s) == |s.out|
    ensures k <= H(s) ==> Message(s.mem, HEAD, k).val == k % Pow2(bits)
    ensures k <= T(s) ==> Message(s.mem, TAIL, k).val == k % Pow2(bits)
  {
    ReachableIndices(o, bits, input, s);
    SlotIsRemainder(k, Pow2(bits));
  }

  /**
   A stale index can only make a call give up. Reading message i of the tail, enqueue reports full
   exactly when the ring was full at message i, and when it proceeds the ring has room now; reading
   message i of the head, dequeue reports empty exactly when nothing beyond it was published.
   */
  lemma {:induction false} StaleLoadsAreSafe(o: Orders, bits: nat, input: seq<int>, s: State, i: nat)
    requires ReachableWith(o, bits, input, s)
    ensures s.prod.LoadTail? && Enabled(s, Produce(i)) ==>
              && i <= T(s)
              && (Next(s, Produce(i)).prod.LoadHead? <==> H(s) - i == Pow2(bits) - 1)
              && (Next(s, Produce(i)).prod.WriteSlot? ==> H(s) - T(s) < Pow2(bits) - 1)
    ensures s.cons.LoadPublished? && Enabled(s, Consume(i)) ==>
              && i <= H(s)
              && (Next(s, Consume(i)).cons.LoadOwnTail? <==> i == T(s))
              && (Next(s, Consume(i)).cons.ReadSlot? ==> T(s) < H(s))
  {
    ReachableIndices(o, bits, input, s);
    if s.prod.LoadTail? && Enabled(s, Produce(i)) { ProducerTest(s, i); }
    if s.cons.LoadPublished? && Enabled(s, Consume(i)) { ConsumerTest(s, i); }
  }

  /** The slot about to be written holds no message that is still to be read. */
  lemma {:induction false} NoUnreadOverwritten(o: Orders, bits: nat, input: seq<int>, s: State, k: nat)
    requires ReachableWith(o, bits, input, s) && s.prod.WriteSlot? && T(s) <= k < H(s)
    ensures Slot(k, Pow2(bits)) != s.prod.head
  {
    ReachableIndices(o, bits, input, s);
    SlotDistinct(k, H(s), Pow2(bits));
  }

  /** The slot about to be read can only yield the oldest unread, published message. */
  lemma NoUnpublishedRead(o: Orders, bits: nat, input: seq<int>, s: State, i: nat)
    requires HeadOrdered(o) && ReachableWith(o, bits, input, s)
    requires s.cons.ReadSlot? && CanRead(s.mem, CONSUMER, Buffer(s.cons.tail), i)
    ensures T(s) < H(s) <= |input| && Message(s.mem, Buffer(s.cons.tail), i).val == input[T(s)]
  {
    ReachableFifo(o, bits, input, s);
    SlotIsFull(s, i);
  }

  // ---------- Delivery ----------

  /** From every reachable state some schedule delivers the whole input, given at least two slots. */
  lemma Delivery(o: Orders, bits: nat, input: seq<int>, s: State) returns (run: seq<Action>)
    requires HeadOrdered(o) && ReachableWith(o, bits, input, s) && bits >= 1
    ensures Legal(s, run) && Exec(s, run).out == input
  {
    ReachableFifo(o, bits, input, s);
    run := CanDeliver(s);
    RunFifo(s, run);
    RunIndices(s, run);
  }

  /** One slot is kept empty, so the ring delivers messages exactly when it has at least two slots. */
  lemma {:induction false} DeliversIff(o: Orders, bits: nat, input: seq<int>)
    requires HeadOrdered(o) && input != []
    ensures (exists s: State :: ReachableWith(o, bits, input, s) && s.out == input) <==> Pow2(bits) >= 2
  {
    if bits == 0 {
      forall s: State | ReachableWith(o, bits, input, s) ensures s.out != input {
        ReachableIndices(o, bits, input, s);
      }
    } else {
      assert Pow2(bits) >= 2;
      var s := InitWith(o, bits, input);
      assert Legal(s, []) && Exec(s, []) == s;
      var run := Delivery(o, bits, input, s);
      assert ReachableWith(o, bits, input, Exec(s, run));
    }
  }
}
