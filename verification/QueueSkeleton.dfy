/**
 The queue as shipped: enqueue compares against a constant 0 instead of the tail, dequeue against
 a constant 0 instead of the head, and neither stores its index.
 */
module QueueSkeleton {
  import opened Arithmetic
  import opened RingIndex

  class SpscQueue {
    const bits: nat
    const buffer: array<int>
    var head: nat
    var tail: nat

    ghost predicate Valid()
      reads this
    {
      buffer.Length == Pow2(bits) && head < buffer.Length && tail < buffer.Length
    }

    /** malloc and queue_init. */
    constructor (bits: nat)
      ensures Valid() && fresh(buffer) && this.bits == bits && head == 0 && tail == 0
    {
      this.bits := bits;
      buffer := new int[Pow2(bits)];
      head, tail := 0, 0;
    }

    /** The free slot is never claimed: a success overwrites buffer[head] and moves nothing. */
    method Enqueue(value: int) returns (ok: bool)
      requires Valid()
      modifies buffer
      ensures ok <==> (head + 1 != buffer.Length)
      ensures buffer[..] == if ok then old(buffer[..])[head := value] else old(buffer[..])
    {
      var h := head;
      var nextHead := Mask(h + 1, bits);
      var t := 0;
      if h + 1 < Pow2(bits) { MaskBelow(h + 1, bits); } else { MaskSize(bits); }
      if nextHead == t {
        return false;
      }
      buffer[h] := value;
      return true;
    }

    method Dequeue() returns (ok: bool, value: int)
      requires Valid()
      ensures ok <==> tail != 0
      ensures ok ==> value == buffer[tail]
    {
      var t := tail;
      var h := 0;
      if h == t {
        return false, 0;
      }
      return true, buffer[t];
    }
  }

  /**
   Alternating calls of the two test threads in any order given by `schedule` (true: producer's
   turn), each thread following its loop. Nothing is ever received, and the producer's messages
   all land in slot 0, provided the ring has more than one slot.
   */
  method RunThreads(bits: nat, messages: nat, schedule: seq<bool>) returns (sent: nat, received: int, slots: seq<int>)
    ensures received == 0
    ensures sent == if bits == 0 then 0 else Min(messages, Turns(schedule))
    ensures |slots| == Pow2(bits) && (sent > 0 ==> slots[0] == sent - 1)
  {
    var q := new SpscQueue(bits);
    sent, received := 0, 0;
    assert bits > 0 ==> Pow2(bits) == 2 * Pow2(bits - 1);
    for i := 0 to |schedule|
      invariant q.Valid() && q.bits == bits && q.head == 0 && q.tail == 0 && fresh(q.buffer)
      invariant received == 0 && sent == if bits == 0 then 0 else Min(messages, Turns(schedule[..i]))
      invariant sent > 0 ==> q.buffer[0] == sent - 1
    {
      assert schedule[..i + 1][..i] == schedule[..i];
      if schedule[i] && sent < messages {
        var ok := q.Enqueue(sent);
        if ok { sent := sent + 1; }
      } else if !schedule[i] && received < messages {
        var ok, value := q.Dequeue();
        if ok { received := received + 1; }
      }
    }
    assert schedule[..|schedule|] == schedule;
    slots := q.buffer[..];
  }

  /** The number of turns the producer gets. */
  function Turns(schedule: seq<bool>): nat
  {
    if schedule == [] then 0
    else Turns(schedule[..|schedule| - 1]) + if schedule[|schedule| - 1] then 1 else 0
  }
}

/** The same bodies with every statement a separate step, in every interleaving. */
module SkeletonRuns {
  import opened Arithmetic
  import opened RingIndex

  datatype Producer = LoadHead | TestFull(head: nat) | WriteSlot(head: nat)

  datatype Consumer = LoadTail | TestEmpty(tail: nat) | ReadSlot(tail: nat)

  datatype State = State(bits: nat, messages: nat, buffer: seq<int>, head: nat, tail: nat,
                         prod: Producer, sent: nat, cons: Consumer, received: nat, failed: bool)

  datatype Action = Produce | Consume

  function Init(bits: nat, messages: nat, garbage: seq<int>): State
  {
    State(bits, messages, garbage, 0, 0, LoadHead, 0, LoadTail, 0, false)
  }

  predicate Enabled(s: State, a: Action)
  {
    match a
    case Produce => s.sent < s.messages && (s.prod.WriteSlot? ==> s.prod.head < |s.buffer|)
    case Consume => s.received < s.messages && (s.cons.ReadSlot? ==> s.cons.tail < |s.buffer|)
  }

  function Next(s: State, a: Action): State
    requires Enabled(s, a)
  {
    match a
    case Produce => (
      match s.prod
      case LoadHead => s.(prod := TestFull(s.head))
      case TestFull(h) => s.(prod := if Mask(h + 1, s.bits) == 0 then LoadHead else WriteSlot(h))
      case WriteSlot(h) => s.(buffer := s.buffer[h := s.sent], prod := LoadHead, sent := s.sent + 1)
    )
    case Consume => (
      match s.cons
      case LoadTail => s.(cons := TestEmpty(s.tail))
      case TestEmpty(t) => s.(cons := if 0 == t then LoadTail else ReadSlot(t))
      case ReadSlot(t) =>
        s.(cons := LoadTail, received := s.received + 1, failed := s.failed || s.buffer[t] != s.received)
    )
  }

  predicate Legal(s: State, run: seq<Action>)
    decreases |run|
  {
    run == [] || (Enabled(s, run[0]) && Legal(Next(s, run[0]), run[1..]))
  }

  function Exec(s: State, run: seq<Action>): State
    requires Legal(s, run)
    decreases |run|
  {
    if run == [] then s else Exec(Next(s, run[0]), run[1..])
  }

  ghost predicate Inv(garbage: seq<int>, s: State)
  {
    && |garbage| == Pow2(s.bits) && s.head == 0 && s.tail == 0 && s.received == 0 && !s.failed
    && s.sent <= s.messages
    && (s.prod.TestFull? ==> s.prod.head == 0)
    && (s.prod.WriteSlot? ==> s.prod.head == 0 && s.bits > 0)
    && (s.bits == 0 ==> s.sent == 0)
    && (s.cons.TestEmpty? ==> s.cons.tail == 0) && !s.cons.ReadSlot?
    && s.buffer == if s.sent == 0 then garbage else garbage[0 := s.sent - 1]
  }

  lemma StepInv(garbage: seq<int>, s: State, a: Action)
    requires Inv(garbage, s) && Enabled(s, a)
    ensures Inv(garbage, Next(s, a))
  {
    if s.bits == 0 {
      MaskSize(0);
    } else {
      assert Pow2(s.bits) == 2 * Pow2(s.bits - 1);
      MaskBelow(1, s.bits);
    }
  }

  lemma {:induction false} RunInv(garbage: seq<int>, s: State, run: seq<Action>)
    requires Inv(garbage, s) && Legal(s, run)
    ensures var r := Exec(s, run); Inv(garbage, r) && r.bits == s.bits && r.messages == s.messages
    decreases |run|
  {
    if run != [] {
      StepInv(garbage, s, run[0]);
      RunInv(garbage, Next(s, run[0]), run[1..]);
    }
  }

  /** Slot writes performed in a run. */
  function WritesIn(s: State, run: seq<Action>): nat
    requires Legal(s, run)
    decreases |run|
  {
    if run == [] then 0
    else (if run[0].Produce? && s.prod.WriteSlot? then 1 else 0) + WritesIn(Next(s, run[0]), run[1..])
  }

  lemma {:induction false} SentCounts(s: State, run: seq<Action>)
    requires Legal(s, run)
    ensures Exec(s, run).sent == s.sent + WritesIn(s, run)
    decreases |run|
  {
    if run != [] { SentCounts(Next(s, run[0]), run[1..]); }
  }

  /**
   In every interleaving both indices stay 0, only slot 0 is ever written, nothing is received, and
   the consumer's loop can always take another step when at least one message is expected.
   */
  lemma {:induction false} NeverDelivers(bits: nat, messages: nat, garbage: seq<int>, run: seq<Action>)
    requires |garbage| == Pow2(bits) && Legal(Init(bits, messages, garbage), run)
    ensures var s := Exec(Init(bits, messages, garbage), run);
            && s.head == 0 && s.tail == 0 && s.received == 0 && !s.failed
            && s.sent == WritesIn(Init(bits, messages, garbage), run) <= messages
            && s.buffer == (if s.sent == 0 then garbage else garbage[0 := s.sent - 1])
            && (messages >= 1 <==> Enabled(s, Consume))
  {
    RunInv(garbage, Init(bits, messages, garbage), run);
    SentCounts(Init(bits, messages, garbage), run);
  }

  // ---------- What each side still does ----------

  lemma {:induction false} Twice(s: State, a: Action)
    requires Enabled(s, a) && Enabled(Next(s, a), a)
    ensures Legal(s, [a, a]) && Exec(s, [a, a]) == Next(Next(s, a), a)
  {
    var r, two, one := Next(s, a), [a, a], [a];
    assert two[1..] == one && one[1..] == [] && Legal(Next(r, a), []) && Exec(Next(r, a), []) == Next(r, a);
    assert Legal(r, one) && Exec(r, one) == Next(r, a);
  }

  lemma {:induction false} Thrice(s: State, a: Action)
    requires Enabled(s, a) && Enabled(Next(s, a), a) && Enabled(Next(Next(s, a), a), a)
    ensures Legal(s, [a, a, a]) && Exec(s, [a, a, a]) == Next(Next(Next(s, a), a), a)
  {
    Twice(Next(s, a), a);
    assert [a, a, a][1..] == [a, a];
  }

  /**
   The steps of one enqueue call in a row do what the whole call does, whatever the indices are: they
   write the slot and count the message unless the next index is 0, and then change nothing.
   */
  lemma {:induction false} EnqueueSteps(s: State)
    requires s.prod.LoadHead? && s.sent < s.messages && s.head < |s.buffer| == Pow2(s.bits)
    ensures s.head + 1 == |s.buffer| ==> Legal(s, [Produce, Produce]) && Exec(s, [Produce, Produce]) == s
    ensures s.head + 1 != |s.buffer| ==>
              && Legal(s, [Produce, Produce, Produce])
              && Exec(s, [Produce, Produce, Produce]) == s.(buffer := s.buffer[s.head := s.sent], sent := s.sent + 1)
  {
    if s.head + 1 == |s.buffer| {
      MaskSize(s.bits);
      Twice(s, Produce);
    } else {
      MaskBelow(s.head + 1, s.bits);
      Thrice(s, Produce);
    }
  }

  /**
   Likewise for dequeue: with the tail at 0 nothing changes, otherwise the slot is read, the message
   counted, and the check fires if the value is not the expected one.
   */
  lemma {:induction false} DequeueSteps(s: State)
    requires s.cons.LoadTail? && s.received < s.messages && s.tail < |s.buffer|
    ensures s.tail == 0 ==> Legal(s, [Consume, Consume]) && Exec(s, [Consume, Consume]) == s
    ensures s.tail != 0 ==>
              && Legal(s, [Consume, Consume, Consume])
              && Exec(s, [Consume, Consume, Consume])
                 == s.(received := s.received + 1, failed := s.failed || s.buffer[s.tail] != s.received)
  {
    if s.tail == 0 { Twice(s, Consume); } else { Thrice(s, Consume); }
  }

  /** One more message, by the producer alone. */
  lemma SendOne(garbage: seq<int>, s: State) returns (run: seq<Action>)
    requires Inv(garbage, s) && s.bits >= 1 && s.sent < s.messages
    ensures Legal(s, run) && Inv(garbage, Exec(s, run)) && Exec(s, run).sent == s.sent + 1
    ensures Exec(s, run).bits == s.bits && Exec(s, run).messages == s.messages
    decreases match s.prod case LoadHead => 2 case TestFull(_) => 1 case WriteSlot(_) => 0
  {
    var r := Next(s, Produce);
    StepInv(garbage, s, Produce);
    if s.prod.WriteSlot? {
      run := [Produce];
      assert run[1..] == [] && Legal(r, []) && Exec(r, []) == r;
    } else {
      if s.prod.TestFull? { TestPassed(garbage, s); }
      var rest := SendOne(garbage, r);
      run := [Produce] + rest;
      assert run[1..] == rest;
    }
  }

  lemma TestPassed(garbage: seq<int>, s: State)
    requires Inv(garbage, s) && s.bits >= 1 && s.prod.TestFull? && Enabled(s, Produce)
    ensures Next(s, Produce).prod.WriteSlot?
  {
    assert Pow2(s.bits) == 2 * Pow2(s.bits - 1);
    MaskBelow(1, s.bits);
  }

  lemma {:induction false} ExecConcat(s: State, a: seq<Action>, b: seq<Action>)
    requires Legal(s, a) && Legal(Exec(s, a), b)
    ensures Legal(s, a + b) && Exec(s, a + b) == Exec(Exec(s, a), b)
    decreases |a|
  {
    if a == [] {
      assert a + b == b;
    } else {
      assert (a + b)[1..] == a[1..] + b;
      ExecConcat(Next(s, a[0]), a[1..], b);
    }
  }

  lemma {:induction false} SendRest(garbage: seq<int>, s: State) returns (run: seq<Action>)
    requires Inv(garbage, s) && s.bits >= 1
    ensures Legal(s, run) && Inv(garbage, Exec(s, run)) && Exec(s, run).sent == s.messages
    decreases s.messages - s.sent
  {
    if s.sent == s.messages {
      run := [];
    } else {
      var one := SendOne(garbage, s);
      var rest := SendRest(garbage, Exec(s, one));
      ExecConcat(s, one, rest);
      run := one + rest;
    }
  }

  /**
   With two or more slots, whatever has happened so far, the producer can still send everything it has,
   and its last message is then all that slot 0 holds; the consumer goes round for ever.
   */
  lemma {:induction false} ProducerCompletes(bits: nat, messages: nat, garbage: seq<int>, run: seq<Action>)
    returns (rest: seq<Action>)
    requires |garbage| == Pow2(bits) && bits >= 1 && messages >= 1 && Legal(Init(bits, messages, garbage), run)
    ensures var s := Exec(Init(bits, messages, garbage), run);
            && Legal(s, rest)
            && var r := Exec(s, rest);
               && r.sent == messages && r.received == 0 && Enabled(r, Consume) && !Enabled(r, Produce)
               && r.buffer == garbage[0 := messages - 1]
  {
    var a := Init(bits, messages, garbage);
    RunInv(garbage, a, run);
    rest := SendRest(garbage, Exec(a, run));
    RunInv(garbage, Exec(a, run), rest);
  }

  /** Enqueue's test is passed on every attempt, unless the ring has a single slot. */
  lemma {:induction false} EnqueueAlwaysSucceeds(bits: nat, messages: nat, garbage: seq<int>, run: seq<Action>)
    requires |garbage| == Pow2(bits) && Legal(Init(bits, messages, garbage), run)
    ensures var s := Exec(Init(bits, messages, garbage), run);
            s.prod.TestFull? && Enabled(s, Produce) ==> (Next(s, Produce).prod.WriteSlot? <==> bits >= 1)
  {
    var s := Exec(Init(bits, messages, garbage), run);
    RunInv(garbage, Init(bits, messages, garbage), run);
    if Enabled(s, Produce) { StepInv(garbage, s, Produce); }
    if bits > 0 {
      assert Pow2(bits) == 2 * Pow2(bits - 1);
      MaskBelow(1, bits);
    }
  }
}
