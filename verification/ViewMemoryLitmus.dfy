/**
 Two small programs that fix what the release/acquire memory means: which pairs of plain accesses
 race, and that read-modify-writes carry a release on (section 5.1.2.4 of ISO/IEC 9899:2011).
 */
module ViewMemoryLitmus {
  import opened ViewMemory

  /** A plain access by t that reads the newest message or writes val. */
  function Access(m: Mem, t: nat, x: nat, write: bool, val: int): Mem
    requires Bounded(m)
  {
    assert Within(m, ViewOf(m, t));
    if write then PlainWrite(m, t, x, val) else PlainRead(m, t, x, Newest(m, x))
  }

  lemma AccessBounded(m: Mem, t: nat, x: nat, write: bool, val: int)
    requires Bounded(m)
    ensures Bounded(Access(m, t, x, write, val))
  {
    assert Within(m, ViewOf(m, t));
    if write { BoundedPlainWrite(m, t, x, val); } else { BoundedPlainRead(m, t, x, Newest(m, x)); }
  }

  /** Two accesses of one location race exactly if different threads make them and one is a write. */
  lemma TwoAccessesRaceIff(t: nat, u: nat, x: nat, first: bool, second: bool, val: int)
    ensures Bounded(Empty) && Bounded(Access(Empty, t, x, first, val))
    ensures Access(Access(Empty, t, x, first, val), u, x, second, val).racy <==> t != u && (first || second)
  {
    EmptyBounded();
    AccessBounded(Empty, t, x, first, val);
  }

  /** Coherence: after reading a message of x a thread can read no older one. */
  lemma CoherentReads(m: Mem, t: nat, x: nat, i: nat, j: nat, acquire: bool)
    requires CanRead(m, t, x, i)
    ensures CanRead(Load(m, t, x, i, acquire), t, x, j) ==> i <= j
    ensures CanRead(PlainRead(m, t, x, i), t, x, j) ==> i <= j
  {
  }

  /** After writing x a thread can read nothing older than its own message. */
  lemma CoherentWrites(m: Mem, t: nat, x: nat, j: nat, val: int, release: bool)
    ensures CanRead(Store(m, t, x, val, release), t, x, j) ==> j == Newest(m, x) + 1
    ensures CanRead(PlainWrite(m, t, x, val), t, x, j) ==> j == Newest(m, x) + 1
  {
  }

  lemma CoherentExchange(m: Mem, t: nat, x: nat, j: nat, val: int, acquire: bool, r: Mem)
    requires r == Exchange(m, t, x, val, acquire) && CanRead(r, t, x, j)
    ensures j == Newest(m, x) + 1
  {
    var msg, v := ExchangeAppends(m, t, x, val, acquire);
    Appended(m, x, msg, t, v);
  }

  /** Relaxed read-modify-writes of y by any threads, one after the other. */
  function Exchanges(m: Mem, y: nat, chain: seq<(nat, int)>): Mem
    decreases |chain|
  {
    if chain == [] then m else Exchanges(Exchange(m, chain[0].0, y, chain[0].1, false), y, chain[1..])
  }

  /** The newest message of y knows every write of x. */
  ghost predicate Carries(m: Mem, y: nat, x: nat) { KnowsWrites(m, Message(m, y, Newest(m, y)).view, x) }

  lemma ExchangeCarries(m: Mem, t: nat, y: nat, val: int, x: nat)
    requires x != y && Carries(m, y, x)
    ensures var r := Exchange(m, t, y, val, false); Carries(r, y, x) && r.racy == m.racy && Log(r, x) == Log(m, x)
  {
    var msg, v := ExchangeAppends(m, t, y, val, false);
    Appended(m, y, msg, t, v);
    var r := SetView(Append(m, y, msg), t, v);
    assert Message(r, y, Newest(r, y)) == msg;
    KnowsFrame(m, r, msg.view, x);
  }

  lemma {:induction false} ExchangesCarry(m: Mem, y: nat, chain: seq<(nat, int)>, x: nat)
    requires x != y && Carries(m, y, x) && Bounded(m)
    ensures var r := Exchanges(m, y, chain);
            Carries(r, y, x) && r.racy == m.racy && Log(r, x) == Log(m, x) && Bounded(r)
    decreases |chain|
  {
    if chain != [] {
      ExchangeCarries(m, chain[0].0, y, chain[0].1, x);
      BoundedExchange(m, chain[0].0, y, chain[0].1, false);
      ExchangesCarry(Exchange(m, chain[0].0, y, chain[0].1, false), y, chain[1..], x);
    }
  }

  lemma Released(t: nat, x: nat, y: nat, val: int)
    requires x != y
    ensures var m := Store(PlainWrite(Empty, t, x, val), t, y, 1, true);
            Carries(m, y, x) && Value(m, x) == val && !m.racy && Bounded(m)
  {
    EmptyBounded();
    BoundedPlainWrite(Empty, t, x, val);
    BoundedStore(PlainWrite(Empty, t, x, val), t, y, 1, true);
  }

  lemma AcquiredKnows(m: Mem, u: nat, y: nat, x: nat)
    requires Carries(m, y, x) && CanRead(m, u, y, Newest(m, y))
    ensures KnowsWrites(m, ViewOf(Load(m, u, y, Newest(m, y), true), u), x)
  {
    KnowsJoin(m, Saw(ViewOf(m, u), y, Newest(m, y)), Message(m, y, Newest(m, y)).view, x);
  }

  lemma KnownRead(m: Mem, u: nat, x: nat, i: nat)
    requires KnowsWrites(m, ViewOf(m, u), x) && CanRead(m, u, x, i)
    ensures i == Newest(m, x) && PlainRead(m, u, x, i).racy == m.racy
  {
  }

  /** Acquiring a message that knows the writes of x leaves only the newest readable, without a race. */
  lemma Acquired(m: Mem, u: nat, y: nat, x: nat, i: nat)
    requires Carries(m, y, x) && CanRead(m, u, y, Newest(m, y))
    ensures var r := Load(m, u, y, Newest(m, y), true);
            CanRead(r, u, x, i) ==> Message(r, x, i).val == Value(m, x) && PlainRead(r, u, x, i).racy == m.racy
  {
    var r := Load(m, u, y, Newest(m, y), true);
    AcquiredKnows(m, u, y, x);
    KnowsFrame(m, r, ViewOf(r, u), x);
    if CanRead(r, u, x, i) { KnownRead(r, u, x, i); }
  }

  /** t writes x and releases y; others exchange y; whoever then acquires y can only read t's value. */
  lemma {:induction false} ReleaseSequence(t: nat, u: nat, x: nat, y: nat, val: int, chain: seq<(nat, int)>, i: nat)
    requires x != y
    ensures var m := Exchanges(Store(PlainWrite(Empty, t, x, val), t, y, 1, true), y, chain);
            && CanRead(m, u, y, Newest(m, y))
            && var r := Load(m, u, y, Newest(m, y), true);
               CanRead(r, u, x, i) ==> Message(r, x, i).val == val && !PlainRead(r, u, x, i).racy
  {
    var m0 := Store(PlainWrite(Empty, t, x, val), t, y, 1, true);
    Released(t, x, y, val);
    ExchangesCarry(m0, y, chain, x);
    var m := Exchanges(m0, y, chain);
    assert Within(m, ViewOf(m, u));
    Acquired(m, u, y, x, i);
  }
}
