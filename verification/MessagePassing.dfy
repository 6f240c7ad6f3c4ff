/**
 Message passing over the release/acquire memory. The producer performs any list of payload
 stores in source order and then stores 1 to the flag; the consumer spins on the flag, for any
 number of iterations, and then reads payload locations. The configuration says whether the
 payload is plain or relaxed atomic, and which orders the two flag accesses use.
 */
module MessagePassing {
  import opened ViewMemory

  const FLAG: nat := 0
  const PRODUCER: nat := 0
  const CONSUMER: nat := 1

  datatype Config = Config(payload: seq<(nat, int)>, plain: bool, release: bool, acquire: bool)

  datatype State = State(mem: Mem, sent: nat, left: bool, observed: seq<(nat, int)>)

  /** Spin(i) loads message i of the flag; Read(x, i) reads message i of x after the loop. */
  datatype Action = Produce | Spin(i: nat) | Read(x: nat, i: nat)

  const Start := State(Empty, 0, false, [])

  predicate PayloadOk(c: Config)
  {
    forall k :: 0 <= k < |c.payload| ==> c.payload[k].0 != FLAG
  }

  predicate Enabled(c: Config, s: State, a: Action)
  {
    match a
    case Produce => s.sent <= |c.payload|
    case Spin(i) => !s.left && CanRead(s.mem, CONSUMER, FLAG, i)
    case Read(x, i) => s.left && x != FLAG && CanRead(s.mem, CONSUMER, x, i)
  }

  function Next(c: Config, s: State, a: Action): State
    requires Enabled(c, s, a)
  {
    match a
    case Produce =>
      s.(sent := s.sent + 1,
         mem := if s.sent == |c.payload| then Store(s.mem, PRODUCER, FLAG, 1, c.release)
                else if c.plain then PlainWrite(s.mem, PRODUCER, c.payload[s.sent].0, c.payload[s.sent].1)
                else Store(s.mem, PRODUCER, c.payload[s.sent].0, c.payload[s.sent].1, false))
    case Spin(i) =>
      s.(mem := Load(s.mem, CONSUMER, FLAG, i, c.acquire), left := Message(s.mem, FLAG, i).val != 0)
    case Read(x, i) =>
      s.(mem := if c.plain then PlainRead(s.mem, CONSUMER, x, i) else Load(s.mem, CONSUMER, x, i, false),
         observed := s.observed + [(x, Message(s.mem, x, i).val)])
  }

  predicate Legal(c: Config, s: State, run: seq<Action>)
    decreases |run|
  {
    run == [] || (Enabled(c, s, run[0]) && Legal(c, Next(c, s, run[0]), run[1..]))
  }

  function Exec(c: Config, s: State, run: seq<Action>): State
    requires Legal(c, s, run)
    decreases |run|
  {
    if run == [] then s else Exec(c, Next(c, s, run[0]), run[1..])
  }

  /** The value the first n payload stores leave in x. */
  function Published(payload: seq<(nat, int)>, n: nat, x: nat): int
    requires n <= |payload|
  {
    if n == 0 then 0
    else if payload[n - 1].0 == x then payload[n - 1].1
    else Published(payload, n - 1, x)
  }

  function PayloadSent(c: Config, s: State): nat
    requires s.sent <= |c.payload| + 1
  {
    if s.sent <= |c.payload| then s.sent else |c.payload|
  }

  // ---------- Acquire/release publishes the payload ----------

  /** What is known about payload location x. */
  ghost predicate LocOk(c: Config, s: State, x: nat)
    requires s.sent <= |c.payload| + 1
  {
    && Value(s.mem, x) == Published(c.payload, PayloadSent(c, s), x)
    && KnowsWrites(s.mem, ViewOf(s.mem, PRODUCER), x)
    && (!s.left ==> Reads(s.mem, x) == map[])
    && (s.sent == |c.payload| + 1 && Newest(s.mem, FLAG) == 1 ==>
          KnowsWrites(s.mem, Message(s.mem, FLAG, 1).view, x))
    && (s.left ==> KnowsWrites(s.mem, ViewOf(s.mem, CONSUMER), x))
  }

  ghost predicate FlagOk(c: Config, s: State)
  {
    && c.release && c.acquire && PayloadOk(c)
    && s.sent <= |c.payload| + 1
    && Newest(s.mem, FLAG) == (if s.sent == |c.payload| + 1 then 1 else 0)
    && (s.left ==> s.sent == |c.payload| + 1)
  }

  ghost predicate AllPublished(c: Config, observed: seq<(nat, int)>)
  {
    forall k :: 0 <= k < |observed| ==> observed[k].1 == Published(c.payload, |c.payload|, observed[k].0)
  }

  ghost predicate Inv(c: Config, s: State)
  {
    FlagOk(c, s) && !s.mem.racy && AllPublished(c, s.observed) && forall x :: x != FLAG ==> LocOk(c, s, x)
  }

  /** A store of thread t, seen at any location: t still knows every write. */
  lemma StoredAt(m: Mem, t: nat, y: nat, val: int, release: bool, x: nat)
    requires KnowsWrites(m, ViewOf(m, t), x)
    ensures var r := Store(m, t, y, val, release);
            && Value(r, x) == (if x == y then val else Value(m, x))
            && Reads(r, x) == Reads(m, x) && KnowsWrites(r, ViewOf(r, t), x)
  {
    var r := Store(m, t, y, val, release);
    assert ViewOf(r, t).clock == ViewOf(m, t).clock && Writes(r, x) == Writes(m, x);
    if x != y { assert Log(r, x) == Log(m, x); }
  }

  lemma WrittenAt(m: Mem, t: nat, y: nat, val: int, x: nat)
    requires KnowsWrites(m, ViewOf(m, t), x)
    ensures var r := PlainWrite(m, t, y, val);
            && Value(r, x) == (if x == y then val else Value(m, x))
            && Reads(r, x) == Reads(m, x) && KnowsWrites(r, ViewOf(r, t), x)
  {
    var r := PlainWrite(m, t, y, val);
    forall u ensures At(ViewOf(m, t).clock, u) <= At(ViewOf(r, t).clock, u) {}
    if x != y { assert Log(r, x) == Log(m, x) && Writes(r, x) == Writes(m, x); }
  }

  lemma PayloadLoc(c: Config, s: State, x: nat)
    requires PayloadOk(c) && s.sent < |c.payload| && !s.left && x != FLAG && LocOk(c, s, x)
    ensures LocOk(c, Next(c, s, Produce), x)
  {
    var (y, val) := c.payload[s.sent];
    if c.plain { WrittenAt(s.mem, PRODUCER, y, val, x); } else { StoredAt(s.mem, PRODUCER, y, val, false, x); }
  }

  lemma FlagLoc(c: Config, s: State, x: nat)
    requires FlagOk(c, s) && s.sent == |c.payload| && x != FLAG && LocOk(c, s, x)
    ensures LocOk(c, Next(c, s, Produce), x)
  {
    var r := Next(c, s, Produce);
    StoredAt(s.mem, PRODUCER, FLAG, 1, true, x);
    assert Message(r.mem, FLAG, 1).view == ViewOf(r.mem, PRODUCER);
  }

  lemma ProducedFlagOk(c: Config, s: State)
    requires FlagOk(c, s) && Enabled(c, s, Produce)
    ensures FlagOk(c, Next(c, s, Produce))
  {
  }

  /** The producer knows all earlier writes and nobody has read yet. */
  lemma ProduceRaceFree(c: Config, s: State)
    requires FlagOk(c, s) && Enabled(c, s, Produce)
    requires s.sent < |c.payload| ==> LocOk(c, s, c.payload[s.sent].0)
    ensures Next(c, s, Produce).mem.racy == s.mem.racy
  {
  }

  lemma ProduceStep(c: Config, s: State)
    requires Inv(c, s) && Enabled(c, s, Produce)
    ensures Inv(c, Next(c, s, Produce))
  {
    ProducedFlagOk(c, s);
    ProduceRaceFree(c, s);
    forall x | x != FLAG ensures LocOk(c, Next(c, s, Produce), x) {
      if s.sent < |c.payload| { PayloadLoc(c, s, x); } else { FlagLoc(c, s, x); }
    }
  }

  lemma SpinLoc(c: Config, s: State, i: nat, x: nat)
    requires FlagOk(c, s) && LocOk(c, s, x) && Enabled(c, s, Spin(i)) && x != FLAG
    ensures LocOk(c, Next(c, s, Spin(i)), x)
  {
    var r := Next(c, s, Spin(i));
    var v := Saw(ViewOf(s.mem, CONSUMER), FLAG, i);
    assert r.mem.log == s.mem.log && ViewOf(r.mem, PRODUCER) == ViewOf(s.mem, PRODUCER);
    if i == 1 {
      KnowsJoin(s.mem, v, Message(s.mem, FLAG, 1).view, x);
    }
  }

  lemma SpinStep(c: Config, s: State, i: nat)
    requires Inv(c, s) && Enabled(c, s, Spin(i))
    ensures Inv(c, Next(c, s, Spin(i)))
  {
    forall x | x != FLAG ensures LocOk(c, Next(c, s, Spin(i)), x) {
      SpinLoc(c, s, i, x);
    }
  }

  /** A read of the newest message of y leaves the consumer as well informed as it was. */
  lemma ReadLoc(c: Config, s: State, y: nat, i: nat, x: nat)
    requires FlagOk(c, s) && LocOk(c, s, x) && Enabled(c, s, Read(y, i)) && i == Newest(s.mem, y) && x != FLAG
    ensures LocOk(c, Next(c, s, Read(y, i)), x)
  {
    var r := Next(c, s, Read(y, i));
    assert r.mem.log == s.mem.log && r.mem.writeAt == s.mem.writeAt;
    assert ViewOf(r.mem, PRODUCER) == ViewOf(s.mem, PRODUCER);
    forall u ensures At(ViewOf(s.mem, CONSUMER).clock, u) <= At(ViewOf(r.mem, CONSUMER).clock, u) {}
  }

  lemma ReadStep(c: Config, s: State, y: nat, i: nat)
    requires Inv(c, s) && Enabled(c, s, Read(y, i))
    ensures Inv(c, Next(c, s, Read(y, i)))
  {
    assert LocOk(c, s, y) && i == Newest(s.mem, y);
    forall x | x != FLAG ensures LocOk(c, Next(c, s, Read(y, i)), x) {
      ReadLoc(c, s, y, i, x);
    }
  }

  lemma {:induction false} RunInv(c: Config, s: State, run: seq<Action>)
    requires Inv(c, s) && Legal(c, s, run)
    ensures Inv(c, Exec(c, s, run))
    decreases |run|
  {
    if run != [] {
      match run[0] {
        case Produce => ProduceStep(c, s);
        case Spin(i) => SpinStep(c, s, i);
        case Read(x, i) => ReadStep(c, s, x, i);
      }
      RunInv(c, Next(c, s, run[0]), run[1..]);
    }
  }

  /**
   With a release store and acquire loads of the flag, every value the consumer observes after
   the loop is the published one, and no plain access is ever part of a data race.
   */
  lemma {:induction false} AcquireReleasePublishes(c: Config, run: seq<Action>)
    requires c.release && c.acquire && PayloadOk(c) && Legal(c, Start, run)
    ensures var s := Exec(c, Start, run); !s.mem.racy && AllPublished(c, s.observed)
  {
    assert forall x :: x != FLAG ==> LocOk(c, Start, x);
    RunInv(c, Start, run);
  }

  // ---------- Anything weaker does not ----------

  ghost predicate Reaches(c: Config, s: State)
  {
    exists run: seq<Action> :: Legal(c, Start, run) && Exec(c, Start, run) == s
  }

  lemma {:induction false} Extend(c: Config, s: State, run: seq<Action>, a: Action)
    requires Legal(c, s, run) && Enabled(c, Exec(c, s, run), a)
    ensures Legal(c, s, run + [a]) && Exec(c, s, run + [a]) == Next(c, Exec(c, s, run), a)
    decreases |run|
  {
    if run == [] {
      var one, r := run + [a], Next(c, s, a);
      assert one[1..] == [] && Legal(c, r, []) && Exec(c, r, []) == r;
    } else {
      assert (run + [a])[1..] == run[1..] + [a];
      Extend(c, Next(c, s, run[0]), run[1..], a);
    }
  }

  lemma ReachNext(c: Config, s: State, a: Action)
    requires Reaches(c, s) && Enabled(c, s, a)
    ensures Reaches(c, Next(c, s, a))
  {
    var run: seq<Action> :| Legal(c, Start, run) && Exec(c, Start, run) == s;
    Extend(c, Start, run, a);
  }

  /** Some message of x has this value. */
  ghost predicate Holds(m: Mem, x: nat, val: int)
  {
    exists i: nat :: i <= Newest(m, x) && Message(m, x, i).val == val
  }

  /** What the first d stores left in each location is still there to be read. */
  ghost predicate Kept(c: Config, m: Mem, d: nat)
    requires d <= |c.payload|
  {
    forall x :: x != FLAG ==> Holds(m, x, Published(c.payload, d, x))
  }

  /** The producer's plain write of x is on record. */
  predicate Marked(m: Mem, x: nat) { At(Writes(m, x), PRODUCER) > 0 }

  /** With either flag access relaxed, nothing the producer does reaches the consumer's view. */
  ghost predicate Unsynchronised(c: Config, s: State)
  {
    && s.sent <= |c.payload| + 1 && !s.left && s.observed == []
    && ViewOf(s.mem, CONSUMER) == Bottom
    && Newest(s.mem, FLAG) == (if s.sent == |c.payload| + 1 then 1 else 0)
    && (s.sent == |c.payload| + 1 ==>
          var msg := Message(s.mem, FLAG, 1);
          msg.val == 1 && (c.acquire ==> msg.view == Only(FLAG, 1)))
  }

  ghost predicate Recorded(c: Config, m: Mem, n: nat)
    requires n <= |c.payload|
  {
    && (forall d: nat :: d <= n ==> Kept(c, m, d))
    && (c.plain ==> forall k :: 0 <= k < n ==> Marked(m, c.payload[k].0))
  }

  lemma UnsynchronisedStep(c: Config, s: State)
    requires PayloadOk(c) && !(c.release && c.acquire) && Unsynchronised(c, s) && Enabled(c, s, Produce)
    ensures Unsynchronised(c, Next(c, s, Produce))
  {
  }

  /** Messages are never removed, nor are marks. */
  lemma HeldOn(c: Config, s: State, x: nat, val: int)
    requires Enabled(c, s, Produce)
    ensures Holds(s.mem, x, val) ==> Holds(Next(c, s, Produce).mem, x, val)
    ensures Marked(s.mem, x) ==> Marked(Next(c, s, Produce).mem, x)
  {
    var r := Next(c, s, Produce);
    if Holds(s.mem, x, val) {
      var i: nat :| i <= Newest(s.mem, x) && Message(s.mem, x, i).val == val;
      assert i <= Newest(r.mem, x) && Message(r.mem, x, i) == Message(s.mem, x, i);
    }
  }

  lemma NewlyHeld(c: Config, s: State)
    requires s.sent < |c.payload|
    ensures var r, (y, val) := Next(c, s, Produce), c.payload[s.sent];
            Holds(r.mem, y, val) && (c.plain ==> Marked(r.mem, y))
  {
    var r, y := Next(c, s, Produce), c.payload[s.sent].0;
    assert Message(r.mem, y, Newest(r.mem, y)).val == c.payload[s.sent].1;
  }

  lemma KeptStep(c: Config, s: State, d: nat)
    requires PayloadOk(c) && s.sent < |c.payload| && d <= s.sent + 1
    requires Kept(c, s.mem, if d <= s.sent then d else s.sent)
    ensures Kept(c, Next(c, s, Produce).mem, d)
  {
    NewlyHeld(c, s);
    forall x | x != FLAG ensures Holds(Next(c, s, Produce).mem, x, Published(c.payload, d, x)) {
      HeldOn(c, s, x, Published(c.payload, d, x));
    }
  }

  lemma RecordedStep(c: Config, s: State)
    requires PayloadOk(c) && s.sent < |c.payload| && Recorded(c, s.mem, s.sent)
    ensures Recorded(c, Next(c, s, Produce).mem, s.sent + 1)
  {
    var r := Next(c, s, Produce);
    NewlyHeld(c, s);
    forall d: nat | d <= s.sent + 1 ensures Kept(c, r.mem, d) { KeptStep(c, s, d); }
    forall k | c.plain && 0 <= k < s.sent + 1 ensures Marked(r.mem, c.payload[k].0) {
      HeldOn(c, s, c.payload[k].0, 0);
    }
  }

  lemma RecordedFlag(c: Config, s: State)
    requires PayloadOk(c) && s.sent == |c.payload| && Recorded(c, s.mem, s.sent)
    ensures Recorded(c, Next(c, s, Produce).mem, s.sent)
  {
    var r := Next(c, s, Produce);
    forall d: nat, x | d <= s.sent && x != FLAG ensures Holds(r.mem, x, Published(c.payload, d, x)) {
      assert Kept(c, s.mem, d);
      HeldOn(c, s, x, Published(c.payload, d, x));
    }
    forall k | c.plain && 0 <= k < s.sent ensures Marked(r.mem, c.payload[k].0) {
      HeldOn(c, s, c.payload[k].0, 0);
    }
  }

  /** The producer runs to the end before the consumer starts. */
  lemma {:induction false} ProducerAlone(c: Config, s: State) returns (r: State)
    requires PayloadOk(c) && !(c.release && c.acquire)
    requires Reaches(c, s) && Unsynchronised(c, s) && Recorded(c, s.mem, PayloadSent(c, s))
    ensures Reaches(c, r) && Unsynchronised(c, r) && Recorded(c, r.mem, |c.payload|) && r.sent == |c.payload| + 1
    decreases |c.payload| + 1 - s.sent
  {
    if s.sent == |c.payload| + 1 {
      r := s;
    } else {
      UnsynchronisedStep(c, s);
      if s.sent < |c.payload| { RecordedStep(c, s); } else { RecordedFlag(c, s); }
      ReachNext(c, s, Produce);
      r := ProducerAlone(c, Next(c, s, Produce));
    }
  }

  /** After the loop the consumer can still read any message of a payload location. */
  lemma ReadAnything(c: Config, s: State, x: nat, i: nat) returns (r: State)
    requires !(c.release && c.acquire) && Reaches(c, s) && Unsynchronised(c, s) && s.sent == |c.payload| + 1
    requires x != FLAG && i <= Newest(s.mem, x)
    ensures Reaches(c, r) && r.observed == [(x, Message(s.mem, x, i).val)]
    ensures c.plain && Marked(s.mem, x) ==> r.mem.racy
  {
    ReachNext(c, s, Spin(1));
    var s1 := Next(c, s, Spin(1));
    assert s1.left && At(ViewOf(s1.mem, CONSUMER).seen, x) == 0 && At(ViewOf(s1.mem, CONSUMER).clock, PRODUCER) == 0;
    assert s1.mem.log == s.mem.log && s1.mem.writeAt == s.mem.writeAt;
    ReachNext(c, s1, Read(x, i));
    r := Next(c, s1, Read(x, i));
  }

  predicate Stores(c: Config, x: nat) { exists k :: 0 <= k < |c.payload| && c.payload[k].0 == x }

  /**
   If either flag access is relaxed, then for every location the consumer can leave the loop and
   observe what any number d of the stores left there, the initial 0 for d == 0; if the payload is
   plain and the location one of its own, that read is a data race.
   */
  lemma RelaxedReadsStale(c: Config, d: nat, x: nat) returns (s: State)
    requires PayloadOk(c) && !(c.release && c.acquire) && d <= |c.payload| && x != FLAG
    ensures Reaches(c, s) && s.observed == [(x, Published(c.payload, d, x))]
    ensures c.plain && Stores(c, x) ==> s.mem.racy
  {
    assert Legal(c, Start, []) && Exec(c, Start, []) == Start;
    forall y ensures Holds(Empty, y, 0) { assert Message(Empty, y, 0).val == 0; }
    var s0 := ProducerAlone(c, Start);
    assert Kept(c, s0.mem, d);
    var i: nat :| i <= Newest(s0.mem, x) && Message(s0.mem, x, i).val == Published(c.payload, d, x);
    s := ReadAnything(c, s0, x, i);
  }

  // ---------- Every configuration can also get it right, after spinning as long as it likes ----------

  /** The producer alone has run, so far. */
  ghost predicate Sending(c: Config, s: State)
  {
    && s.sent <= |c.payload| + 1 && !s.left && s.observed == []
    && Bounded(s.mem) && ViewOf(s.mem, CONSUMER) == Bottom
    && Newest(s.mem, FLAG) == (if s.sent == |c.payload| + 1 then 1 else 0)
    && (s.sent == |c.payload| + 1 ==> Value(s.mem, FLAG) == 1)
    && forall x :: x != FLAG ==> Value(s.mem, x) == Published(c.payload, PayloadSent(c, s), x)
  }

  lemma SentMem(c: Config, s: State)
    requires Enabled(c, s, Produce)
    ensures var r, y, val := Next(c, s, Produce).mem,
                             if s.sent == |c.payload| then FLAG else c.payload[s.sent].0,
                             if s.sent == |c.payload| then 1 else c.payload[s.sent].1;
            && Newest(r, y) == Newest(s.mem, y) + 1 && Value(r, y) == val
            && ViewOf(r, CONSUMER) == ViewOf(s.mem, CONSUMER)
            && forall x :: x != y ==> Log(r, x) == Log(s.mem, x)
  {
  }

  lemma SendingStep(c: Config, s: State)
    requires PayloadOk(c) && Sending(c, s) && Enabled(c, s, Produce)
    ensures Sending(c, Next(c, s, Produce))
  {
    var r := Next(c, s, Produce);
    SentMem(c, s);
    forall x | x != FLAG ensures Value(r.mem, x) == Published(c.payload, PayloadSent(c, r), x) {
      assert Value(s.mem, x) == Published(c.payload, PayloadSent(c, s), x);
    }
    if s.sent == |c.payload| {
      BoundedStore(s.mem, PRODUCER, FLAG, 1, c.release);
    } else if c.plain {
      BoundedPlainWrite(s.mem, PRODUCER, c.payload[s.sent].0, c.payload[s.sent].1);
    } else {
      BoundedStore(s.mem, PRODUCER, c.payload[s.sent].0, c.payload[s.sent].1, false);
    }
  }

  lemma {:induction false} SendAll(c: Config, s: State) returns (r: State)
    requires PayloadOk(c) && Reaches(c, s) && Sending(c, s)
    ensures Reaches(c, r) && Sending(c, r) && r.sent == |c.payload| + 1
    decreases |c.payload| + 1 - s.sent
  {
    if s.sent == |c.payload| + 1 {
      r := s;
    } else {
      SendingStep(c, s);
      ReachNext(c, s, Produce);
      r := SendAll(c, Next(c, s, Produce));
    }
  }

  lemma StartSending(c: Config)
    ensures Reaches(c, Start) && Sending(c, Start)
  {
    assert Legal(c, Start, []) && Exec(c, Start, []) == Start;
    EmptyBounded();
  }

  /** Even when everything has been sent, the consumer may still load the flag as 0 and go round again. */
  lemma FlagMayBeStale(c: Config) returns (s: State)
    requires PayloadOk(c)
    ensures Reaches(c, s) && s.sent == |c.payload| + 1
    ensures Enabled(c, s, Spin(0)) && !Next(c, s, Spin(0)).left
  {
    StartSending(c);
    s := SendAll(c, Start);
  }

  /** Whatever the orders, for every location some run leaves the loop and observes the published value. */
  lemma ObservesPublished(c: Config, x: nat) returns (s: State)
    requires PayloadOk(c) && x != FLAG
    ensures Reaches(c, s) && s.observed == [(x, Published(c.payload, |c.payload|, x))]
  {
    StartSending(c);
    var s0 := SendAll(c, Start);
    ReachNext(c, s0, Spin(1));
    BoundedLoad(s0.mem, CONSUMER, FLAG, 1, c.acquire);
    var s1 := Next(c, s0, Spin(1));
    var i := Newest(s0.mem, x);
    assert s1.mem.log == s0.mem.log && Value(s0.mem, x) == Published(c.payload, |c.payload|, x);
    assert CanRead(s1.mem, CONSUMER, x, i) by { assert Within(s1.mem, ViewOf(s1.mem, CONSUMER)); }
    ReachNext(c, s1, Read(x, i));
    s := Next(c, s1, Read(x, i));
  }

  // ---------- Payloads of zeros ----------

  predicate AllZero(c: Config) { forall k :: 0 <= k < |c.payload| ==> c.payload[k].1 == 0 }

  lemma {:induction false} ZeroPublished(c: Config, n: nat, x: nat)
    requires n <= |c.payload| && AllZero(c)
    ensures Published(c.payload, n, x) == 0
  {
    if n > 0 { ZeroPublished(c, n - 1, x); }
  }

  /** Nothing but zeros is ever stored outside the flag, or observed. */
  ghost predicate Zeros(s: State)
  {
    && (forall x, i: nat :: x != FLAG && i <= Newest(s.mem, x) ==> Message(s.mem, x, i).val == 0)
    && (forall k :: 0 <= k < |s.observed| ==> s.observed[k].1 == 0)
  }

  lemma ZeroStep(c: Config, s: State, a: Action)
    requires PayloadOk(c) && AllZero(c) && Zeros(s) && Enabled(c, s, a)
    ensures Zeros(Next(c, s, a))
  {
    var r := Next(c, s, a);
    forall x, i: nat | x != FLAG && i <= Newest(r.mem, x) ensures Message(r.mem, x, i).val == 0 {
      if i <= Newest(s.mem, x) { assert Message(r.mem, x, i) == Message(s.mem, x, i); }
    }
  }

  lemma {:induction false} ZeroRun(c: Config, s: State, run: seq<Action>)
    requires PayloadOk(c) && AllZero(c) && Zeros(s) && Legal(c, s, run)
    ensures Zeros(Exec(c, s, run))
    decreases |run|
  {
    if run != [] {
      ZeroStep(c, s, run[0]);
      ZeroRun(c, Next(c, s, run[0]), run[1..]);
    }
  }

  // ---------- The exact condition ----------

  ghost predicate Safe(c: Config)
  {
    forall run: seq<Action> :: Legal(c, Start, run) ==> AllPublished(c, Exec(c, Start, run).observed)
  }

  /** Some store is not 0: the consumer can miss it, or see it although it is overwritten later. */
  lemma NotSafe(c: Config, k: nat)
    requires PayloadOk(c) && !(c.release && c.acquire) && k < |c.payload| && c.payload[k].1 != 0
    ensures !Safe(c)
  {
    var x := c.payload[k].0;
    var d := if Published(c.payload, |c.payload|, x) == 0 then k + 1 else 0;
    var s := RelaxedReadsStale(c, d, x);
    var run: seq<Action> :| Legal(c, Start, run) && Exec(c, Start, run) == s;
    assert s.observed[0] == (x, Published(c.payload, d, x));
  }

  /** Exactly the acquire/release pair makes every observation a published value, zeros apart. */
  lemma {:induction false} SafeIffAcquireRelease(c: Config)
    requires PayloadOk(c)
    ensures Safe(c) <==> (c.release && c.acquire) || AllZero(c)
  {
    if c.release && c.acquire {
      forall run: seq<Action> | Legal(c, Start, run) ensures AllPublished(c, Exec(c, Start, run).observed) {
        AcquireReleasePublishes(c, run);
      }
    } else if AllZero(c) {
      forall run: seq<Action> | Legal(c, Start, run) ensures AllPublished(c, Exec(c, Start, run).observed) {
        ZeroRun(c, Start, run);
        forall x ensures Published(c.payload, |c.payload|, x) == 0 { ZeroPublished(c, |c.payload|, x); }
      }
    } else {
      var k :| 0 <= k < |c.payload| && c.payload[k].1 != 0;
      NotSafe(c, k);
    }
  }
}
