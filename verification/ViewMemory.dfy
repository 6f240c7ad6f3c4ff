/**
 A small release/acquire memory, after sections 5.1.2.4 and 7.17.3 of ISO/IEC 9899:2011.

 Each location keeps its modification order: message 0 is the initial value 0, later messages
 are appended by stores. A thread's view bounds from below which message of each location it
 may still read, so loads may be stale but stay coherent. Views also carry a vector clock of
 plain (non-atomic) accesses, which decides happens-before exactly; `racy` is set by the first
 plain access that conflicts with an earlier one not ordered before it.
 */
module ViewMemory {

  /** Total maps to nat, 0 where undefined. */
  type Vec = map<nat, nat>

  function At(v: Vec, k: nat): nat
  {
    if k in v then v[k] else 0
  }

  function Max(a: nat, b: nat): nat
  {
    if a < b then b else a
  }

  /** The least upper bound. */
  function JoinVec(a: Vec, b: Vec): (r: Vec)
    ensures forall k :: At(r, k) == Max(At(a, k), At(b, k))
  {
    map k | k in a.Keys + b.Keys :: Max(At(a, k), At(b, k))
  }

  /** Every entry of `b` is known to `a`. */
  predicate Covers(a: Vec, b: Vec)
  {
    forall u :: u in b ==> b[u] <= At(a, u)
  }

  /** seen: newest message known per location; clock: plain accesses known per thread. */
  datatype View = View(seen: Vec, clock: Vec)

  function Join(a: View, b: View): View
  {
    View(JoinVec(a.seen, b.seen), JoinVec(a.clock, b.clock))
  }

  const Bottom := View(map[], map[])

  datatype Msg = Msg(val: int, view: View)

  /**
   log[x]: the stores to x after the initial message; writeAt[x], readAt[x]: the clock of each
   thread's latest plain write and read of x; views[t]: the view of thread t.
   */
  datatype Mem = Mem(log: map<nat, seq<Msg>>, writeAt: map<nat, Vec>, readAt: map<nat, Vec>,
                     views: map<nat, View>, racy: bool)

  const Empty := Mem(map[], map[], map[], map[], false)

  function Log(m: Mem, x: nat): seq<Msg> { if x in m.log then m.log[x] else [] }

  function Writes(m: Mem, x: nat): Vec { if x in m.writeAt then m.writeAt[x] else map[] }

  function Reads(m: Mem, x: nat): Vec { if x in m.readAt then m.readAt[x] else map[] }

  function ViewOf(m: Mem, t: nat): View { if t in m.views then m.views[t] else Bottom }

  /** The index of the newest message of x. */
  function Newest(m: Mem, x: nat): nat { |Log(m, x)| }

  function Message(m: Mem, x: nat, i: nat): Msg
    requires i <= Newest(m, x)
  {
    if i == 0 then Msg(0, Bottom) else Log(m, x)[i - 1]
  }

  function Value(m: Mem, x: nat): int { Message(m, x, Newest(m, x)).val }

  predicate CanRead(m: Mem, t: nat, x: nat, i: nat)
  {
    At(ViewOf(m, t).seen, x) <= i <= Newest(m, x)
  }

  function Append(m: Mem, x: nat, msg: Msg): Mem
  {
    m.(log := m.log[x := Log(m, x) + [msg]])
  }

  function SetView(m: Mem, t: nat, v: View): Mem
  {
    m.(views := m.views[t := v])
  }

  function Saw(v: View, x: nat, i: nat): View
  {
    v.(seen := v.seen[x := i])
  }

  /** What a store that is not a release carries: only its own place in the modification order. */
  function Only(x: nat, i: nat): View
  {
    View(map[x := i], map[])
  }

  function Load(m: Mem, t: nat, x: nat, i: nat, acquire: bool): Mem
    requires CanRead(m, t, x, i)
  {
    var v := Saw(ViewOf(m, t), x, i);
    SetView(m, t, if acquire then Join(v, Message(m, x, i).view) else v)
  }

  function Store(m: Mem, t: nat, x: nat, val: int, release: bool): Mem
  {
    var i := Newest(m, x) + 1;
    var v := Saw(ViewOf(m, t), x, i);
    SetView(Append(m, x, Msg(val, if release then v else Only(x, i))), t, v)
  }

  /**
   A read-modify-write reads the newest message and extends the release sequence it belongs to:
   its own message carries on the view of the message it read.
   */
  function Exchange(m: Mem, t: nat, x: nat, val: int, acquire: bool): Mem
  {
    var i := Newest(m, x) + 1;
    var from := Message(m, x, i - 1).view;
    var v := Saw(ViewOf(m, t), x, i);
    SetView(Append(m, x, Msg(val, Join(from, Only(x, i)))), t, if acquire then Join(v, from) else v)
  }

  function Ticked(v: View, t: nat): View
  {
    v.(clock := v.clock[t := At(v.clock, t) + 1])
  }

  function PlainRead(m: Mem, t: nat, x: nat, i: nat): Mem
    requires CanRead(m, t, x, i)
  {
    var v := ViewOf(m, t);
    var v' := Ticked(Saw(v, x, i), t);
    SetView(m, t, v').(
      readAt := m.readAt[x := Reads(m, x)[t := At(v'.clock, t)]],
      racy := m.racy || !Covers(v.clock, Writes(m, x)))
  }

  function PlainWrite(m: Mem, t: nat, x: nat, val: int): Mem
  {
    var i := Newest(m, x) + 1;
    var v := ViewOf(m, t);
    var v' := Ticked(Saw(v, x, i), t);
    SetView(Append(m, x, Msg(val, Only(x, i))), t, v').(
      writeAt := m.writeAt[x := Writes(m, x)[t := At(v'.clock, t)]],
      racy := m.racy || !Covers(v.clock, Writes(m, x)) || !Covers(v.clock, Reads(m, x)))
  }

  /** What appending a message and setting a view changes, whatever they carry. */
  lemma Appended(m: Mem, x: nat, msg: Msg, t: nat, v: View)
    ensures var r := SetView(Append(m, x, msg), t, v);
            && Log(r, x) == Log(m, x) + [msg] && Value(r, x) == msg.val && ViewOf(r, t) == v
            && (forall y :: y != x ==> Log(r, y) == Log(m, y))
            && (forall u :: u != t ==> ViewOf(r, u) == ViewOf(m, u))
  {
  }

  /** The view of a thread that joins `from` if it acquires. */
  ghost predicate Learns(v: View, own: View, from: View, acquire: bool)
  {
    && (forall y :: At(v.seen, y) == if acquire then Max(At(own.seen, y), At(from.seen, y)) else At(own.seen, y))
    && (forall u :: At(v.clock, u) == if acquire then Max(At(own.clock, u), At(from.clock, u)) else At(own.clock, u))
  }

  /** An exchange appends one message, which carries on the view of the message it read. */
  lemma ExchangeAppends(m: Mem, t: nat, x: nat, val: int, acquire: bool) returns (msg: Msg, v: View)
    ensures msg.val == val && Exchange(m, t, x, val, acquire) == SetView(Append(m, x, msg), t, v)
    ensures var i, from := Newest(m, x) + 1, Message(m, x, Newest(m, x)).view;
            Learns(msg.view, from, Only(x, i), true) && Learns(v, Saw(ViewOf(m, t), x, i), from, acquire)
  {
    var i := Newest(m, x) + 1;
    var from := Message(m, x, i - 1).view;
    var own := Saw(ViewOf(m, t), x, i);
    msg, v := Msg(val, Join(from, Only(x, i))), if acquire then Join(own, from) else own;
  }

  // ---------- What a view knows about a plain location ----------

  /** Every plain write of x happens before, so the only readable message is the newest. */
  predicate KnowsWrites(m: Mem, v: View, x: nat)
  {
    At(v.seen, x) >= Newest(m, x) && Covers(v.clock, Writes(m, x))
  }

  predicate KnowsReads(m: Mem, v: View, x: nat)
  {
    Covers(v.clock, Reads(m, x))
  }

  lemma KnowsJoin(m: Mem, a: View, b: View, x: nat)
    ensures KnowsWrites(m, a, x) || KnowsWrites(m, b, x) ==> KnowsWrites(m, Join(a, b), x)
    ensures KnowsReads(m, a, x) || KnowsReads(m, b, x) ==> KnowsReads(m, Join(a, b), x)
  {
    var j := Join(a, b);
    forall u ensures At(a.clock, u) <= At(j.clock, u) && At(b.clock, u) <= At(j.clock, u) {}
  }

  /** Knowledge about x is untouched by steps on other locations. */
  lemma KnowsFrame(m: Mem, r: Mem, v: View, x: nat)
    requires Log(m, x) == Log(r, x) && Writes(m, x) == Writes(r, x) && Reads(m, x) == Reads(r, x)
    ensures KnowsWrites(m, v, x) == KnowsWrites(r, v, x) && KnowsReads(m, v, x) == KnowsReads(r, v, x)
  {
  }

  ghost predicate Within(m: Mem, v: View)
  {
    forall x :: At(v.seen, x) <= Newest(m, x)
  }

  /** No view points past the end of a modification order, so every location stays readable. */
  ghost predicate Bounded(m: Mem)
  {
    && (forall t :: Within(m, ViewOf(m, t)))
    && (forall y, i | 0 <= i <= Newest(m, y) :: Within(m, Message(m, y, i).view))
  }

  lemma BoundedLoad(m: Mem, t: nat, x: nat, i: nat, acquire: bool)
    requires Bounded(m) && CanRead(m, t, x, i)
    ensures Bounded(Load(m, t, x, i, acquire))
  {
    var r := Load(m, t, x, i, acquire);
    assert Within(m, Message(m, x, i).view) && Within(m, ViewOf(m, t));
    BoundedKept(m, r, t);
  }

  /** A step that appends nothing and leaves the thread's new view within bounds. */
  lemma BoundedKept(m: Mem, r: Mem, t: nat)
    requires Bounded(m) && r.log == m.log
    requires forall u :: u != t ==> ViewOf(r, u) == ViewOf(m, u)
    requires Within(m, ViewOf(r, t))
    ensures Bounded(r)
  {
    assert forall y :: Newest(r, y) == Newest(m, y);
    forall u ensures Within(r, ViewOf(r, u)) {
      assert Within(m, ViewOf(r, u));
    }
    forall y, i | 0 <= i <= Newest(r, y) ensures Within(r, Message(r, y, i).view) {
      assert Within(m, Message(m, y, i).view) && Message(r, y, i) == Message(m, y, i);
    }
  }

  /** Appending a message whose view, like the writer's new view, stays within the new bounds. */
  lemma BoundedAppend(m: Mem, r: Mem, t: nat, x: nat, msg: Msg)
    requires Bounded(m) && r.log == Append(m, x, msg).log
    requires forall u :: u != t ==> ViewOf(r, u) == ViewOf(m, u)
    requires Within(r, ViewOf(r, t)) && Within(r, msg.view)
    ensures Bounded(r)
  {
    assert forall y :: Newest(m, y) <= Newest(r, y);
    forall u ensures Within(r, ViewOf(r, u)) {
      assert u != t ==> Within(m, ViewOf(r, u));
    }
    forall y, i | 0 <= i <= Newest(r, y) ensures Within(r, Message(r, y, i).view) {
      if y == x && i == Newest(r, x) {
        assert Message(r, y, i) == msg;
      } else {
        assert Within(m, Message(m, y, i).view) && Message(r, y, i) == Message(m, y, i);
      }
    }
  }

  /** Views that stay within bounds once x has grown by one message. */
  lemma WithinAppended(m: Mem, v: View, x: nat, msg: Msg)
    requires Within(m, v)
    ensures var r := Append(m, x, msg);
            Newest(r, x) == Newest(m, x) + 1 && Within(r, v)
            && Within(r, Saw(v, x, Newest(r, x))) && Within(r, Only(x, Newest(r, x)))
  {
    var r := Append(m, x, msg);
    forall y ensures Newest(m, y) + (if y == x then 1 else 0) == Newest(r, y) {}
    forall y ensures At(Saw(v, x, Newest(r, x)).seen, y) <= Newest(r, y) {}
    forall y ensures At(Only(x, Newest(r, x)).seen, y) <= Newest(r, y) {}
  }

  lemma WithinSameLog(m: Mem, r: Mem, v: View)
    requires m.log == r.log && Within(m, v)
    ensures Within(r, v)
  {
    assert forall y :: Newest(m, y) == Newest(r, y);
  }

  lemma BoundedStore(m: Mem, t: nat, x: nat, val: int, release: bool)
    requires Bounded(m)
    ensures Bounded(Store(m, t, x, val, release))
  {
    var r := Store(m, t, x, val, release);
    var msg := Message(r, x, Newest(r, x));
    WithinAppended(m, ViewOf(m, t), x, msg);
    WithinSameLog(Append(m, x, msg), r, ViewOf(r, t));
    WithinSameLog(Append(m, x, msg), r, msg.view);
    BoundedAppend(m, r, t, x, msg);
  }

  lemma WithinLearns(m: Mem, v: View, own: View, from: View, acquire: bool)
    requires Within(m, own) && Within(m, from) && Learns(v, own, from, acquire)
    ensures Within(m, v)
  {
  }

  lemma BoundedExchange(m: Mem, t: nat, x: nat, val: int, acquire: bool)
    requires Bounded(m)
    ensures Bounded(Exchange(m, t, x, val, acquire))
  {
    var msg, v := ExchangeAppends(m, t, x, val, acquire);
    BoundedSet(m, t, x, msg, v, acquire);
  }

  lemma BoundedSet(m: Mem, t: nat, x: nat, msg: Msg, v: View, acquire: bool)
    requires Bounded(m)
    requires var i, from := Newest(m, x) + 1, Message(m, x, Newest(m, x)).view;
             Learns(msg.view, from, Only(x, i), true) && Learns(v, Saw(ViewOf(m, t), x, i), from, acquire)
    ensures Bounded(SetView(Append(m, x, msg), t, v))
  {
    var i, from := Newest(m, x) + 1, Message(m, x, Newest(m, x)).view;
    var grown, r := Append(m, x, msg), SetView(Append(m, x, msg), t, v);
    WithinAppended(m, ViewOf(m, t), x, msg);
    WithinAppended(m, from, x, msg);
    WithinLearns(grown, msg.view, from, Only(x, i), true);
    WithinLearns(grown, v, Saw(ViewOf(m, t), x, i), from, acquire);
    WithinSameLog(grown, r, v);
    WithinSameLog(grown, r, msg.view);
    Appended(m, x, msg, t, v);
    BoundedAppend(m, r, t, x, msg);
  }

  lemma BoundedPlainRead(m: Mem, t: nat, x: nat, i: nat)
    requires Bounded(m) && CanRead(m, t, x, i)
    ensures Bounded(PlainRead(m, t, x, i))
  {
    assert Within(m, ViewOf(m, t));
    BoundedKept(m, PlainRead(m, t, x, i), t);
  }

  lemma BoundedPlainWrite(m: Mem, t: nat, x: nat, val: int)
    requires Bounded(m)
    ensures Bounded(PlainWrite(m, t, x, val))
  {
    var i := Newest(m, x) + 1;
    var msg := Msg(val, Only(x, i));
    var r := PlainWrite(m, t, x, val);
    WithinAppended(m, ViewOf(m, t), x, msg);
    WithinSameLog(Append(m, x, msg), r, ViewOf(r, t));
    WithinSameLog(Append(m, x, msg), r, msg.view);
    BoundedAppend(m, r, t, x, msg);
  }

  lemma EmptyBounded()
    ensures Bounded(Empty)
  {
  }
}
