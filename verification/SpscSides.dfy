/**
 What the two sides of the queue know about each other's slot accesses. The two halves are mirror
 images: the producer's writes are published by the head and concern the consumer, the consumer's
 reads are published by the tail and concern the producer. Each half needs only the release/acquire
 pair of its own index.
 */
module SpscSides {
  import opened RingIndex
  import opened ViewMemory
  import opened SpscQueue
  import opened SpscIndices

  datatype Side = Head | Tail

  function Index(d: Side): nat { if d.Head? then HEAD else TAIL }

  /** The thread whose accesses are published, and the one that learns of them. */
  function Owner(d: Side): nat { if d.Head? then PRODUCER else CONSUMER }

  function Other(d: Side): nat { if d.Head? then CONSUMER else PRODUCER }

  predicate Ordered(d: Side, o: Orders) { if d.Head? then HeadOrdered(o) else TailOrdered(o) }

  /** Slot accesses performed, published or not. */
  function Done(d: Side, s: State): nat { if d.Head? then Written(s) else Taken(s) }

  /** v knows all writes, or all reads, of slot j. */
  predicate Knows(d: Side, m: Mem, v: View, j: nat)
  {
    if d.Head? then KnowsWrites(m, v, Buffer(j)) else KnowsReads(m, v, Buffer(j))
  }

  ghost predicate KnowsSlots(d: Side, m: Mem, v: View, size: nat)
  {
    forall j: nat :: j < size ==> Knows(d, m, v, j)
  }

  /** v knows the accesses of every slot, except slots accessed again by messages from n on. */
  ghost predicate Sees(d: Side, m: Mem, v: View, n: nat, done: nat, size: nat)
    requires size > 0
  {
    forall j: nat :: j < size ==> Knows(d, m, v, j) || Touched(n, done, j, size)
  }

  ghost predicate Published(d: Side, m: Mem, done: nat, size: nat)
    requires size > 0
  {
    forall k: nat :: k <= Newest(m, Index(d)) ==> Sees(d, m, Message(m, Index(d), k).view, k, done, size)
  }

  /** The newest message of the index that the other side has seen. */
  function Seen(d: Side, m: Mem): nat { At(ViewOf(m, Other(d)).seen, Index(d)) }

  ghost predicate SideMem(d: Side, m: Mem, done: nat, size: nat)
    requires size > 0
  {
    && Published(d, m, done, size)
    && KnowsSlots(d, m, ViewOf(m, Owner(d)), size)
    && Sees(d, m, ViewOf(m, Other(d)), Seen(d, m), done, size)
  }

  ghost predicate SideOk(d: Side, s: State) { SideMem(d, s.mem, Done(d, s), Size(s)) }

  // ---------- Steps without an access that concerns this half ----------

  predicate SameAccesses(d: Side, m: Mem, r: Mem, size: nat)
  {
    forall j: nat :: j < size ==>
      if d.Head? then Log(m, Buffer(j)) == Log(r, Buffer(j)) && Writes(m, Buffer(j)) == Writes(r, Buffer(j))
      else Reads(m, Buffer(j)) == Reads(r, Buffer(j))
  }

  lemma AccessFrame(d: Side, m: Mem, r: Mem, v: View, n: nat, done: nat, size: nat)
    requires size > 0 && SameAccesses(d, m, r, size)
    ensures Sees(d, m, v, n, done, size) == Sees(d, r, v, n, done, size)
    ensures KnowsSlots(d, m, v, size) == KnowsSlots(d, r, v, size)
  {
    assert forall j: nat :: j < size ==> Knows(d, m, v, j) == Knows(d, r, v, j);
  }

  /** r is m after a step that neither accesses a slot nor publishes, as far as this half goes. */
  predicate Untold(d: Side, m: Mem, r: Mem, size: nat)
  {
    Log(m, Index(d)) == Log(r, Index(d)) && SameAccesses(d, m, r, size)
  }

  lemma Kept(d: Side, m: Mem, r: Mem, done: nat, size: nat)
    requires size > 0 && SideMem(d, m, done, size) && Untold(d, m, r, size)
    requires KnowsSlots(d, m, ViewOf(r, Owner(d)), size)
    requires Sees(d, m, ViewOf(r, Other(d)), Seen(d, r), done, size)
    ensures SideMem(d, r, done, size)
  {
    forall k: nat | k <= Newest(r, Index(d)) ensures Sees(d, r, Message(r, Index(d), k).view, k, done, size) {
      AccessFrame(d, m, r, Message(m, Index(d), k).view, k, done, size);
    }
    AccessFrame(d, m, r, ViewOf(r, Owner(d)), 0, done, size);
    AccessFrame(d, m, r, ViewOf(r, Other(d)), Seen(d, r), done, size);
  }

  /** w knows about the slots whatever v knows. */
  ghost predicate Grown(d: Side, v: View, w: View)
  {
    && (d.Head? ==> forall x :: x >= 2 ==> At(v.seen, x) <= At(w.seen, x))
    && (forall u :: At(v.clock, u) <= At(w.clock, u))
  }

  lemma KnowsMore(d: Side, m: Mem, v: View, w: View, n: nat, done: nat, size: nat)
    requires size > 0 && Grown(d, v, w)
    ensures KnowsSlots(d, m, v, size) ==> KnowsSlots(d, m, w, size)
    ensures Sees(d, m, v, n, done, size) ==> Sees(d, m, w, n, done, size)
  {
    forall j: nat | j < size && Knows(d, m, v, j) ensures Knows(d, m, w, j) {}
  }

  lemma OwnerMoved(d: Side, m: Mem, r: Mem, done: nat, size: nat)
    requires size > 0 && SideMem(d, m, done, size) && Untold(d, m, r, size)
    requires ViewOf(r, Other(d)) == ViewOf(m, Other(d)) && Grown(d, ViewOf(m, Owner(d)), ViewOf(r, Owner(d)))
    ensures SideMem(d, r, done, size)
  {
    KnowsMore(d, m, ViewOf(m, Owner(d)), ViewOf(r, Owner(d)), 0, done, size);
    Kept(d, m, r, done, size);
  }

  /** The other side knows as much as some view v that is informed enough for message n it has seen. */
  lemma OtherMoved(d: Side, m: Mem, r: Mem, v: View, n: nat, done: nat, size: nat)
    requires size > 0 && SideMem(d, m, done, size) && Untold(d, m, r, size)
    requires ViewOf(r, Owner(d)) == ViewOf(m, Owner(d)) && Grown(d, v, ViewOf(r, Other(d)))
    requires Seen(d, r) == n && Sees(d, m, v, n, done, size)
    ensures SideMem(d, r, done, size)
  {
    KnowsMore(d, m, v, ViewOf(r, Other(d)), n, done, size);
    Kept(d, m, r, done, size);
  }

  // ---------- Index loads and stores ----------

  /** Loading an index takes nothing away from the loader's view of the slots. */
  lemma LoadGrows(d: Side, m: Mem, t: nat, x: nat, i: nat, acquire: bool)
    requires CanRead(m, t, x, i) && x < 2
    ensures Grown(d, ViewOf(m, t), ViewOf(Load(m, t, x, i, acquire), t))
  {
  }

  lemma AcquireGrows(d: Side, m: Mem, t: nat, x: nat, i: nat)
    requires CanRead(m, t, x, i)
    ensures Grown(d, Message(m, x, i).view, ViewOf(Load(m, t, x, i, true), t))
  {
    assert ViewOf(Load(m, t, x, i, true), t) == Join(Saw(ViewOf(m, t), x, i), Message(m, x, i).view);
  }

  lemma LoadFrame(d: Side, m: Mem, t: nat, x: nat, i: nat, acquire: bool, size: nat)
    requires CanRead(m, t, x, i)
    ensures var r := Load(m, t, x, i, acquire);
            Untold(d, m, r, size) && forall u :: u != t ==> ViewOf(r, u) == ViewOf(m, u)
  {
  }

  lemma OwnerLoads(d: Side, m: Mem, x: nat, i: nat, acquire: bool, done: nat, size: nat)
    requires size > 0 && x < 2 && CanRead(m, Owner(d), x, i) && SideMem(d, m, done, size)
    ensures SideMem(d, Load(m, Owner(d), x, i, acquire), done, size)
  {
    LoadGrows(d, m, Owner(d), x, i, acquire);
    LoadFrame(d, m, Owner(d), x, i, acquire, size);
    OwnerMoved(d, m, Load(m, Owner(d), x, i, acquire), done, size);
  }

  lemma OtherLoadsOwn(d: Side, m: Mem, x: nat, i: nat, done: nat, size: nat)
    requires size > 0 && x < 2 && x != Index(d) && CanRead(m, Other(d), x, i) && SideMem(d, m, done, size)
    ensures SideMem(d, Load(m, Other(d), x, i, false), done, size)
  {
    LoadGrows(d, m, Other(d), x, i, false);
    LoadFrame(d, m, Other(d), x, i, false, size);
    OtherMoved(d, m, Load(m, Other(d), x, i, false), ViewOf(m, Other(d)), Seen(d, m), done, size);
  }

  /** Message i is the newest the loader has seen. */
  lemma LoadSeen(m: Mem, t: nat, x: nat, i: nat, acquire: bool)
    requires CanRead(m, t, x, i) && At(Message(m, x, i).view.seen, x) == i
    ensures At(ViewOf(Load(m, t, x, i, acquire), t).seen, x) == i
  {
  }

  /** Acquiring message i of the index brings what that message knows. */
  lemma OtherAcquires(d: Side, m: Mem, i: nat, done: nat, size: nat)
    requires size > 0 && IndexLog(m, Index(d), size)
    requires CanRead(m, Other(d), Index(d), i) && SideMem(d, m, done, size)
    ensures SideMem(d, Load(m, Other(d), Index(d), i, true), done, size)
  {
    LoadSeen(m, Other(d), Index(d), i, true);
    LoadFrame(d, m, Other(d), Index(d), i, true, size);
    AcquireGrows(d, m, Other(d), Index(d), i);
    OtherMoved(d, m, Load(m, Other(d), Index(d), i, true), Message(m, Index(d), i).view, i, done, size);
  }

  lemma StoreFrame(d: Side, m: Mem, t: nat, x: nat, val: int, release: bool, size: nat)
    requires x < 2
    ensures var r := Store(m, t, x, val, release);
            && Grown(d, ViewOf(m, t), ViewOf(r, t)) && (forall u :: u != t ==> ViewOf(r, u) == ViewOf(m, u))
            && (forall y :: y != x ==> Log(r, y) == Log(m, y)) && SameAccesses(d, m, r, size)
  {
  }

  lemma OtherStores(d: Side, m: Mem, x: nat, val: int, release: bool, done: nat, size: nat)
    requires size > 0 && x < 2 && x != Index(d) && SideMem(d, m, done, size)
    ensures SideMem(d, Store(m, Other(d), x, val, release), done, size)
  {
    StoreFrame(d, m, Other(d), x, val, release, size);
    OtherMoved(d, m, Store(m, Other(d), x, val, release), ViewOf(m, Other(d)), Seen(d, m), done, size);
  }

  lemma ReleaseKnows(d: Side, m: Mem, val: int, size: nat)
    requires KnowsSlots(d, m, ViewOf(m, Owner(d)), size)
    ensures var r := Store(m, Owner(d), Index(d), val, true);
            && KnowsSlots(d, r, ViewOf(r, Owner(d)), size)
            && Message(r, Index(d), Newest(m, Index(d)) + 1).view == ViewOf(r, Owner(d))
            && (forall k: nat :: k <= Newest(m, Index(d)) ==> Message(r, Index(d), k) == Message(m, Index(d), k))
  {
    var r := Store(m, Owner(d), Index(d), val, true);
    StoreFrame(d, m, Owner(d), Index(d), val, true, size);
    assert forall j: nat :: j < size ==> (Knows(d, m, ViewOf(m, Owner(d)), j) ==> Knows(d, r, ViewOf(r, Owner(d)), j));
  }

  /** The owner's release store publishes everything it has done. */
  lemma OwnerPublishes(d: Side, m: Mem, val: int, size: nat)
    requires size > 0 && SideMem(d, m, Newest(m, Index(d)) + 1, size)
    ensures SideMem(d, Store(m, Owner(d), Index(d), val, true), Newest(m, Index(d)) + 1, size)
  {
    var r, n := Store(m, Owner(d), Index(d), val, true), Newest(m, Index(d)) + 1;
    StoreFrame(d, m, Owner(d), Index(d), val, true, size);
    ReleaseKnows(d, m, val, size);
    assert Newest(r, Index(d)) == n && SameAccesses(d, m, r, size);
    forall k: nat | k <= n ensures Sees(d, r, Message(r, Index(d), k).view, k, n, size) {
      if k < n { AccessFrame(d, m, r, Message(m, Index(d), k).view, k, n, size); }
    }
    AccessFrame(d, m, r, ViewOf(m, Other(d)), Seen(d, m), n, size);
  }

  // ---------- Slot accesses ----------

  /** r is m after an access of slot h by the owner: only what is known about that slot changes. */
  ghost predicate Accessed(d: Side, m: Mem, r: Mem, h: nat)
  {
    && ViewOf(r, Other(d)) == ViewOf(m, Other(d)) && Log(r, Index(d)) == Log(m, Index(d))
    && (forall v, j: nat :: j != h ==> Knows(d, r, v, j) == Knows(d, m, v, j))
    && (forall j: nat :: Knows(d, m, ViewOf(m, Owner(d)), j) ==> Knows(d, r, ViewOf(r, Owner(d)), j))
  }

  lemma WriterKnows(m: Mem, h: nat, val: int, j: nat)
    requires Knows(Head, m, ViewOf(m, PRODUCER), j)
    ensures var r := PlainWrite(m, PRODUCER, Buffer(h), val); Knows(Head, r, ViewOf(r, PRODUCER), j)
  {
    var r := PlainWrite(m, PRODUCER, Buffer(h), val);
    forall u ensures At(ViewOf(m, PRODUCER).clock, u) <= At(ViewOf(r, PRODUCER).clock, u) {}
  }

  lemma WriteAccess(m: Mem, h: nat, val: int)
    ensures Accessed(Head, m, PlainWrite(m, PRODUCER, Buffer(h), val), h)
  {
    var r := PlainWrite(m, PRODUCER, Buffer(h), val);
    assert forall j: nat :: j != h ==>
        Log(r, Buffer(j)) == Log(m, Buffer(j)) && Writes(r, Buffer(j)) == Writes(m, Buffer(j));
    forall j: nat | Knows(Head, m, ViewOf(m, PRODUCER), j) ensures Knows(Head, r, ViewOf(r, PRODUCER), j) {
      WriterKnows(m, h, val, j);
    }
  }

  lemma ReaderKnows(m: Mem, h: nat, i: nat, j: nat)
    requires CanRead(m, CONSUMER, Buffer(h), i) && Knows(Tail, m, ViewOf(m, CONSUMER), j)
    ensures var r := PlainRead(m, CONSUMER, Buffer(h), i); Knows(Tail, r, ViewOf(r, CONSUMER), j)
  {
    var r := PlainRead(m, CONSUMER, Buffer(h), i);
    forall u ensures At(ViewOf(m, CONSUMER).clock, u) <= At(ViewOf(r, CONSUMER).clock, u) {}
  }

  lemma ReadAccess(m: Mem, h: nat, i: nat)
    requires CanRead(m, CONSUMER, Buffer(h), i)
    ensures Accessed(Tail, m, PlainRead(m, CONSUMER, Buffer(h), i), h)
  {
    var r := PlainRead(m, CONSUMER, Buffer(h), i);
    assert forall j: nat :: j != h ==> Reads(r, Buffer(j)) == Reads(m, Buffer(j));
    forall j: nat | Knows(Tail, m, ViewOf(m, CONSUMER), j) ensures Knows(Tail, r, ViewOf(r, CONSUMER), j) {
      ReaderKnows(m, h, i, j);
    }
  }

  /** Everybody but the owner finds the slot touched by message n. */
  lemma {:induction false} AccessSees(d: Side, m: Mem, r: Mem, n: nat, size: nat, v: View, k: nat)
    requires size > 0 && k <= n && Accessed(d, m, r, Slot(n, size)) && Sees(d, m, v, k, n, size)
    ensures Sees(d, r, v, k, n + 1, size)
  {
    forall j: nat | j < size ensures Knows(d, r, v, j) || Touched(k, n + 1, j, size) {
      TouchedMore(k, n, j, size);
    }
  }

  lemma {:induction false} OwnerAccesses(d: Side, m: Mem, r: Mem, n: nat, size: nat)
    requires size > 0 && n == Newest(m, Index(d)) && Seen(d, m) <= n && SideMem(d, m, n, size)
    requires Accessed(d, m, r, Slot(n, size))
    ensures SideMem(d, r, n + 1, size)
  {
    forall k: nat | k <= n ensures Sees(d, r, Message(r, Index(d), k).view, k, n + 1, size) {
      AccessSees(d, m, r, n, size, Message(m, Index(d), k).view, k);
    }
    AccessSees(d, m, r, n, size, ViewOf(m, Other(d)), Seen(d, m));
  }

  /** Reading a slot is no write, and writing one is no read. */
  lemma OtherReads(m: Mem, h: nat, i: nat, done: nat, size: nat)
    requires size > 0 && CanRead(m, CONSUMER, Buffer(h), i) && SideMem(Head, m, done, size)
    ensures SideMem(Head, PlainRead(m, CONSUMER, Buffer(h), i), done, size)
  {
    var r := PlainRead(m, CONSUMER, Buffer(h), i);
    assert Grown(Head, ViewOf(m, CONSUMER), ViewOf(r, CONSUMER)) && Seen(Head, r) == Seen(Head, m);
    OtherMoved(Head, m, r, ViewOf(m, CONSUMER), Seen(Head, m), done, size);
  }

  lemma OtherWrites(m: Mem, h: nat, val: int, done: nat, size: nat)
    requires size > 0 && SideMem(Tail, m, done, size)
    ensures SideMem(Tail, PlainWrite(m, PRODUCER, Buffer(h), val), done, size)
  {
    var r := PlainWrite(m, PRODUCER, Buffer(h), val);
    assert Grown(Tail, ViewOf(m, PRODUCER), ViewOf(r, PRODUCER)) && Seen(Tail, r) == Seen(Tail, m);
    assert Untold(Tail, m, r, size);
    OtherMoved(Tail, m, r, ViewOf(m, PRODUCER), Seen(Tail, m), done, size);
  }
}
