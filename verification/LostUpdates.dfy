/**
 The unsynchronised counter. At C level the race is undefined behaviour; this is the reading the
 exercise gives it, three machine instructions per increment that interleave freely:
 mov to a register, inc, mov back.
 */
module LostUpdates {
  import opened Arithmetic
  import opened Tallies

  datatype Pc = Read | Increment(reg: int) | Write(reg: int)

  datatype Thread = Thread(pc: Pc, done: nat)

  datatype State = State(iters: nat, counter: int, threads: seq<Thread>)

  function Init(n: nat, iters: nat): State { State(iters, 0, seq(n, _ => Thread(Read, 0))) }

  predicate Enabled(s: State, t: nat) { t < |s.threads| && s.threads[t].done < s.iters }

  function Next(s: State, t: nat): State
    requires Enabled(s, t)
  {
    var th := s.threads[t];
    match th.pc
    case Read => s.(threads := s.threads[t := th.(pc := Increment(s.counter))])
    case Increment(r) => s.(threads := s.threads[t := th.(pc := Write(r + 1))])
    case Write(r) => s.(counter := r, threads := s.threads[t := Thread(Read, th.done + 1)])
  }

  predicate AllDone(s: State)
  {
    forall t :: 0 <= t < |s.threads| ==> s.threads[t].done == s.iters
  }

  /** A run is the sequence of threads that execute their next instruction. */
  predicate Legal(s: State, run: seq<nat>)
    decreases |run|
  {
    run == [] || (Enabled(s, run[0]) && Legal(Next(s, run[0]), run[1..]))
  }

  function Exec(s: State, run: seq<nat>): State
    requires Legal(s, run)
    decreases |run|
  {
    if run == [] then s else Exec(Next(s, run[0]), run[1..])
  }

  ghost predicate Reaches(s: State, r: State)
  {
    exists run: seq<nat> :: Legal(s, run) && Exec(s, run) == r
  }

  // ---------- Bounds ----------

  ghost function Done(): Thread -> int { (th: Thread) => th.done }

  ghost function Total(s: State): int { Sum(Done(), s.threads) }

  ghost predicate ThreadOk(s: State, th: Thread)
  {
    && th.done <= s.iters
    && match th.pc
       case Read => true
       case Increment(r) => (if th.done > 0 then 1 else 0) <= r <= Total(s)
       case Write(r) => (if th.done > 0 then 2 else 1) <= r <= Total(s) + 1
  }

  /** A register read after the first write is at least 1, so a thread's later writes are at least 2. */
  ghost predicate Inv(s: State)
  {
    && (if Total(s) > 0 then 1 else 0) <= s.counter <= Total(s)
    && (forall t :: 0 <= t < |s.threads| ==> ThreadOk(s, s.threads[t]))
    && (AllDone(s) && |s.threads| > 0 && s.iters >= 2 ==> s.counter >= 2)
  }

  lemma TotalAtLeast(s: State, t: nat)
    requires t < |s.threads|
    ensures Total(s) >= s.threads[t].done
  {
    SumAtLeast(Done(), s.threads, t, t);
  }

  lemma InitInv(n: nat, iters: nat)
    ensures Inv(Init(n, iters))
  {
    SumConst(Done(), Init(n, iters).threads, 0);
  }

  lemma StepInv(s: State, t: nat)
    requires Inv(s) && Enabled(s, t)
    ensures Inv(Next(s, t))
  {
    var r := Next(s, t);
    SumUpdate(Done(), s.threads, t, r.threads[t]);
    TotalAtLeast(s, t);
    assert ThreadOk(s, s.threads[t]);
    forall u | 0 <= u < |r.threads| ensures ThreadOk(r, r.threads[u]) {
      assert ThreadOk(s, s.threads[u]);
    }
    if AllDone(r) && s.iters >= 2 {
      assert r.threads[t].done == s.iters;
    }
  }

  lemma {:induction false} RunInv(s: State, run: seq<nat>)
    requires Inv(s) && Legal(s, run)
    ensures Inv(Exec(s, run)) && |Exec(s, run).threads| == |s.threads| && Exec(s, run).iters == s.iters
    decreases |run|
  {
    if run != [] {
      StepInv(s, run[0]);
      RunInv(Next(s, run[0]), run[1..]);
    }
  }

  /** A thread alone loses nothing: its register always follows the counter. */
  ghost predicate Solo(s: State)
  {
    && |s.threads| == 1 && s.counter == s.threads[0].done
    && match s.threads[0].pc
       case Read => true
       case Increment(r) => r == s.counter
       case Write(r) => r == s.counter + 1
  }

  lemma {:induction false} SoloRun(s: State, run: seq<nat>)
    requires Solo(s) && Legal(s, run)
    ensures Solo(Exec(s, run))
    decreases |run|
  {
    if run != [] { SoloRun(Next(s, run[0]), run[1..]); }
  }

  /** The least possible final value of n threads doing k increments each. */
  function Least(n: nat, k: nat): nat
  {
    if n == 0 then 0 else if n == 1 || k < 2 then k else 2
  }

  /** A complete run ends between Least(n, k) and k * n: the printed loss is never negative. */
  lemma FinalBounds(n: nat, k: nat, s: State)
    requires Reaches(Init(n, k), s) && AllDone(s)
    ensures Least(n, k) <= s.counter <= k * n
  {
    var run: seq<nat> :| Legal(Init(n, k), run) && Exec(Init(n, k), run) == s;
    InitInv(n, k);
    RunInv(Init(n, k), run);
    SumConst(Done(), s.threads, k);
    if n == 1 {
      SoloRun(Init(n, k), run);
    } else if n >= 1 && k >= 1 {
      TotalAtLeast(s, 0);
    }
  }

  // ---------- Every value in between is reached ----------

  lemma {:induction false} ReachTrans(a: State, b: State, c: State)
    requires Reaches(a, b) && Reaches(b, c)
    ensures Reaches(a, c)
  {
    var p: seq<nat> :| Legal(a, p) && Exec(a, p) == b;
    var q: seq<nat> :| Legal(b, q) && Exec(b, q) == c;
    Concat(a, p, q);
  }

  lemma {:induction false} Concat(s: State, p: seq<nat>, q: seq<nat>)
    requires Legal(s, p) && Legal(Exec(s, p), q)
    ensures Legal(s, p + q) && Exec(s, p + q) == Exec(Exec(s, p), q)
    decreases |p|
  {
    if p == [] {
      assert p + q == q;
    } else {
      assert (p + q)[1..] == p[1..] + q;
      Concat(Next(s, p[0]), p[1..], q);
    }
  }

  lemma ReachNext(a: State, s: State, t: nat)
    requires Reaches(a, s) && Enabled(s, t)
    ensures Reaches(a, Next(s, t))
  {
    var run := [t];
    assert run[1..] == [] && Legal(Next(s, t), []) && Exec(Next(s, t), []) == Next(s, t);
    assert Legal(s, run) && Exec(s, run) == Exec(Next(s, t), run[1..]);
    ReachTrans(a, s, Next(s, t));
  }

  /** Thread t, between increments, performs one without interruption. */
  function Bumped(s: State, t: nat): State
    requires t < |s.threads|
  {
    s.(counter := s.counter + 1, threads := s.threads[t := Thread(Read, s.threads[t].done + 1)])
  }

  lemma ReachBumped(a: State, s: State, t: nat)
    requires Reaches(a, s) && Enabled(s, t) && s.threads[t].pc.Read?
    ensures Reaches(a, Bumped(s, t)) && Total(Bumped(s, t)) == Total(s) + 1
  {
    ReachNext(a, s, t);
    ReachNext(a, Next(s, t), t);
    var s2 := Next(Next(s, t), t);
    ReachNext(a, s2, t);
    assert Next(s2, t).threads == Bumped(s, t).threads;
    SumUpdate(Done(), s.threads, t, Thread(Read, s.threads[t].done + 1));
  }

  /** r is s after exactly m uninterrupted increments by threads that stay within their caps. */
  ghost predicate Advanced(s: State, r: State, caps: seq<int>, m: nat)
  {
    && |caps| == |s.threads| == |r.threads| && r.iters == s.iters
    && r.counter == s.counter + m && Total(r) == Total(s) + m
    && forall t :: 0 <= t < |s.threads| ==>
         r.threads[t].pc == s.threads[t].pc && s.threads[t].done <= r.threads[t].done <= caps[t]
  }

  ghost predicate Within(s: State, caps: seq<int>)
  {
    && |caps| == |s.threads|
    && forall t :: 0 <= t < |s.threads| ==>
         s.threads[t].done <= caps[t] <= s.iters && (s.threads[t].done < caps[t] ==> s.threads[t].pc.Read?)
  }

  ghost function Id(): int -> int { (x: int) => x }

  lemma {:induction false} Advance(a: State, s: State, caps: seq<int>, m: nat) returns (r: State)
    requires Reaches(a, s) && Within(s, caps) && m <= Sum(Id(), caps) - Total(s)
    ensures Reaches(a, r) && Advanced(s, r, caps, m)
    decreases m
  {
    if m == 0 {
      r := s;
    } else {
      if forall t :: 0 <= t < |caps| ==> caps[t] <= s.threads[t].done {
        SumLe(Id(), caps, Done(), s.threads);
        assert false;
      }
      var t :| 0 <= t < |caps| && s.threads[t].done < caps[t];
      ReachBumped(a, s, t);
      r := Advance(a, Bumped(s, t), caps, m - 1);
    }
  }

  /** A register of t holds a value read earlier; its two remaining instructions store reg + 1. */
  function Stored(s: State, t: nat): State
    requires t < |s.threads| && s.threads[t].pc.Increment?
  {
    s.(counter := s.threads[t].pc.reg + 1, threads := s.threads[t := Thread(Read, s.threads[t].done + 1)])
  }

  lemma ReachStored(a: State, s: State, t: nat)
    requires Reaches(a, s) && Enabled(s, t) && s.threads[t].pc.Increment?
    ensures Reaches(a, Stored(s, t)) && Total(Stored(s, t)) == Total(s) + 1
  {
    ReachNext(a, s, t);
    ReachNext(a, Next(s, t), t);
    assert Next(Next(s, t), t).threads == Stored(s, t).threads;
    SumUpdate(Done(), s.threads, t, Thread(Read, s.threads[t].done + 1));
  }

  lemma ReadTotal(s: State, t: nat)
    requires Enabled(s, t) && s.threads[t].pc.Read?
    ensures Total(Next(s, t)) == Total(s)
  {
    SumUpdate(Done(), s.threads, t, Next(s, t).threads[t]);
  }

  function Caps(n: nat, k: int): seq<int> { seq(n, _ => k) }

  lemma CapSum(n: nat, k: nat)
    ensures var full := Caps(n, k);
            && Sum(Id(), full) == k * n
            && (n >= 1 ==> Sum(Id(), full[0 := 0]) == k * n - k)
            && (n >= 2 ==> Sum(Id(), full[0 := 0][1 := k - 1]) == k * n - k - 1)
  {
    var full := Caps(n, k);
    SumConst(Id(), full, k);
    if n >= 1 { SumUpdate(Id(), full, 0, 0); }
    if n >= 2 { SumUpdate(Id(), full[0 := 0], 1, k - 1); }
  }

  lemma ReachSelf(a: State)
    ensures Reaches(a, a)
  {
    assert Legal(a, []) && Exec(a, []) == a;
  }

  /** Thread 0 reads 0 and sleeps through m increments of the others, which its write then erases. */
  lemma FirstLoss(n: nat, k: nat, caps: seq<int>, m: nat) returns (s: State)
    requires n >= 1 && k >= 1 && |caps| == n && caps[0] == 0 && m <= Sum(Id(), caps)
    requires forall t :: 0 <= t < n ==> 0 <= caps[t] <= k
    ensures Reaches(Init(n, k), s) && s.iters == k && |s.threads| == n && s.counter == 1 && Total(s) == m + 1
    ensures forall t :: 0 <= t < n ==> s.threads[t].pc.Read? && s.threads[t].done <= k
    ensures s.threads[0].done == 1 && forall t :: 0 < t < n ==> s.threads[t].done <= caps[t]
  {
    var a := Init(n, k);
    ReachSelf(a);
    SumConst(Done(), a.threads, 0);
    ReachNext(a, a, 0);
    ReadTotal(a, 0);
    var s2 := Advance(a, Next(a, 0), caps, m);
    ReachStored(a, s2, 0);
    s := Stored(s2, 0);
  }

  /** Thread 1 reads 1 and sleeps through j increments of thread 0, which its write then erases. */
  lemma SecondLoss(a: State, s: State, n: nat, k: nat, j: nat) returns (r: State)
    requires n >= 2 && k >= 2 && j < k && Reaches(a, s) && s.iters == k && |s.threads| == n && s.counter == 1
    requires forall t :: 0 <= t < n ==> s.threads[t].pc.Read? && s.threads[t].done <= k
    requires s.threads[0].done == 1 && s.threads[1].done < k
    ensures Reaches(a, r) && r.iters == k && |r.threads| == n && r.counter == 2 && Total(r) == Total(s) + j + 1
    ensures forall t :: 0 <= t < n ==> r.threads[t].pc.Read? && r.threads[t].done <= k
  {
    ReachNext(a, s, 1);
    ReadTotal(s, 1);
    var s1 := Next(s, 1);
    var dones: seq<int> := seq(n, i requires 0 <= i < n => s1.threads[i].done);
    SumLe(Id(), dones, Done(), s1.threads);
    SumLe(Done(), s1.threads, Id(), dones);
    SumUpdate(Id(), dones, 0, 1 + j);
    var s2 := Advance(a, s1, dones[0 := 1 + j], j);
    ReachStored(a, s2, 1);
    r := Stored(s2, 1);
  }

  lemma Everything(s: State, n: nat, k: nat)
    requires |s.threads| == n && s.iters == k && Total(s) == k * n
    requires forall t :: 0 <= t < n ==> s.threads[t].done <= k
    ensures AllDone(s)
  {
    var full := (th: Thread) => k;
    SumConst(full, s.threads, k);
    if t :| 0 <= t < n && s.threads[t].done < k {
      SumLt(Done(), s.threads, full, s.threads, t);
    }
  }

  /** Nothing more is lost: every thread finishes its increments without interruption. */
  lemma Finish(a: State, s: State, n: nat, k: nat) returns (r: State)
    requires Reaches(a, s) && |s.threads| == n && s.iters == k && Total(s) <= k * n
    requires forall t :: 0 <= t < n ==> s.threads[t].pc.Read? && s.threads[t].done <= k
    ensures Reaches(a, r) && AllDone(r) && r.counter == s.counter + k * n - Total(s)
  {
    CapSum(n, k);
    r := Advance(a, s, Caps(n, k), k * n - Total(s));
    Everything(r, n, k);
  }

  /** One sleep is enough to lose up to everything the others do. */
  lemma SmallLoss(n: nat, k: nat, v: nat) returns (s: State)
    requires n >= 1 && k >= 1 && k <= v <= k * n
    ensures Reaches(Init(n, k), s) && AllDone(s) && s.counter == v
  {
    CapSum(n, k);
    var s1 := FirstLoss(n, k, Caps(n, k)[0 := 0], k * n - v);
    s := Finish(Init(n, k), s1, n, k);
  }

  lemma AtLeastTwice(n: nat, k: nat)
    requires n >= 2
    ensures k * n >= k * 2
  {
    MulMonotone(k, 2, n);
  }

  /** A second sleep also loses increments of the first thread. */
  lemma LargeLoss(n: nat, k: nat, v: nat) returns (s: State)
    requires n >= 2 && 2 <= v < k
    ensures Reaches(Init(n, k), s) && AllDone(s) && s.counter == v
  {
    CapSum(n, k);
    AtLeastTwice(n, k);
    var s1 := FirstLoss(n, k, Caps(n, k)[0 := 0][1 := k - 1], k * n - k - 1);
    var s2 := SecondLoss(Init(n, k), s1, n, k, k + 1 - v);
    s := Finish(Init(n, k), s2, n, k);
  }

  lemma AnyLoss(n: nat, k: nat, v: nat) returns (s: State)
    requires Least(n, k) <= v <= k * n
    ensures Reaches(Init(n, k), s) && AllDone(s) && s.counter == v
  {
    if n == 0 || k == 0 {
      s := Init(n, k);
      ReachSelf(s);
    } else if v >= k {
      s := SmallLoss(n, k, v);
    } else {
      s := LargeLoss(n, k, v);
    }
  }

  /** The possible final values of n threads doing k increments each are exactly Least(n, k) .. k * n. */
  lemma FinalValuesExactly(n: nat, k: nat, v: nat)
    ensures (exists s: State :: Reaches(Init(n, k), s) && AllDone(s) && s.counter == v) <==> Least(n, k) <= v <= k * n
  {
    forall s: State | Reaches(Init(n, k), s) && AllDone(s) ensures Least(n, k) <= s.counter <= k * n {
      FinalBounds(n, k, s);
    }
    if Least(n, k) <= v <= k * n {
      var s := AnyLoss(n, k, v);
    }
  }
}
