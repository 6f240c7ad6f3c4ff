/** Sums of a weight over a sequence of threads, and how one thread's step changes them. */
module Tallies {

  ghost function Sum<T>(f: T -> int, s: seq<T>): int
  {
    if s == [] then 0 else f(s[0]) + Sum(f, s[1..])
  }

  lemma {:induction false} SumUpdate<T>(f: T -> int, s: seq<T>, i: nat, v: T)
    requires i < |s|
    ensures Sum(f, s[i := v]) == Sum(f, s) - f(s[i]) + f(v)
  {
    if i == 0 {
      assert s[i := v][1..] == s[1..];
    } else {
      assert s[i := v][1..] == s[1..][i - 1 := v];
      SumUpdate(f, s[1..], i - 1, v);
    }
  }

  /** Pointwise domination, between two weights and two sequences of the same length. */
  lemma {:induction false} SumLe<T, U>(f: T -> int, s: seq<T>, g: U -> int, r: seq<U>)
    requires |s| == |r|
    requires forall i :: 0 <= i < |s| ==> f(s[i]) <= g(r[i])
    ensures Sum(f, s) <= Sum(g, r)
  {
    if s != [] {
      SumLe(f, s[1..], g, r[1..]);
    }
  }

  /** Domination that is strict at one place. */
  lemma {:induction false} SumLt<T>(f: T -> int, s: seq<T>, g: T -> int, r: seq<T>, k: nat)
    requires |s| == |r| && k < |s|
    requires forall i :: 0 <= i < |s| ==> f(s[i]) <= g(r[i])
    requires f(s[k]) < g(r[k])
    ensures Sum(f, s) < Sum(g, r)
  {
    if k == 0 {
      SumLe(f, s[1..], g, r[1..]);
    } else {
      SumLt(f, s[1..], g, r[1..], k - 1);
    }
  }

  lemma {:induction false} SumAffine<T>(f: T -> int, a: int, g: T -> int, s: seq<T>)
    requires forall i :: 0 <= i < |s| ==> f(s[i]) == a + g(s[i])
    ensures Sum(f, s) == a * |s| + Sum(g, s)
  {
    if s != [] {
      SumAffine(f, a, g, s[1..]);
    }
  }

  lemma {:induction false} SumBound<T>(f: T -> int, s: seq<T>, c: int)
    requires forall i :: 0 <= i < |s| ==> f(s[i]) <= c
    ensures Sum(f, s) <= c * |s|
  {
    if s != [] {
      SumBound(f, s[1..], c);
    }
  }

  lemma {:induction false} SumConst<T>(f: T -> int, s: seq<T>, c: int)
    requires forall i :: 0 <= i < |s| ==> f(s[i]) == c
    ensures Sum(f, s) == c * |s|
  {
    if s != [] {
      SumConst(f, s[1..], c);
    }
  }

  /** A sum of zeros and ones over n threads reaches n only when every thread contributes. */
  lemma {:induction false} SumFull<T>(f: T -> int, s: seq<T>)
    requires forall i :: 0 <= i < |s| ==> f(s[i]) <= 1
    requires Sum(f, s) >= |s|
    ensures forall i :: 0 <= i < |s| ==> f(s[i]) == 1
  {
    if s != [] {
      SumBound(f, s[1..], 1);
      SumFull(f, s[1..]);
      forall i | 0 <= i < |s| ensures f(s[i]) == 1 {
        if i > 0 { assert s[i] == s[1..][i - 1]; }
      }
    }
  }

  /** One term of a sum of non-negative weights is at most the sum; two distinct terms together as well. */
  lemma {:induction false} SumAtLeast<T>(f: T -> int, s: seq<T>, i: nat, j: nat)
    requires i < |s| && j < |s|
    requires forall k :: 0 <= k < |s| ==> 0 <= f(s[k])
    ensures f(s[i]) <= Sum(f, s)
    ensures i != j ==> f(s[i]) + f(s[j]) <= Sum(f, s)
    decreases |s|
  {
    assert forall k :: 0 <= k < |s| - 1 ==> s[1..][k] == s[k + 1];
    SumLe((x: T) => 0, s[1..], f, s[1..]);
    SumConst((x: T) => 0, s[1..], 0);
    if i > 0 { SumAtLeast(f, s[1..], i - 1, if j > 0 then j - 1 else i - 1); }
    if j > 0 { SumAtLeast(f, s[1..], if i > 0 then i - 1 else j - 1, j - 1); }
  }
}
