/**
 The streaming statistics helper, over exact reals: five fields updated per sample, against the
 definitions over the whole list of samples.
 */
module Stats {

  /** The sentinel the minimum starts from; the maximum starts from its negation. */
  const LIMIT: real := 1e300

  // ---------- Definitions over the list of samples ----------

  /** Products get a name, so that proofs about lists treat them as terms and not as polynomials. */
  function Times(a: real, b: real): real { a * b }

  function Count(xs: seq<real>): real { |xs| as real }

  function Total(xs: seq<real>): real
  {
    if xs == [] then 0.0 else Total(xs[..|xs| - 1]) + xs[|xs| - 1]
  }

  function TotalSq(xs: seq<real>): real
  {
    if xs == [] then 0.0 else TotalSq(xs[..|xs| - 1]) + Times(xs[|xs| - 1], xs[|xs| - 1])
  }

  /** Sum of squared distances from m. */
  function Spread(xs: seq<real>, m: real): real
  {
    if xs == [] then 0.0
    else Spread(xs[..|xs| - 1], m) + Times(xs[|xs| - 1] - m, xs[|xs| - 1] - m)
  }

  /** m is the arithmetic mean. */
  predicate IsMean(xs: seq<real>, m: real)
  {
    xs != [] && Times(Count(xs), m) == Total(xs)
  }

  /** v is the population variance: the average squared distance from the mean m (two passes). */
  predicate IsVariance(xs: seq<real>, m: real, v: real)
  {
    IsMean(xs, m) && Times(Count(xs), v) == Spread(xs, m)
  }

  predicate AtLeast(xs: seq<real>, lo: real) { forall i :: 0 <= i < |xs| ==> lo <= xs[i] }

  predicate AtMost(xs: seq<real>, hi: real) { forall i :: 0 <= i < |xs| ==> xs[i] <= hi }

  predicate AllAt(xs: seq<real>, m: real) { forall i :: 0 <= i < |xs| ==> xs[i] == m }

  predicate AllEqual(xs: seq<real>) { forall i, j :: 0 <= i < |xs| && 0 <= j < |xs| ==> xs[i] == xs[j] }

  predicate IsMin(xs: seq<real>, v: real) { v in xs && AtLeast(xs, v) }

  predicate IsMax(xs: seq<real>, v: real) { v in xs && AtMost(xs, v) }

  /** v is the least among the samples and the sentinel. */
  predicate LowestSeen(xs: seq<real>, v: real)
  {
    v <= LIMIT && (v == LIMIT || v in xs) && AtLeast(xs, v)
  }

  predicate HighestSeen(xs: seq<real>, v: real)
  {
    -LIMIT <= v && (v == -LIMIT || v in xs) && AtMost(xs, v)
  }

  // ---------- Scalar facts ----------

  lemma ScaledOrder(n: real, a: real, b: real)
    requires n > 0.0
    ensures Times(n, a) <= Times(n, b) <==> a <= b
  {
    assert n * b - n * a == n * (b - a);
  }

  lemma NegatedSquare(d: real, e: real)
    requires e == -d
    ensures Times(d, d) == Times(e, e)
  {
  }

  lemma PositiveSquare(d: real)
    requires d > 0.0
    ensures Times(d, d) > 0.0
  {
    ScaledOrder(d, d, 0.0);
    TimesZero(d);
  }

  lemma SquareZeroIff(d: real)
    ensures Times(d, d) >= 0.0 && (Times(d, d) == 0.0 <==> d == 0.0)
  {
    if d > 0.0 {
      PositiveSquare(d);
    } else if d < 0.0 {
      PositiveSquare(-d);
      NegatedSquare(d, -d);
    } else {
      TimesZero(d);
    }
  }

  lemma TimesZero(n: real)
    ensures Times(n, 0.0) == 0.0
  {
  }

  lemma OneMore(n: real, n': real, c: real)
    requires n' == n + 1.0
    ensures Times(n', c) == Times(n, c) + c
  {
  }

  // ---------- Mean ----------

  lemma {:induction false} TotalBetween(xs: seq<real>, lo: real, hi: real)
    requires AtLeast(xs, lo) && AtMost(xs, hi)
    ensures Times(Count(xs), lo) <= Total(xs) <= Times(Count(xs), hi)
  {
    if xs != [] {
      var ys := xs[..|xs| - 1];
      TotalBetween(ys, lo, hi);
      OneMore(Count(ys), Count(xs), lo);
      OneMore(Count(ys), Count(xs), hi);
    }
  }

  /** The mean lies between any bounds of the samples. */
  lemma MeanBetween(xs: seq<real>, m: real, lo: real, hi: real)
    requires IsMean(xs, m) && AtLeast(xs, lo) && AtMost(xs, hi)
    ensures lo <= m <= hi
  {
    TotalBetween(xs, lo, hi);
    ScaledOrder(Count(xs), lo, m);
    ScaledOrder(Count(xs), m, hi);
  }

  // ---------- One pass and two passes ----------

  lemma SpreadStep(s: real, sq: real, t: real, n: real, x: real, m: real, sq': real, t': real, n': real)
    requires s == sq - 2.0 * Times(m, t) + Times(n, Times(m, m))
    requires sq' == sq + Times(x, x) && t' == t + x && n' == n + 1.0
    ensures s + Times(x - m, x - m) == sq' - 2.0 * Times(m, t') + Times(n', Times(m, m))
  {
    assert (x - m) * (x - m) == x * x - 2.0 * (m * x) + m * m;
    assert m * (t + x) == m * t + m * x;
    assert (n + 1.0) * (m * m) == n * (m * m) + m * m;
  }

  lemma {:induction false} SpreadExpands(xs: seq<real>, m: real)
    ensures Spread(xs, m) == TotalSq(xs) - 2.0 * Times(m, Total(xs)) + Times(Count(xs), Times(m, m))
  {
    if xs != [] {
      var ys, x := xs[..|xs| - 1], xs[|xs| - 1];
      SpreadExpands(ys, m);
      SpreadStep(Spread(ys, m), TotalSq(ys), Total(ys), Count(ys), x, m, TotalSq(xs), Total(xs), Count(xs));
    }
  }

  lemma CentreAlgebra(spread: real, sq: real, t: real, n: real, m: real, q: real)
    requires Times(n, m) == t && Times(n, q) == sq
    requires spread == sq - 2.0 * Times(m, t) + Times(n, Times(m, m))
    ensures Times(n, q - Times(m, m)) == spread
  {
    assert m * (n * m) == n * (m * m);
    assert n * (q - m * m) == n * q - n * (m * m);
  }

  /** The average square minus the squared mean is the two-pass variance. */
  lemma {:induction false} OnePassIsTwoPass(xs: seq<real>, m: real, q: real)
    requires IsMean(xs, m) && Times(Count(xs), q) == TotalSq(xs)
    ensures IsVariance(xs, m, q - Times(m, m))
  {
    SpreadExpands(xs, m);
    CentreAlgebra(Spread(xs, m), TotalSq(xs), Total(xs), Count(xs), m, q);
  }

  // ---------- When the variance is zero ----------

  lemma {:induction false} SpreadZeroIff(xs: seq<real>, m: real)
    ensures Spread(xs, m) >= 0.0
    ensures Spread(xs, m) == 0.0 <==> AllAt(xs, m)
  {
    if xs != [] {
      var ys, x := xs[..|xs| - 1], xs[|xs| - 1];
      SpreadZeroIff(ys, m);
      SquareZeroIff(x - m);
      assert AllAt(xs, m) <==> AllAt(ys, m) && x == m;
    }
  }

  /** The variance is never negative, and zero exactly when all samples are equal. */
  lemma VarianceZeroIff(xs: seq<real>, m: real, v: real)
    requires IsVariance(xs, m, v)
    ensures v >= 0.0
    ensures v == 0.0 <==> AllEqual(xs)
  {
    SpreadZeroIff(xs, m);
    TimesZero(Count(xs));
    ScaledOrder(Count(xs), 0.0, v);
    ScaledOrder(Count(xs), v, 0.0);
    if AllEqual(xs) { MeanBetween(xs, m, xs[0], xs[0]); }
  }

  /** A single sample has variance 0, which is what stats_stddev returns without computing it. */
  lemma SingleVariance(xs: seq<real>, m: real)
    requires |xs| == 1 && IsMean(xs, m)
    ensures IsVariance(xs, m, 0.0)
  {
    MeanBetween(xs, m, xs[0], xs[0]);
    SpreadZeroIff(xs, m);
    TimesZero(Count(xs));
  }

  // ---------- How large the variance can be ----------

  /** Between lo and hi the squared distance from m stays under a chord. */
  lemma UnderChord(x: real, m: real, lo: real, hi: real, a: real, b: real)
    requires lo <= x <= hi && a == lo + hi - 2.0 * m && b == Times(m, m) - Times(lo, hi)
    ensures Times(x - m, x - m) <= Times(a, x) + b
  {
    var p := (hi - x) * (x - lo);
    assert p >= 0.0;
    assert a * x + b - (x - m) * (x - m) == p;
  }

  lemma ChordStep(s: real, t: real, n: real, d: real, x: real, a: real, b: real, t': real, n': real)
    requires s <= Times(a, t) + Times(n, b) && d <= Times(a, x) + b && t' == t + x && n' == n + 1.0
    ensures s + d <= Times(a, t') + Times(n', b)
  {
    assert a * (t + x) == a * t + a * x;
    assert (n + 1.0) * b == n * b + b;
  }

  lemma {:induction false} SpreadUnderChord(xs: seq<real>, m: real, lo: real, hi: real, a: real, b: real)
    requires AtLeast(xs, lo) && AtMost(xs, hi) && a == lo + hi - 2.0 * m && b == Times(m, m) - Times(lo, hi)
    ensures Spread(xs, m) <= Times(a, Total(xs)) + Times(Count(xs), b)
  {
    if xs != [] {
      var ys, x := xs[..|xs| - 1], xs[|xs| - 1];
      SpreadUnderChord(ys, m, lo, hi, a, b);
      UnderChord(x, m, lo, hi, a, b);
      ChordStep(Spread(ys, m), Total(ys), Count(ys), Times(x - m, x - m), x, a, b, Total(xs), Count(xs));
    }
  }

  lemma ChordAtMean(spread: real, t: real, n: real, m: real, v: real, lo: real, hi: real, a: real, b: real)
    requires n > 0.0 && Times(n, m) == t && Times(n, v) == spread && spread <= Times(a, t) + Times(n, b)
    requires a == lo + hi - 2.0 * m && b == Times(m, m) - Times(lo, hi)
    ensures v <= Times(hi - m, m - lo)
  {
    var g := a * m + b;
    assert a * (n * m) + n * b == n * g;
    ScaledOrder(n, v, g);
    assert g == (hi - m) * (m - lo);
  }

  /** The variance is at most (max - mean) * (mean - min). */
  lemma VarianceBound(xs: seq<real>, m: real, v: real, lo: real, hi: real)
    requires IsVariance(xs, m, v) && AtLeast(xs, lo) && AtMost(xs, hi)
    ensures v <= Times(hi - m, m - lo)
  {
    var a, b := lo + hi - 2.0 * m, Times(m, m) - Times(lo, hi);
    SpreadUnderChord(xs, m, lo, hi, a, b);
    ChordAtMean(Spread(xs, m), Total(xs), Count(xs), m, v, lo, hi, a, b);
  }

  // ---------- The object ----------

  method Divide(a: real, n: nat) returns (r: real)
    requires n > 0
    ensures Times(n as real, r) == a
  {
    r := a / n as real;
  }

  lemma {:induction false} AppendSample(xs: seq<real>, x: real)
    ensures Total(xs + [x]) == Total(xs) + x && TotalSq(xs + [x]) == TotalSq(xs) + Times(x, x)
  {
    assert (xs + [x])[..|xs|] == xs;
  }

  class StatsT {
    var sum: real
    var sumSq: real
    var count: nat
    var min: real
    var max: real
    ghost var samples: seq<real>

    ghost predicate Valid()
      reads this
    {
      && sum == Total(samples) && sumSq == TotalSq(samples) && count == |samples|
      && LowestSeen(samples, min) && HighestSeen(samples, max)
    }

    constructor ()
      ensures Valid() && samples == []
    {
      sum, sumSq, count, min, max, samples := 0.0, 0.0, 0, LIMIT, -LIMIT, [];
    }

    method Add(value: real)
      requires Valid()
      modifies this
      ensures Valid() && samples == old(samples) + [value]
    {
      AppendSample(samples, value);
      sum := sum + value;
      sumSq := sumSq + Times(value, value);
      count := count + 1;
      if value < min { min := value; }
      if value > max { max := value; }
      samples := samples + [value];
    }

    method Mean() returns (m: real)
      requires Valid()
      ensures if samples == [] then m == 0.0 else IsMean(samples, m) && min <= m <= max
      ensures unchanged(this)
    {
      if count > 0 {
        m := Divide(sum, count);
        MeanBetween(samples, m, min, max);
      } else {
        m := 0.0;
      }
    }

    /** What stats_stddev takes the square root of; m is the mean it computes on the way. */
    method StddevSquared() returns (v: real, m: real)
      requires Valid()
      ensures samples == [] ==> v == 0.0
      ensures samples != [] ==> IsVariance(samples, m, v) && 0.0 <= v <= Times(max - m, m - min)
      ensures samples != [] ==> (v == 0.0 <==> AllEqual(samples))
      ensures unchanged(this)
    {
      m := Mean();
      if count < 2 {
        v := 0.0;
        if count == 1 { SingleVariance(samples, m); }
      } else {
        var square := Divide(sumSq, count);
        var variance := square - Times(m, m);
        OnePassIsTwoPass(samples, m, square);
        VarianceZeroIff(samples, m, variance);
        v := if variance > 0.0 then variance else 0.0;
      }
      if samples != [] {
        VarianceZeroIff(samples, m, v);
        VarianceBound(samples, m, v, min, max);
      }
    }
  }

  lemma MeanUnique(xs: seq<real>, m: real, m': real)
    requires IsMean(xs, m) && IsMean(xs, m')
    ensures m == m'
  {
    ScaledOrder(Count(xs), m, m');
    ScaledOrder(Count(xs), m', m);
  }

  // ---------- The sentinel ----------

  /** The recorded minimum is the true one exactly when some sample does not exceed the sentinel. */
  lemma MinTrueIff(xs: seq<real>, v: real)
    requires LowestSeen(xs, v)
    ensures IsMin(xs, v) <==> exists i :: 0 <= i < |xs| && xs[i] <= LIMIT
  {
  }

  lemma MaxTrueIff(xs: seq<real>, v: real)
    requires HighestSeen(xs, v)
    ensures IsMax(xs, v) <==> exists i :: 0 <= i < |xs| && xs[i] >= -LIMIT
  {
  }

  /**
   stats_init, stats_add for each sample in turn, stats_mean and the radicand of stats_stddev. The
   recorded extremes are the true ones exactly when some sample lies on the right side of the sentinel
   they started from.
   */
  method Collect(xs: seq<real>) returns (s: StatsT, mean: real, variance: real)
    ensures fresh(s) && s.Valid() && s.samples == xs && s.count == |xs|
    ensures IsMin(xs, s.min) <==> exists i :: 0 <= i < |xs| && xs[i] <= LIMIT
    ensures IsMax(xs, s.max) <==> exists i :: 0 <= i < |xs| && xs[i] >= -LIMIT
    ensures xs != [] && AtLeast(xs, -1e300) && AtMost(xs, 1e300) ==> IsMin(xs, s.min) && IsMax(xs, s.max)
    ensures xs == [] ==> s.min == 1e300 && s.max == -1e300
    ensures xs == [] ==> mean == 0.0 && variance == 0.0
    ensures xs != [] ==> IsVariance(xs, mean, variance) && s.min <= mean <= s.max
    ensures xs != [] ==> 0.0 <= variance <= Times(s.max - mean, mean - s.min)
    ensures xs != [] ==> (variance == 0.0 <==> AllEqual(xs))
  {
    s := new StatsT();
    for i := 0 to |xs|
      invariant s.Valid() && s.samples == xs[..i] && fresh(s)
    {
      s.Add(xs[i]);
    }
    assert xs[..|xs|] == xs;
    mean := s.Mean();
    var m;
    variance, m := s.StddevSquared();
    if xs != [] { MeanUnique(xs, mean, m); }
    MinTrueIff(xs, s.min);
    MaxTrueIff(xs, s.max);
    if xs != [] { assert xs[0] <= 1e300 || !AtMost(xs, 1e300); }
  }

  /** A single sample of 2e300 leaves the sentinel as the recorded minimum. */
  lemma SentinelRecorded(min: real, max: real)
    requires LowestSeen([2e300], min) && HighestSeen([2e300], max)
    ensures min == 1e300 && !IsMin([2e300], min)
    ensures max == 2e300 && IsMax([2e300], max)
  {
    assert [2e300][0] == 2e300;
  }
}
