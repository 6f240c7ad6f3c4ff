/** Powers of two and remainders. */
module Arithmetic {

  function Min(a: nat, b: nat): nat
  {
    if a < b then a else b
  }

  function Pow2(k: nat): (p: nat)
    ensures p > 0
  {
    if k == 0 then 1 else 2 * Pow2(k - 1)
  }

  lemma {:induction false} Pow2Monotone(a: nat, b: nat)
    requires a <= b
    ensures Pow2(a) <= Pow2(b)
    decreases b
  {
    if a < b { Pow2Monotone(a, b - 1); }
  }

  lemma MulMonotone(k: nat, a: nat, b: nat)
    requires a <= b
    ensures k * a <= k * b
  {
    assert k * b == k * a + k * (b - a);
  }

  lemma Remainder(k: nat, x: nat, q: nat, r: nat)
    requires r < k && x == k * q + r
    ensures x % k == r
  {
    var p := x / k;
    assert x == k * p + x % k;
    if p > q { MulMonotone(k, q + 1, p); }
    if p < q { MulMonotone(k, p + 1, q); }
  }

  /** The remainder of the successor. */
  lemma RemainderNext(size: nat, x: nat)
    requires size > 0
    ensures (x + 1) % size == if x % size + 1 == size then 0 else x % size + 1
  {
    var q, r := x / size, x % size;
    if r + 1 == size {
      Distribute(size, q);
      Remainder(size, x + 1, q + 1, 0);
    } else {
      Remainder(size, x + 1, q, r + 1);
    }
  }

  lemma SmallSuccessor(size: nat, r: nat)
    requires r < size
    ensures (r + 1) % size == if r + 1 == size then 0 else r + 1
  {
    if r + 1 == size { Remainder(size, r + 1, 1, 0); } else { Remainder(size, r + 1, 0, r + 1); }
  }

  lemma Distribute(size: nat, q: nat)
    ensures size * (q + 1) == size * q + size
  {
  }
}
