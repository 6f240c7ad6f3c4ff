/** Ring-buffer indices: the slot of the k-th message, and the mask that computes it. */
module RingIndex {
  import opened Arithmetic

  /** The index reached from 0 after k increments that wrap at `size`. */
  function Slot(k: nat, size: nat): (r: nat)
    requires size > 0
    ensures r < size
  {
    if k == 0 then 0
    else
      var p := Slot(k - 1, size);
      if p + 1 == size then 0 else p + 1
  }

  /** The number of full turns before message k. */
  lemma {:induction false} Turns(k: nat, size: nat) returns (q: nat)
    requires size > 0
    ensures k == size * q + Slot(k, size)
  {
    if k == 0 {
      q := 0;
    } else {
      q := Turns(k - 1, size);
      if Slot(k - 1, size) + 1 == size {
        Distribute(size, q);
        q := q + 1;
      }
    }
  }

  lemma {:induction false} SlotIsRemainder(k: nat, size: nat)
    requires size > 0
    ensures Slot(k, size) == k % size
  {
    var q := Turns(k, size);
    Remainder(size, k, q, Slot(k, size));
  }

  lemma {:induction false} SlotAdd(k: nat, d: nat, size: nat)
    requires d <= size && size > 0
    ensures Slot(k + d, size) == if Slot(k, size) + d < size then Slot(k, size) + d else Slot(k, size) + d - size
  {
    if d > 0 { SlotAdd(k, d - 1, size); }
  }

  /** Messages less than a full turn apart use different slots. */
  lemma {:induction false} SlotDistinct(a: nat, b: nat, size: nat)
    requires a < b < a + size
    ensures Slot(a, size) != Slot(b, size)
  {
    SlotAdd(a, b - a, size);
  }

  lemma SlotPeriod(a: nat, size: nat)
    requires size > 0
    ensures Slot(a + size, size) == Slot(a, size)
  {
    SlotAdd(a, size, size);
  }

  /** Bitwise and of two naturals. */
  function BitAnd(a: nat, b: nat): nat
  {
    if a == 0 || b == 0 then 0 else 2 * BitAnd(a / 2, b / 2) + if a % 2 == 1 && b % 2 == 1 then 1 else 0
  }

  /** x & (2^bits - 1), the source's `& MASK`. */
  function Mask(x: nat, bits: nat): nat
  {
    BitAnd(x, Pow2(bits) - 1)
  }

  lemma {:induction false} MaskBelow(x: nat, bits: nat)
    requires x < Pow2(bits)
    ensures Mask(x, bits) == x
  {
    if bits > 0 && x > 0 {
      var m := Pow2(bits - 1);
      MaskBelow(x / 2, bits - 1);
      assert (2 * m - 1) / 2 == m - 1 && (2 * m - 1) % 2 == 1;
      assert BitAnd(x, 2 * m - 1) == 2 * BitAnd(x / 2, m - 1) + if x % 2 == 1 then 1 else 0;
    }
  }

  lemma {:induction false} MaskSize(bits: nat)
    ensures Mask(Pow2(bits), bits) == 0
  {
    if bits > 0 {
      var m := Pow2(bits - 1);
      MaskSize(bits - 1);
      assert (2 * m - 1) / 2 == m - 1 && (2 * m) / 2 == m && (2 * m) % 2 == 0;
      assert BitAnd(2 * m, 2 * m - 1) == 2 * BitAnd(m, m - 1);
    }
  }

  /** For a power-of-two size, masking the successor of an index is the wrapping increment. */
  lemma MaskIsNextSlot(k: nat, bits: nat)
    ensures Mask(Slot(k, Pow2(bits)) + 1, bits) == Slot(k + 1, Pow2(bits))
  {
    if Slot(k, Pow2(bits)) + 1 < Pow2(bits) {
      MaskBelow(Slot(k, Pow2(bits)) + 1, bits);
    } else {
      MaskSize(bits);
    }
  }
}
