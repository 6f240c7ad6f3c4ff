/** The arithmetic of exponential backoff: delays double from 4 and saturate at 1024. */
module Backoff {
  import opened Arithmetic

  const BACKOFF_MIN: nat := 4
  const BACKOFF_MAX: nat := 1024

  function NextBackoff(backoff: nat): nat
  {
    if backoff * 2 > BACKOFF_MAX then BACKOFF_MAX else backoff * 2
  }

  /** The value of `backoff` after k failed rounds. */
  function Delay(k: nat): nat
  {
    if k == 0 then BACKOFF_MIN else NextBackoff(Delay(k - 1))
  }

  /** cpu_relax calls made by the first k failed rounds. */
  function TotalPauses(k: nat): nat
  {
    if k == 0 then 0 else TotalPauses(k - 1) + Delay(k - 1)
  }

  /** Closed forms of the delay and of the total, and the bound that keeps `backoff * 2` in range. */
  lemma {:induction false} BackoffClosedForm(k: nat)
    ensures Delay(k) == Min(BACKOFF_MAX, BACKOFF_MIN * Pow2(k))
    ensures Delay(k) * 2 <= 2048
    ensures TotalPauses(k) == if k <= 8 then 4 * (Pow2(k) - 1) else 1020 + 1024 * (k - 8)
  {
    assert Pow2(8) == 256 by { assert Pow2(4) == 16; }
    if k > 0 {
      BackoffClosedForm(k - 1);
      if k <= 9 { Pow2Monotone(k - 1, 8); }
      if k >= 8 { Pow2Monotone(8, k); }
      if k >= 9 { Pow2Monotone(8, k - 1); }
    }
  }

  /**
   The loop of backoff_lock, as one thread runs it: outcomes[k] says whether the k-th attempt
   (pre-check and compare-exchange) succeeds. Returns the number of failed rounds, the final
   delay and the number of pauses; without a success the call has not returned yet.
   */
  method BackoffLock(outcomes: seq<bool>) returns (acquired: bool, rounds: nat, backoff: nat, pauses: nat)
    ensures acquired <==> true in outcomes
    ensures acquired ==> rounds < |outcomes| && outcomes[rounds] && true !in outcomes[..rounds]
    ensures !acquired ==> rounds == |outcomes|
    ensures backoff == Min(BACKOFF_MAX, BACKOFF_MIN * Pow2(rounds))
    ensures pauses == if rounds <= 8 then 4 * (Pow2(rounds) - 1) else 1020 + 1024 * (rounds - 8)
  {
    acquired, rounds, backoff, pauses := false, 0, BACKOFF_MIN, 0;
    while rounds < |outcomes|
      invariant rounds <= |outcomes| && true !in outcomes[..rounds]
      invariant backoff == Delay(rounds) && pauses == TotalPauses(rounds)
      invariant !acquired
    {
      if outcomes[rounds] {
        acquired := true;
        break;
      }
      for i := 0 to backoff
        invariant pauses == TotalPauses(rounds) + i
      {
        pauses := pauses + 1;
      }
      backoff := if backoff * 2 > BACKOFF_MAX then BACKOFF_MAX else backoff * 2;
      assert outcomes[..rounds + 1] == outcomes[..rounds] + [outcomes[rounds]];
      rounds := rounds + 1;
    }
    BackoffClosedForm(rounds);
  }
}
