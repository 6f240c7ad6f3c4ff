/** The atomic counter: N threads of relaxed fetch-add on the release/acquire memory. */
module RelaxedCounter {
  import opened Tallies
  import opened ViewMemory

  const COUNTER: nat := 0

  /** done[t] is the number of increments thread t has performed. */
  datatype State = State(iters: nat, mem: Mem, done: seq<nat>)

  function Init(n: nat, iters: nat): State { State(iters, Empty, seq(n, _ => 0)) }

  predicate Enabled(s: State, t: nat) { t < |s.done| && s.done[t] < s.iters }

  function Next(s: State, t: nat): State
    requires Enabled(s, t)
  {
    s.(mem := Exchange(s.mem, t, COUNTER, Value(s.mem, COUNTER) + 1, false), done := s.done[t := s.done[t] + 1])
  }

  predicate Legal(s: State, run: seq<nat>)
    decreases |run|
  {
    run == [] || (Enabled(s, run[0]) && Legal(Next(s, run[0]), run[1..]))
  }

  function Exec(s: State, run: seq<nat>): State
    requires Legal(s, run)
    decreases |run|
  {
    if run == [] then s else Exec(Next(s, run[0]), run[1..])
  }

  ghost function Each(): nat -> int { (x: nat) => x }

  ghost predicate Inv(s: State)
  {
    && Value(s.mem, COUNTER) == Sum(Each(), s.done)
    && forall t :: 0 <= t < |s.done| ==> s.done[t] <= s.iters
  }

  lemma FetchAdd(m: Mem, t: nat, val: int, r: Mem)
    requires r == Exchange(m, t, COUNTER, val, false)
    ensures Value(r, COUNTER) == val
  {
    var msg, v := ExchangeAppends(m, t, COUNTER, val, false);
    Appended(m, COUNTER, msg, t, v);
  }

  lemma StepInv(s: State, t: nat)
    requires Inv(s) && Enabled(s, t)
    ensures Inv(Next(s, t)) && Value(Next(s, t).mem, COUNTER) == Value(s.mem, COUNTER) + 1
  {
    FetchAdd(s.mem, t, Value(s.mem, COUNTER) + 1, Next(s, t).mem);
    OneMore(s, Next(s, t), t);
  }

  lemma OneMore(s: State, r: State, t: nat)
    requires Inv(s) && Enabled(s, t) && r.done == s.done[t := s.done[t] + 1] && r.iters == s.iters
    requires Value(r.mem, COUNTER) == Value(s.mem, COUNTER) + 1
    ensures Inv(r)
  {
    SumUpdate(Each(), s.done, t, s.done[t] + 1);
  }

  lemma {:induction false} NothingLost(s: State, run: seq<nat>)
    requires Inv(s) && Legal(s, run)
    ensures var r := Exec(s, run);
            && Inv(r) && |r.done| == |s.done| && r.iters == s.iters
            && Value(r.mem, COUNTER) == Value(s.mem, COUNTER) + |run|
    decreases |run|
  {
    if run != [] {
      StepInv(s, run[0]);
      NothingLost(Next(s, run[0]), run[1..]);
    }
  }

  /** Relaxed increments are never lost: the counter is the number of fetch-adds made so far. */
  lemma {:induction false} CountsEverything(n: nat, iters: nat, run: seq<nat>)
    requires Legal(Init(n, iters), run)
    ensures Value(Exec(Init(n, iters), run).mem, COUNTER) == |run|
  {
    SumConst(Each(), Init(n, iters).done, 0);
    NothingLost(Init(n, iters), run);
  }

  /** A run that no thread can continue ends at exactly N times K. */
  lemma {:induction false} ExactTotal(n: nat, iters: nat, run: seq<nat>)
    requires Legal(Init(n, iters), run)
    requires forall t: nat :: t < n ==> !Enabled(Exec(Init(n, iters), run), t)
    ensures Value(Exec(Init(n, iters), run).mem, COUNTER) == iters * n
  {
    var r := Exec(Init(n, iters), run);
    SumConst(Each(), Init(n, iters).done, 0);
    NothingLost(Init(n, iters), run);
    forall t | 0 <= t < |r.done| ensures Each()(r.done[t]) == iters {
      assert !Enabled(r, t);
    }
    SumConst(Each(), r.done, iters);
  }
}
