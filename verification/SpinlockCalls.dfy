/**
 What happens inside one call of a lock function, told by the events of the run alone: failed
 attempts and pauses since the worker's last unlock, and the load a compare-exchange relies on.
 */
module SpinlockCalls {
  import opened Arithmetic
  import opened ViewMemory
  import opened Backoff
  import opened Spinlock
  import opened SpinlockInvariant
  import opened SpinlockTheorems
  import opened SpinlockOrders

  /** Failed rounds and cpu_relax calls of one worker since it last released the lock. */
  datatype Call = Call(failures: nat, pauses: nat)

  /** The step is a pre-check that found the lock taken, or a compare-exchange that failed. */
  predicate Fails(s: State, a: Action)
    requires Enabled(s, a)
  {
    match s.workers[a.t].pc
    case Precheck => Message(s.mem, LOCK, a.i).val != 0
    case Cas => !a.success
    case _ => false
  }

  function Count(s: State, a: Action, c: Call): Call
    requires Enabled(s, a)
  {
    if s.workers[a.t].pc.Release? then Call(0, 0)
    else if Fails(s, a) then c.(failures := c.failures + 1)
    else if s.workers[a.t].pc.Pause? && s.workers[a.t].pc.left > 0 then c.(pauses := c.pauses + 1)
    else c
  }

  /** Worker t's current call, counted along the run. */
  function ThisCall(s: State, run: seq<Action>, t: nat, c: Call): Call
    requires Legal(s, run)
    decreases |run|
  {
    if run == [] then c
    else ThisCall(Next(s, run[0]), run[1..], t, if run[0].t == t then Count(s, run[0], c) else c)
  }

  function Left(pc: Pc): nat { if pc.Pause? then pc.left else 0 }

  /** The worker's registers are what the events say, and a TTAS round pauses once. */
  predicate Agrees(kind: Kind, w: Worker, c: Call)
  {
    && w.paused == c.pauses && w.rounds + (if w.pc.Pause? then 1 else 0) == c.failures
    && (kind.Tas? ==> w.pc.TestAndSet? || Inside(w.pc))
    && (kind.Tas? ==> c.pauses == c.failures == 0)
    && (kind.Ttas? || kind.TtasPause? ==> c.pauses + Left(w.pc) == c.failures)
  }

  lemma AgreesStep(s: State, a: Action, c: Call)
    requires Enabled(s, a) && Agrees(s.kind, s.workers[a.t], c)
    ensures Agrees(s.kind, NextWorker(s, a), Count(s, a, c))
  {
  }

  lemma {:induction false} AgreesRun(s: State, run: seq<Action>, t: nat, c: Call)
    requires t < |s.workers| && Legal(s, run) && Agrees(s.kind, s.workers[t], c)
    ensures var r := Exec(s, run);
            t < |r.workers| && Agrees(s.kind, r.workers[t], ThisCall(s, run, t, c))
    decreases |run|
  {
    if run != [] {
      if run[0].t == t { AgreesStep(s, run[0], c); }
      AgreesRun(Next(s, run[0]), run[1..], t, if run[0].t == t then Count(s, run[0], c) else c);
    }
  }

  /** Rounds whose pauses are over. */
  function Settled(pc: Pc, c: Call): nat { if pc.Pause? && c.failures > 0 then c.failures - 1 else c.failures }

  /** What the source's lock function of this kind has done by now. */
  ghost predicate CallOk(kind: Kind, w: Worker, c: Call)
  {
    match kind
    case Tas => c == Call(0, 0)
    case Ttas => c.pauses + Left(w.pc) == c.failures
    case TtasPause => c.pauses + Left(w.pc) == c.failures
    case ExpBackoff => c.pauses + Left(w.pc) == Pauses(c.failures) && w.backoff == Min(1024, 4 * Pow2(Settled(w.pc, c)))
  }

  lemma CallFollows(kind: Kind, n: nat, iters: nat, s: State, t: nat, c: Call)
    requires Reachable(kind, n, iters, s) && t < |s.workers| && Agrees(kind, s.workers[t], c)
    ensures CallOk(kind, s.workers[t], c)
  {
    if kind.ExpBackoff? { BackoffInRuns(n, iters, s, t); }
  }

  lemma {:induction false} RunReaches(kind: Kind, n: nat, iters: nat, run: seq<Action>)
    requires Legal(Init(kind, n, iters), run)
    ensures Reachable(kind, n, iters, Exec(Init(kind, n, iters), run))
  {
  }

  /**
   Every call starts afresh. Since its last unlock a worker of a TTAS lock has paused once per failed
   round; with exponential backoff it has made the pauses of that many rounds starting from 4, save
   those it is still making, and its delay has doubled as often; a TAS worker never pauses.
   */
  lemma {:induction false} PausesPerCall(kind: Kind, n: nat, iters: nat, run: seq<Action>, t: nat)
    requires t < n && Legal(Init(kind, n, iters), run)
    ensures var a := Init(kind, n, iters);
            t < |Exec(a, run).workers| && CallOk(kind, Exec(a, run).workers[t], ThisCall(a, run, t, Call(0, 0)))
  {
    var a := Init(kind, n, iters);
    assert a.kind == kind && t < |a.workers| && Agrees(kind, a.workers[t], Call(0, 0));
    AgreesRun(a, run, t, Call(0, 0));
    RunReaches(kind, n, iters, run);
    CallFollows(kind, n, iters, Exec(a, run), t, ThisCall(a, run, t, Call(0, 0)));
  }

  // ---------- Test first, then compare-exchange ----------

  /** What worker t's latest step loaded, if it was a pre-check. */
  datatype Loaded = Nothing | Loaded(val: int)

  function LoadOf(s: State, a: Action): Loaded
    requires Enabled(s, a)
  {
    if s.workers[a.t].pc.Precheck? then Loaded(Message(s.mem, LOCK, a.i).val) else Nothing
  }

  function LastLoad(s: State, run: seq<Action>, t: nat, l: Loaded): Loaded
    requires Legal(s, run)
    decreases |run|
  {
    if run == [] then l
    else LastLoad(Next(s, run[0]), run[1..], t, if run[0].t == t then LoadOf(s, run[0]) else l)
  }

  lemma {:induction false} LoadRun(s: State, run: seq<Action>, t: nat, l: Loaded)
    requires t < |s.workers| && Legal(s, run) && (s.workers[t].pc.Cas? <==> l == Loaded(0))
    ensures var r := Exec(s, run);
            t < |r.workers| && (r.workers[t].pc.Cas? <==> LastLoad(s, run, t, l) == Loaded(0))
    decreases |run|
  {
    if run != [] {
      LoadRun(Next(s, run[0]), run[1..], t, if run[0].t == t then LoadOf(s, run[0]) else l);
    }
  }

  /** A worker attempts its compare-exchange exactly when its own latest step loaded a free lock. */
  lemma {:induction false} TestsFirst(kind: Kind, n: nat, iters: nat, run: seq<Action>, t: nat)
    requires t < n && Legal(Init(kind, n, iters), run)
    ensures var a := Init(kind, n, iters);
            && t < |Exec(a, run).workers|
            && (Exec(a, run).workers[t].pc.Cas? <==> LastLoad(a, run, t, Nothing) == Loaded(0))
  {
    LoadRun(Init(kind, n, iters), run, t, Nothing);
  }

  // ---------- What the machine really allows ----------

  /** The compare-exchange is weak: it may fail although the lock is free, and then pauses. */
  lemma WeakCasMayFail(kind: Kind, n: nat, iters: nat, s: State, t: nat)
    requires Reachable(kind, n, iters, s) && t < |s.workers| && s.workers[t].pc.Cas?
    ensures var a := Action(t, Newest(s.mem, LOCK), false);
            && Enabled(s, a) && Next(s, a).workers[t].pc.Pause?
            && Value(Next(s, a).mem, LOCK) == Value(s.mem, LOCK)
  {
    ReachableInv(kind, n, iters, s);
    assert WorkerOk(s, t) && Within(s.mem, ViewOf(s.mem, t));
  }

  /** The pre-check may be stale: it can find a lock free that somebody holds. */
  lemma StalePrecheck(kind: Kind, n: nat, iters: nat) returns (s: State)
    requires !kind.Tas? && n >= 2 && iters >= 1
    ensures Reachable(kind, n, iters, s) && |s.workers| == n && Value(s.mem, LOCK) == 1
    ensures var a := Action(1, 0, true);
            s.workers[1].pc.Precheck? && Enabled(s, a) && Next(s, a).workers[1].pc.Cas?
  {
    var a := Init(kind, n, iters);
    assert Legal(a, []) && Exec(a, []) == a;
    EmptyBounded();
    s := Enter(a, a, 0);
    var run: seq<Action> :| Legal(a, run) && Exec(a, run) == s;
    assert Reachable(kind, n, iters, s);
    ReachableInv(kind, n, iters, s);
    AtMostOneInside(s, 0, 0);
  }
}
