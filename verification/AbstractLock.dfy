/**
 The specification all four spinlocks implement: a lock taken and given back atomically, around
 an increment that is one step.
 */
module AbstractLock {
  import opened Tallies

  datatype Phase = Out | In | Bumped

  datatype Client = Client(phase: Phase, done: nat)

  datatype Abstract = Abstract(held: bool, value: int, iters: nat, clients: seq<Client>)

  datatype Event = Take(t: nat) | Bump(t: nat) | Give(t: nat)

  function Start(n: nat, iters: nat): Abstract
  {
    Abstract(false, 0, iters, seq(n, _ => Client(Out, 0)))
  }

  predicate Allowed(s: Abstract, e: Event)
  {
    && e.t < |s.clients|
    && var c := s.clients[e.t];
       match e
       case Take(_) => !s.held && c.phase.Out? && c.done < s.iters
       case Bump(_) => c.phase.In?
       case Give(_) => c.phase.Bumped?
  }

  function After(s: Abstract, e: Event): Abstract
    requires Allowed(s, e)
  {
    var c := s.clients[e.t];
    match e
    case Take(t) => s.(held := true, clients := s.clients[t := c.(phase := In)])
    case Bump(t) => s.(value := s.value + 1, clients := s.clients[t := c.(phase := Bumped)])
    case Give(t) => s.(held := false, clients := s.clients[t := Client(Out, c.done + 1)])
  }

  predicate AllowedAll(s: Abstract, es: seq<Event>)
    decreases |es|
  {
    es == [] || (Allowed(s, es[0]) && AllowedAll(After(s, es[0]), es[1..]))
  }

  function AfterAll(s: Abstract, es: seq<Event>): Abstract
    requires AllowedAll(s, es)
    decreases |es|
  {
    if es == [] then s else AfterAll(After(s, es[0]), es[1..])
  }

  // ---------- What the specification promises ----------

  /** 1 for a client between taking and giving back. */
  ghost function Holds(): Client -> int { (c: Client) => if c.phase.Out? then 0 else 1 }

  ghost function Bumps(): Client -> int { (c: Client) => c.done + if c.phase.Bumped? then 1 else 0 }

  ghost predicate Consistent(s: Abstract)
  {
    && Sum(Holds(), s.clients) == (if s.held then 1 else 0) && Sum(Bumps(), s.clients) == s.value
    && forall t :: 0 <= t < |s.clients| ==> s.clients[t].done + Holds()(s.clients[t]) <= s.iters
  }

  lemma {:induction false} StaysConsistent(s: Abstract, es: seq<Event>)
    requires Consistent(s) && AllowedAll(s, es)
    ensures Consistent(AfterAll(s, es)) && AfterAll(s, es).iters == s.iters
    decreases |es|
  {
    if es != [] {
      var r := After(s, es[0]);
      SumAtLeast(Holds(), s.clients, es[0].t, es[0].t);
      SumUpdate(Holds(), s.clients, es[0].t, r.clients[es[0].t]);
      SumUpdate(Bumps(), s.clients, es[0].t, r.clients[es[0].t]);
      StaysConsistent(r, es[1..]);
    }
  }

  /**
   In every abstract run at most one client holds the lock, the value counts the increments, and no
   client makes more than its iterations.
   */
  lemma {:induction false} AbstractlyExclusive(n: nat, iters: nat, es: seq<Event>)
    requires AllowedAll(Start(n, iters), es)
    ensures var s := AfterAll(Start(n, iters), es);
            && s.held == (Sum(Holds(), s.clients) == 1) && Sum(Holds(), s.clients) <= 1
            && s.value == Sum(Bumps(), s.clients)
            && forall t :: 0 <= t < |s.clients| ==> s.clients[t].done <= iters
  {
    SumConst(Holds(), Start(n, iters).clients, 0);
    SumConst(Bumps(), Start(n, iters).clients, 0);
    StaysConsistent(Start(n, iters), es);
  }
}
