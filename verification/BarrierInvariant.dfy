/** The inductive invariant of the barrier when exactly `threshold` threads take part. */
module BarrierInvariant {
  import opened Tallies
  import opened Barrier

  predicate Holding(pc: Pc)
  {
    !pc.Outside? && !pc.Asleep? && !pc.Reacquire?
  }

  predicate HasArrived(pc: Pc)
  {
    !pc.Outside? && !pc.Remember? && !pc.Arrive?
  }

  /** 1 when the thread has arrived in the epoch `serial`, 0 otherwise. */
  ghost function ArrivedIn(serial: nat): Thread -> int
  {
    (th: Thread) => if HasArrived(th.pc) && th.mine == serial then 1 else 0
  }

  /** The program point of the thread that holds the mutex; Outside when it is free. */
  ghost function OwnerPc(s: State): Pc
  {
    if s.owner.HeldBy? && s.owner.t < |s.threads| then s.threads[s.owner.t].pc else Outside
  }

  /**
   What each program point knows about the thread's epoch and phase. A sleeper lags only
   while the mutex holder stands between `serial++` and the broadcast.
   */
  ghost predicate ThreadOk(serial: nat, phases: nat, broadcasting: bool, th: Thread)
  {
    if th.pc.Outside? then th.passed == serial <= phases
    else
      && th.passed < phases
      && (!th.pc.Remember? ==> th.mine == th.passed)
      && match th.pc
         case Check => th.passed <= serial <= th.passed + 1
         case Reacquire => th.passed <= serial <= th.passed + 1
         case Asleep => serial == th.passed + (if broadcasting then 1 else 0)
         case Broadcast => serial == th.passed + 1
         case Leave => serial == th.passed + 1
         case _ => serial == th.passed
  }

  /** `count` is the number of threads arrived in the current epoch, except just after the reset. */
  ghost predicate CountOk(threshold: nat, count: nat, arrived: int, ownerPc: Pc)
  {
    match ownerPc
    case Advance => count == 0 && arrived == threshold
    case Reset => count == arrived == threshold
    case Test => count == arrived <= threshold
    case _ => count == arrived < threshold
  }

  ghost predicate OwnerOk(s: State)
  {
    && (s.owner.HeldBy? ==> s.owner.t < |s.threads|)
    && forall t :: 0 <= t < |s.threads| ==> (Holding(s.threads[t].pc) <==> s.owner == HeldBy(t))
  }

  ghost predicate ThreadsOk(s: State)
  {
    forall t :: 0 <= t < |s.threads| ==>
      ThreadOk(s.serial, s.phases, OwnerPc(s).Broadcast?, s.threads[t])
  }

  ghost predicate Inv(s: State)
  {
    && s.wrap == 0
    && |s.threads| == s.threshold >= 1
    && OwnerOk(s)
    && ThreadsOk(s)
    && CountOk(s.threshold, s.count, Sum(ArrivedIn(s.serial), s.threads), OwnerPc(s))
  }

  lemma InitInv(n: nat, phases: nat)
    requires n >= 1
    ensures Inv(Init(n, n, phases, 0))
  {
    var s := Init(n, n, phases, 0);
    SumConst(ArrivedIn(0), s.threads, 0);
  }

  /** Steps that change only the acting thread's record, the mutex and `count`. */
  ghost predicate Local(s: State, a: Action)
  {
    Inv(s) && Enabled(s, a) && !s.threads[a.t].pc.Advance? && !s.threads[a.t].pc.Broadcast?
  }

  lemma LocalOwner(s: State, a: Action)
    requires Local(s, a)
    ensures var r := Next(s, a); var old', new' := s.threads[a.t], r.threads[a.t];
            && r.threads == s.threads[a.t := new']
            && OwnerOk(r)
            && OwnerPc(r) == (if Holding(new'.pc) then new'.pc else if Holding(old'.pc) then Outside else OwnerPc(s))
            && (Holding(old'.pc) ==> OwnerPc(s) == old'.pc)
  {
    assert Holding(s.threads[a.t].pc) ==> s.owner == HeldBy(a.t);
  }

  lemma LocalThread(s: State, a: Action)
    requires Local(s, a)
    ensures var r := Next(s, a);
            ThreadOk(r.serial, r.phases, OwnerPc(r).Broadcast?, r.threads[a.t])
  {
    LocalOwner(s, a);
  }

  lemma LocalCount(s: State, a: Action)
    requires Local(s, a)
    ensures var r := Next(s, a);
            CountOk(r.threshold, r.count, Sum(ArrivedIn(r.serial), r.threads), OwnerPc(r))
  {
    var r := Next(s, a);
    LocalOwner(s, a);
    LocalThread(s, a);
    SumUpdate(ArrivedIn(s.serial), s.threads, a.t, r.threads[a.t]);
    SumBound(ArrivedIn(s.serial), r.threads, 1);
  }

  lemma LocalStep(s: State, a: Action)
    requires Local(s, a)
    ensures Inv(Next(s, a))
  {
    LocalOwner(s, a);
    LocalThread(s, a);
    LocalCount(s, a);
  }

  /** At `serial++` every thread has arrived, so every thread now lags by exactly one. */
  lemma AdvanceStep(s: State, a: Action)
    requires Inv(s) && Enabled(s, a) && s.threads[a.t].pc == Advance
    ensures Inv(Next(s, a))
  {
    var r := Next(s, a);
    assert s.owner == HeldBy(a.t);
    SumFull(ArrivedIn(s.serial), s.threads);
    assert forall i :: 0 <= i < |s.threads| ==> ArrivedIn(s.serial)(s.threads[i]) == 1;
    SumConst(ArrivedIn(r.serial), r.threads, 0);
  }

  lemma BroadcastThreads(s: State, a: Action)
    requires Inv(s) && Enabled(s, a) && s.threads[a.t].pc == Broadcast
    ensures var r := Next(s, a);
            && |r.threads| == |s.threads| && OwnerOk(r) && OwnerPc(r) == Leave && ThreadsOk(r)
  {
    var r := Next(s, a);
    assert s.owner == HeldBy(a.t);
    assert forall i :: 0 <= i < |s.threads| && i != a.t ==> r.threads[i] == Wake(s.threads[i]);
  }

  lemma BroadcastStep(s: State, a: Action)
    requires Inv(s) && Enabled(s, a) && s.threads[a.t].pc == Broadcast
    ensures Inv(Next(s, a))
  {
    var r := Next(s, a);
    BroadcastThreads(s, a);
    assert s.owner == HeldBy(a.t);
    SumLe(ArrivedIn(s.serial), s.threads, ArrivedIn(s.serial), r.threads);
    SumLe(ArrivedIn(s.serial), r.threads, ArrivedIn(s.serial), s.threads);
  }

  lemma StepInv(s: State, a: Action)
    requires Inv(s) && Enabled(s, a)
    ensures Inv(Next(s, a))
  {
    match s.threads[a.t].pc
    case Advance => AdvanceStep(s, a);
    case Broadcast => BroadcastStep(s, a);
    case _ => LocalStep(s, a);
  }

  lemma {:induction false} RunInv(s: State, run: seq<Action>)
    requires Inv(s) && Legal(s, run)
    ensures Inv(Exec(s, run))
    decreases |run|
  {
    if run != [] {
      StepInv(s, run[0]);
      RunInv(Next(s, run[0]), run[1..]);
    }
  }
}
