/**
 The reusable epoch barrier as a transition system: any number of threads, each calling
 the barrier once per phase, one C statement per step. The mutex, the set of threads
 asleep on the condition variable, spurious wakeups and mutex reacquisition are explicit.
 */
module Barrier {

  /** Where a thread is. Each name is the statement the thread executes next. */
  datatype Pc =
    | Outside     // between calls, or blocked in pthread_mutex_lock
    | Remember    // my_serial = serial
    | Arrive      // count++
    | Test        // if (count == threshold)
    | Reset       // count = 0
    | Advance     // serial++
    | Broadcast   // pthread_cond_broadcast
    | Check       // while (my_serial == serial)
    | Wait        // pthread_cond_wait: release the mutex and fall asleep
    | Asleep      // blocked on the condition variable
    | Reacquire   // woken, blocked until the mutex is free
    | Leave       // pthread_mutex_unlock

  /** `passed` is the worker's loop variable: the number of completed calls. */
  datatype Thread = Thread(pc: Pc, mine: nat, passed: nat)

  datatype Mutex = Free | HeldBy(t: nat)

  /**
   `wrap` is 0 for the barrier as written; a positive value keeps `serial` modulo `wrap`.
   */
  datatype State = State(threshold: nat, phases: nat, wrap: nat,
                         owner: Mutex, count: nat, serial: nat, threads: seq<Thread>)

  /** Run(t) executes thread t's next statement; Spurious(t) wakes t without a broadcast. */
  datatype Action = Run(t: nat) | Spurious(t: nat)

  function Init(threads: nat, threshold: nat, phases: nat, wrap: nat): State
  {
    State(threshold, phases, wrap, Free, 0, 0, seq(threads, _ => Thread(Outside, 0, 0)))
  }

  predicate Enabled(s: State, a: Action)
  {
    && a.t < |s.threads|
    && var th := s.threads[a.t];
       match a
       case Spurious(_) => th.pc == Asleep
       case Run(_) =>
         match th.pc
         case Outside => s.owner == Free && th.passed < s.phases
         case Asleep => false
         case Reacquire => s.owner == Free
         case _ => true
  }

  function Tick(wrap: nat, serial: nat): nat
  {
    if wrap == 0 then serial + 1 else (serial + 1) % wrap
  }

  function Wake(th: Thread): Thread
  {
    if th.pc == Asleep then th.(pc := Reacquire) else th
  }

  /** The effect of one step, written statement by statement as barrier_wait has it. */
  function Next(s: State, a: Action): State
    requires Enabled(s, a)
  {
    var t := a.t;
    var th := s.threads[t];
    match th.pc
    case Outside => s.(owner := HeldBy(t), threads := s.threads[t := th.(pc := Remember)])
    case Remember => s.(threads := s.threads[t := th.(pc := Arrive, mine := s.serial)])
    case Arrive => s.(count := s.count + 1, threads := s.threads[t := th.(pc := Test)])
    case Test =>
      s.(threads := s.threads[t := th.(pc := if s.count == s.threshold then Reset else Check)])
    case Reset => s.(count := 0, threads := s.threads[t := th.(pc := Advance)])
    case Advance =>
      s.(serial := Tick(s.wrap, s.serial), threads := s.threads[t := th.(pc := Broadcast)])
    case Broadcast =>
      var woken := seq(|s.threads|, i requires 0 <= i < |s.threads| => Wake(s.threads[i]));
      s.(threads := woken[t := th.(pc := Leave)])
    case Check =>
      s.(threads := s.threads[t := th.(pc := if th.mine == s.serial then Wait else Leave)])
    case Wait => s.(owner := Free, threads := s.threads[t := th.(pc := Asleep)])
    case Asleep => s.(threads := s.threads[t := Wake(th)])
    case Reacquire => s.(owner := HeldBy(t), threads := s.threads[t := th.(pc := Check)])
    case Leave =>
      s.(owner := Free, threads := s.threads[t := th.(pc := Outside, passed := th.passed + 1)])
  }

  predicate AllDone(s: State)
  {
    forall t :: 0 <= t < |s.threads| ==> s.threads[t].pc == Outside && s.threads[t].passed == s.phases
  }

  /** Runs: a schedule is a list of actions, each enabled when its turn comes. */
  predicate Legal(s: State, run: seq<Action>)
    decreases |run|
  {
    run == [] || (Enabled(s, run[0]) && Legal(Next(s, run[0]), run[1..]))
  }

  function Exec(s: State, run: seq<Action>): State
    requires Legal(s, run)
    decreases |run|
  {
    if run == [] then s else Exec(Next(s, run[0]), run[1..])
  }

  function SpuriousIn(run: seq<Action>): nat
  {
    if run == [] then 0 else (if run[0].Spurious? then 1 else 0) + SpuriousIn(run[1..])
  }
}
