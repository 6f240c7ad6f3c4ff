/**
 The four spinlocks and their workers, on the release/acquire memory. N workers each perform
 `iters` rounds of lock, `shared_counter++`, unlock; the increment is a plain read followed by a
 plain write. Loads of the lock word may be stale, and the weak compare-exchange may fail at will.
 */
module Spinlock {
  import opened ViewMemory
  import opened Backoff

  const LOCK: nat := 0
  const COUNTER: nat := 1

  datatype Kind = Tas | Ttas | TtasPause | ExpBackoff

  datatype Pc =
    | TestAndSet              // atomic_flag_test_and_set, acquire
    | Precheck                // relaxed load of the lock word
    | Cas                     // weak compare-exchange, acquire on success, relaxed on failure
    | Pause(left: nat)        // cpu_relax, `left` times
    | ReadCounter             // the read of shared_counter++
    | WriteCounter(reg: int)  // the write of shared_counter++
    | Release                 // release store of false

  /** backoff, rounds and paused belong to the current call; done counts finished iterations. */
  datatype Worker = Worker(pc: Pc, backoff: nat, rounds: nat, paused: nat, done: nat)

  /** The orders of the lock's accesses; the source has both. */
  datatype Orders = Orders(acquire: bool, release: bool)

  datatype State = State(kind: Kind, orders: Orders, iters: nat, mem: Mem, workers: seq<Worker>)

  /** Worker t's next statement; i is the message its load returns, success the outcome of its CAS. */
  datatype Action = Action(t: nat, i: nat, success: bool)

  function Entry(kind: Kind): Pc { if kind.Tas? then TestAndSet else Precheck }

  function Fresh(kind: Kind, done: nat): Worker { Worker(Entry(kind), BACKOFF_MIN, 0, 0, done) }

  function InitWith(kind: Kind, orders: Orders, n: nat, iters: nat): State
  {
    State(kind, orders, iters, Empty, seq(n, _ => Fresh(kind, 0)))
  }

  function Init(kind: Kind, n: nat, iters: nat): State
  {
    InitWith(kind, Orders(true, true), n, iters)
  }

  function PauseLength(kind: Kind, w: Worker): nat { if kind.ExpBackoff? then w.backoff else 1 }

  predicate Enabled(s: State, a: Action)
  {
    && a.t < |s.workers|
    && s.workers[a.t].done < s.iters
    && match s.workers[a.t].pc
       case Precheck => CanRead(s.mem, a.t, LOCK, a.i)
       case Cas => if a.success then Value(s.mem, LOCK) == 0 else CanRead(s.mem, a.t, LOCK, a.i)
       case ReadCounter => CanRead(s.mem, a.t, COUNTER, a.i)
       case _ => true
  }

  function NextMem(s: State, a: Action): Mem
    requires Enabled(s, a)
  {
    match s.workers[a.t].pc
    case TestAndSet => Exchange(s.mem, a.t, LOCK, 1, s.orders.acquire)
    case Precheck => Load(s.mem, a.t, LOCK, a.i, false)
    case Cas =>
      if a.success then Exchange(s.mem, a.t, LOCK, 1, s.orders.acquire)
      else Load(s.mem, a.t, LOCK, a.i, false)
    case Pause(_) => s.mem
    case ReadCounter => PlainRead(s.mem, a.t, COUNTER, a.i)
    case WriteCounter(reg) => PlainWrite(s.mem, a.t, COUNTER, reg + 1)
    case Release => Store(s.mem, a.t, LOCK, 0, s.orders.release)
  }

  function NextWorker(s: State, a: Action): Worker
    requires Enabled(s, a)
  {
    var w := s.workers[a.t];
    match w.pc
    case TestAndSet => w.(pc := if Value(s.mem, LOCK) == 0 then ReadCounter else TestAndSet)
    case Precheck =>
      w.(pc := if Message(s.mem, LOCK, a.i).val == 0 then Cas else Pause(PauseLength(s.kind, w)))
    case Cas => w.(pc := if a.success then ReadCounter else Pause(PauseLength(s.kind, w)))
    case Pause(left) =>
      if left > 0 then w.(pc := Pause(left - 1), paused := w.paused + 1)
      else w.(pc := Precheck, rounds := w.rounds + 1,
              backoff := if s.kind.ExpBackoff? then NextBackoff(w.backoff) else w.backoff)
    case ReadCounter => w.(pc := WriteCounter(Message(s.mem, COUNTER, a.i).val))
    case WriteCounter(_) => w.(pc := Release)
    case Release => Fresh(s.kind, w.done + 1)
  }

  function Next(s: State, a: Action): State
    requires Enabled(s, a)
  {
    s.(mem := NextMem(s, a), workers := s.workers[a.t := NextWorker(s, a)])
  }

  predicate AllDone(s: State)
  {
    forall t :: 0 <= t < |s.workers| ==> s.workers[t].done == s.iters
  }

  predicate Legal(s: State, run: seq<Action>)
    decreases |run|
  {
    run == [] || (Enabled(s, run[0]) && Legal(Next(s, run[0]), run[1..]))
  }

  function Exec(s: State, run: seq<Action>): State
    requires Legal(s, run)
    decreases |run|
  {
    if run == [] then s else Exec(Next(s, run[0]), run[1..])
  }
}
