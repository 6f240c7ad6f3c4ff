# Verified models of the multithreading workshop

Dafny models of the synchronisation algorithms in the workshop's exercises, with proofs about every
run, for any number of threads, iterations, phases, messages and (power-of-two) queue sizes. The
`#define` values of the exercises are one instance each.

`dafny verify dfyconfig.toml` checks the whole project. No proof uses automatic induction:
lemmas it would apply to carry `{:induction false}`, so each stands on its written body.

## How the models are built

Each algorithm is a transition system: a state, a set of actions, `Enabled`, and a deterministic
`Next` that follows the C code statement by statement. A run is a list of actions, each enabled when
its turn comes (`Legal`, `Exec`). All nondeterminism (which thread runs, which message a load
returns, whether a weak compare-exchange fails, when a spurious wakeup happens) is in the choice of
actions, so a statement about all runs covers every scheduler and every permitted memory behaviour.

| machine | source | what it makes explicit |
|---|---|---|
| `Barrier.Next` | exercises/06_barriers/06_barriers.c:42-86 | mutex ownership, the set of sleepers, wakeups, spurious wakeups, reacquisition |
| `Spinlock.Next` | exercises/05_spinlock_internals/05_spinlock_internals.c:45-200 | the four locks, stale pre-checks, failing weak CAS, pauses, the counter's read and write |
| `SpscQueue.Next` | exercises/07_lockfree_queue/07_lockfree_queue.c:18-21, exercises/08_summary/08_summary.c:192-208 | the **intended** queue protocol that the comments describe, with each of its four memory orders on or off |
| `SkeletonRuns.Next` | exercises/07_lockfree_queue/07_lockfree_queue.c:56-141 | the queue **as shipped** |
| `MessagePassing.Next` | exercises/01_atomics/01_atomics.c:94-134, exercises/04_memory_ordering/04_memory_ordering.c:77-94 | flag and payload with either order on each side |
| `BrokenMessagePassing.Next` | exercises/04_memory_ordering/04_memory_ordering.c:37-56 | the unsynchronised pair on store-buffer memories |
| `LostUpdates.Next` | exercises/01_atomics/01_atomics.c:36-47 | mov, inc, mov as separate steps |
| `BufferedUpdates.Act` | exercises/01_atomics/01_atomics.c:36-47 | the same on the store-buffer memories, with the flushes |
| `RelaxedCounter.Next` | exercises/01_atomics/01_atomics.c:72-87 | relaxed fetch-add |

Two memories are used.

- `ViewMemory` is a release/acquire memory after sections 5.1.2.4 and 7.17.3 of ISO/IEC 9899:2011.
  Locations keep their modification order, threads and messages carry views, loads may be stale but
  coherent. Vector clocks decide happens-before between plain accesses exactly, and `racy` records
  the first data race; `ViewMemoryLitmus` states which accesses race, coherence, and that
  read-modify-writes carry a release on. The spinlocks, the queue, message passing and the relaxed counter run on it.
- `StoreBuffer` is a store-buffer memory after section 8.2 of the Intel SDM, Vol. 3A, with a variant
  that keeps store order only per location and one without buffers. The unsynchronised message passing
  and the unsynchronised counter run on it.

Where the source updates an object in place, the model does too: `BarrierObject.Workers` executes the
barrier's statements on fields and an array and is proved equal to `Barrier.Next`;
`QueueSkeleton.SpscQueue` is the shipped queue over an array; `Stats.StatsT` is the statistics record.

## Main results

- **Barrier.** Phase separation, epoch lag at most one, conservation `serial * N + count`, no lost
  wakeup, no deadlock, and a run-length bound of `16 * N * P + 4 * (spurious wakeups)`; every run that
  cannot continue has finished cleanly. Keeping `serial` modulo K gives exactly the same runs for
  every K >= 2; the barrier can complete if and only if K >= 2, or fewer than two threads or no phases
  are involved.
- **Spinlocks.** On weak memory, all four locks give mutual exclusion, a race-free plain counter whose
  every read is the previous holder's write, the exact total, refinement of one abstract lock, and
  progress from every reachable state. The counter is race free if and only if the lock uses both
  acquire and release, or there are fewer than two workers or no iterations; under the same condition,
  and no other, no increment is ever lost. Every call of a lock function pauses afresh, by its failed
  rounds alone.
- **Intended queue.** With the head a release/acquire pair, FIFO whatever the orders of the tail, and
  delivery of the whole input exactly when the ring has at least two slots; FIFO in every run if and
  only if the head is such a pair, the ring has one slot, or all messages are 0. Whatever the memory
  orders, the masked indices refine unbounded counters and a stale load can only cause a spurious full
  or empty, and exact conditions say when it can. The slots are free of data races if and only if nothing can be sent, or the head pair is
  release/acquire and so is the tail pair unless the input fits the first turn of the ring.
- **Shipped queue.** Nothing is ever delivered, in any interleaving; the producer can always finish,
  leaving its last message in slot 0.
- **Message passing.** Every observation is the published value if and only if the flag store is a
  release and the flag loads are acquires, or every payload store is 0. On store buffers the
  unsynchronised version is masked if and only if the memory keeps stores in order, or every payload
  store is 0.
- **Lost updates.** The possible final values of N threads doing K increments each are exactly an
  interval up to N*K, starting at 2 for N, K >= 2 and at K for one thread or K < 2; total store order
  and the weaker store buffers allow exactly the same values.
- **Statistics.** The one-pass variance is the two-pass variance, is zero exactly for equal samples,
  and is at most `(max - mean) * (mean - min)`; the recorded extremes are the true ones if and only if
  some sample is within the sentinel.

## Where the source disagrees with itself

- `SYSTEMS_GUIDE.md:310` calls x86_64 sequentially consistent for loads and stores; lines 17 and 131 of
  the memory-ordering exercise and `SYSTEMS_GUIDE.md:641` describe total store order. The model follows
  the latter, and `StoreLoadHole.BothMissIffBuffered` is the run that tells the two apart.
- `exercises/07_lockfree_queue/solution.c:1-2` calls the queue complete. The shipped bodies compare
  against constants and never store an index; `SkeletonRuns` models them as they are, `SpscQueue` models
  the protocol their comments ask for.
- `ttas_lock` and `ttas_pause_lock` have the same body, so the two kinds take the same steps.

## Model

| member | source | states |
|---|---|---|
| `BarrierInvariant.StepInv` | exercises/06_barriers/06_barriers.c:42-61 | every statement by any thread, and every spurious wakeup, keeps the invariant: mutex ownership matches program points, `count` is the number of arrivals of the current epoch (except between the reset and `serial++`), and each program point fixes how the thread's epoch relates to `serial` |
| `BarrierTheorems.PhaseSeparation` | exercises/06_barriers/06_barriers.c:42-83 | no thread returns from its k-th call before all N have arrived in theirs; completed phase counts differ by at most one |
| `BarrierTheorems.EpochLag` | exercises/06_barriers/06_barriers.c:45-57 | a thread inside the call lags `serial` by 0 or 1 |
| `BarrierTheorems.Conservation` | exercises/06_barriers/06_barriers.c:45-61 | whenever the mutex is free, `serial * N + count` is the total number of arrivals, with `count < N` and `serial <= P` |
| `BarrierTheorems.NoLostWakeup` | exercises/06_barriers/06_barriers.c:48-58 | whenever the mutex is free, every sleeper belongs to the current epoch and fewer than N threads sleep |
| `BarrierTheorems.SpuriousWakeupRechecks` | exercises/06_barriers/06_barriers.c:55-57 | a spuriously woken sleeper takes the free mutex, tests its epoch again and sleeps again: those four steps are possible from every reachable state with the mutex free, and lead back to it |
| `BarrierTheorems.NoDeadlock` | exercises/06_barriers/06_barriers.c:42-86 | in every reachable state all threads are done or some step other than a spurious wakeup is enabled |
| `BarrierTheorems.StepWork` | exercises/06_barriers/06_barriers.c:42-86 | every statement decreases a global measure, whoever executes it; a spurious wakeup adds at most 3 |
| `BarrierTheorems.Termination` | exercises/06_barriers/06_barriers.c:69-86 | every run has at most 16NP + 4k steps, k being its spurious wakeups |
| `BarrierTheorems.MaximalRunCompletes` | exercises/06_barriers/06_barriers.c:69-86 | a run that only spurious wakeups could extend has all threads done, `serial == P`, `count == 0` and the mutex free |
| `BarrierEpochs.FoldedEpochsSameRuns` | exercises/06_barriers/06_barriers.c:45-57 | for every K >= 2, the barrier with `serial` kept modulo K has exactly the same runs, reaching the same states up to reduction modulo K |
| `BarrierEpochs.OneEpochNeverCompletes` | exercises/06_barriers/06_barriers.c:45-57 | with a single epoch value no run of two or more threads and at least one phase ever completes |
| `BarrierEpochs.FoldedBarrierCompletesIff` | exercises/06_barriers/06_barriers.c:45-57 | with K epoch values some run completes if and only if K >= 2, or there are fewer than two threads, or no phases |
| `BarrierObject.Workers.constructor` | exercises/06_barriers/06_barriers.c:29-35 | the initial barrier and workers are the machine's initial state |
| `BarrierObject.Workers.WakeAll` | exercises/06_barriers/06_barriers.c:52 | the broadcast moves every sleeper, and nobody else, to the mutex queue |
| `BarrierObject.Workers.Step` | exercises/06_barriers/06_barriers.c:42-61 | one statement executed in place has exactly the effect of the machine's step |
| `BarrierObject.Workers.SpuriousWakeup` | SYSTEMS_GUIDE.md:263-267 | a spurious wakeup executed in place moves exactly that sleeper to the mutex queue, which is the machine's step |
| `BarrierObject.Workers.RunAll` | exercises/06_barriers/06_barriers.c:69-86 | whichever runnable worker is picked each time, and with any bounded number of spurious wakeups in between, the loop terminates with all workers done and the barrier clean |
| `BarrierObject.RunExercise` | exercises/06_barriers/06_barriers.c:88-110 | started with N threads and P phases, under any such scheduler the program ends with `serial == P` and `count == 0` |
| `SpinlockInvariant.StepInv` | exercises/05_spinlock_internals/05_spinlock_internals.c:45-170 | every step of every lock keeps the invariant: the newest lock word counts the workers inside, a free lock's message and a holder's view know all accesses of the counter, the counter equals the increments written |
| `SpinlockTheorems.MutualExclusion` | exercises/05_spinlock_internals/05_spinlock_internals.c:45-146 | the lock word is 1 exactly when exactly one worker is between acquire and release, and otherwise none is |
| `SpinlockTheorems.CounterPublished` | exercises/05_spinlock_internals/05_spinlock_internals.c:144-170 | no data race on the counter in any run; the holder can read only the previous holder's write, which counts all increments so far |
| `SpinlockTheorems.ExactTotal` | exercises/05_spinlock_internals/05_spinlock_internals.c:148-200 | when all workers are done the counter is N times the iterations and the lock is free |
| `SpinlockTheorems.Refinement` | exercises/05_spinlock_internals/05_spinlock_internals.c:45-146 | every run of every lock, stale pre-checks and spurious CAS failures included, projects onto a run of one abstract lock with an atomic increment, ending in the projected state |
| `AbstractLock.AbstractlyExclusive` | exercises/05_spinlock_internals/05_spinlock_internals.c:144-170 | every run of the abstract lock has at most one holder, counts every increment, and stays within the iterations |
| `SpinlockTheorems.Progress` | exercises/05_spinlock_internals/05_spinlock_internals.c:152-200 | from every reachable state there is a schedule in which all workers finish with the exact total |
| `SpinlockTheorems.BackoffInRuns` | exercises/05_spinlock_internals/05_spinlock_internals.c:118-138 | in every concurrent run a worker's delay is the closed form of its failed rounds; outside the pauses so is the number of pauses made, and inside them the pauses made and still to make add up to the closed form of one more round |
| `SpinlockCalls.PausesPerCall` | exercises/05_spinlock_internals/05_spinlock_internals.c:45-138 | counted along the run since the worker's last unlock: a TTAS worker has paused once per failed round, a backoff worker has made the closed-form number of pauses for its failed rounds starting again from 4 in every call, save those it is still making, and a TAS worker never pauses |
| `SpinlockCalls.TestsFirst` | exercises/05_spinlock_internals/05_spinlock_internals.c:60-76 | in every run a worker is about to compare-exchange exactly when its own latest step loaded a free lock |
| `SpinlockCalls.WeakCasMayFail` | API.md:126 | in every reachable state a worker at its compare-exchange may fail it, the lock being free or not, and then pauses |
| `SpinlockCalls.StalePrecheck` | exercises/05_spinlock_internals/05_spinlock_internals.c:62-63 | for two or more workers there is a reachable state in which the relaxed pre-check finds a lock free that another worker holds |
| `SpinlockOrders.RelaxedLockRaces` | exercises/05_spinlock_internals/05_spinlock_internals.c:67-70 | with acquire or release relaxed, every lock has a run with a data race on the counter, in which two increments leave it at 1 |
| `SpinlockOrders.RaceFreeIffOrdered` | exercises/05_spinlock_internals/05_spinlock_internals.c:45-53 | for any number of workers and iterations, all runs are race free if and only if the lock acquires and releases, or there are fewer than two workers, or no iterations |
| `SpinlockOrders.NothingLostIffOrdered` | exercises/05_spinlock_internals/05_spinlock_internals.c:148-170 | for any number of workers and iterations, no run ever loses an increment if and only if the lock acquires and releases, or there are fewer than two workers, or no iterations |
| `Backoff.BackoffClosedForm` | exercises/05_spinlock_internals/05_spinlock_internals.c:115-137 | after k failed rounds the delay is min(1024, 4 * 2^k), the pauses total 4 * (2^k - 1) up to k = 8 and 1020 + 1024 * (k - 8) beyond, and `backoff * 2` never exceeds 2048 |
| `Backoff.BackoffLock` | exercises/05_spinlock_internals/05_spinlock_internals.c:118-138 | the loop returns at the first successful attempt, with the delay and pauses of the closed forms |
| `SpscIndices.StepIndices` | exercises/07_lockfree_queue/07_lockfree_queue.c:64-102 | under any memory orders every step keeps the index invariant: message k of an index location holds the masked k, each side's own index is current, its view of the other's may lag but never by a full turn |
| `SpscInvariant.StepSide` | exercises/07_lockfree_queue/07_lockfree_queue.c:18-21 | the slot writes published by the head and the slot reads published by the tail: each half, given only the release/acquire pair of its own index, is kept by every step: a published index knows every slot access before it, except slots accessed again by later messages |
| `SpscInvariant.StepFifo` | exercises/07_lockfree_queue/07_lockfree_queue.c:71-102 | with only the head ordered every step keeps every unread message in its slot and the output a prefix of the input |
| `SpscInvariant.StepInv` | exercises/07_lockfree_queue/07_lockfree_queue.c:18-21 | with all four orders every step also keeps the slots free of data races |
| `SpscTheorems.Fifo` | exercises/07_lockfree_queue/07_lockfree_queue.c:18-21 | with the head stored as a release and loaded as an acquire, whatever the orders of the tail, in every run the dequeued values are a prefix of the enqueued ones; with the tail ordered too no slot access is a data race |
| `SpscTheorems.CheckNeverFires` | exercises/07_lockfree_queue/07_lockfree_queue.c:127-133 | with messages 0, 1, 2, ... and the head ordered, the consumer's `value != received` check never fires |
| `SpscTheorems.IndicesRefineCounters` | exercises/07_lockfree_queue/07_lockfree_queue.c:64-80 | under any memory orders the masked indices are unbounded counters H and T modulo the size, with 0 <= H - T <= size - 1 |
| `SpscTheorems.StaleLoadsAreSafe` | exercises/08_summary/08_summary.c:192-208 | under any memory orders a stale tail yields full exactly when the ring was full at the message read, and proceeding means there is room now; a stale head yields empty exactly when nothing beyond the tail was published at that message |
| `SpscStale.SpuriousFullIff` | exercises/08_summary/08_summary.c:195-197 | under any memory orders, enqueue can report full while there is room if and only if the ring has at least two slots and the input is at least as long as the ring |
| `SpscStale.SpuriousEmptyIff` | exercises/08_summary/08_summary.c:204-206 | under any memory orders, dequeue can report empty while a message is published if and only if the ring has at least two slots and the input is not empty |
| `SpscTheorems.NoUnreadOverwritten` | exercises/07_lockfree_queue/07_lockfree_queue.c:71-76 | under any memory orders the slot about to be written holds no message still to be read |
| `SpscTheorems.NoUnpublishedRead` | exercises/07_lockfree_queue/07_lockfree_queue.c:93-98 | with the head ordered, the slot about to be read can only yield the oldest unread published message |
| `SpscTheorems.Delivery` | exercises/07_lockfree_queue/07_lockfree_queue.c:108-141 | with the head ordered and at least two slots, from every reachable state some schedule delivers the whole input |
| `SpscTheorems.DeliversIff` | exercises/07_lockfree_queue/07_lockfree_queue.c:32-33 | with the head ordered, a non-empty input can be delivered if and only if the ring has at least two slots |
| `SpscFifo.FifoIffHeadOrdered` | exercises/07_lockfree_queue/07_lockfree_queue.c:18-21 | for every size, input and orders, all runs are FIFO if and only if the head is released and acquired, or the ring has one slot, or all messages are 0 |
| `SpscFifo.ReceiveZeros` | exercises/07_lockfree_queue/07_lockfree_queue.c:89-98 | with the head not ordered, some run receives only zeros, as many as there are messages |
| `SpscOrders.TurnStep` | exercises/07_lockfree_queue/07_lockfree_queue.c:18-21 | with only the head pair ordered and an input no longer than the ring, every step keeps all slot accesses race free |
| `SpscOrders.RaceFreeIffOrdered` | exercises/07_lockfree_queue/07_lockfree_queue.c:176-185 | for every size and input, all runs are race free if and only if the ring has one slot, or the input is empty, or the head is released and acquired and either the tail is too or the input is no longer than the ring |
| `RingIndex.MaskIsNextSlot` | exercises/07_lockfree_queue/07_lockfree_queue.c:65 | for a power-of-two size, `(head + 1) & MASK` computed bit by bit is the wrapping increment |
| `RingIndex.SlotIsRemainder` | exercises/07_lockfree_queue/07_lockfree_queue.c:32-33 | the slot of the k-th message is k modulo the size |
| `QueueSkeleton.SpscQueue.constructor` | exercises/07_lockfree_queue/07_lockfree_queue.c:56-60 | both indices start at 0 |
| `QueueSkeleton.SpscQueue.Enqueue` | exercises/07_lockfree_queue/07_lockfree_queue.c:63-83 | as shipped: succeeds unless head is the last slot, overwrites `buffer[head]`, moves no index |
| `QueueSkeleton.SpscQueue.Dequeue` | exercises/07_lockfree_queue/07_lockfree_queue.c:86-105 | as shipped: succeeds exactly when tail is not 0 |
| `QueueSkeleton.RunThreads` | exercises/07_lockfree_queue/07_lockfree_queue.c:108-141 | whatever the order of calls, nothing is received and every producer turn overwrites slot 0 |
| `SkeletonRuns.NeverDelivers` | exercises/07_lockfree_queue/07_lockfree_queue.c:56-141 | in every statement-level interleaving both indices stay 0, the messages sent are the slot writes of the run, slot 0 holds the last of them and the other slots are untouched, nothing is received, and the consumer's loop is never left if a message is expected |
| `SkeletonRuns.ProducerCompletes` | exercises/07_lockfree_queue/07_lockfree_queue.c:108-119 | with two or more slots, after any run the producer can still send all its messages; then only the last one is in slot 0, nothing has been received and only the consumer can go on |
| `SkeletonRuns.EnqueueAlwaysSucceeds` | exercises/07_lockfree_queue/07_lockfree_queue.c:63-83 | every enqueue attempt passes its test if and only if the ring has more than one slot |
| `SkeletonRuns.EnqueueSteps` | exercises/07_lockfree_queue/07_lockfree_queue.c:63-83 | for any indices, the statements of one enqueue in a row write `buffer[head]` and count the message, or change nothing when the next index is 0 |
| `SkeletonRuns.DequeueSteps` | exercises/07_lockfree_queue/07_lockfree_queue.c:86-133 | for any indices, the statements of one dequeue in a row change nothing when the tail is 0, and otherwise count a message and fire the check exactly when the slot does not hold the expected value |
| `MessagePassing.AcquireReleasePublishes` | exercises/01_atomics/01_atomics.c:107-134 | for any payload and any spin length, a consumer that left the loop reads the published values and no plain access races |
| `MessagePassing.ObservesPublished` | exercises/04_memory_ordering/04_memory_ordering.c:85-94 | for every payload, location and orders some run leaves the loop and observes the published value |
| `MessagePassing.FlagMayBeStale` | exercises/01_atomics/01_atomics.c:125-127 | whatever the orders, the consumer may still load the flag as 0, and spin on, when everything has been sent |
| `MessagePassing.RelaxedReadsStale` | exercises/01_atomics/01_atomics.c:97-123 | if either flag access is relaxed, for every location and every number d of stores there is a run that leaves the loop and reads what the first d stores left there, the initial 0 for d = 0; a data race when the payload is plain and stores to that location |
| `MessagePassing.SafeIffAcquireRelease` | exercises/04_memory_ordering/04_memory_ordering.c:77-94 | for every payload, all observations are published values if and only if the flag store releases and the flag loads acquire, or every payload store is 0 |
| `BrokenMessagePassing.TsoMasksTheBug` | exercises/04_memory_ordering/04_memory_ordering.c:13-17 | under total store order every consumer that saw the flag reads all earlier payload stores |
| `BrokenMessagePassing.ObservesPublished` | exercises/04_memory_ordering/04_memory_ordering.c:48-56 | on every store-buffer memory, for every payload and location, some run leaves the loop and observes the published value |
| `BrokenMessagePassing.FlagOvertakes` | exercises/04_memory_ordering/04_memory_ordering.c:41-56 | without order between locations the flag can overtake the payload from any store on: for every location and every d the consumer can read what the first d stores left there |
| `BrokenMessagePassing.MaskedIffStoreOrder` | exercises/04_memory_ordering/04_memory_ordering.c:37-56 | for every payload, the broken version reads only published values if and only if the memory keeps stores in order, or every payload store is 0 |
| `StoreLoadHole.BothMissIffBuffered` | exercises/04_memory_ordering/04_memory_ordering.c:17 | two threads can both miss each other's store if and only if stores are buffered |
| `StoreLoadHole.OutcomesExactly` | exercises/04_memory_ordering/04_memory_ordering.c:13-17 | the possible pairs of loaded values are all pairs of 0 and 1, save (0, 0) when stores are not buffered |
| `LostUpdates.FinalBounds` | exercises/01_atomics/01_atomics.c:36-47 | a complete run ends at most at N*K, so the printed loss is never negative, and at least at 2 (at K for one thread or K < 2) |
| `LostUpdates.AnyLoss` | exercises/01_atomics/01_atomics.c:36-47 | a schedule is built that ends at any given value between those bounds |
| `LostUpdates.FinalValuesExactly` | exercises/01_atomics/01_atomics.c:175-177 | for all N and K, the possible final values are exactly those between the bounds |
| `RelaxedCounter.CountsEverything` | exercises/01_atomics/01_atomics.c:72-87 | after every run the counter is the number of fetch-adds made |
| `BufferedUpdates.FinalBounds` | exercises/01_atomics/01_atomics.c:36-47 | on every store-buffer memory a complete run with all stores flushed ends between the same bounds |
| `BufferedUpdates.MatchRun` | exercises/01_atomics/01_atomics.c:36-47 | every sequentially consistent run is possible on every store-buffer memory, ending in the same state |
| `BufferedUpdates.FinalValuesSame` | exercises/04_memory_ordering/04_memory_ordering.c:13-17 | under total store order, per-location order or none, for all N and K, the possible final values are exactly those of the sequentially consistent counter |
| `RelaxedCounter.ExactTotal` | exercises/01_atomics/01_atomics.c:72-87 | relaxed fetch-add loses nothing: every run that no thread can continue ends at N*K |
| `Stats.StatsT.constructor` | include/benchmark.h:190-196 | a fresh record describes no samples |
| `Stats.StatsT.Add` | include/benchmark.h:198-204 | one sample is appended and all five fields again describe the whole list |
| `Stats.StatsT.Mean` | include/benchmark.h:206-208 | the mean of the samples, between the recorded min and max; 0 without samples |
| `Stats.StatsT.StddevSquared` | include/benchmark.h:210-215 | the value under the square root is the two-pass population variance, at most (max - mean) * (mean - min), and 0 exactly when all samples are equal |
| `Stats.Collect` | include/benchmark.h:190-215 | initialising and adding any list of samples yields its count, mean and two-pass variance, the mean between the extremes, the variance at most (max - mean) * (mean - min) and 0 exactly for equal samples; samples between -1e300 and 1e300 yield the true extremes, none yields 1e300 and -1e300; the recorded minimum (maximum) is the true one if and only if some sample is on the right side of the sentinel |
| `Stats.SentinelRecorded` | include/benchmark.h:194-203 | a single sample of 2e300 leaves 1e300 as the recorded minimum, which is not the true one |
| `Stats.MeanBetween` | include/benchmark.h:206-208 | the mean lies between any bounds of the samples |
| `Stats.OnePassIsTwoPass` | include/benchmark.h:212-213 | `sum_sq / count - mean * mean` is the two-pass variance |
| `Stats.VarianceZeroIff` | include/benchmark.h:213-214 | the variance is never negative, and zero if and only if all samples are equal |
| `Stats.VarianceBound` | include/benchmark.h:202-213 | the variance is at most (max - mean) * (mean - min) |

## Left out

- Thread creation and joining, sleeps, printing and timing: runs start with all threads started and end with all of them done.
- `TIME_IT`, `MEASURE_CACHE_MISSES` and the perf counter wrappers: clock and kernel plumbing.
- False sharing, padding, cache-line traffic and the duration of `cpu_relax`: performance only; a pause is a step without effect.
- exercises/00_quick_review, exercises/02_rwlock, exercises/03_cache_effects and `pthread_spin_worker`: the same patterns again, or thin use of library locks.
- A barrier used by a number of threads other than its threshold: the exercise always uses as many as the threshold.
- exercises/08_summary code: its bodies are unimplemented; only its comments are used.
- The seq_cst producer and consumer, and the seq_cst counter: their orders are at least acquire and release, so they have no run that the weaker versions do not.
- ViewMemory: a store takes its place at the end of the modification order. Every location modelled has one writer at a time, ordered by happens-before or by read-modify-writes, so no other place is open to it. C gives a run no meaning once it has raced: what is proved of runs whose orders allow a race, such as FIFO with only the head ordered, is about this memory. Load buffering and out-of-thin-air values are not modelled.
- SpinlockTheorems.Progress: does not claim that every fair schedule finishes or that no worker starves, because the locks provide no fairness.
- SpscTheorems.Delivery: states that delivery stays possible, not that every schedule delivers, because both sides may spin for ever.
- LostUpdates.FinalValuesExactly: is about the mov/inc/mov reading that the exercise gives, on sequentially consistent memory (`BufferedUpdates` covers store buffers); at C level the race is undefined behaviour.
- Backoff.BackoffLock: the outcomes of the attempts are a parameter; the concurrent lock is the `ExpBackoff` kind of `Spinlock`.
- Floating-point rounding and the square root: the statistics are over exact reals and stop at the variance.
- Integer widths: `count` stays at most N and `serial` at most P, the backoff at most 2048 and queue indices below the size, so none of them can overflow in the modelled runs; the counters' totals N*K are taken to fit in `long`.
