# mulle-fifo: a verified model of the SPSC pointer FIFO

mulle-fifo is a bounded, non-blocking queue of `void *` for one producer thread and one
consumer thread. The two threads share a counter `n` and an array of slots. Each keeps a
private index that wraps modulo the size, and each acts on a count that may already be
out of date. This project models the queue at the granularity of its shared accesses and
proves what its callers may rely on under every interleaving.

## Layers

1. **Step machine** (`Machine`). Every call of `write`, `read` and `get_count` is cut at
   each access to shared memory and at each update of a private index. A schedule says
   which thread moves next; every schedule is a run. `Invariant` holds in every reachable
   state.
2. **Specification** (`AtomicQueue`, `Serialisation`). A queue whose operations happen all
   at once; histories of calls and returns; what a serial order of overlapping calls is.
   `Refinement` is the forward simulation between the two and yields linearizability.
3. **Consequences for any client**: `Tickets` (live window, exactly-once delivery, unset
   slots), `HappensBefore` (publication, slot reuse, race freedom), `Progress`
   (wait-freedom, window lemma, credit for stale counts), `StalledPartner`,
   `MachineWords` (wrapping words equal integers), `Fixed64` (the fixed form moves in
   lockstep with the dynamic one).
4. **The object in memory**: `PointerFifos` holds the dynamic and the fixed FIFO as classes
   that update their fields and slots in place on 32-bit and 64-bit words;
   `Interleavings` runs the object access by access under a schedule; `Contract` is the
   single-threaded contract test for any size.
5. **Closed systems**: `RetryLoops` is the termination argument for any writer and reader
   that call again when a call fails; `Stress`, `StressResults`, `StressTermination` and
   `StressTests` (on objects in memory) are the stress test with any number of items, any
   size and any schedule; `Shutdown` and `ShutdownTermination` are the program that frees
   the storage before joining its producer.

## Assumptions

- The atomics library is not part of this model. Loads and stores are sequentially
  consistent; increment and decrement are indivisible read-modify-writes by one.
- The documentation disagrees with itself about this. README.md:30-34 speaks of relaxed
  operations; src/mulle--pointerfifo64.h:95-99, dox/API_POINTERFIFO.md:24-27 and
  RELEASENOTES.md:28 say sequentially consistent. The model follows the latter. The
  happens-before results use less: only the read-modify-writes of `n` release and only
  the loads of `n` acquire. Happens-before is that of section 5.1.2.4 of ISO/IEC
  9899:2011 for such a run.
- README.md:18-19 asks that `done` be called only after both threads have stopped.
  test/20-multithreaded/threads.c calls it earlier; `Shutdown` proves that this program
  never touches the freed storage, and that happens-before orders each access before the free.
- A pointer is a natural number with 0 for NULL. `rand`, `nanosleep`, `yield` and thread
  creation are absorbed in the choice of schedule. Allocation succeeds; the allocator is
  the set of blocks in use.

## Model

| member | source | states |
|---|---|---|
| Invariant.StepKeepsInv | src/mulle-pointerfifo.h:118-157 | any single step of any thread keeps the invariant: a passed full or empty test stays true until its thread changes `n`, both ends stay `n` slots apart, and the queue changes only by what is published at its end and retired at its front |
| Invariant.FreeSlot | src/mulle-pointerfifo.h:149-152 | while the count is below the size the slot at the tail is none of the published ones |
| Invariant.Conservation | src/mulle-pointerfifo.h:118-157 | in every run from any sound state, old contents plus everything accepted equals everything delivered plus what the queue holds |
| Refinement.StepRefines | src/mulle-pointerfifo.h:102-157 | forward simulation: each step is a step of the atomic queue with the same visible event; failures and counts take effect at the load or test, a write at its increment, a read at its decrement |
| Refinement.RunRefines | src/mulle-pointerfifo.h:102-157 | every run with one producer, one consumer and any observers is a run of the atomic queue that starts empty and idle |
| Serialisation.StepKeepsSerial | src/mulle-pointerfifo.h:118-157 | the atomic queue always has a serial order of its calls, and each step extends or completes it |
| Refinement.Linearizable | src/mulle-pointerfifo.h:102-157 | at every moment of every run some order of whole calls has each thread's returned calls, respects real time, gives the same responses one by one and leaves the same queue |
| Refinement.LinearizableWhenQuiet | src/mulle-pointerfifo.h:118-157 | when all calls have returned that order consists of exactly those calls |
| AtomicQueue.CallsAreReal | src/mulle-pointerfifo.h:102-157 | a call of the history is an invocation and the next event of the same thread, its return, at the positions noted |
| AtomicQueue.EveryReturnIsACall | src/mulle-pointerfifo.h:102-157 | no return of the history is missing from the calls |
| AtomicQueue.ReplayMeans | README.md:20-29 | in a serial order that replays, each call got the response of the sequential queue at its place, starting from empty |
| AtomicQueue.ExplanationIsComplete | src/mulle-pointerfifo.h:118-157 | a serial order that explains a history has the returned calls of each thread in order and at most its open one besides |
| AtomicQueue.ExplanationKeepsOrder | src/mulle-pointerfifo.h:118-157 | in it, a call that returned before another was invoked stands before that one |
| Tickets.TicketsAt | src/mulle-pointerfifo.h:122-154 | the count is published minus retired tickets, and head and tail are those tickets modulo the size, even in the middle of calls |
| Tickets.LiveWindow | src/mulle-pointerfifo.h:122-154 | slot `k % size` holds the k-th accepted pointer for every published and not yet retired ticket k |
| Tickets.StoreHitsFreeSlot | src/mulle-pointerfifo.h:152 | the slot about to be stored holds no live ticket and is not the slot about to be loaded |
| Tickets.ExactlyOnce | src/mulle-pointerfifo.h:118-157 | what reads returned is a prefix of what writes stored; they differ by the `n` queued pointers and at most one call in flight on each side; never more than `size`, never NULL |
| Tickets.GarbageIsInvisible | src/mulle-pointerfifo.h:60-73 | two runs that differ only in what `init` left in the slots show the same calls and results |
| HappensBefore.Publication | src/mulle--pointerfifo64.h:81-99 | whatever the producer did before publishing ticket k happens before whatever the consumer does after retiring it |
| HappensBefore.Reuse | src/mulle-pointerfifo.h:122-154 | whatever the consumer did before retiring ticket k happens before whatever the producer does after publishing ticket k + size |
| HappensBefore.SlotsAreRaceFree | src/mulle--pointerfifo64.h:81-99 | any two conflicting accesses to a slot are ordered by happens-before through the counter, in every run |
| HappensBefore.OnlyTheCounterOrders | src/mulle--pointerfifo64.h:81-99 | one action happens before an action of another thread exactly if a change of the counter by the one thread and a later load of it by the other stand between them |
| HappensBefore.ReleasesChangeCount | src/mulle-pointerfifo.h:127-154 | in any state, the actions that release are exactly those that change the count |
| HappensBefore.AcquiresReadCount | src/mulle-pointerfifo.h:102-105 | in any state, the actions that acquire are exactly those after which what a thread does next depends on the count |
| HappensBefore.StoresAreReported | src/mulle-pointerfifo.h:152 | in any state, a slot changes only by an action that the race-freedom results count as a store into it |
| HappensBefore.LoadsAreReported | src/mulle-pointerfifo.h:125 | in any state, an action that they do not count as a load of a slot does the same whatever is in that slot |
| HappensBefore.IndicesArePrivate | src/mulle-pointerfifo.h:126-153 | in any state, no other thread changes or depends on the index of a thread |
| Progress.WaitFree | src/mulle-pointerfifo.h:102-157 | any call returns once its own thread has taken the steps that were left, six at most, whatever the others do |
| Progress.OwnStepsAreSteps | src/mulle-pointerfifo.h:102-157 | each step of a producer, a consumer or an observer counts as a step of its own |
| Progress.Window | src/mulle-pointerfifo.h:118-157 | a stretch of a run with one whole write of a pointer and one whole read contains a change of the counter |
| Progress.NullMeansEmpty | src/mulle-pointerfifo.h:122-123 | a read returns NULL only because its own load of the count met an empty queue |
| Progress.ReadReturnsOldest | src/mulle-pointerfifo.h:118-130 | a read returns the pointer that was the oldest in the queue at its own load of the count, or NULL if there was none, whatever the producer does before it returns |
| Progress.ConsumerCredit | src/mulle-pointerfifo.h:102-130 | a consumer between calls while the count is c has its next c reads return pointers, whatever the producer does |
| Progress.ProducerCredit | src/mulle-pointerfifo.h:102-157 | a producer between calls while the count is c has its next size - c writes of pointers return 0, whatever the consumer does |
| Progress.AttemptsAreWrites | src/mulle-pointerfifo.h:143-157 | the attempts are exactly the writes of something other than NULL, failed ones included, with their responses |
| StalledPartner.ConsumerAlone | src/mulle-pointerfifo.h:118-130 | with the producer stopped at any step, reads give exactly the published pointers in order and then NULL |
| StalledPartner.ProducerAlone | src/mulle-pointerfifo.h:143-157 | with the consumer stopped at any step, exactly size - n writes of pointers succeed and then -1, and they queue up behind what was there |
| MachineWords.WordsAreExact | src/mulle-pointerfifo.h:104-154 | for every size an `unsigned int` holds, the machine on wrapping words is in the same state as the one on integers, in every run |
| MachineWords.WordsWrap | src/mulle-pointerfifo.h:104-154 | words are in range, differ from the number by a multiple of their modulus, and are 0 one past the largest |
| PointerFifos.PlatformWraps | src/mulle-pointerfifo.h:104-154 | the platform has 32-bit `unsigned int` and 64-bit `uintptr_t` |
| MachineWords.NothingWraps | src/mulle-pointerfifo.h:104-154 | no index plus one and no count leaves its range, the cast of the count loses nothing, and `== size` is as good as `>= size` |
| MachineWords.AllocationIsExact | src/mulle-pointerfifo.h:64-72 | the second assertion of `init` holds exactly when the byte count computed in `size_t` is the true product |
| Fixed64.FormsAgree | src/mulle--pointerfifo64.h:60-136 | the fixed form and the dynamic form of size 64 are in the same state throughout, from any state, on any arithmetic |
| Fixed64.FormsReturnAlike | src/mulle--pointerfifo64.h:60-136 | from `init` on, on machine words and whatever is in the unset slots of either, both show their callers the same events in every run |
| PointerFifos.PointerFifo.Init | src/mulle-pointerfifo.h:60-73 | an empty, sound FIFO of the given size on a block of its own from the allocator, in a state from which runs start |
| PointerFifos.PointerFifo.Done | src/mulle-pointerfifo.h:84-91 | the block goes back to the allocator if the pointer to it was set, nothing is freed otherwise, and the pointer is null afterwards |
| PointerFifos.PointerFifo.GetCount | src/mulle-pointerfifo.h:102-105 | between calls the count is the length of the queue |
| PointerFifos.PointerFifo.Write | src/mulle-pointerfifo.h:143-157 | the object refines the sequential bounded queue: -2, -1 or appended, with slots updated in place |
| PointerFifos.PointerFifo.Read | src/mulle-pointerfifo.h:118-130 | the object refines the sequential bounded queue: NULL when empty, else the oldest pointer leaves |
| PointerFifos.WholeWrite | src/mulle-pointerfifo.h:152-154 | the three accesses of a successful write on words append one pointer and keep the memory sound |
| PointerFifos.WholeRead | src/mulle-pointerfifo.h:125-127 | the three accesses of a successful read on words take the oldest pointer and keep the memory sound |
| PointerFifos.PointerFifo64.Init | src/mulle--pointerfifo64.h:60-65 | an empty, sound FIFO of 64 slots, in a state from which runs start |
| PointerFifos.PointerFifo64.GetCount | src/mulle--pointerfifo64.h:74-77 | the count is the length of the queue |
| PointerFifos.PointerFifo64.Write | src/mulle--pointerfifo64.h:122-136 | the same sequential contract as the dynamic form with capacity 64 |
| PointerFifos.PointerFifo64.Read | src/mulle--pointerfifo64.h:81-93 | the same sequential contract as the dynamic form |
| Interleavings.Interleaving.Perform | src/mulle-pointerfifo.h:102-157 | one access of one thread, done in place, is one word-level step of the machine |
| Interleavings.Interleaving.Execute | src/mulle-pointerfifo.h:102-157 | any interleaved run of the object in memory is the run of the machine on integers |
| Contract.Fill | test/10-singlethread/contract.c:42-47 | writing any pointers that fit appends them all, every write returning 0 |
| Contract.Drain | test/10-singlethread/contract.c:69-77 | any number of reads return the contents in order and then NULL, and leave the rest |
| Contract.FillAndDrain | test/10-singlethread/contract.c:42-77 | round trip from any sound state: old contents, then what was written, across any wraparound |
| Contract.Interleave | test/10-singlethread/contract.c:86-95 | any number of alternating writes and reads succeeds and returns exactly the items written, in order |
| Contract.Check | test/10-singlethread/contract.c:31-102 | every status, every pointer and each of the five counts that the test looks at has the expected value, for any size and any number of rounds, and the allocator is left as it was |
| Stress.StoresAndChecksMatch | test/20-multithreaded/stress.c:49-94 | the four stores turn any bytes into `i, -i - 1, 3 i, 7 i`, and the four checks pass exactly for these |
| Stress.ItemStoresAreReported | test/20-multithreaded/stress.c:123-127 | in any state, an item changes only by a turn that the race-freedom result counts as a store into it |
| Stress.ItemLoadsAreReported | test/20-multithreaded/stress.c:162-169 | in any state, a turn that it does not count as a load of an item does the same whatever is in that item |
| Stress.FourTurnsFill | test/20-multithreaded/stress.c:121-129 | four turns of the producer fill in the item whatever was there, and change nothing else before the write |
| Stress.FourTurnsCheck | test/20-multithreaded/stress.c:162-173 | four turns of the consumer raise `corrupt` exactly if the item is not what it should be, and count it as received |
| Stress.FailedChecksCount | test/20-multithreaded/stress.c:162-169 | each failed check adds one to `corrupt` and nothing else changes it |
| Stress.OnlyFullIsRetried | test/20-multithreaded/stress.c:121-131 | the producer tries again with the same item exactly if the write returned -1 |
| Stress.CoreRuns | test/20-multithreaded/stress.c:113-179 | each run of the two client programs is a run of the machine, turn by turn |
| StressResults.InvAt | test/20-multithreaded/stress.c:121-173 | the client invariant at every moment: what is filled in, accepted, retired and checked, to the item |
| StressResults.StreamIsIntact | test/20-multithreaded/stress.c:121-173 | at every moment of every run the reads have returned the first items in order, as many as were received or are being checked, and no check has failed |
| StressResults.FinishedMeansAll | test/20-multithreaded/stress.c:151-178 | a finished run has received all N items, once each, in order, each with its four numbers, and `corrupt == 0` |
| StressResults.OutcomeIsUnique | test/20-multithreaded/stress.c:121-178 | two finished runs with the same N have the same outcome whatever their sizes, schedules and unset slots |
| StressResults.PayloadIsRaceFree | test/20-multithreaded/stress.c:123-169 | each store into an item happens before each load from it, ordered by the counter alone |
| RetryLoops.OneWindow | test/20-multithreaded/stress.c:129-160 | twelve fair rounds change the counter or end both retry loops, for any client whose loops get nearer to their next look at the counter |
| RetryLoops.EndSometime | test/20-multithreaded/stress.c:121-173 | two retry loops around one FIFO end, and stay ended, if neither is passed over for ever |
| StressTermination.RetryLoopsEnd | test/20-multithreaded/stress.c:121-173 | both retry loops end within (2N + 1) * 12 * bound turns of any bounded-fair schedule, everything delivered intact |
| StressTermination.FairRunsEnd | test/20-multithreaded/stress.c:121-173 | both retry loops end, and stay ended, under any schedule that starves neither thread |
| StressTermination.FairIfWithin | test/20-multithreaded/stress.c:121-160 | every schedule that has a next turn of each thread within the bound is bounded-fair |
| StressTermination.NobodyStarvesIfLater | test/20-multithreaded/stress.c:121-160 | every schedule that has a later turn of each thread starves neither |
| StressTests.StressTest.RunToEnd | test/20-multithreaded/stress.c:113-173 | both loops, on objects updated in place turn by turn, end under any schedule that starves neither thread, in the state of the modelled run, with the full stream delivered and item k holding `k, -k - 1, 3 k, 7 k` |
| StressTests.RunTest | test/20-multithreaded/stress.c:137-179 | the whole test on objects in memory fills item k with `k, -k - 1, 3 k, 7 k`, receives all items, finds none corrupt and leaves the allocator as it was |
| Shutdown.NoUseAfterFree | test/20-multithreaded/threads.c:24-95 | for any item count, size and schedule no slot is accessed once its block is freed or the storage pointer cleared; the block is freed at most once, and exactly once when the consumer quits |
| Shutdown.OnlyTheReturnIsLeft | test/20-multithreaded/threads.c:24-34 | once the consumer is in `done` the producer has at most the return of its last write ahead of it |
| Shutdown.AccessesBeforeDone | test/20-multithreaded/threads.c:24-94 | every access to a slot, with its load of the storage pointer, comes and happens before the free and the clearing of that pointer, ordered by the counter alone |
| Shutdown.OnlyDoneEndsStorage | src/mulle-pointerfifo.h:84-91 | only the two steps of `done` that these results name free the block or clear the pointer |
| Shutdown.DoneFreesWhatIsSet | src/mulle-pointerfifo.h:84-91 | in any state, `done` frees the block and then clears the pointer if it is set, and does nothing otherwise |
| Shutdown.OnlyFullIsRetried | test/20-multithreaded/threads.c:24-34 | a write that returned -1 is tried again, the last item ends the loop, any other goes on to the next |
| Shutdown.TurnsCallOrSleep | test/20-multithreaded/threads.c:17-47 | between calls a thread either calls, the producer with its next item, or sleeps |
| Shutdown.FirstProgramStarts | test/20-multithreaded/threads.c:51-61 | every size of 2 or more, unset slots and item count give a program to start with |
| Shutdown.AllIsRead | test/20-multithreaded/threads.c:64-94 | once the consumer is done reading it has read 1 to the last item, once each and in order |
| ShutdownTermination.ProgramEnds | test/20-multithreaded/threads.c:17-97 | if both threads call again and again, both come to their ends and stay there, everything read in order and the block freed once |
| ShutdownTermination.KeepCallingIfLater | test/20-multithreaded/threads.c:17-94 | every schedule that has a later call of each thread keeps both calling |

## Left out

- The other generated sizes: textual copies of the 64-slot template; everything about the dynamic form is proved for every size.
- The disabled `_read_barrier` functions, which are not compiled.
- The NULL-tolerant wrappers and the version accessors: one branch each.
- More than one producer or consumer, which the contract forbids.
- Allocation failure, which aborts the program by contract.
- Executions that are not interleavings of indivisible accesses; weak memory is covered only in so far as happens-before orders all conflicting plain accesses.
- Shutdown.NoUseAfterFree: the program of threads.c is modelled on values, not on objects in memory; the freed block is a flag, so its reuse by another allocation is not captured.
- The join at the end of stress.c and the padding words of its items that no test looks at.
- The range of `intptr_t` in the payload arithmetic of stress.c; item numbers are unbounded integers.
