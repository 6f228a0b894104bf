# Verified models of the user-level scheduler and its iokernel

This project models the parts of the system that hand out cores and threads: the uthread run
queues and context switch of the runtime, the iokernel's core-granting state machine and its
handshake with the `ksched` kernel module, the IAS scheduling policy with its hyperthread and
bandwidth controllers, the slab and thread-cache allocators, the timer heap, read-copy-update and
the blocking primitives. Each part is stated as what every operation keeps, or as a theorem about
every run of a state machine, and proved for all inputs.

`dafny verify dfyconfig.toml` checks everything.

## How it is put together

| file | what it models |
|---|---|
| `Words.dfy`, `ListSets.dfy` | 32-bit words that wrap; lists that hold a set |
| `RunQueue.dfy` | the 32-slot ring with its overflow list, merging and stealing |
| `ReadyRace.dfy` | the owner's lock-free insertion against a thief draining under the lock |
| `ContextSwitch.dfy` | the `thread_running` handshake between kthreads |
| `Rcu.dfy` | the generation counters, the worker and its grace periods |
| `Ksched.dfy` | the shared words between the iokernel and the kernel module, one load or store a step |
| `CoreGrant.dfy` | the slots and bits of each core, the polling array, the reference counts |
| `FlowSteering.dfy` | the flow table, in the iokernel's and in the runtime's version |
| `IasPolicy.dfy` | the preemption rules as values: the pigeonhole theorem and the falling measure |
| `IasInvariants.dfy`, `IasReserve.dfy` | what each change of the policy's state keeps; the reservation of cores |
| `IasSched.dfy` | the policy itself, with the hyperthread and the bandwidth controller |
| `Slab.dfy` | pages and slots |
| `Tcache.dfy`, `ThreadCache.dfy` | magazines linked through the items they hold; the cache over them |
| `TimerHeap.dfy`, `TimerRace.dfy` | the 4-ary heap in its array; cancel against the softirq |
| `Sync.dfy`, `Mutex.dfy` | rwmutex, semaphore, barrier; the mutex with its lock-free fast path |

Conventions. A section under a spinlock is one step; where the code takes no lock, every load and
store of a shared word is its own step and memory is sequentially consistent. State that the source
updates in place is a class whose methods are proved against a function of the old state; the
larger classes keep that state as one record value, so that the effect of an operation can be
stated and proved as a lemma about values. Linked lists are sequences, except in `Tcache.dfy`, where the links are the point and are
kept as maps from address to address. What the environment decides (the clock, the page allocator,
the kernel's answers, performance counters) is a parameter or a nondeterministic choice. Floating
point scores are real numbers.

## What the proofs found

* **The idle loop and generations from 2^31 on.** `ksched_mwait_on_addr` returns the 32-bit
  generation through a signed `int`, and `ksched_idle` compares it, sign-extended, with the last
  one. At most one request is outstanding in every run (`Ksched.OneOutstanding`), but a generation
  of 2^31 or more always looks new, so an idle core takes it up again. A core that reads as idle is
  idle exactly when the generation is below 2^31 (`Ksched.IdleReadingExact`), the tid read belongs
  to the generation read exactly when the previous generation is below 2^31 (`Ksched.TidExact`),
  and signals reach their task exactly up to 2^31 requests (`Ksched.SignalsExact`).
* **A request for a signal can be erased.** `ksched_ipi` loads `sig`, delivers and then stores zero.
  A request enqueued in between is lost, even one for the next generation, which
  `sched_yield_on_core` may make before the kernel has taken that up (`Ksched.RequestErased`). Only
  a request for the generation being signalled or the next one can be lost (`Ksched.LostRequests`).
* **Starting a timer again.** The guarantee of `timer_cancel` can fail in three ways when an entry is
  started again: while its handler runs, because starting clears the `executing` flag a cancel waits
  for; on another kthread while a handler has yet to clear that flag, because it then clears the new
  handler's; and on another kthread while a cancel is about to take the old kthread's lock, because
  `__timer_cancel` loads `localk` before the lock and does not look again. Starting is safe exactly
  when none of the three is the case (`TimerRace.StartSafeExactly`). For an entry that is not
  started again the guarantee holds in every run (`TimerRace.NotRestartedGuarantee`).
* **Head pushes and ready-time order.** A head push onto an empty ring in front of a non-empty
  overflow list stamps the thread with the current time and can break the order.
  `RunQueue.HeadPushSorted` says exactly when it does not.
* **Throttling and guarantees.** The bandwidth controller can limit a best-effort process below its
  guarantee. It keeps the guarantee exactly when the process runs on more cores than it was
  promised (`IasInvariants.ThrottleAndGuarantee`).
* **Siblings and reservations.** That a latency-critical process below its guarantee finds a core
  does not depend on the siblings of the allowed cores, and an admitted process always finds cores to
  reserve (`IasSched.Scheduler.Attach`). What can fail is that these are cores of ours: with cores 0,
  2 and 4 allowed and 1, 3 and 5 their siblings, the first pair reserved is 0 and 1
  (`IasReserve.ReservesForeignCore`). All cores reserved are ours exactly when enough pairs of ours
  are free in front of the first free core whose sibling is not ours.
* **The stale sample.** `ias_bw_choose_victim` marks the victim's sample with the generation of the
  last core its loop visited (iokernel/ias_bw.c:134). This does no harm, because the two arrays
  trade places and are requested again before they are compared
  (`IasSched.Scheduler.PunishAndResample`).

Where code and comments disagree the model follows the code: `is_valid_heap` leaves out slot 1
(runtime/timer.c:34), so the heap order here is stated afresh, and the page counter of a slab node
is also raised when a page is reloaded (base/slab.c:299-304), so it is not used.

## Model

| member | source | states |
|---|---|---|
| `Words.WrapIsMod` | inc/base/stddef.h:139 | the stepwise definition of a wrapped word is the remainder modulo 2^32 |
| `Words.CounterPush` | runtime/sched.c:839-850 | advancing the head counter by n makes the wrapped distance stand for a length larger by n, whatever the length |
| `Words.CounterPop` | runtime/sched.c:698-707 | advancing the tail counter by n makes the wrapped distance stand for a length smaller by n |
| `RunQueue.SlotsDistinct` | runtime/sched.c:839-847 | indices of one window of 32 name different slots across the wrap of the counters, and an index 32 further names the same slot |
| `RunQueue.RingPushBack` | runtime/sched.c:823-851 | writing the slot at the head appends one thread to the ring and disturbs no other |
| `RunQueue.RingPushFront` | runtime/sched.c:861-886 | stepping the tail back prepends; over a full ring it overwrites exactly the youngest thread |
| `RunQueue.DrainStep` | runtime/sched.c:195-208 | moving the first overflow thread into the ring leaves the queue as it is |
| `RunQueue.HeadPushStep` | runtime/sched.c:861-886 | a head push prepends to ring and overflow together, with and without the spill of the last slot |
| `RunQueue.MergeInterleaves` | runtime/sched.c:284-328 | the merged queue is an interleaving of the two, each in its own order |
| `RunQueue.InterleavesConserves` | runtime/sched.c:284-328 | an interleaving has every thread of both sides with its multiplicity |
| `RunQueue.MergeSorted` | runtime/sched.c:284-328 | merging two queues in ready-time order gives one in ready-time order |
| `RunQueue.StealBalances` | runtime/sched.c:407-438 | a steal takes threads exactly when the victim has more, conserves the combined multiset, and leaves the thief at most one longer than the victim; below the cap of 32 it leaves the victim no longer than the thief |
| `RunQueue.StealKeepsOrder` | runtime/sched.c:407-438 | ready-time order of both queues survives a steal |
| `RunQueue.HeadPushSorted` | runtime/sched.c:933-954 | a head push keeps ready-time order if and only if it does not stamp a thread later than the first overflow thread of an empty ring |
| `RunQueue.HeadPushCanUnsort` | runtime/sched.c:941-944 | a queue in order that a head push puts out of order |
| `RunQueue.Kthread.constructor` | runtime/sched.c:1315-1328 | a new kthread has an empty queue and counters that agree with it |
| `RunQueue.Kthread.DrainOverflow` | runtime/sched.c:195-208 | the queue stays the same; afterwards the overflow is empty or the ring is full |
| `RunQueue.Kthread.Append` | runtime/sched.c:319-323 | refilling appends in order, in the ring while there is room and in the overflow after that |
| `RunQueue.Kthread.ReadyLocked` | runtime/sched.c:823-851 | exactly one thread is appended, stamped with the current time; the exported counters agree with the length modulo 2^32 |
| `RunQueue.Kthread.Ready` | runtime/sched.c:894-925 | the same effect as the locked version, on the fast and on the slow path |
| `RunQueue.Kthread.Prepend` | runtime/sched.c:875-883 | the queue gets one thread in front, whichever slot had to make room |
| `RunQueue.Kthread.ReadyHead` | runtime/sched.c:933-954 | exactly one thread is prepended, with the stamp of the oldest ring entry or else the current time |
| `RunQueue.Kthread.PopRing` | runtime/sched.c:698-707 | the oldest thread leaves, the rest stays in order, and the ring is refilled from the overflow |
| `RunQueue.Kthread.PopNext` | runtime/sched.c:610-621 | a thread is found exactly when the queue is not empty, and it is the oldest |
| `RunQueue.Kthread.TakeOldest` | runtime/sched.c:257-282 | the loop takes from the ring first and then from the overflow, in queue order, and stops short only of an empty queue |
| `RunQueue.Kthread.DrainThreads` | runtime/sched.c:257-282 | exactly the oldest min(nr, length) threads are taken, in order; the rest remains when the tail is updated |
| `RunQueue.Kthread.Refill` | runtime/sched.c:304-324 | the merge loop leaves exactly the merge of the two lists |
| `RunQueue.Kthread.MergeIn` | runtime/sched.c:284-328 | the thief's queue becomes the merge of its own threads and the stolen ones, counters included |
| `RunQueue.MergeRunqueues` | runtime/sched.c:284-328 | the victim keeps all but its oldest rsize threads, the thief has the merge of its own and those |
| `RunQueue.StealWork` | runtime/sched.c:407-438 | exactly the oldest min(ceil(diff / 2), 32) threads move, merged into the thief's queue; nothing changes when there is nothing to take |
| `ReadyRace.DequeConserves` | runtime/sched.c:894-925 | every atomic deque operation keeps the multiset of threads that entered equal to those inside and those that left |
| `ReadyRace.WriteSlotInv` | runtime/sched.c:905-919 | the slot the owner writes holds no live entry, not even one a drain in progress has yet to read |
| `ReadyRace.PublishHeadInv` | runtime/sched.c:919-923 | releasing the head is the moment the thread is appended |
| `ReadyRace.SlowInsertInv` | runtime/sched.c:906-917 | the insertion under the lock keeps the invariant while a drain may be in progress elsewhere |
| `ReadyRace.TakeRingInv` | runtime/sched.c:262-268 | a thief reads exactly the oldest live entry |
| `ReadyRace.TakeOverflowInv` | runtime/sched.c:269-274 | a thief moves on to the overflow only when the ring it saw is used up |
| `ReadyRace.PublishInv` | runtime/sched.c:276-281 | releasing the tail removes exactly the threads taken |
| `ReadyRace.OwnerPushLockedInv` | runtime/sched.c:823-851 | the insertion under the lock appends exactly one thread, after draining the overflow |
| `ReadyRace.OwnerMergeInv` | runtime/sched.c:300-326 | resetting the own ring and refilling it with the merged threads is one insertion of the stolen ones, with counters that agree |
| `ReadyRace.StepRefinesDeque` | runtime/sched.c:894-925 | each step of either side, the owner merging stolen threads into its own queue included, keeps the invariant and is one atomic deque operation or invisible |
| `ReadyRace.RunsSatisfyInv` | runtime/sched.c:894-925 | every state of every interleaving satisfies the invariant and conserves the threads |
| `ReadyRace.NoThreadLost` | runtime/sched.c:257-282 | in every interleaving, with a kthread that is thief and victim in turn, no thread is lost, duplicated or overwritten, without head pushes and merges the order is first in first out, and a drain gets exactly as many threads as it asked for |
| `ContextSwitch.StepInv` | runtime/sched.c:124-163 | every step of every kthread keeps ownership of threads, their flags and the times of switching off consistent |
| `ContextSwitch.RunsSatisfyInv` | runtime/sched.c:664-755 | every state of every run satisfies that invariant |
| `ContextSwitch.StackExclusive` | runtime/sched.c:497-500 | in every run at most one kthread executes on a uthread's stack |
| `ContextSwitch.WaitDescends` | runtime/sched.c:124-163 | a kthread that is waited for is switching its thread off, and if it waits itself, then for a thread whose switch-off began strictly earlier |
| `ContextSwitch.ChainDescends` | runtime/sched.c:149-163 | along a chain of waits the times of switching off fall strictly |
| `ContextSwitch.NoWaitCycle` | runtime/sched.c:149-163 | in every run the spins on thread_running never form a cycle |
| `ContextSwitch.StuckReachesProgress` | runtime/sched.c:664-755 | every spinning kthread waits, directly or through others, for one whose next step is enabled |
| `Rcu.KthreadStepOk` | runtime/sched.c:1006-1019 | a step of a kthread keeps the counter odd exactly in uthread context, and the counter does not move while a section is open |
| `Rcu.PassMeansClear` | runtime/rcu.c:60-79 | a counter that passes the worker's check belongs to a kthread on which no section from before the batch is open |
| `Rcu.RunCallbackLists` | runtime/rcu.c:81-86 | running one callback takes exactly that object off the batch |
| `Rcu.StepInv` | runtime/rcu.c:41-112 | every step of kthreads, callers and worker keeps the invariant |
| `Rcu.RunsSatisfyInv` | runtime/rcu.c:41-112 | every state of every run satisfies it |
| `Rcu.CallbackIsSafe` | runtime/rcu.c:98-112 | in every run an object's callback has run exactly once when the object no longer waits and not before, and only after every section open on any kthread at rcu_free has ended |
| `Rcu.ParityAndParking` | runtime/rcu.c:41-91 | in every run rcu_gen is odd exactly while the kthread counts as in a uthread, and a parked worker implies an empty pending list |
| `Ksched.IdleSeesNewExact` | ksched/ksched.c:168-189 | the comparison in the idle loop means "a different generation" for every last generation exactly when the generation is below 2^31 |
| `Ksched.StepInv` | iokernel/ksched.h:28-100 | every load and store of either side keeps the pipeline, what the kernel has read and what runs on the core consistent |
| `Ksched.RunsSatisfyInv` | iokernel/ksched.h:28-100 | every state of every run satisfies it, however many requests were made |
| `Ksched.OneOutstanding` | iokernel/sched.c:166-195 | in every run the generation counts requests modulo 2^32, at most one is outstanding, and none once the iokernel has stopped waiting |
| `Ksched.SentForLastGeneration` | ksched/ksched.c:334-349 | in every run a signal is sent only for the last generation taken up, only after it was asked for, and only to what runs on a busy core, which is what that generation asked for unless it was taken up again |
| `Ksched.TidMatchesGeneration` | ksched/ksched.c:277-302 | the tid the kernel acts on was written for the generation it acts on, as long as the generation before the newest is below 2^31 |
| `Ksched.TidExact` | ksched/ksched.c:225-234 | the tid belongs to its generation in every reachable state after n requests if and only if the generation before the newest is below 2^31 |
| `Ksched.TidMismatch` | ksched/ksched.c:226-230 | the state in which the idle loop holds an old generation while the next tid is already written |
| `Ksched.IdleReadingIsTrue` | iokernel/sched.c:814-826 | with a generation below 2^31, a core read as idle while not waiting has taken up the newest request and has no task on it |
| `Ksched.IdleReadingFails` | ksched/ksched.c:226-234 | with a generation of 2^31 or more a task can be started on a core that was read as idle |
| `Ksched.IdleReadingExact` | iokernel/ksched.h:53-56 | the idle reading can be trusted in every reachable state after n requests if and only if the generation is below 2^31 |
| `Ksched.SignalsReachTheirTask` | ksched/ksched.c:324-349 | up to 2^31 requests every signal sent went to the kthread its generation asked for |
| `Ksched.SignalAstray` | ksched/ksched.c:334-349 | beyond that a signal can reach another task |
| `Ksched.SignalsExact` | ksched/ksched.c:334-349 | signals reach their task in every reachable state after n requests if and only if n is at most 2^31 |
| `Ksched.AstrayAfter` | ksched/ksched.c:334-349 | and the history stays wrong after any number of further requests |
| `Ksched.LostRequests` | ksched/ksched.c:345-349 | in every run a request for a signal is erased only while its own generation or the one before is being signalled |
| `Ksched.RequestErased` | ksched/ksched.c:345-349 | a reachable state in which the request for the next generation was erased and nothing was sent |
| `Ksched.QuietReachable` | ksched/ksched.c:191-239 | an idle core is reachable after any number of requests |
| `CoreGrant.PushedOk` | iokernel/defs.h:249-256 | appending to an index array keeps every member's index pointing at its own slot |
| `CoreGrant.RemovedOk` | iokernel/defs.h:262-270 | removal by swapping the last member in keeps every remaining member's index right |
| `CoreGrant.ExactlyOneSlot` | iokernel/sched.c:166-195 | an active thread is in exactly one of the last, pending and current slots of the core its core field names and in none of any other core |
| `CoreGrant.ReleasedIsUnnamed` | iokernel/ref.h:46-51 | a process whose count is zero is named by no slot and by no polled thread |
| `CoreGrant.PollThreadRefs` | iokernel/defs.h:249-256 | polling a thread takes exactly one reference, and none if it was polled already |
| `CoreGrant.UnpollThreadRefs` | iokernel/defs.h:262-270 | unpolling gives exactly that reference back |
| `CoreGrant.EnableInv` | iokernel/sched.c:103-125 | enabling a thread keeps the active and idle lists, the polling array and the counts consistent with the thread in hand |
| `CoreGrant.DisableInv` | iokernel/sched.c:127-140 | disabling consumes the thread in hand, and the process still had a reference to drop |
| `CoreGrant.RequestedMoves` | iokernel/sched.c:166-195 | a request moves threads between the slots of one core and loses none but the one it drops |
| `CoreGrant.SchedRunInv` | iokernel/sched.c:166-195 | __sched_run with a thread in hand keeps the invariant |
| `CoreGrant.GrantInv` | iokernel/sched.c:206-227 | granting a core to an idle thread keeps the invariant |
| `CoreGrant.IdleOnInv` | iokernel/sched.c:238-253 | idling a core keeps it |
| `CoreGrant.AfterSwitchInv` | iokernel/sched.c:789-812 | a finished switch keeps it, frees the last slot, and starts the pending request if there is one |
| `CoreGrant.AfterIdleInv` | iokernel/sched.c:814-826 | a core that went idle keeps it |
| `CoreGrant.RewakeInv` | iokernel/sched.c:665-695 | handing the core straight back to its thread keeps it |
| `CoreGrant.UnpollInv` | iokernel/tx.c:207-211 | the transmit path may drop a drained inactive thread |
| `CoreGrant.AddClientInv` | iokernel/dp_clients.c:28-40 | a new client starts with exactly one reference |
| `CoreGrant.RemoveClientInv` | iokernel/dp_clients.c:99-147 | removing a client drops one reference; the count was not zero |
| `CoreGrant.BootInv` | iokernel/sched.c:868-876 | the initial state satisfies the invariant |
| `CoreGrant.PickKthread` | iokernel/sched.c:142-164 | the first idle thread that last ran on this core if any did, else, with hyperthreads, the first that last ran on its sibling if any did, else the tail of the list |
| `CoreGrant.Iokernel.constructor` | iokernel/sched.c:868-876 | every thread starts idle, every slot empty |
| `CoreGrant.Iokernel.RunOnCore` | iokernel/sched.c:206-227 | refused exactly when the core is not ours or no thread is idle; otherwise one idle thread of the process gets the core and the invariant holds |
| `CoreGrant.Iokernel.IdleOnCore` | iokernel/sched.c:238-253 | refused exactly for a core that is not ours; otherwise the core is asked to idle |
| `CoreGrant.Iokernel.PollSwitch` | iokernel/sched.c:789-812 | the slots move on exactly when a switch was awaited and has finished; other cores are untouched |
| `CoreGrant.Iokernel.PollIdle` | iokernel/sched.c:814-826 | answers true exactly for a core that went idle and was not handed back, and leaves it empty |
| `CoreGrant.Iokernel.PollCore` | iokernel/sched.c:786-827 | both halves for one core, leaving every other core as it was |
| `CoreGrant.Iokernel.FastPass` | iokernel/sched.c:785-827 | every allowed core moves on as its own bits say, exactly the cores that went idle are reported, no other core changes |
| `CoreGrant.Iokernel.TxDrained` | iokernel/tx.c:207-211 | an active thread stays polled, an inactive one is polled no longer |
| `CoreGrant.Iokernel.AddClient` | iokernel/dp_clients.c:28-40 | one reference for a process that had none |
| `CoreGrant.Iokernel.RemoveClient` | iokernel/dp_clients.c:99-147 | one reference less; released exactly when it was the last |
| `FlowSteering.DealtStep` | iokernel/sched.c:94-100 | giving the next unassigned slot to the next active thread keeps all shares within one of each other |
| `FlowSteering.DealtIsSteered` | iokernel/sched.c:76-101 | a fully dealt table maps active threads to themselves and every other slot to an active thread, with extra shares differing by at most one |
| `FlowSteering.SteerFlows` | iokernel/sched.c:76-101 | the table is steered for any non-empty set of active threads and left alone for none |
| `FlowSteering.FillRoundRobin` | iokernel/sched.c:94-100 | the round-robin loop completes a prepared table |
| `FlowSteering.FlowsUpdate` | runtime/kthread.c:157-172 | the runtime's version meets the same specification, from a bitmap of awake kthreads |
| `FlowSteering.FillCleared` | runtime/kthread.c:166-172 | its loop over the cleared bits completes a table whose other slots hold anything |
| `IasPolicy.SumCountIsOccupied` | iokernel/ias.c:81-90 | every occupied core is counted for exactly one process |
| `IasPolicy.RefusedMeansModest` | iokernel/ias.c:252-278 | if a latency-critical process below its guarantee may preempt no core of q, then q is within its own guarantee |
| `IasPolicy.GuaranteedFindsCore` | iokernel/ias.c:252-278 | when the admitted guarantees fit the allowed cores, a latency-critical process below its guarantee may always preempt some allowed core |
| `IasPolicy.CleanedBooks` | iokernel/ias.c:81-90 | taking a core away keeps threads_active equal to the number of cores mapped to each process |
| `IasPolicy.GrantedBooks` | iokernel/ias.c:177-202 | so does a grant |
| `IasPolicy.EveningOut` | iokernel/ias.c:252-278 | moving a core from a burst larger by two or more lowers the sum of squared bursts |
| `IasPolicy.GrantReducesUnrest` | iokernel/ias.c:252-278 | every grant of a core that may be preempted strictly lowers (idle cores, best-effort cores, sum of squared active minus guaranteed), read lexicographically |
| `IasPolicy.SquaresAreSummed` | iokernel/ias.c:252-278 | the third component is the sum of squared active minus guaranteed cores |
| `IasPolicy.GrantLowersRank` | iokernel/ias.c:374-400 | the triple folds into a number that falls with every grant |
| `IasPolicy.GrantRunsAreFinite` | iokernel/ias.c:374-400 | a run of grants without a release is no longer than the rank of its first state: preemption cannot ping-pong |
| `IasInvariants.ThrottleAndGuarantee` | iokernel/ias_bw.c:32-39 | for a limit above the guarantee, throttling keeps it at or above the guarantee if and only if more cores are active than guaranteed |
| `IasInvariants.ThrottledBelowGuarantee` | iokernel/ias_bw.c:32-39 | a valid state with one best-effort process whose only core, when throttled, leaves it a limit below its guarantee |
| `IasInvariants.LimitsThrottled` | iokernel/ias_bw.c:138-153 | throttling keeps "bandwidth limited exactly when the limit is below the maximum" |
| `IasInvariants.LimitsRaised` | iokernel/ias_bw.c:155-174 | so does relaxing by one |
| `IasInvariants.CleanedUpOk` | iokernel/ias.c:81-90 | taking a core away keeps accounting and marks: a starved process had none to lose |
| `IasInvariants.IdleOnOk` | iokernel/ias.c:235-250 | idling a core keeps them |
| `IasInvariants.RunOnOk` | iokernel/ias.c:177-202 | running a process keeps them, lifting its starvation |
| `IasInvariants.HoldForOk` | iokernel/ias.c:211-227 | a placeholder keeps them if the process is not starved |
| `IasInvariants.MarkedOk` | iokernel/ias.c:57-67 | marking congested, and starved where it applies, keeps starved within latency-critical, congested and coreless |
| `IasInvariants.UnmarkedOk` | iokernel/ias.c:69-78 | unmarking keeps it too |
| `IasInvariants.OccupantNotStarved` | iokernel/ias_ht.c:39-76 | a process that has a core is not starved, so the hyperthread controller never holds a core for a starved one |
| `IasInvariants.OccupantActive` | iokernel/ias_bw.c:32-39 | a process that has a core is counted as active |
| `IasInvariants.TakingIsGrantStep` | iokernel/ias.c:374-400 | a grant of the running policy is a step of the runs whose length is bounded |
| `IasInvariants.KthreadScoreRanks` | iokernel/ias.c:452-463 | one process scores higher than another if and only if it has the core reserved and the other has not, or at equal reservation only it is latency-critical, or at equal priority it has fewer cores beyond its guarantee |
| `IasInvariants.SamplesKept` | iokernel/ias_bw.c:41-57 | a sample that is current was taken from a best-effort process, after every change of the cores |
| `IasInvariants.EnteredOk` | iokernel/ias.c:92-156 | entering a process keeps the registry consistent |
| `IasInvariants.LeftOk` | iokernel/ias.c:158-175 | removing one keeps it consistent |
| `IasInvariants.AdmittedAttach` | iokernel/sched.c:863-882 | admission keeps the sum of guarantees within the number of allowed cores |
| `IasInvariants.AdmittedDetach` | iokernel/sched.c:891-895 | detaching gives back exactly the process's guarantee |
| `IasInvariants.MachineAttach` | iokernel/ias.c:92-156 | a new process starts without cores and marks, and accounting stays right |
| `IasInvariants.MachineDetach` | iokernel/ias.c:158-175 | accounting is right for the others after a process was evicted from all its cores |
| `IasReserve.FirstCleared` | iokernel/ias.c:124-126 | the first core that is not reserved, or the end |
| `IasReserve.Reserve` | iokernel/ias.c:121-145 | with room for the guarantee the loop reserves exactly that many cores nobody has, in sibling pairs with hyperthreads, and all of them are ours if and only if there were enough pairs of ours in front; it never takes more |
| `IasReserve.TakePair` | iokernel/ias.c:128-141 | the sibling of an available core is available, so a pair adds exactly two |
| `IasReserve.AdmittedHasRoom` | iokernel/sched.c:863-866 | admission leaves room for the guarantee, whatever the siblings of our cores are |
| `IasReserve.ReservePair` | iokernel/ias.c:123-141 | the first free core and its sibling belong to the next pair of ours, or all pairs of ours are taken and one of the two is not ours |
| `IasReserve.OursExactly` | iokernel/ias.c:123-145 | what was reserved is ours if and only if it is no more than the pairs of ours in front |
| `IasReserve.ClosedReservesOurs` | iokernel/ias.c:123-145 | when our cores are closed under siblings there always are enough |
| `IasReserve.ReservesForeignCore` | iokernel/ias.c:138-140 | an allowed set for which even the first pair reserved is not ours |
| `IasReserve.EnteredReserved` | iokernel/ias.c:121-147 | reservations stay disjoint, closed under siblings and as large as the guarantees, and no other core of ours is marked reserved |
| `IasReserve.LeftReserved` | iokernel/ias.c:158-165 | detaching gives back exactly the process's own cores |
| `IasReserve.UnattachedReserved` | iokernel/ias.c:623-630 | the initial bitmap satisfies this for every table that pairs our cores with other cores |
| `IasSched.Scheduler.constructor` | iokernel/ias.c:623-630 | the initial state satisfies all invariants |
| `IasSched.Scheduler.RunKthreadOnCore` | iokernel/ias.c:177-202 | either refused with nothing changed, or the core is cleaned up, charged to the process and its starvation lifted |
| `IasSched.Scheduler.IdlePlaceholderOnCore` | iokernel/ias.c:211-227 | either refused with nothing changed, or the core is idle and charged to the process; an idle core is never refused |
| `IasSched.Scheduler.IdleOnCore` | iokernel/ias.c:235-250 | either refused with nothing changed, or the core is idle and nobody is charged |
| `IasSched.Scheduler.LocalityScore` | iokernel/ias.c:288-302 | between zero and one |
| `IasSched.Scheduler.CoreScore` | iokernel/ias.c:304-328 | never negative |
| `IasSched.Scheduler.GuaranteedTakes` | iokernel/ias.c:252-278 | in every valid state a latency-critical process below its guarantee may take some allowed core, whatever its limit |
| `IasSched.Scheduler.ChooseCore` | iokernel/ias.c:330-349 | the best-scored core the process may preempt; none is returned exactly when there is none |
| `IasSched.Scheduler.CanAddKthread` | iokernel/ias.c:358-372 | true exactly when some core may be taken, counting only cores whose sibling is within budget if asked to |
| `IasSched.Scheduler.HeldCore` | iokernel/ias_ht.c:170-190 | the held core whose sibling has used the least budget, or none exactly when the process holds none |
| `IasSched.Scheduler.RelinquishCore` | iokernel/ias_ht.c:170-201 | exactly that core is punished no more and, if possible, idled |
| `IasSched.Scheduler.CoreFor` | iokernel/ias.c:374-392 | a core the process may obtain, or none exactly when there is none; below its guarantee there always is one |
| `IasSched.Scheduler.AddKthread` | iokernel/ias.c:374-400 | a latency-critical process below its guarantee is never told that there is no core; a failed call changes nothing; a grant changes exactly one core |
| `IasSched.Scheduler.ChooseKthread` | iokernel/ias.c:465-491 | the process starved longest, which has no core (the assert), else the best-scored congested one below its limit, else none |
| `IasSched.Scheduler.AddKthreadOnCore` | iokernel/ias.c:499-513 | the core goes to a process that deserves it or nothing changes; no candidate is reported only when there is none |
| `IasSched.Scheduler.AddOrMark` | iokernel/ias.c:402-450 | while nobody starves the process gets a core; otherwise it is marked congested, and starved if it is critical and has none |
| `IasSched.Scheduler.NotifyCoreNeeded` | iokernel/ias.c:402-415 | afterwards the process has a core or is marked |
| `IasSched.Scheduler.NotifyCongested` | iokernel/ias.c:417-450 | below the delay target exactly its marks are dropped; above it the process has a core or is marked; the answer is whether it starves |
| `IasSched.Scheduler.OfferIdleCore` | iokernel/ias.c:572-584 | the idle core is given up by its process and offered; no other core changes |
| `IasSched.Scheduler.AllocateIdle` | iokernel/ias.c:572-584 | afterwards no idle core is charged to anyone unless it is punished |
| `IasSched.Scheduler.MayPunish` | iokernel/ias_ht.c:26-63 | exactly when the core is reserved, neither lane is punished, and a critical process on the sibling, the same one included, leaves a core to take |
| `IasSched.Scheduler.HoldSibling` | iokernel/ias_ht.c:39-72 | the sibling is idled, charged and marked exactly once, or nothing changes |
| `IasSched.Scheduler.HtPunish` | iokernel/ias_ht.c:39-76 | the same, and a displaced critical process is given another core; all invariants hold |
| `IasSched.Scheduler.HtRelax` | iokernel/ias_ht.c:78-92 | exactly the sibling is punished no more and, if it is idle, free |
| `IasSched.Scheduler.UpdateBudgets` | iokernel/ias_ht.c:136-142 | records the budget of every allowed core |
| `IasSched.Scheduler.AdjustCore` | iokernel/ias_ht.c:150-160 | punishes only for a process that asked for it on a core over budget, relaxes otherwise |
| `IasSched.Scheduler.AdjustCores` | iokernel/ias_ht.c:150-160 | when no core is over budget exactly the siblings of our cores are released |
| `IasSched.Scheduler.HtPoll` | iokernel/ias_ht.c:131-162 | the same for a whole poll, with the early exit; all invariants hold |
| `IasSched.Scheduler.RequestSamples` | iokernel/ias_bw.c:41-57 | exactly the unpunished cores of best-effort processes get a current sample |
| `IasSched.Scheduler.GatherSamples` | iokernel/ias_bw.c:59-74 | exactly the samples that were current and arrived stay current |
| `IasSched.Scheduler.MissRates` | iokernel/ias_bw.c:84-99 | each process is blamed for the misses of its cores with two current samples, a latency-critical one for none |
| `IasSched.Scheduler.WorstTask` | iokernel/ias_bw.c:101-115 | the process above its guarantee and its share that misses most, or none if none misses |
| `IasSched.Scheduler.WorstCore` | iokernel/ias_bw.c:117-132 | its core with the most misses, or none if none misses |
| `IasSched.Scheduler.ChooseVictim` | iokernel/ias_bw.c:76-136 | the worst blamed process and its worst core; never a latency-critical process, and none exactly when nobody who may be throttled misses |
| `IasSched.Scheduler.Throttle` | iokernel/ias_bw.c:32-39 | the limit falls as the code says, the process is marked limited, and the core is idled or nothing else changes |
| `IasSched.Scheduler.BwPunish` | iokernel/ias_bw.c:138-153 | exactly one best-effort process is throttled, from above its guarantee and to below it exactly when it has no more cores than guaranteed, or nothing changes |
| `IasSched.Scheduler.RelaxChoice` | iokernel/ias_bw.c:155-168 | the congested limited process with the highest limit, or none exactly when there is none |
| `IasSched.Scheduler.BwRelax` | iokernel/ias_bw.c:155-174 | its limit rises by one and it is limited exactly while below its maximum |
| `IasSched.Scheduler.PunishAndResample` | iokernel/ias_bw.c:242-244 | after a punishment both sample arrays are sound again |
| `IasSched.Scheduler.PollRelax` | iokernel/ias_bw.c:220-227 | in the relaxing state limits only rise, or sampling starts |
| `IasSched.Scheduler.PollSample` | iokernel/ias_bw.c:229-233 | after the first samples the second are requested |
| `IasSched.Scheduler.PollPunish` | iokernel/ias_bw.c:235-245 | throttles only above the threshold; otherwise it goes back to relaxing with nothing changed |
| `IasSched.Scheduler.BwPoll` | iokernel/ias_bw.c:207-250 | the controller keeps every invariant; below the threshold it takes no core and limits nobody new |
| `IasSched.Scheduler.Admit` | iokernel/sched.c:859-885 | refused exactly for a total guarantee above the number of cores or an odd one with hyperthreads; an admitted process never fails to find its reservation, and its cores are ours exactly when there were enough pairs of ours |
| `IasSched.Scheduler.Attach` | iokernel/ias.c:92-156 | the same, and an attached process has no core, its maximum as limit and nothing else changed |
| `IasSched.Scheduler.Evict` | iokernel/ias.c:167-170 | exactly the process's cores are unmapped |
| `IasSched.Scheduler.ReleaseCores` | iokernel/ias.c:158-175 | its cores and marks are gone and the accounting of the others is right |
| `IasSched.Scheduler.Unregister` | iokernel/ias.c:158-165 | its entry, reservation and limit are gone, and the others' are as before |
| `IasSched.Scheduler.Detach` | iokernel/ias.c:158-175 | nothing of the process is left and every invariant holds |
| `IasSched.Scheduler.PollControllers` | iokernel/ias.c:586-600 | both controllers and the offer to a starved process keep every invariant |
| `IasSched.Scheduler.SchedPoll` | iokernel/ias.c:561-608 | a whole poll keeps every invariant: threads_active counts cores, starved implies critical, congested and coreless, limited is below the maximum |
| `IasSched.Scheduler.Drive` | iokernel/ias.c:610-616 | after any sequence of attaching, detaching, notifications and polls every invariant holds and every latency-critical process below its guarantee may take a core |
| `Slab.PageTake` | base/slab.c:307-319 | taking from the free list keeps the partition of the page's slots |
| `Slab.PageCarve` | base/slab.c:307-319 | so does carving a new slot |
| `Slab.PageGive` | base/slab.c:343-377 | so does freeing a live item |
| `Slab.CountsLive` | base/slab.c:343-377 | item_count reaches nr_elems exactly when no item of the page is live |
| `Slab.SlotPartition` | base/slab.c:266-320 | every slot of every page is exactly one of live, freed and never carved |
| `Slab.SlotWithinPage` | base/slab.c:310-316 | a slot's bytes lie within its page |
| `Slab.RetiredInv` | base/slab.c:296-298 | a used-up page goes to the full list and keeps all bounds |
| `Slab.ReloadedInv` | base/slab.c:266-288 | reloading a partial page keeps all bounds |
| `Slab.RefilledInv` | base/slab.c:269-285 | so does a fresh page |
| `Slab.TakenInv` | base/slab.c:290-320 | the item handed out was not live, lies within the page, and nothing else changed |
| `Slab.GivenPartial` | base/slab.c:343-377 | a full page moves to the partial list exactly at the threshold |
| `Slab.GivenBack` | base/slab.c:343-377 | a page leaves the node when its last live item is freed |
| `Slab.GivenInv` | base/slab.c:343-377 | freeing keeps the full list below the threshold and the partial list between it and nr_elems |
| `Slab.ReleasedIsDead` | base/slab.c:343-377 | a page is given back only with no live item |
| `Slab.FreshMeans` | base/slab.c:391-413 | a batch has no item twice and none that was live before |
| `Slab.SlabNode.constructor` | base/slab.c:172-189 | no page, no live item |
| `Slab.SlabNode.GetPage` | base/slab.c:266-288 | a page with free items unless there is no partial page and no memory; no item changes hands |
| `Slab.SlabNode.Alloc` | base/slab.c:290-320 | one item that was not live becomes live; it fails exactly when the current page is used up, no page is partial and the page allocator has none |
| `Slab.SlabNode.Free` | base/slab.c:343-377 | exactly that item is live no more; a page is returned only with no live item |
| `Slab.SlabNode.AllocBatch` | base/slab.c:391-413 | all items or none: after a failure the live items are as before |
| `Slab.SlabNode.FreeBatch` | base/slab.c:391-413 | the rollback frees exactly the batch |
| `Tcache.PopInv` | inc/base/tcache.h:68-78 | the fast allocation moves exactly the first item of the loaded magazine to the client |
| `Tcache.PushInv` | inc/base/tcache.h:85-95 | the fast free moves exactly the client's item to the front of the loaded magazine |
| `Tcache.LoadPreviousInv` | base/tcache.c:81-86 | loading the previous magazine keeps the invariant |
| `Tcache.LoadSharedInv` | base/tcache.c:90-97 | so does loading one from the pool |
| `Tcache.PutAsideInv` | base/tcache.c:122-126 | so does putting a full magazine aside |
| `Tcache.ShareInv` | base/tcache.c:130-135 | so does handing one to the pool |
| `Tcache.DetachInv` | base/tcache.c:206-209 | a call of tcache_reclaim taking the whole pool keeps the invariant |
| `Tcache.FirstOf` | base/tcache.c:211-215 | the first magazine of the pool, or of a list being reclaimed, holds exactly mag_size items |
| `Tcache.NewMagInv` | base/tcache.c:30-52 | mag_size items leave the backing store for a new loaded magazine |
| `Tcache.LinkMag` | base/tcache.c:42-49 | the loop links the items into one chain and leaves other links alone |
| `Tcache.WalkMag` | base/tcache.c:54-69 | following the links from a magazine's head collects exactly its items |
| `Tcache.DropInv` | base/tcache.c:54-69 | a detached magazine has exactly mag_size items, and returning it keeps the invariant, so the assert in tcache_free_mag holds |
| `Tcache.SlowPathAsserts` | base/tcache.c:77-79 | rounds is zero exactly when nothing is loaded, which is what both slow paths assert |
| `Tcache.OnePlace` | base/tcache.c:72-142 | no item is in two places of any magazines, or in one and with a client |
| `Tcache.MagsCountItems` | base/tcache.c:30-69 | mags_allocated times mag_size is the number of items outside the backing store |
| `Tcache.ReclaimOneMore` | base/tcache.c:202-216 | returning one more magazine extends what was reclaimed, in list order |
| `ThreadCaches.ThreadCache.constructor` | base/tcache.c:156-196 | everything is in the backing store |
| `ThreadCaches.ThreadCache.Refill` | base/tcache.c:72-102 | a magazine gets loaded unless the backing store fails; nothing goes to a client |
| `ThreadCaches.ThreadCache.LoadPrevious` | base/tcache.c:81-86 | the previous magazine is loaded and no item changes place |
| `ThreadCaches.ThreadCache.LoadShared` | base/tcache.c:90-97 | a pooled magazine is loaded and no item changes place |
| `ThreadCaches.ThreadCache.AddFresh` | base/tcache.c:30-52 | one more magazine is allocated; nothing that was outside the store moved |
| `ThreadCaches.ThreadCache.Alloc` | base/tcache.c:72-110 | the client gets an item it did not have and nobody else gets or loses any; null exactly changes nothing and only when the store failed |
| `ThreadCaches.ThreadCache.Take` | inc/base/tcache.h:68-78 | exactly one item moves from a magazine to the client |
| `ThreadCaches.ThreadCache.MakeRoom` | base/tcache.c:113-135 | the full magazine is put aside, the previous one goes to the pool if it was in the way |
| `ThreadCaches.ThreadCache.PutAside` | base/tcache.c:122-126 | the loaded magazine becomes the previous one |
| `ThreadCaches.ThreadCache.Share` | base/tcache.c:130-135 | exactly the previous magazine leaves the thread |
| `ThreadCaches.ThreadCache.Free` | base/tcache.c:113-142 | exactly the client's item moves, into a magazine |
| `ThreadCaches.ThreadCache.Give` | inc/base/tcache.h:85-95 | the same on the fast path |
| `ThreadCaches.ThreadCache.ReclaimBegin` | base/tcache.c:206-209 | the call gets exactly the pool, which is then empty; no item moves |
| `ThreadCaches.ThreadCache.ReclaimOne` | base/tcache.c:211-215 | whatever other threads and calls did since, exactly the next magazine of this call returns to the store, with mag_size items |
| `ThreadCaches.ThreadCache.ReclaimEnd` | base/tcache.c:211-216 | the call ends and nothing changes |
| `ThreadCaches.ThreadCache.Reclaim` | base/tcache.c:202-216 | undisturbed, the pool is emptied magazine by magazine, each with mag_size items, in order; nothing else moves |
| `TimerHeap.ParentIsQuotient` | runtime/timer.c:53-68 | the parent of slot i is (i - 1) / 4 |
| `TimerHeap.SwapUp` | runtime/timer.c:53-68 | one step of sifting up leaves only the next parent in question |
| `TimerHeap.SwapDown` | runtime/timer.c:70-95 | one step of sifting down leaves only the next children in question |
| `TimerHeap.SwapRep` | runtime/timer.c:53-95 | exchanging two slots keeps every index field pointing at its own slot and the timers the same |
| `TimerHeap.ReplaceRep` | runtime/timer.c:189-203 | overwriting a slot with the last removes exactly that slot's timer |
| `TimerHeap.RootIsMin` | runtime/timer.c:97-104 | the root is the earliest of a heap in order |
| `TimerHeap.NextTscIsEarliest` | runtime/timer.c:97-104 | the exported time is that of the earliest armed timer, or the largest value when none is armed |
| `TimerHeap.Timers.constructor` | runtime/timer.c:301-319 | no timer is armed |
| `TimerHeap.Timers.SiftUp` | runtime/timer.c:53-68 | from one slot out of place, the heap is in order above it and keeps its timers |
| `TimerHeap.Timers.EarliestChild` | runtime/timer.c:70-88 | the earliest child that is earlier than its parent, or none exactly when there is none |
| `TimerHeap.Timers.SiftDown` | runtime/timer.c:70-95 | the heap is in order and keeps its timers |
| `TimerHeap.Timers.UpdateQPtrs` | runtime/timer.c:97-104 | exports the time of the root |
| `TimerHeap.Timers.Insert` | runtime/timer.c:124-147 | adds exactly one timer and keeps the order |
| `TimerHeap.Timers.Start` | runtime/timer.c:124-165 | exactly the two failing checks fail; otherwise exactly this timer is armed with this deadline on this kthread |
| `TimerHeap.Timers.RemoveAt` | runtime/timer.c:189-203 | removes exactly one timer from the middle and keeps the order |
| `TimerHeap.Timers.RemoveRoot` | runtime/timer.c:260-269 | removes exactly the root and keeps the order |
| `TimerHeap.Timers.Cancel` | runtime/timer.c:174-206 | exactly this timer is disarmed; the answer is whether it was armed |
| `TimerHeap.Timers.RootIsEarliest` | runtime/timer.c:260-263 | nothing armed is due before the root |
| `TimerHeap.Timers.PopExpired` | runtime/timer.c:250-272 | an earliest timer leaves if it is due; none leaves exactly when none is due |
| `TimerRace.StepInv` | runtime/timer.c:124-282 | every step of starters, cancellers and softirq threads on every kthread keeps each arming in one place, and in none once fired |
| `TimerRace.TimelyStepInv` | runtime/timer.c:124-282 | and, when the entry is started only in time, keeps all of it on the kthread localk names, with executing set from before armed is cleared until the handler is done |
| `TimerRace.RunsSatisfyInv` | runtime/timer.c:124-282 | every state of every run satisfies the first |
| `TimerRace.RunsSatisfyTimelyInv` | runtime/timer.c:124-282 | every state of every run that starts the entry in time satisfies both |
| `TimerRace.FiresAtMostOnce` | runtime/timer.c:250-282 | in every run, whatever callers do, each arming fires at most once |
| `TimerRace.ReturnedStays` | inc/runtime/timer.h:50-61 | what a cancel has answered stays its answer |
| `TimerRace.CancelGuarantee` | runtime/timer.c:174-206 | in every run that starts the entry in time: once a cancel has returned, the handler of the arming it was called for does not run then or later, and after a true answer the handler of the arming taken away was not and never will be entered |
| `TimerRace.NotRestartedGuarantee` | inc/runtime/timer.h:50-61 | the same in every run of an entry that is not started again |
| `TimerRace.RemoveTimely` | runtime/timer.c:189-205 | with the entry's own lock a cancel removes exactly the latest arming |
| `TimerRace.StartDuringHandler` | runtime/timer.c:145-146 | from every state with a running handler, starting can lead to a returned cancel with that handler running |
| `TimerRace.StartBeforeClear` | runtime/timer.c:275-276 | from every state with a handler that has yet to clear its flag, starting on another kthread can lead to the same for the new handler |
| `TimerRace.StartDuringCancel` | runtime/timer.c:176-181 | from every state with a cancel on its way to another kthread's lock, starting can lead to a true answer for an arming that fires |
| `TimerRace.RestartFromHandler` | runtime/timer.c:250-282 | a handler that starts its own entry is a case of the first |
| `TimerRace.RestartElsewhere` | runtime/timer.c:174-206 | a start on another kthread with no handler unfinished is a case of the third |
| `TimerRace.StartSafeExactly` | runtime/timer.c:124-147 | starting keeps the guarantee in every continuation if and only if none of the three is the case |
| `Sync.RwMutex.constructor` | runtime/sync.c:130-137 | nobody inside, nobody waiting |
| `Sync.RwMutex.RdLock` | runtime/sync.c:143-157 | in at once exactly when no writer is inside, else last in the readers' list |
| `Sync.RwMutex.TryRdLock` | runtime/sync.c:165-175 | in exactly when no writer is inside, never waiting |
| `Sync.RwMutex.WrLock` | runtime/sync.c:181-194 | in at once exactly when nobody is inside, else last in the writers' list |
| `Sync.RwMutex.TryWrLock` | runtime/sync.c:202-212 | in exactly when nobody is inside, never waiting |
| `Sync.RwMutex.Unlock` | runtime/sync.c:218-259 | the last one out lets all waiting readers in, else the writer that waited longest; a writer excludes all others, count is the number of readers or -1, and a free lock has no waiters |
| `Sync.WakeAll` | runtime/sync.c:236-241 | every waiting thread is woken once, in order |
| `Sync.Semaphore.constructor` | runtime/sync.c:579-585 | the initial count, nobody waiting |
| `Sync.Semaphore.Wait` | runtime/sync.c:591-604 | granted exactly when the count is positive, else last in line; initial plus posts equals count plus grants, and a waiter implies count zero |
| `Sync.Semaphore.TryWait` | runtime/sync.c:610-622 | granted exactly when the count is positive, never waiting |
| `Sync.Semaphore.Post` | runtime/sync.c:628-642 | the unit goes to the thread that waited longest, or to the count if none waits |
| `Sync.Barrier.constructor` | runtime/sync.c:528-534 | nobody waiting |
| `Sync.Barrier.Wait` | runtime/sync.c:542-568 | exactly the last arrival releases all that wait, and the barrier is ready for another round |
| `Sync.GroupsIsProduct` | runtime/sync.c:542-568 | the threads that have passed are whole rounds of the barrier's size |
| `Mutex.LockInv` | inc/runtime/sync.h:49-55 | the fast lock keeps at most one holder |
| `Mutex.SlowLockInv` | runtime/sync.c:20-58 | raising the waiter flag and joining the list keeps the flag set whenever somebody waits |
| `Mutex.RaceWriteInv` | runtime/sync.c:20-58 | a slow lock that finds the mutex just released takes it |
| `Mutex.UnlockInv` | inc/runtime/sync.h:61-67 | the fast unlock succeeds only without waiters |
| `Mutex.SlowUnlockInv` | runtime/sync.c:61-84 | the slow unlock hands over to the longest waiter or frees the mutex |
| `Mutex.StepInv` | runtime/sync.c:20-84 | every step keeps the invariant |
| `Mutex.RunsSatisfyInv` | runtime/sync.c:20-84 | every state of every run satisfies it |
| `Mutex.MutualExclusion` | runtime/sync.c:20-84 | in every run at most one thread holds the mutex |
| `Mutex.NoLostWakeup` | runtime/sync.c:20-84 | in every run, while threads wait some thread holds the mutex and its unlock will look at the list |
| `Mutex.HandOff` | runtime/sync.c:61-84 | the slow unlock makes the thread that waited longest the owner without the mutex ever being free |

## Left out

- Ksched.TidMatchesGeneration: for generations whose predecessor is below 2^31, because the property fails beyond; Ksched.TidExact gives the exact condition.
- Ksched.IdleReadingIsTrue: for generations below 2^31, because the property fails beyond; Ksched.IdleReadingExact gives the exact condition.
- Ksched.SignalsReachTheirTask: up to 2^31 requests, because the property fails beyond; Ksched.SignalsExact gives the exact condition.
- RunQueue.MergeRunqueues: requires the two queues together to be shorter than 2^32, the range of its counters; the runtime allows 100000 threads (runtime/defs.h:32).
- RunQueue.StealWork: requires the two queues together to be shorter than 2^32, for the same reason; the softirq branch (runtime/sched.c:453-461) is not modelled.
- RunQueue.Kthread.PopNext: the local pick only, with the overflow drain at runtime/sched.c:537-539 before it.
- TimerRace.CancelGuarantee: for runs that start the entry only in time, because the property fails otherwise; TimerRace.StartSafeExactly gives the exact condition.
- TimerRace.StepInv: one thread at a time starts the entry, which the assertion at runtime/timer.c:132 demands, and other entries are not modelled: a stale cancel of one of them can drop this entry from its heap.
- TimerHeap.Timers.Cancel: takes the lock of the entry's own kthread for granted; TimerRace says when it is.
- IasSched.Scheduler.LocalityScore: states the range of the score only; which core is warmer decides no invariant.
- IasSched.Scheduler.CoreScore: states that the score is not negative; the weights decide no invariant.
- IasSched.Scheduler.SchedPoll: does not say which process ends up on which core after both controllers ran, because the low-level scheduler may refuse any of their moves.
- IasSched.Scheduler.HtPoll: takes the order in which qsort leaves the cores as a parameter; every order is covered.
- TimerHeap.Timers.Start: deadlines are unbounded and only the exported time stamp wraps, as the code computes it; localk and executing are in TimerRace.
- Slab.SlabNode.AllocBatch: no other thread runs between the batch and its rollback, which takes the lock again for each item.
- Memory ordering weaker than sequential consistency: the acquire and release accesses of the source are steps of one interleaving.
- Packet and storage I/O, DPDK, sockets, shared-memory set-up, sysfs, PCI and ioctls: they move data the models do not look at.
- The order in which schedule looks for work, its watchdog, softirqs and parking (runtime/sched.c:512-606): only the local pick and the steal are modelled.
- The lrpc channels: emptiness and messages are parameters.
- References held by packets in flight (iokernel/tx.c): the reference counts cover clients, core slots and the polling array.
- The generation words wake_gen and cede_gen, the mwait hint, performance-counter requests and the signal number: they carry data beside the modelled handshake.
- Delay and load measurement (iokernel/sched.c:327-637): the policy gets their results as parameters.
- The PREEMPTED_RQ, GC, DIRECT_STORAGE and SIMD build variants: compile-time duplicates of the modelled code.
- Condition variables and wait groups (runtime/sync.c:271-516): the timed wait depends on when its timer fires, the rest would repeat the waiter lists.
- The time-sharing controller (iokernel/ias_ts.c), iokernel/simple.c and iokernel/numa.c: weaker forms of the modelled accounting.
- Slab bootstrap, NUMA placement, page mapping and usage statistics: environment set-up.
- The 64-bit wrap of the per-core generation of the policy and the float rounding of scores and miss rates: not reached, or not what the properties depend on.
- The oldest_tsc bookkeeping of waiter lists and preemption counters: statistics and interrupt masking around the modelled steps.
- The generation loop around flow steering in flows_update (runtime/kthread.c:132-156): only the table it computes is modelled.
