# Verified model of the zpp concurrency and codec cores

This project models, in Dafny 4.11, the hand-written concurrent structures of the
repository (the moodycamel queue that it ships, zpp's own chunked queues and ring, and
the admission, wakeup and accounting protocols built around them) and its byte-level
codecs, and proves what each is for.

How it is built:

- **Concurrent cores are step machines.** A state holds the shared words, one local state
  per thread, and history (tickets, values, who owns what). A step makes one shared access.
  `Run(states, events)` is any finite run, of any number of threads in any interleaving;
  an invariant is proved for every step and the main results are about every state of every
  run. Sums over threads (live references, owed posts, active guards) come from the module
  `Tally`.
- **Results come in three kinds**: what every state keeps; what a call that has returned saw
  or did, from its event to its return, whatever the others did meanwhile; and what a call
  achieves whose steps run alone (the `Lone...` lemmas, which build the run). History is tied to
  the arguments of the events that made it.
- **Objects with in-place state are classes**: the ring, the chunked queue and the task pool,
  the wire writers and readers, the log buffer. Their methods are single calls; for the two
  queues `RingRuns` and `ChunkQueue` interleave the calls of two threads access by access.
- **Arithmetic is made linear on purpose.** Quotients, remainders, multiples and 2^64 words
  are defined by recursion in `BlockMath` and `Words` and tied to `/`, `%` and `*` by lemmas
  there.

Files, one module each: `Tally` (sums); `Runs` (paths of any step machine); `BlockMath`, `Words`,
`Bits` (arithmetic); `FreeList`, `Tickets`, `BlockRing` with `BlockRingProducer`,
`BlockRingConsumer`, `BlockRingRuns`, `BlockRingCalls` and `BlockRingWords`, and
`ExplicitProducer` (concurrentqueue.h); `Semaphore`, `BlockingQueue`; `ChunkQueue`, `Mpmc`,
`TaskPool`, `Requester`; `Lifecycle`, `Pipeline`, `Seqlock`; `Ring`, `RingRuns`; `Endian`,
`Frames`, `Wire`, `WireBuffers`; `JsonEscape`, `TidPayload`, `LogTags`, `JsonLog`.

What the parts assume of each other: consumers of the block ring claim only indices below the
tail, which `ExplicitProducer` proves in runs of the ticket protocol and the ring together
(`ExplicitProducer.ClaimIsCovered`); the pool and the requester use the chunked queue as an atomic first-in-first-out queue, which is what
`ChunkQueue.PopsInOrder` and `ChunkQueue.EmptyMeansEmpty` prove of it, and never see a refused
push, which is `ChunkQueue.PoolPushSucceeds` under the condition that `Requester.RecycleFits`
and `TaskPool.RoomForOne` establish.

Behaviour worth knowing that the proofs turned up or pin down:

- `circular_less_than` is exact for true distances from -2^63 to below 2^63 and wrong for every
  other distance inside the range (`Words.CircularAgrees`); at a distance of exactly 2^63 it
  answers false.
- `round_up_pow2` and `ceil_to_pow_2` return 0 for requests above 2^63, and `ceil_to_pow_2`
  returns 0 for 0 (`Bits.RoundUpPow2`, `Bits.CeilToPow2`).
- A requester context whose operation ends with `NNG_ECANCELED`, `NNG_ECLOSED` or
  `NNG_ESTOPPED` answers its request but is not put back, also when nobody called `stop`
  (`Requester.RetiredForAReason`, and `Requester.CanceledWithoutStop` for a run without it).
- A request to publish that the ring's consumer makes between a producer's store of `write_pub_`
  and its store of false to `need_publish_` is erased (`RingRuns.ErasedRequest`). Nothing pushed
  before it stays unpublished for that (`RingRuns.RequestIsServed`), but the next push does not
  publish (`RingRuns.RequestIsFound` says exactly when it does).
- The block lookup of dequeue is right on wrapped indices however far two bases are apart, as
  long as index size times block size is at most 2^64; only beyond that does it depend on the
  signed difference (`BlockRingWords.WordSlotIsSlot`).
- Tags written by nng2format are recognised only in part if the component has a colon, and not
  as written if either has a closing bracket, the action is empty or both are longer than 123
  characters together (`LogTags.NngTagRoundTrip`).
- With memory, a chunked queue refuses no push before it holds the requested number of chunks
  times the chunk size: `(chunk_capacity_ - 1) * chunk_size_` with the incremented
  `chunk_capacity_`. For the one-argument constructor and an odd request that is one element
  less than requested, which is why pools ask for one more than they need.

## Model

| member | source | states |
|---|---|---|
| FreeList.StepKeepsInv | include/moodycamel/concurrentqueue.h:1622-1719 | every access of add, try_get and the re-add loop keeps the invariant that ties each node's word, its place on the list and what every thread is about to do |
| FreeList.ReferenceCount | include/moodycamel/concurrentqueue.h:1636-1682 | in every run a node's low 31 bits are the list's reference plus the live temporary references, and never run into the flag bit |
| FreeList.HeadSwapIsCurrent | include/moodycamel/concurrentqueue.h:1652-1669 | no ABA: a successful head CAS installs the successor its node has at that moment, unlinks exactly that node, and finds the flag bit clear |
| FreeList.ExclusiveHandOut | include/moodycamel/concurrentqueue.h:1655-1669 | a node about to be returned is off the list and no other thread is returning it or linking it |
| FreeList.OwedReAddIsTaken | include/moodycamel/concurrentqueue.h:1671-1678 | a node whose re-add is owed keeps a reference, and the thread that drops the last one becomes its adder, with no other |
| FreeList.ReAddIsAlone | include/moodycamel/concurrentqueue.h:1687-1718 | at most one thread at a time runs the re-add of a node |
| FreeList.OnePlace | include/moodycamel/concurrentqueue.h:1622-1719 | in every state of every run a node is with the client, on the list, with exactly one getter, with exactly one adder, or owed a re-add by threads that still hold a reference to it, and nowhere else |
| FreeList.NothingLost | include/moodycamel/concurrentqueue.h:1622-1719 | with no call running every node is with the client or on the list, and its word is 0 or 1 accordingly |
| FreeList.HandOutNeedsAdd | include/moodycamel/concurrentqueue.h:1622-1682 | every hand-out of a node is preceded by an add of it with no other hand-out in between |
| FreeList.LoneGet | include/moodycamel/concurrentqueue.h:1636-1669 | a try_get that runs alone returns the first node of the list and leaves the others, in order; on an empty list it returns nothing |
| FreeList.EmptyHandedSawEmpty | include/moodycamel/concurrentqueue.h:1640-1682 | a try_get that returns without a node saw an empty list at a moment of the call, whatever other threads do |
| FreeList.LoneAdd | include/moodycamel/concurrentqueue.h:1622-1719 | an add that runs alone puts its node in front of the list |
| Tickets.StepKeepsInv | include/moodycamel/concurrentqueue.h:2197-2244 | every step of the optimistic dequeue, single and bulk, keeps the accounting of tickets passed, returned and outstanding |
| Tickets.ClaimsFit | include/moodycamel/concurrentqueue.h:2197-2324 | indices claimed plus those that passed tickets still entitle to never exceed the tail, so the head never passes the tail |
| Tickets.ClaimIsCovered | include/moodycamel/concurrentqueue.h:2242-2262 | a thread at its claim finds as many elements from the head on as it is about to claim |
| Tickets.ClaimedOnce | include/moodycamel/concurrentqueue.h:2251-2262 | two steps of a run that claim the same index are the same step, and the index was enqueued before |
| Tickets.EveryIndexIsClaimed | include/moodycamel/concurrentqueue.h:2251-2262 | every index below the head was claimed by some step; with ClaimedOnce, by exactly one |
| Tickets.HoldersAreApart | include/moodycamel/concurrentqueue.h:2251-2262 | the ranges that two threads hold after their claims never meet and stay below the head |
| Tickets.OvercommitBehindTicket | include/moodycamel/concurrentqueue.h:2223-2244 | the overcommit a thread subtracts never exceeds its own ticket number, the fact the source argues but does not assert |
| Tickets.QuietCounters | include/moodycamel/concurrentqueue.h:2311-2320 | with no dequeue in flight, dequeueOptimisticCount minus dequeueOvercommit is headIndex |
| Tickets.AloneTakesAll | include/moodycamel/concurrentqueue.h:2571-2595 | a dequeue that runs alone takes min(max, available) elements and fails only on an empty queue |
| Words.CircularAgrees | include/moodycamel/concurrentqueue.h:587-600 | circular_less_than on 64-bit words agrees with the true order exactly when the true values are within half the range |
| Words.SignedDifference | include/moodycamel/concurrentqueue.h:2267-2276 | the difference of two wrapped indices read as signed is the true one exactly when that is within the signed range |
| Bits.CeilToPow2 | include/moodycamel/concurrentqueue.h:608-624 | the smearing loop returns the least power of two at or above the argument, or 0 for 0 and above 2^63 |
| Bits.MaskIsRemainder | include/moodycamel/concurrentqueue.h:1858-1865 | masking with a power of two less one, as every block and index lookup does, is the remainder by it |
| BlockRingRuns.StepKeepsInv | include/moodycamel/concurrentqueue.h:2073-2195 | block reuse, block insertion, index doubling, publication, lookup, reading and marking keep the block ring and every index consistent |
| BlockRingRuns.LookupFindsBlock | include/moodycamel/concurrentqueue.h:2263-2284 | for every live index the circular lookup from the published front slot returns the block whose base is the index rounded down, and the block holds the value enqueued there |
| BlockRingRuns.ReadsInOrder | include/moodycamel/concurrentqueue.h:2617-2688 | a dequeue, single or bulk and through an index of any age, returns exactly the values enqueued at its claimed indices, in order |
| BlockRingRuns.ClaimsFollow | include/moodycamel/concurrentqueue.h:2251-2262 | a later claim covers only later indices, which with ReadsInOrder makes the producer's queue first in, first out |
| BlockRingRuns.ReusedBlockIsDrained | include/moodycamel/concurrentqueue.h:2081-2089 | a block is reused only when every index it held was claimed and marked empty and no consumer still reads from it or sets its flags |
| BlockRingRuns.StepsAreDefined | include/moodycamel/concurrentqueue.h:2073-2309 | in every reachable state every pointer and slot index that the next step of the producer or of any consumer uses is in range |
| BlockRingCalls.LoneEnqueue | include/moodycamel/concurrentqueue.h:2073-2195 | an enqueue with memory, whatever consumers are at, stores its value behind the others and publishes it, and takes no new block if the oldest one is drained |
| BlockRingCalls.EndsByPublishing | include/moodycamel/concurrentqueue.h:2101-2195 | an enqueue returns without publishing only when memory runs out |
| BlockRingCalls.LogIsPublished | include/moodycamel/concurrentqueue.h:2157-2194 | the values of the log are the arguments of the enqueues that published, in order |
| BlockRingCalls.GrowsOnlyUndrained | include/moodycamel/concurrentqueue.h:2081-2101 | a block is added rather than the oldest one reused only while that one has an index not marked empty |
| BlockRingCalls.ConsumerDescends | include/moodycamel/concurrentqueue.h:2617-2688 | every step of a consumer brings it closer to its end, within five steps for each claimed index and five more |
| BlockRingCalls.FinishedHasMarked | include/moodycamel/concurrentqueue.h:2650-2688 | a finished dequeue has marked every index it claimed |
| BlockRingCalls.QuietIsMarked | include/moodycamel/concurrentqueue.h:1749-1800 | with no dequeue running exactly the claimed indices are marked, so a block claimed whole is drained and reusable |
| BlockRingConsumer.SlotFound | include/moodycamel/concurrentqueue.h:2267-2281 | front slot plus signed block offset, taken around the circle, is the slot of the block of the index |
| BlockRingWords.WordSlotIsSlot | include/moodycamel/concurrentqueue.h:2267-2281 | the lookup as computed, on wrapped words with the signed difference divided by BLOCK_SIZE, cast back and masked, gives the slot of the lookup on true indices, for power-of-two sizes |
| BlockRingWords.WordLookupFinds | include/moodycamel/concurrentqueue.h:2271-2284 | so for every index that a consistent block index covers it finds the entry of its block, with the wrapped base, and the masked index is its place in the block |
| BlockRingProducer.CopyEntries | include/moodycamel/concurrentqueue.h:2724-2733 | the do-while copy of new_block_index moves all used entries, oldest first, to the new index, also from a full one, and touches nothing else |
| BlockRingProducer.CopiedEntries | include/moodycamel/concurrentqueue.h:2724-2733 | the copied entries are those of the ring's block numbers in order, which is what the new index starts from |
| ExplicitProducer.StepKeepsInv | include/moodycamel/concurrentqueue.h:2197-2324 | every step of the producer, the ticket protocol and the block ring together keeps both invariants and the counters they share |
| ExplicitProducer.ClaimIsCovered | include/moodycamel/concurrentqueue.h:2242-2262 | a claim that passed tickets lead to is always one of elements that are there |
| ExplicitProducer.DequeueReturnsItsClaim | include/moodycamel/concurrentqueue.h:2571-2688 | a finished dequeue has exactly the values enqueued at the indices its tickets won, in order |
| ExplicitProducer.EachIndexHasOneClaim | include/moodycamel/concurrentqueue.h:2251-2262 | every enqueued value below the head was won by exactly one dequeue |
| ExplicitProducer.DequeuesGoOn | include/moodycamel/concurrentqueue.h:2197-2309 | a dequeue that has begun always has a next step whose accesses are in range |
| ExplicitProducer.LoneDequeue | include/moodycamel/concurrentqueue.h:2571-2688 | a dequeue, single or bulk, that runs alone returns the oldest elements in order, as many as it asks for or as there are |
| Semaphore.StepKeepsInv | include/moodycamel/lightweightsemaphore.h:250-387 | every access of tryWait, tryWaitMany, both slow paths with timeouts, and signal keeps both balances |
| Semaphore.PermitsConserved | include/moodycamel/lightweightsemaphore.h:250-387 | initial plus signalled permits equal granted ones plus the positive count, the kernel's permits and the posts still owed: none lost or granted twice |
| Semaphore.WaitersAccounted | include/moodycamel/lightweightsemaphore.h:264-287 | unresolved slow-path waiters are exactly the negative count plus kernel permits plus owed posts |
| Semaphore.NoStrandedSleeper | include/moodycamel/lightweightsemaphore.h:278-287 | while the count is not negative, every waiter left in the slow path has its wakeup posted or owed by a running signaller |
| Semaphore.PostsFitThreads | include/moodycamel/lightweightsemaphore.h:380-387 | a signaller never owes more posts than there are threads, so the cast of toRelease to int is exact below 2^31 threads |
| Semaphore.QuietCount | include/moodycamel/lightweightsemaphore.h:328-387 | at rest the count alone is initial plus signalled minus granted, and the kernel holds no permit |
| Semaphore.SignalsAddUp | include/moodycamel/lightweightsemaphore.h:380-387 | the permits signalled are the sum of what the signals said |
| Semaphore.AtMostMax | include/moodycamel/lightweightsemaphore.h:328-378 | a call for up to max permits is never granted more |
| Semaphore.ShortTryFoundNone | include/moodycamel/lightweightsemaphore.h:334-364 | a tryWait or tryWaitMany gets all it asked for, unless the count was not positive at a moment of the call or after it |
| Semaphore.WaitEndsWithPermit | include/moodycamel/lightweightsemaphore.h:250-326 | a wait for at least one permit returns with at least one, unless its kernel wait gave up |
| Semaphore.LoneWait | include/moodycamel/lightweightsemaphore.h:334-378 | running alone, tryWait(Many) takes exactly min(max, positive count), and so does wait(Many) when there is a permit |
| Semaphore.LoneWakeup | include/moodycamel/lightweightsemaphore.h:264-287 | a waiter that finds a kernel permit takes it and, asking for more, min(max - 1, positive count) besides |
| Semaphore.LoneSignal | include/moodycamel/lightweightsemaphore.h:380-387 | a signal that runs alone raises the count by its argument and posts one kernel permit for each waiter owed one, up to it |
| Semaphore.LoneSleep | include/moodycamel/lightweightsemaphore.h:250-263 | a wait with no permit in sight ends up in the kernel, having lowered the count by one |
| Semaphore.LoneTimeout | include/moodycamel/lightweightsemaphore.h:270-287 | a waiter that gives up takes its wait back and gets nothing, or takes the kernel permit that is there for it by then |
| BlockingQueue.ItemsArePermits | include/moodycamel/blockingconcurrentqueue.h:138-198 | items in the inner queue equal available, posted or owed permits, plus permits granted and not used, plus items not signalled yet |
| BlockingQueue.HolderFindsItems | include/moodycamel/blockingconcurrentqueue.h:300-369 | a consumer holding k permits takes its k items at the first attempt, so the retry loops end |
| BlockingQueue.NothingInvented | include/moodycamel/blockingconcurrentqueue.h:138-198 | dequeued and remaining items together are the arguments of the enqueues, in order |
| BlockingQueue.HoldsAtMostMax | include/moodycamel/blockingconcurrentqueue.h:300-369 | a dequeue never holds permits for, and so never takes, more items than it asked for |
| BlockingQueue.LoneDequeue | include/moodycamel/blockingconcurrentqueue.h:300-345 | a try_dequeue, single or bulk, that runs alone takes the oldest items, as many as it asks for or as there are |
| ChunkQueue.StepKeepsInv | include/zpp/STL/mpmc.hpp:115-204 | every access of a producer and a consumer keeps chunk ownership, links, contents, cached pointers and the budget |
| ChunkQueue.PopsInOrder | include/zpp/STL/mpmc.hpp:76-148 | popped values are at every moment a prefix of the pushed ones, in order, for any interleaving |
| ChunkQueue.EmptyMeansEmpty | include/zpp/STL/spsc.hpp:75-100 | the empty answer after loading the published pointer is given exactly when every pushed value was popped |
| ChunkQueue.ChunksAreSafe | include/zpp/STL/mpmc.hpp:161-204 | both sides touch only allocated chunks, the consumer moves only along a set link, and the spare is neither reachable from front_chunk_ nor back_chunk_ |
| ChunkQueue.BudgetKept | include/zpp/STL/mpmc.hpp:161-186 | chunk_num_ is linked chunks plus spare plus chunks in transit and never exceeds chunk_capacity_ |
| ChunkQueue.RefusedOnlyWhenFull | include/zpp/STL/mpmc.hpp:131-177 | with memory, a push is refused only if at least (chunk_capacity_ - 1) * chunk_size_ elements were stored when it looked for a spare, even while the consumer frees a chunk |
| ChunkQueue.ApproxSizeIsExact | include/zpp/STL/mpmc.hpp:64-73 | approx_size is exact at rest unless a chunk was appended and not pushed to |
| ChunkQueue.PoolPushSucceeds | include/zpp/STL/mpmc.hpp:52 | a queue built for n + 1 elements never refuses one of n distinct elements stored at most once each |
| Mpmc.Mpmc.Push | include/zpp/STL/mpmc.hpp:76-86 | appends the value, or with memory is refused only at (chunk_capacity_ - 1) * chunk_size_ stored elements, leaving the contents alone |
| Mpmc.Mpmc.Pop | include/zpp/STL/mpmc.hpp:88-98 | removes and returns the first value; fails exactly on an empty queue |
| Mpmc.Mpmc.AllocChunk | include/zpp/STL/mpmc.hpp:161-177 | takes the spare when there is one, else counts and returns a new chunk within the budget; fails only without memory or when nearly full |
| Mpmc.Mpmc.FreeChunk | include/zpp/STL/mpmc.hpp:179-186 | the freed chunk becomes the spare, the one it replaces leaves memory and is uncounted, the contents stay |
| Mpmc.Mpmc.TryMoveNextChunk | include/zpp/STL/mpmc.hpp:196-204 | at the end of its chunk moves to the linked one and makes the used one the spare, otherwise stays; the contents stay as they were |
| Mpmc.Mpmc.AppendChunk | include/zpp/STL/mpmc.hpp:188-194 | links the chunk behind the last one and leaves the contents as they were |
| Mpmc.Mpmc.ApproxSize | include/zpp/STL/mpmc.hpp:64-73 | the computed size is the number of elements held |
| TaskPool.RoomForOne | include/zpp/nng/task.h:152-174 | while a task is out, the queue of capacity + 1 has room for it |
| TaskPool.TaskPool.constructor | include/zpp/nng/task.h:152-161 | fills the pool with every task in order; with memory no push is refused, so nothing is thrown |
| TaskPool.TaskPool.Acquire | include/zpp/nng/task.h:169-170 | gives out the task that has been free longest and leaves the others; fails exactly on an empty pool |
| TaskPool.TaskPool.Release | include/zpp/nng/task.h:172-174 | with memory a task that is out is always taken back, behind the others |
| TaskPool.TaskPool.Handle | include/zpp/nng/task.h:106-128 | a stopped task is not recycled; any other is, at the end of the pool, unless there is no memory, when it may be dropped |
| Requester.StepKeepsInv | src/nng/protocols/request_reply.cpp:110-179 | requests, completions and callbacks keep every request with one context until it is answered, and every free context in the queue once |
| Requester.AnsweredOnce | src/nng/protocols/request_reply.cpp:110-179 | an accepted request gets at most one on_reply, with its own hint, and until then exactly one context carries it |
| Requester.AllAnswered | src/nng/protocols/request_reply.cpp:95-179 | once no context is busy every accepted request has had exactly one on_reply with its own hint |
| Requester.AskedIsAccepted | src/nng/protocols/request_reply.cpp:110-119 | the accepted requests are those that found a free context, in order |
| Requester.ReplyFollowsCompletion | src/nng/protocols/request_reply.cpp:121-179 | a reply comes only after the latest completion of its context, of an operation for that request: a receive that ended, or a send that failed |
| Requester.CompletionDecides | src/nng/protocols/request_reply.cpp:121-179 | after a completion the next step of its context replies, with the hint of the request, exactly if it is one of these; otherwise it starts the receive |
| Requester.NoReplyBeforeReceive | src/nng/protocols/request_reply.cpp:133-146 | after a send that completed well the request stays unanswered until the receive of the same context has completed |
| Requester.ReceiveFollowsSend | src/nng/protocols/request_reply.cpp:133-137 | a context receives for a request only after its send for that request completed well |
| Requester.StepsDescend | src/nng/protocols/request_reply.cpp:121-179 | every step and completion of a context brings it closer to rest, within seven, and changes no other context |
| Requester.BusyGoesOn | src/nng/protocols/request_reply.cpp:162-178 | the init and unknown-state branches of on_event are dead and a busy context can always go on |
| Requester.QueueHoldsTheFree | src/nng/protocols/request_reply.cpp:75-131 | a context is in the pool exactly when it is free, and only once |
| Requester.PoolInOrder | src/nng/protocols/request_reply.cpp:110-146 | the pool is first in, first out: until stop the contexts handed out and those free are the initial ones and those put back, in order |
| Requester.RetiredForAReason | src/nng/protocols/request_reply.cpp:95-179 | a context is retired exactly if stop was called or its operation ended with one of the three results |
| Requester.RetiredIsLost | src/nng/protocols/request_reply.cpp:162-170 | a context whose operation ended that way never comes back into the pool |
| Requester.CanceledWithoutStop | src/nng/protocols/request_reply.cpp:162-170 | a run without stop whose pool is empty at its end, its only context retired by a canceled send |
| Requester.RecycleFits | src/nng/protocols/request_reply.cpp:127-146 | a context about to be recycled is not in the pool, so the pool has room for it |
| Lifecycle.StepKeepsInv | include/zpp/core/lifecycle.h:97-255 | every step of start, acquire, move, release, quiesce, wait and stop keeps the word, the guards and the pending notifications in agreement |
| Lifecycle.CountIsGuards | include/zpp/core/lifecycle.h:104-125 | the decoded count is the number of live guards plus releases under way, the state bits are never invalid, and stopped implies no guard |
| Lifecycle.ReleaseIsSafe | include/zpp/core/lifecycle.h:239-250 | a release always finds a positive count and never borrows from the state bits |
| Lifecycle.DrainWakesEveryone | include/zpp/core/lifecycle.h:130-166 | whenever the lifecycle is drained and a waiter sleeps, some thread is still going to notify, over repeated start, quiesce and stop |
| Lifecycle.ClosedUntilStart | include/zpp/core/lifecycle.h:127-193 | between quiesce and the next successful start admission stays closed, the count never grows, and drained stays drained |
| Lifecycle.ClosedAdmitsNothing | include/zpp/core/lifecycle.h:106-125 | while admission is closed no step fills a guard, except a move |
| Lifecycle.WaitSawDrained | include/zpp/core/lifecycle.h:151-166 | a wait_drained, and a wait_drained_for that returns true, saw the lifecycle drained during the call, and unless a start came since it still is |
| Lifecycle.FalseIsTimeout | include/zpp/core/lifecycle.h:158-166 | wait_drained_for returns false only after its time has passed |
| Lifecycle.AcquiresOrSawRefusal | include/zpp/core/lifecycle.h:106-125 | a try_acquire fills its guard unless during the call the lifecycle was not running or full |
| Lifecycle.QuiesceCloses | include/zpp/core/lifecycle.h:130-149 | a quiesce returns only if admission was closed at a moment of the call |
| Lifecycle.StopActs | include/zpp/core/lifecycle.h:174-193 | a stop never returns from a lifecycle that was quiescing and drained all along |
| Lifecycle.StartOpensStopped | include/zpp/core/lifecycle.h:97-102 | a start opens a stopped lifecycle with no activity and changes no other |
| Lifecycle.LoneAcquire | include/zpp/core/lifecycle.h:106-125 | a try_acquire alone on a running lifecycle with room fills its guard and counts it |
| Lifecycle.LoneQuiesce | include/zpp/core/lifecycle.h:130-149 | a quiesce alone closes a running lifecycle, keeps the count, and wakes every sleeper if it is drained |
| Lifecycle.LoneStop | include/zpp/core/lifecycle.h:174-193 | a stop alone stops a drained quiescing lifecycle |
| Lifecycle.LoneWait | include/zpp/core/lifecycle.h:151-166 | a wait alone on a drained lifecycle returns, with true if timed |
| Lifecycle.LoneSleep | include/zpp/core/lifecycle.h:153-166 | a wait alone on a lifecycle that is not drained goes to sleep and lets the mutex go |
| Lifecycle.LoneWakeup | include/zpp/core/lifecycle.h:153-166 | a sleeper that wakes by itself returns true if the lifecycle is drained, else false if its time has passed, else sleeps on |
| Lifecycle.LoneDrop | include/zpp/core/lifecycle.h:66-71 | dropping a guard alone empties it, gives its activity back and wakes every sleeper if that drains the lifecycle |
| Lifecycle.MoveTransfers | include/zpp/core/lifecycle.h:50-60 | a moved guard's activity ends up in the target, the source is empty, whatever other threads do |
| Pipeline.OneToken | include/zpp/taskflow/pipeline_mpsc.hpp:66-83 | at most one thread holds the run token, and while one does is_running_ is true |
| Pipeline.RunningHasToken | include/zpp/taskflow/pipeline_mpsc.hpp:26-33 | while is_running_ is true some thread holds the token |
| Pipeline.NothingForgotten | include/zpp/taskflow/pipeline_mpsc.hpp:66-83 | no lost wakeup: without token, and with nobody before its swap or recheck, the queue is empty and all accepted items were handled |
| Pipeline.HandledInOrder | include/zpp/taskflow/pipeline_mpsc.hpp:46-63 | handled items followed by queued ones are the accepted items, in order |
| Pipeline.FinishedIsPermanent | include/zpp/taskflow/pipeline_mpsc.hpp:35-38 | a true is_finished, its three loads at different times, is permanent when nobody submits, and everything accepted was handled |
| Pipeline.AcceptedIsSubmitted | include/zpp/taskflow/pipeline_mpsc.hpp:26-33 | the accepted items are the arguments of the submits that the queue took, in order |
| Pipeline.GivesUpOnEmpty | include/zpp/taskflow/pipeline_mpsc.hpp:66-76 | a thread gives the token up only after its callback saw an empty queue |
| Pipeline.CallbackGoesOn | include/zpp/taskflow/pipeline_mpsc.hpp:66-72 | a callback that finds something queued keeps the token and goes on |
| Pipeline.LoneRun | include/zpp/taskflow/pipeline_mpsc.hpp:46-83 | a run whose steps nobody interrupts handles everything queued, gives the token back and ends |
| Pipeline.LoneSubmit | include/zpp/taskflow/pipeline_mpsc.hpp:26-83 | a submit to a pipeline at rest and the run it launches handle the item and leave the pipeline at rest |
| Seqlock.SnapshotIsPublished | src/folly/inspector.cpp:132-190 | a successful read returns the three counters of one published update, the one its version names, never a mixture |
| Seqlock.SnapshotIsCurrent | src/folly/inspector.cpp:162-186 | that update is the latest published one at the moment the read succeeds |
| Seqlock.PublishedAreUpdates | src/folly/inspector.cpp:132-153 | the published snapshots are the initial one and the arguments of the updates, in order, but for one under way |
| Seqlock.ReadsDescend | src/folly/inspector.cpp:162-190 | every step of a read brings it closer to its end, within 23 steps |
| Seqlock.GivesUpAfterThree | src/folly/inspector.cpp:162-190 | a read gives up only after three attempts that each met an odd version or one that changed |
| Seqlock.UndisturbedReadSucceeds | src/folly/inspector.cpp:162-190 | a read that begins between two updates and sees none begin succeeds at its first attempt |
| Ring.Ring.Push | include/zpp/STL/ring.hpp:83-92 | refused exactly when capacity_ elements are not freed; appends otherwise; a refused or requested push leaves everything published, and unpublished stays below the batch |
| Ring.Ring.Pop | include/zpp/STL/ring.hpp:57-65 | returns the oldest unread element; fails exactly when nothing published is unread, and then asks for publication |
| Ring.Ring.Empty | include/zpp/STL/ring.hpp:37-44 | true exactly when nothing published is unread |
| Ring.Ring.Full | include/zpp/STL/ring.hpp:68-74 | true exactly when capacity_ elements are not freed, with counters that wrap around |
| Ring.Ring.PushBack | include/zpp/STL/ring.hpp:76-81 | counts the element stored in back() as pushed, and publishes when asked to |
| Ring.Ring.PublishWrite | include/zpp/STL/ring.hpp:120-129 | publishes when forced, asked or at a full batch, and keeps unpublished_push_ = write_local_ - write_pub_ below the batch |
| Ring.Ring.Flush | include/zpp/STL/ring.hpp:94-101 | leaves every pushed element published |
| Ring.Ring.ApproxSize | include/zpp/STL/ring.hpp:30-34 | the published elements that are not freed, at most capacity_ |
| RingRuns.StepKeepsInv | include/zpp/STL/ring.hpp:37-129 | every shared access of a producer and a consumer, in any interleaving, keeps counters, slots and what each side is about to do in agreement |
| RingRuns.PopsInOrder | include/zpp/STL/ring.hpp:57-92 | at every moment the popped values are the first of the accepted ones, which are the stored push arguments in order, and at most capacity_ are outstanding |
| RingRuns.ValueInHand | include/zpp/STL/ring.hpp:83-92 | the value a push stores is the argument of the latest call |
| RingRuns.ReadIsOldest | include/zpp/STL/ring.hpp:46-65 | a pop reads the oldest value that was not read yet |
| RingRuns.NoOverwrite | include/zpp/STL/ring.hpp:46-92 | no unread slot is overwritten: in every state the masked counter of an unread value leads to that value |
| RingRuns.RefusedOnlyWhenFull | include/zpp/STL/ring.hpp:68-92 | a push is refused exactly when capacity_ elements are not freed at its load of read_pub_ |
| RingRuns.EmptyMeansEmpty | include/zpp/STL/ring.hpp:37-44 | empty answers true exactly when everything published at its load was read, and false without a load only if something is unread |
| RingRuns.CallsDescend | include/zpp/STL/ring.hpp:37-129 | both sides are wait-free: every call is over after at most five own steps of the producer, four of the consumer |
| RingRuns.PushIsDecided | include/zpp/STL/ring.hpp:83-92 | a push that returns has stored exactly its argument behind the others, or nothing, having found capacity_ elements not freed during the call |
| RingRuns.PopIsDecided | include/zpp/STL/ring.hpp:37-65 | a pop that returns has read exactly one value, or none, having found nothing published unread during the call; empty() reads none |
| RingRuns.FlushPublishes | include/zpp/STL/ring.hpp:94-101 | a flush that returns leaves everything published |
| RingRuns.UnpublishedIsBelowBatch | include/zpp/STL/ring.hpp:120-129 | between calls unpublished_push_ = write_local_ - write_pub_ < publish_batch_ |
| RingRuns.PublishingCallPublishesAll | include/zpp/STL/ring.hpp:83-129 | a refused push, a flush and every other call that publishes returns with all pushed elements published |
| RingRuns.PublishesOnRequest | include/zpp/STL/ring.hpp:120-129 | a push with an incomplete batch publishes exactly if the consumer asked and no call has cleared the flag since |
| RingRuns.RequestIsFound | include/zpp/STL/ring.hpp:120-129 | with nothing published since, that is exactly if the producer was not about to clear the flag when the consumer set it |
| RingRuns.RequestIsServed | include/zpp/STL/ring.hpp:37-129 | once one more push has returned, everything pushed before a request is published |
| RingRuns.ErasedRequest | include/zpp/STL/ring.hpp:120-129 | a run in which the request is erased between the two stores, and the next push publishes nothing |
| Bits.MaskedSlot | include/zpp/STL/ring.hpp:46-76 | a masked wrapped counter is the slot of the true counter |
| Bits.RoundUpPow2 | include/zpp/STL/ring.hpp:104-118 | the least power of two at or above the request, at least 2, for requests up to 2^63; 0 above |
| Endian.ByteSwap | include/zpp/wire/detail/endian.h:16-26 | the loop computes the value of the reversed bytes |
| Endian.SwappedTwice | include/zpp/wire/detail/endian.h:16-26 | byteswap is its own inverse |
| Endian.SameBytesOnEitherHost | include/zpp/wire/detail/endian.h:28-39 | what host2le leaves in memory is the little-endian encoding on either host |
| Endian.SameValueOnEitherHost | include/zpp/wire/detail/endian.h:41-44 | le2host of little-endian bytes in memory is their value on either host |
| Endian.ByteAt | include/zpp/wire/detail/endian.h:28-39 | byte i of the little-endian encoding is digit i of the value in base 256 |
| Frames.PutAllShort | include/zpp/wire/writer.h:111-117 | too little room: the parts before the first that does not fit are written, nothing after, and failure sticks |
| Frames.GetShort | include/zpp/wire/reader.h:127-133 | a truncated message: the whole parts are read, then the reader fails for good |
| Frames.GetBroken | include/zpp/wire/reader.h:127-133 | a message that breaks off inside a part, whatever follows: the whole parts are read, then the reader fails for good |
| Frames.CountIsTotal | include/zpp/wire/size_counter.h:63-70 | the counter succeeds exactly when the total fits std::size_t, and then is the room a writer needs |
| Wire.DecodeEncode | include/zpp/wire/reader.h:44-82 | decoding the encoding of a typed value gives the value |
| Wire.EncodingMeans | include/zpp/wire/writer.h:24-97 | the bytes of each type: the number little endian, two's complement if negative, bytes as given |
| Wire.DecodingMeans | include/zpp/wire/reader.h:44-112 | the value read from each type's bytes: the number, counting down from zero with the sign bit set, bytes as given |
| Wire.RoundTrip | include/zpp/wire/writer.h:24-117 | for any sequence of typed values, writing into a buffer of the counted size completes, and reading it with the same types returns the values and completes |
| Wire.TooSmall | include/zpp/wire/reader.h:24-133 | a smaller buffer keeps the values before the first that does not fit and fails, and reading the buffer it leaves, whatever its last bytes are, gives these values and fails |
| WireBuffers.Writer.Write | include/zpp/wire/writer.h:24-108 | writes the encoding after what was written, or fails for good, on either host, touching no other byte |
| WireBuffers.Writer.WriteUnsigned | include/zpp/wire/writer.h:99-109 | the little-endian bytes of the value are written on either host, or nothing is |
| WireBuffers.Reader.Read | include/zpp/wire/reader.h:24-125 | returns the decoded value and advances past it, or fails for good and leaves the out value alone |
| WireBuffers.Reader.ReadUnsigned | include/zpp/wire/reader.h:114-125 | the value of the next bytes, little endian, on either host |
| WireBuffers.SizeCounter.Count | include/zpp/wire/size_counter.h:21-70 | adds the width, or fails for good on overflow |
| WireBuffers.FixedWriter.Write | include/zpp/wire/fixed_writer.h:33-102 | within its block, writes exactly what the checked writer writes and touches no other byte |
| WireBuffers.FixedWriter.Create | include/zpp/wire/fixed_writer.h:24-30 | succeeds exactly on a buffer of the block's size |
| WireBuffers.FixedReader.Read | include/zpp/wire/fixed_reader.h:33-111 | within its block, reads exactly what the checked reader reads |
| WireBuffers.CountMessage | include/zpp/wire/size_counter.h:15-73 | counting a whole message succeeds exactly when its size fits std::size_t and gives that size |
| WireBuffers.WriteMessage | include/zpp/wire/writer.h:83-97 | writing a whole message completes exactly on a buffer of its size; other buffers get the longest run of values that fits and are otherwise untouched |
| WireBuffers.ReadMessage | include/zpp/wire/reader.h:24-133 | reads the values of the given kinds up to the first that is missing, on either host, and completes exactly if none is and nothing is left over |
| WireBuffers.Transfer | include/zpp/wire/writer.h:24-117 | a message counted, written on one host and read on another comes back whole, whenever its size fits std::size_t |
| JsonEscape.AppendJsonEscaped | src/zpp/core/spdlog.cpp:108-154 | appends the escaped text, character by character |
| JsonEscape.EscapeRoundTrip | src/zpp/core/spdlog.cpp:108-154 | unescaping, after section 7 of RFC 8259, gives every text back |
| JsonEscape.EscapePrintable | src/zpp/core/spdlog.cpp:143-150 | an escaped text has no control character |
| JsonEscape.EscapeDelimits | src/zpp/core/spdlog.cpp:114-121 | an escaped text has no bare quote: a string ends at the quote written after it, whatever follows |
| TidPayload.ReadZppTidPayload | src/zpp/core/spdlog.cpp:42-72 | the loop accepts and returns what the specification of a payload says, with the id in wrapping arithmetic |
| TidPayload.AppendZppLogPayload | src/zpp/core/spdlog.cpp:560-567 | appends prefix, decimal id, suffix and message |
| TidPayload.PayloadRoundTrip | src/zpp/core/spdlog.cpp:42-72 | the reader inverts the writer for every id and every message, also one that starts with the prefix |
| TidPayload.AcceptsOnlyPayloads | src/zpp/core/spdlog.cpp:42-72 | a text is accepted exactly if it is prefix, digits, suffix and a message |
| TidPayload.DigitsRoundTrip | src/zpp/core/spdlog.cpp:563-564 | the decimal digits of a number read back as the number |
| TidPayload.DigitsAreUnique | src/zpp/core/spdlog.cpp:563-564 | the decimal digits written are the one numeral of the number without leading zeros |
| LogTags.ParseLogTags | src/zpp/core/spdlog.cpp:223-262 | the loop over the bracket and the colon rules gives the tags of the specification |
| LogTags.TagsAreFoundExactly | src/zpp/core/spdlog.cpp:223-262 | tags are found exactly in messages that start with two texts, parted by a colon, in brackets of at most 128 characters |
| LogTags.NngTagRoundTrip | include/zpp/nng/log.h:138-155 | the tags that nng2format writes are found again exactly if they can be told apart and fit |
| LogTags.PlainTagRoundTrip | src/zpp/core/spdlog.cpp:259-261 | other tags come back whole, colons in the action included |
| LogTags.BareNngTag | src/zpp/core/spdlog.cpp:240-261 | an nng tag without a second part comes back whole |
| JsonLog.Format | src/zpp/core/spdlog.cpp:342-372 | writes one record of the fourteen fields in order, with thread id and message from the payload when it carries them and the tags from the message |
| JsonLog.AppendJsonField | src/zpp/core/spdlog.cpp:156-169 | appends separator, name and escaped value of one field |
| JsonLog.RecordRoundTrip | src/zpp/core/spdlog.cpp:156-197 | a record of fields with plain names reads back as those fields |
| JsonLog.RecordIsOneLine | src/zpp/core/spdlog.cpp:368-371 | a record is one line: a line feed at its end and no control character before |
| JsonLog.LogRecord | src/zpp/core/spdlog.cpp:342-372 | every record the formatter writes is one line and reads back as its fields |
| JsonLog.NngRecord | src/zpp/core/spdlog.cpp:342-372 | a message tagged by nng2format and wrapped with a thread id comes back from the written record with id, component, action and text |
| JsonLog.RecordSaysOrigin | src/zpp/core/spdlog.cpp:353-360 | under each name of where and when a record holds that datum |
| JsonLog.RecordSaysLevel | src/zpp/core/spdlog.cpp:85-106 | under level it holds the name of the level |
| JsonLog.RecordSaysEvent | src/zpp/core/spdlog.cpp:345-370 | under each name of what happened it holds that datum: thread and message of the payload if it carries them, otherwise the logger's thread and the payload, and the tags of that message |

## Left out

- Weak memory ordering: all accesses are sequentially consistent steps; spin locks, mutexes and the kernel semaphore are exclusion, sets and counters.
- The step machines work on values, not on objects updated in place: aliasing is modelled where it matters (chunk and block addresses), the C++ object layout is not.
- FreeList.StepKeepsInv: runs have fewer than 2^31 - 1 threads; each holds at most one temporary reference to a node, so the 31-bit count, which the source packs beside the flag bit without a check, cannot overflow.
- BlockRingRuns.StepKeepsInv: the empty flags of a reused block are cleared in one step, and the counter form of is_empty for block sizes above 32 is not modelled; blocks come from an allocator that never hands out a block in use; exception roll-back, enqueue_bulk and MAX_SUBQUEUE_SIZE are left out. Indices do not wrap around; that the lookup, the masks and the comparisons agree with the wrapped 64-bit computation is stated one by one by BlockRingWords, Bits.MaskedSlot and Words.CircularAgrees, not as runs on words.
- BlockRingProducer.CopyEntries: index sizes are arbitrary rather than powers of two, with % for the masks; Bits.MaskIsRemainder relates the two.
- Tickets.StepKeepsInv: counters do not wrap around; a bulk dequeue with max 0, which claims nothing but still looks up a block, ends at its claim.
- Semaphore.StepKeepsInv: m_count does not overflow, and the kernel semaphore's timed wait may fail at any time.
- ChunkQueue.StepKeepsInv: append_chunk, the move to the next chunk, and storing back_local_ with back_ptr_ are single steps, as their other accesses are to fields of one side; the constructor's first allocation succeeds.
- ChunkQueue.ApproxSizeIsExact: not stated for a published pointer in another chunk than back_end_ptr_, where the source subtracts pointers into different allocations.
- Mpmc.Mpmc.ApproxSize: not stated for a queue whose last chunk was appended and not yet pushed to, for the same reason.
- Mpmc.Mpmc.Push: one call at a time; interleavings are the subject of ChunkQueue. Addresses of new chunks are parameters.
- TaskPool: the NNG side of task::dispatch and the stop loop over the tasks' handles.
- Requester: opening contexts, start-up failures and logging; the pool's memory is taken to suffice, and stop is modelled as operations completing with any result and then a close.
- Seqlock: the version does not wrap around, and last_update_ns, which the writer never stores, is not part of a snapshot.
- Ring.Ring.constructor: requests above 2^63, for which capacity_ is 0, are excluded.
- RingRuns.StepKeepsInv: the calls are push(t), flush(), pop(t) and empty(); the form in which a client stores into back() between full() and push() is Ring.Ring.PushBack, one call at a time, and approx_size is not interleaved.
- Wire: binary64 values are their bit patterns, as bit_cast makes them.
- JsonEscape.EscapeRoundTrip: the reference reader takes \u escapes below 0x80 only, the only ones written.
- JsonLog.Format: the text of the time stamp is a parameter.
- JsonLog.RecordRoundTrip: names are taken to be plain, as the fourteen literals are.
- The implicit producer, consumer tokens, the global producer list, hashing and thread-exit callbacks of concurrentqueue.h; the deprecated pipeline driver; NNG, Folly, HPX and CUDA adapters; log sinks, timers, JSON documents, endpoint parsing and build tooling: thin or repeating code, or code that calls into libraries that are not part of this model.
