# Verified models of the greedy I/O scheduler and the Kyouko3 DMA driver

Two programs of the repository are modelled, each as its code works, and their promises are proved for
all inputs, all runs and all interleavings.

**The greedy (shortest seek first) I/O scheduler**, `SSTF/greedy-iosched.c`. It keeps two sorted lists of
requests, those that start below the disk head and the others, and serves the nearer of two candidates:
the last of the lower list or the first of the upper one.

- `sectors.dfy`, `scheduler.dfy`: requests, 64-bit distances, and the calls on the values of the two
  queues, with nothing assumed about overlap. What each call does to any state, safety of the unsigned
  comparison, the side and the order of requests over runs, conservation, draining.
- `nearest.dfy`: a naive scheduler that searches the whole pending set, and the proof that the two
  queues do the same in every run whose arrivals are disjoint from what is pending.
- `seek.dfy`: what draining a batch costs: contiguous service, the doubling of reversals, the bound
  3W + 2S on total seek, and the factor six against any other serving order.
- `elevator.dfy`: the circular lists in memory, changed in place, each method proved against a step of
  `scheduler.dfy`.

**The DMA ring and command FIFO of the Kyouko3 driver**, `Kyouko3_GrpahicsDriver/mymod.c`.

- `fifo.dfy`: the 1024-entry ring against an unbounded log, what one flush carries from any state of the
  ring, and the code of FIFO_WRITE and fifo_flush.
- `dma_ring.dfy`: the user thread, the interrupt handler and the card as a transition system. Program
  points stand wherever the interrupt can strike inside start_dma and late_unbind_dma. The card reads
  its commands out of the physical FIFO ring.
- `dma_safety.dfy`, `dma_theorems.dfy`: the invariant every step keeps, and what follows for whole runs.
- `dma_flush.dfy`: fifo_flush with the card and the handler acting anywhere in it: it returns, and exactly
  when a caller can rely on it.
- `dma_witnesses.dfy`: runs that do reach the states the limits are about: sleepers, flushes that fail, and
  the longest backlog that leaves the DMA safe.
- `kyouko3.dfy`: the driver's code, stretch by stretch and as whole calls, with the card and the handler
  acting in between; every call is shown to be a run of the transition system.
- `lifecycle.dfy`: what is acquired and released between open and release.

Assumptions of the driver model: one user thread; one CPU, so that the handler is masked in the locked
section (the spinlock itself is local to each call, line 249, and the handler takes none); the card raises
bit 0x02 once per completed transfer; start_dma is called on a bound ring; each FIFO entry the user
queues is written in one step, carries no DMA command, and is queued only while the user's own unconsumed
entries stay at most 1021; the handler runs as one step, since the card sees only what it publishes at its
end. Neither the unlocked writes of lines 267-270 nor any part of fifo_flush is assumed atomic: the
handler and the card may act anywhere among them. In the transition system no signal cuts a wait short;
in the code of `kyouko3.dfy` one may, and what then still holds is stated.

Promises that hold only under a condition, with the condition proved exact:

- A published batch arrives complete, behind what was unconsumed, however the card and others act while it
  is being written, if and only if the two together are fewer than 1024 entries
  (`CommandFifo.EverySchedule`). If the card waits until the batch is published, only their number modulo
  1024 arrive, the last ones (`CommandFifo.OneFlush`), and at exactly 1024 nothing arrives, then or ever
  (`CommandFifo.FullBatchLost`). FIFO_WRITE itself never checks.
- fifo_flush returns with everything received, whatever the card and the handler do in the meantime, if and
  only if this holds when it is called (`DmaFlush.FlushExact`). Let n entries be new since the driver last
  read the tail, u of them unconsumed, and d still to come from the handler, two for each queued call but
  the first. Then u + d must be below 1024, and none of n, n + 2, ..., n + d may be a positive multiple of
  1024, n itself counting only if u is not 0. n + d below 1024 is always enough
  (`DmaFlush.FewStay`). It fails after 511 calls without a flush and two
  entries more (`DmaWitnesses.StaleFlush`), but also with the tail freshly read, seven calls queued and 1012
  entries unconsumed (`DmaWitnesses.FreshTailFlush`).
- 1021 is the largest backlog of the user's own entries that leaves the DMA safe: it occurs, and from every
  reachable state that has it, one entry more can lead to a teardown that sleeps for ever
  (`DmaWitnesses.LongestBacklog`, `DmaWitnesses.OneEntryMore`).
- The buffer a thread is about to be handed is used by no queued call if and only if the ring is not full
  (`DmaTheorems.WaitProtects`), which is what the wait at line 279 is for; and nothing is queued or at the
  card if and only if the ring is empty (`DmaTheorems.TeardownProtects`), which is what the wait at line 223
  is for. Both waits ignore a signal that cuts them short, and both sleeps are reached, on a full ring
  (`DmaWitnesses.SleeperReachable`) and with a transfer under way (`DmaWitnesses.TeardownSleeper`); what an
  early exit then does is `DmaTheorems.CutShortWait` and `DmaTheorems.CutShortTeardown`.
- Resources balance if and only if the device is never opened while it is open
  (`Lifecycle.BalancedExactly`): kyouko3_open overwrites its handles and clears `dma_mapped`.
- The unsigned comparison is that of the two distances where a difference that wraps is 2^64 too large
  (`Scheduler.WrapLimit`). So it favours the lower queue over an upper start behind the head if and only if
  2 * head < 2^64 + lower start + upper start, which all sectors below 2^63 ensure. One request that ends
  at 2^63 exactly is enough to break it (`Scheduler.BoundNeeded`). At a cut, with arrivals disjoint, neither
  difference wraps for any 64-bit sectors (`NearestFirst.CutComparison`).

## Model

| member | source | states |
|---|---|---|
| Scheduler.InsertPlace | SSTF/greedy-iosched.c:50-52 | the reverse scan leaves the new request after every smaller start and before every equal or larger one, everything else in place |
| Scheduler.InsertSorted | SSTF/greedy-iosched.c:45-53 | insertion keeps a queue sorted and adds exactly the new request |
| Scheduler.AddSides | SSTF/greedy-iosched.c:45-53 | on any state a start below the head adds exactly the request to the lower queue and leaves the upper one unchanged, any other start the other way round |
| Scheduler.DispatchTakes | SSTF/greedy-iosched.c:21-42 | on any state a dispatch takes the last lower or the first upper request and moves nothing else, and the head becomes the request's end as a 64-bit sum |
| Scheduler.MergeMeans | SSTF/greedy-iosched.c:63-69 | two different requests may merge exactly when they touch and follow each other in one queue |
| Scheduler.MergeReplaces | SSTF/greedy-iosched.c:14-16 | a merge puts one request, with the first one's id and start and the sectors of both, in the place of the two and touches nothing else |
| Scheduler.SafeComparison | SSTF/greedy-iosched.c:33-36 | with all sectors below 2^63 the lower distance is exact, and the comparison picks lower exactly if the upper front is behind the head or strictly farther |
| Scheduler.WrapLimit | SSTF/greedy-iosched.c:33-36 | for any 64-bit sectors and any head, the comparison is that of the distances with 2^64 added to each difference that wraps |
| Scheduler.ChoiceExact | SSTF/greedy-iosched.c:33-36 | in any state with 64-bit sectors the lower candidate is chosen exactly when 2 * head, plus 2^64 if it lies above the head, is below the sum of the two starts, plus 2^64 if the upper one lies below the head |
| Scheduler.OverlapSafety | SSTF/greedy-iosched.c:18-53 | over every run with requests below 2^63, overlapping or not: queues sorted, no lower start above the head, and an upper front behind the head is served only when the lower queue is empty |
| Scheduler.NoneOvertaken | SSTF/greedy-iosched.c:18-53 | over every run with requests below 2^63, while a request waits in the lower queue none with a smaller start is served |
| Scheduler.BoundNeeded | SSTF/greedy-iosched.c:33-37 | the bound is tight: a run of four calls, one request ending at 2^63 exactly, in which a dispatch passes over a waiting lower request for an upper one behind the head |
| Scheduler.EqualStarts | SSTF/greedy-iosched.c:22-23 | over every run, among equal starts the lower queue gives up the oldest request and the upper queue the newest |
| Scheduler.SideOfArrival | SSTF/greedy-iosched.c:45-53 | over every run, overlapping or not, a pending request is in the lower queue exactly if it started below the head when it arrived |
| Scheduler.BelowOldestFirst | SSTF/greedy-iosched.c:45-53 | over every run, requests that arrived below the head and share a start are served in the order they arrived |
| Scheduler.StepConserves | SSTF/greedy-iosched.c:14-53 | what each call does to any additive account over pending and served requests |
| Scheduler.Conservation | SSTF/greedy-iosched.c:14-53 | over every run each id added is exactly once pending, served or absorbed, and each sector is requested as often as it is pending or served, merges included |
| Scheduler.DrainComplete | SSTF/greedy-iosched.c:25-29 | a dispatch finds nothing exactly when both queues are empty, which takes one success per pending request |
| Scheduler.DrainConserves | SSTF/greedy-iosched.c:39-42 | the requests served by k dispatches and those left are together the initial ones, each once |
| NearestFirst.NearestExists | SSTF/greedy-iosched.c:28-37 | the naive choice, nearest with ties upward, exists in every non-empty pending set |
| NearestFirst.CutComparison | SSTF/greedy-iosched.c:33-36 | while lower starts lie below the head and upper ones at or above it, both differences are exact over the whole 64-bit range |
| NearestFirst.TargetNearest | SSTF/greedy-iosched.c:22-37 | comparing two queue ends finds the one request of the whole pending set that the naive search would choose |
| NearestFirst.AddCut | SSTF/greedy-iosched.c:45-53 | an arrival keeps lower ++ upper one ascending list cut at the head and adds exactly itself |
| NearestFirst.ServeCut | SSTF/greedy-iosched.c:39-41 | a dispatch keeps the cut at the new head, the end of the served request, and removes exactly that request |
| NearestFirst.MergeAllowed | SSTF/greedy-iosched.c:63-69 | the latter request adjoins exactly when two pending requests touch on the same side of the head |
| NearestFirst.MergeCut | SSTF/greedy-iosched.c:14-16 | absorbing the latter request keeps sortedness, disjointness and the cut |
| NearestFirst.StepSimulates | SSTF/greedy-iosched.c:14-53 | every call does to the abstraction what the naive scheduler does |
| NearestFirst.Refinement | SSTF/greedy-iosched.c:14-53 | for every run with disjoint arrivals whose ends are 64-bit sectors, the two queues and the naive scheduler hold the same requests, stand at the same head and have served the same sequence |
| SeekCost.ServedBlock | SSTF/greedy-iosched.c:22-42 | after k dispatches the served requests are one block of the initial list around the head and the queues are what is left on its two sides |
| SeekCost.ContiguousService | SSTF/greedy-iosched.c:22-42 | every pending request lies below all served ones, or at or above the end of all of them, on its initial side of the head |
| SeekCost.UpStretch | SSTF/greedy-iosched.c:33-39 | while the head keeps going up the lower queue waits unchanged |
| SeekCost.DownStretch | SSTF/greedy-iosched.c:33-39 | while the head keeps going down the upper queue waits unchanged and the head stays below the end of the first request reached |
| SeekCost.Doubling | SSTF/greedy-iosched.c:33-39 | of two consecutive reversals the second is at least twice an upward first, and more than twice a downward first less the size of the request that one reached |
| SeekCost.PaidUp | SSTF/greedy-iosched.c:33-39 | an upward move keeps the potential that pays for all seeks so far |
| SeekCost.PaidDown | SSTF/greedy-iosched.c:33-39 | a downward move keeps it too |
| SeekCost.SeekBound | SSTF/greedy-iosched.c:28-42 | within any interval of width W holding the head and the batch, reversals seek at most 2W + S, other moves W + S, all moves 3W + 2S |
| SeekCost.TravelSpans | SSTF/greedy-iosched.c:28-42 | in any serving order the head travels at least the distance between any two points it visits |
| SeekCost.SixCompetitive | SSTF/greedy-iosched.c:28-42 | draining greedily moves the head at most six times as far as any other order of the same requests |
| GreedyElevator.ListAdd | SSTF/greedy-iosched.c:52 | list_add after the k-th element of a ring gives the ring with the node inserted there |
| GreedyElevator.ListDelInit | SSTF/greedy-iosched.c:40 | list_del_init on a ring element gives the ring without it and leaves the node linked to itself |
| GreedyElevator.RingLinks | SSTF/greedy-iosched.c:22-26 | the neighbours of each element, and when they are the sentinel |
| GreedyElevator.Queue.ScanBack | SSTF/greedy-iosched.c:49-51 | the reverse scan, falling through to the sentinel if need be, stops where the specification inserts |
| GreedyElevator.Queue.InsertBySector | SSTF/greedy-iosched.c:47-52 | scan and list_add turn the list into the specified insertion, in place |
| GreedyElevator.GreedyData.constructor | SSTF/greedy-iosched.c:71-93 | two empty lists and a head at sector 0 |
| GreedyElevator.GreedyData.NextTarget | SSTF/greedy-iosched.c:21-37 | the branches of the choice return the specified end of the specified queue, or nothing when both are empty |
| GreedyElevator.GreedyData.Dispatch | SSTF/greedy-iosched.c:18-43 | the result, the new lists and head are those of the specified dispatch, and the request leaves its list for the end of the dispatch list |
| GreedyElevator.GreedyData.AddRequest | SSTF/greedy-iosched.c:45-53 | the lists afterwards are those of the specified add (Scheduler.AddSides says which one changes), with exactly this node more |
| GreedyElevator.GreedyData.MergedRequests | SSTF/greedy-iosched.c:14-16 | exactly `next` leaves its queue |
| GreedyElevator.GreedyData.AttemptMerge | SSTF/greedy-iosched.c:14-69 | asking for the latter request, extending over it and reporting the merge is the specified merge, made exactly when allowed |
| GreedyElevator.GreedyData.FormerLatterInverse | SSTF/greedy-iosched.c:55-69 | former and latter undo each other wherever they are not NULL |
| GreedyElevator.GreedyData.LatterMatches | SSTF/greedy-iosched.c:63-69 | the pointer look-up answers the next request of the same queue, NULL at its end |
| GreedyElevator.GreedyData.MayExit | SSTF/greedy-iosched.c:98-99 | the two list_empty checks hold exactly when nothing is pending |
| CommandFifo.RingIsQueue | Kyouko3_GrpahicsDriver/mymod.c:152-157 | while writes leave fewer than 1024 entries unconsumed, across any number of wraparounds the card receives exactly the entries written, in order |
| CommandFifo.FlushTest | Kyouko3_GrpahicsDriver/mymod.c:296 | the exit test, with a possibly stale cache, passes exactly when the entries since the last read fill whole rings; with fewer than 1024 everything was received |
| CommandFifo.PublishedBatch | Kyouko3_GrpahicsDriver/mymod.c:152-157 | after any published batch the ring stands for the log with only the kept entries in it, and keeps doing so over any later run with room |
| CommandFifo.OneFlush | Kyouko3_GrpahicsDriver/mymod.c:294-300 | from any state of the FIFO, with the card idle until the batch is published, it receives, after what it has, the last n modulo 1024 of the n entries unconsumed and in the batch; all of them if and only if n < 1024 |
| CommandFifo.EverySchedule | Kyouko3_GrpahicsDriver/mymod.c:152-157 | every way of interleaving the writes of a batch with the card, publishes and reads of the tail delivers it whole, if and only if the unconsumed entries and the batch are fewer than 1024 |
| CommandFifo.SynchronisedFlush | Kyouko3_GrpahicsDriver/mymod.c:294-300 | with nothing unconsumed a batch arrives complete if and only if it has fewer than 1024 entries |
| CommandFifo.FullBatchLost | Kyouko3_GrpahicsDriver/mymod.c:294-300 | a batch that brings the unconsumed entries to exactly 1024 leaves the card an empty FIFO, and whatever is written later it receives that and none of the lost entries; a flush from a synchronised state returns at once |
| CommandFifo.Fifo.constructor | Kyouko3_GrpahicsDriver/mymod.c:357-361 | a fresh FIFO stands for the empty log |
| CommandFifo.Fifo.Write | Kyouko3_GrpahicsDriver/mymod.c:152-157 | the slot at the head takes the entry, the head wraps at 1024, and the ring goes on standing for the log if there was room |
| CommandFifo.Fifo.Flush | Kyouko3_GrpahicsDriver/mymod.c:294-300 | with the handler silent and a card that makes progress the loop ends, and with fewer than 1024 entries new since the tail was last read only when everything written was received |
| DmaRing.AcceptsRange | Kyouko3_GrpahicsDriver/mymod.c:252-260 | the two checks, the second unsigned, accept exactly the counts 1 to 126976 |
| DmaRing.U32Word | Kyouko3_GrpahicsDriver/mymod.c:152-157 | a FIFO value keeps the low 32 bits of what is written: it differs by a multiple of 2^32, and not at all if it fits |
| DmaSafety.MeetsWhenEmpty | Kyouko3_GrpahicsDriver/mymod.c:265 | on entry fill meets drain exactly when the ring is empty |
| DmaSafety.MeetsWhenFull | Kyouko3_GrpahicsDriver/mymod.c:275-277 | after the increment fill meets drain exactly when the ring is now full |
| DmaSafety.StartEmptyKeeps | Kyouko3_GrpahicsDriver/mymod.c:262-266 | the empty path of the locked section keeps the invariant |
| DmaSafety.StartQueuedKeeps | Kyouko3_GrpahicsDriver/mymod.c:262-278 | the queued path keeps it, the stored count landing in a slot no queued call uses |
| DmaSafety.ThreadKeeps | Kyouko3_GrpahicsDriver/mymod.c:266-281 | every unlocked stretch of start_dma and late_unbind_dma keeps it |
| DmaSafety.ConsumeKeeps | Kyouko3_GrpahicsDriver/mymod.c:174-176 | a command the card reads from the ring is the next half of the pair of the oldest queued call |
| DmaSafety.HandlerCounts | Kyouko3_GrpahicsDriver/mymod.c:161-181 | a completion interrupt finds a queued, finished call and no thread in the unlocked window, and moves on by one call |
| DmaSafety.InterruptKeeps | Kyouko3_GrpahicsDriver/mymod.c:161-181 | the handler keeps the invariant |
| DmaSafety.StepKeeps | Kyouko3_GrpahicsDriver/mymod.c:161-282 | every enabled step of thread, handler, card and user keeps the invariant |
| DmaSafety.RunKeeps | Kyouko3_GrpahicsDriver/mymod.c:161-282 | so does every run |
| DmaTheorems.CallsAreAccepted | Kyouko3_GrpahicsDriver/mymod.c:252-263 | the recorded calls are the accepted start_dma labels since the last bind |
| DmaTheorems.BuffersAreBound | Kyouko3_GrpahicsDriver/mymod.c:206-209 | the ring always works on the bus addresses of the last bind |
| DmaTheorems.TransfersInOrder | Kyouko3_GrpahicsDriver/mymod.c:168-177 | in every interleaving the transfers started are a prefix of the accepted calls, in order and once each, the k-th with the address of buffer k mod 8 of the last bind (itself if it fits 32 bits, else its low 32 bits) and the k-th count, sent directly or through stored_count |
| DmaTheorems.UserEntriesInOrder | Kyouko3_GrpahicsDriver/mymod.c:286-292 | in every interleaving the entries received that are not DMA commands are a prefix of those the user queued, unchanged and in order, and all of them once nothing is unconsumed |
| DmaTheorems.FifoRegisters | Kyouko3_GrpahicsDriver/mymod.c:161-300 | the head is published only at line 270, by a handler that sends a next call, and at line 295, up to the last entry written; the tail is read only at line 297 |
| DmaTheorems.RingCounts | Kyouko3_GrpahicsDriver/mymod.c:262-279 | 0 <= queued_count <= 8 and fill = drain + queued_count modulo 8 at every point but the one-slot lag |
| DmaTheorems.EmptyOrFull | Kyouko3_GrpahicsDriver/mymod.c:265 | in every reachable state outside the lag fill meets drain exactly when the ring is empty or full |
| DmaTheorems.WaitProtects | Kyouko3_GrpahicsDriver/mymod.c:279-281 | for a thread at the wait or about to return, the buffer at fill is used by no queued call if and only if the ring is not full |
| DmaTheorems.CutShortWait | Kyouko3_GrpahicsDriver/mymod.c:279-281 | any thread asleep on a full ring, if it left the wait then, would be handed the buffer at the card and its next call would take the empty path with nine calls queued |
| DmaWitnesses.SleeperReachable | Kyouko3_GrpahicsDriver/mymod.c:247-281 | one direct call and seven queued ones, before the card acts, lead a run to a producer asleep on a full ring |
| DmaTheorems.WindowUndisturbed | Kyouko3_GrpahicsDriver/mymod.c:266-270 | no completion and no completion interrupt is possible between unlock and publish |
| DmaTheorems.PairsAdjacent | Kyouko3_GrpahicsDriver/mymod.c:266-270 | in every reachable state nothing stands between the two commands of a pair in the FIFO, and a config left alone is the next entry the card takes |
| DmaTheorems.SingleFlight | Kyouko3_GrpahicsDriver/mymod.c:168-178 | at most one call is at the card, it is dma_buffers[drain], and outside the window a non-empty ring always has one there |
| DmaTheorems.FifoNeverOverrun | Kyouko3_GrpahicsDriver/mymod.c:152-157 | in every reachable state, so while the user's own unconsumed entries stay at most 1021, at most two DMA entries are unconsumed and every unconsumed ring slot still holds what was written |
| DmaWitnesses.LongestBacklog | Kyouko3_GrpahicsDriver/mymod.c:286-292 | a backlog of 1021 entries of the user's own does occur |
| DmaWitnesses.OneEntryMore | Kyouko3_GrpahicsDriver/mymod.c:152-157 | from every reachable state with that backlog and the user outside the driver, whatever is queued or at the card, one more entry can lead to a thread asleep on dma_empty with calls queued and no step left to the thread, the card or the handler |
| DmaTheorems.UserOwnsBuffer | Kyouko3_GrpahicsDriver/mymod.c:271-281 | every call that used the buffer the user holds has been transferred and acknowledged |
| DmaTheorems.BufferKept | Kyouko3_GrpahicsDriver/mymod.c:252-260 | the user keeps that buffer until the next accepted call, through rejected calls and interrupts |
| DmaTheorems.WakeupsSuffice | Kyouko3_GrpahicsDriver/mymod.c:171-178 | a sleeper can run exactly when the condition it waits for holds, though wakeups come only on 8-to-7 and 1-to-0 |
| DmaTheorems.WorkShrinks | Kyouko3_GrpahicsDriver/mymod.c:161-282 | while a thread is inside a call every possible step leaves less to do |
| DmaTheorems.NeverStuck | Kyouko3_GrpahicsDriver/mymod.c:279 | while a thread is inside a call some step is possible |
| DmaTheorems.CallsReturn | Kyouko3_GrpahicsDriver/mymod.c:220-282 | no run stays inside a call for more steps than the work left |
| DmaFlush.FlushExact | Kyouko3_GrpahicsDriver/mymod.c:294-300 | fifo_flush returns with everything received under every course of card and handler if and only if, when called, fewer than 1024 entries are unconsumed or to come and the new ones never come to fill whole rings |
| DmaFlush.FewStay | Kyouko3_GrpahicsDriver/mymod.c:294-300 | if fewer than 1024 entries are new, those the handler has to write included, this stays so through any events and tail reads, and whenever the exit test passes everything was received |
| DmaFlush.EventsBounded | Kyouko3_GrpahicsDriver/mymod.c:161-181 | while the user only reads the tail, the card and the handler take at most as many steps as there was work, whatever the order |
| DmaFlush.FlushReturns | Kyouko3_GrpahicsDriver/mymod.c:294-300 | fifo_flush, with events before the first test and before and after every read of the tail, ends after at most one round more than the work there was |
| DmaWitnesses.StaleFlush | Kyouko3_GrpahicsDriver/mymod.c:294-300 | 511 calls without a flush and two entries more reach a state where the exit test passes on a stale cache with two entries unconsumed |
| DmaWitnesses.FreshTailFlush | Kyouko3_GrpahicsDriver/mymod.c:294-300 | a reachable state with the tail just read, 1012 entries unconsumed and seven calls queued, and a course of fifo_flush from it that returns with something unreceived |
| DmaTheorems.TeardownSafe | Kyouko3_GrpahicsDriver/mymod.c:220-230 | buffers are freed only when every accepted call was transferred and acknowledged and no DMA command is left anywhere |
| DmaTheorems.TeardownProtects | Kyouko3_GrpahicsDriver/mymod.c:223 | for a thread at the teardown wait, every call is transferred and acknowledged and no command is left if and only if the ring is empty |
| DmaTheorems.CutShortTeardown | Kyouko3_GrpahicsDriver/mymod.c:223-225 | any thread asleep on dma_empty before its wakeup would, if it left the wait then, free the buffer of a call still to be transferred or acknowledged |
| DmaWitnesses.TeardownSleeper | Kyouko3_GrpahicsDriver/mymod.c:220-225 | a run leads to that sleep with a transfer under way out of dma_buffers[drain] |
| DmaTheorems.TeardownCompletions | Kyouko3_GrpahicsDriver/mymod.c:223 | with no further producer call exactly queued_count interrupts lead to the freeing |
| Kyouko3Driver.Kyouko3.constructor | Kyouko3_GrpahicsDriver/mymod.c:357-364 | the driver starts in an initial state of the transition system, with nothing written |
| Kyouko3Driver.Kyouko3.DmaIntr | Kyouko3_GrpahicsDriver/mymod.c:161-181 | the handler is the interrupt step, and does nothing when bit 0x02 is clear |
| Kyouko3Driver.Kyouko3.LockedSection | Kyouko3_GrpahicsDriver/mymod.c:262-278 | the locked section is the start step, with the branch it takes |
| Kyouko3Driver.Kyouko3.SendDirectly | Kyouko3_GrpahicsDriver/mymod.c:266-270 | the unlocked writes, preempted anywhere, are a run of the transition system |
| Kyouko3Driver.Kyouko3.WaitEvent | Kyouko3_GrpahicsDriver/mymod.c:279 | either wait ends, with its condition met, or asleep if a signal cuts it short, as a run of the transition system |
| Kyouko3Driver.Kyouko3.StartDma | Kyouko3_GrpahicsDriver/mymod.c:247-282 | a bad count changes nothing; a good one submits the buffer held and returns the next, used by no queued call; the whole is a run. With the wait cut short the buffer returned is free if and only if the ring is not full |
| Kyouko3Driver.Kyouko3.LateUnbindDma | Kyouko3_GrpahicsDriver/mymod.c:220-231 | it returns with every accepted call transferred and acknowledged, or, with the wait cut short, if and only if the ring had emptied |
| Kyouko3Driver.Kyouko3.FifoQueue | Kyouko3_GrpahicsDriver/mymod.c:286-292 | the entry goes unchanged into the slot at the head and to the end of the log, whatever copy_from_user answers, as the user-write step |
| Kyouko3Driver.Kyouko3.FifoFlush | Kyouko3_GrpahicsDriver/mymod.c:294-300 | the code of fifo_flush, preempted anywhere, returns, and is one of the runs DmaFlush.FlushExact is about; under that condition at the call everything written was received |
| Kyouko3Driver.Kyouko3.BindRing | Kyouko3_GrpahicsDriver/mymod.c:211-217 | a bind resets the ring, stores the buffers' addresses and hands out buffer 0 |
| Lifecycle.LateUnbindGives | Kyouko3_GrpahicsDriver/mymod.c:225-230 | an unbind gives back exactly what the bound ring held |
| Lifecycle.BindTakes | Kyouko3_GrpahicsDriver/mymod.c:185-217 | a successful bind acquires MSI, interrupt and eight buffers under fresh handles |
| Lifecycle.BalancedAlways | Kyouko3_GrpahicsDriver/mymod.c:185-380 | with one file open at a time, over every sequence of calls, dma_mapped holds exactly when MSI, interrupt and all buffers are held, nothing is released twice, nothing is held after release |
| Lifecycle.UnbindReturns | Kyouko3_GrpahicsDriver/mymod.c:233-245 | an early unbind gives back the whole ring and nothing of the file, and the next bind succeeds |
| Lifecycle.Refusals | Kyouko3_GrpahicsDriver/mymod.c:188-204 | a repeated bind, a bind without MSI and an unbind of an unbound device change nothing; a bind without the interrupt gives the MSI back |
| Lifecycle.HeldByCalls | Kyouko3_GrpahicsDriver/mymod.c:185-380 | with one file open at a time the calls alone decide: dma_mapped, and 3 resources per open file plus 10 from a successful bind to the next unbind or release |
| Lifecycle.ReturnsAlways | Kyouko3_GrpahicsDriver/mymod.c:220-245 | in any state, nested opens included, unbind and release take back exactly what the handles in use name |
| Lifecycle.TakesAlways | Kyouko3_GrpahicsDriver/mymod.c:185-368 | in any state an open takes three fresh resources, clears dma_mapped, and a successful bind takes ten fresh ones |
| Lifecycle.NestedOpenLoses | Kyouko3_GrpahicsDriver/mymod.c:349-364 | after an open of an open device something stays held out of every handle's reach, for good |
| Lifecycle.SecondOpen | Kyouko3_GrpahicsDriver/mymod.c:349-364 | a nested open loses everything that was held, a bound ring included |
| Lifecycle.BalancedExactly | Kyouko3_GrpahicsDriver/mymod.c:349-380 | once all files are closed resources balance if and only if no open was nested |
| Lifecycle.Device.BindDma | Kyouko3_GrpahicsDriver/mymod.c:185-218 | each outcome, already bound, MSI failure, interrupt failure, success, is the specified one; it succeeds exactly if not bound and both requests succeed |
| Lifecycle.Device.LateUnbindDma | Kyouko3_GrpahicsDriver/mymod.c:220-231 | the release loop and what follows are the specified unbind |
| Lifecycle.Device.OnTimeUnbindDma | Kyouko3_GrpahicsDriver/mymod.c:233-245 | returns 1 and changes nothing when not bound, else returns 0; either way nothing of a ring is held afterwards |
| Lifecycle.Device.OpenFile | Kyouko3_GrpahicsDriver/mymod.c:349-368 | opening acquires three resources, overwrites their handles and clears dma_mapped |
| Lifecycle.Device.ReleaseFile | Kyouko3_GrpahicsDriver/mymod.c:370-380 | releasing unbinds if bound and gives back the three file handles |

## Left out

- Growth of a queued request by a single bio (front or back): the block layer's own, before the scheduler is asked; only merges of two queued requests are modelled.
- The dispatch list is a sequence of nodes; how the block layer links a dispatched request there is not modelled.
- Request sizes of zero: allowed in the overlap results, excluded where disjoint extents are the point (refinement and seek bounds), where they have no extent.
- Starvation: the scheduler does not prevent it under continuous arrivals, so nothing is claimed.
- elevator_alloc and kmalloc failure in greedy_init_queue, elevator registration: calls into the kernel with no scheduler state yet.
- Reopening: the card is taken to start its FIFO afresh when kyouko3_open writes FifoStart and FifoEnd, since the driver's head starts at 0 again.
- Two CPUs: the spinlock is local to each call and protects nothing between CPUs; only one CPU is modelled.
- start_dma on an unbound ring: the code does not check; the ring is assumed bound.
- Signals in the transition system: what a thread does after leaving a wait early is stated for the call that left it, not followed through later calls.
- CommandFifo.Fifo.Flush: entries the handler writes during the loop; DmaFlush.FlushExact and Kyouko3Driver.Kyouko3.FifoFlush interleave them.
- DmaTheorems.FifoNeverOverrun: covers users that keep at most 1021 entries unconsumed, because FIFO_QUEUE accepts more and DmaWitnesses.OneEntryMore shows that it then fails.
- FIFO_WRITE is one step of the thread, not three stores: WindowUndisturbed shows that no handler can run among the unlocked ones, and those of FIFO_QUEUE are assumed atomic.
- Memory-mapped user addresses (vm_mmap, vm_munmap, kyouko3_mmap): buffers are named by index.
- Register timing, memory barriers, mode setting, PCI probe and removal, copying to and from user space: hardware and kernel plumbing.
- The earlier drafts under mylab, the system-call exercises and the user program main.c.
