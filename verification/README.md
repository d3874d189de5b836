# GridLAB-D core: a verified model

GridLAB-D simulates power systems as discrete events. Its executive asks every object when it next changes, takes the
earliest answer as the next clock value, and repeats. Objects are visited rank by rank, in three passes, and the objects
of one rank can be shared out to worker threads that meet the main thread at a barrier. Around the executive sit smaller
engines: end-use metering, a communication network, object search, a pattern matcher, set properties as text, aggregates
and the ranks of the object tree.

The modules, in reading order:

| module | what it models |
|---|---|
| `Options` | a value or none |
| `Sync` | one object's synchronisation, event times, rounding to the minimum timestep, the record a thread collects |
| `Slices` | cutting a rank list into one slice per thread, working through a slice, merging the threads' records |
| `Barrier`, `BarrierInvariant`, `BarrierTheorems` | the start/done barrier as a transition system of lock operations, waits, broadcasts and assignments, with spurious wakeups, failing thread creation and 32-bit counters; its inductive invariant; what follows from it |
| `ParallelPass`, `ParallelProgress` | the same system with the thread data in it: the refinement of the sequential pass, and when a pass can be completed |
| `ObjectLaws`, `PassLaws` | what synchronised objects and passes come to, in terms of answers, service dates and the clock alone; when a run is given up |
| `MainLoop`, `ParallelRun` | the main loop with every outside answer arbitrary: clock, convergence limit, commits, whole runs; and whole runs with the pool of threads inside it |
| `LinkedList`, `RankIndex`, `Traversal` | the doubly linked lists, the growable rank index, and the three passes through it, shuffled or not |
| `ObjectRank`, `RankedTree` | setting parents, which gives parents a higher rank than their children; what that means for the passes |
| `Network`, `NetworkRuns`, `Pacing`, `Delivery`, `Inbox`, `MessageOrder` | the communication network in its rejecting mode on sequences of messages: a call of commit, whole runs, the arithmetic of rates, exact delivery; the recursive in-place filter of a linked inbox, and the order in which an inbox is read |
| `Links`, `NetworkObjects` | what polling, commit and reading do to the links of messages, as functions on a heap of cells, and the objects that do it |
| `OrderlyLinks`, `Unlinking`, `Demand`, `LinkedCommit`, `LinkedReading` | links that are lists: what the walks of a call and the filter of an inbox make of them; that a call does what it does on sequences, and exactly when |
| `LinkedRuns`, `LinkedNetwork`, `Bandwidth`, `SentOrder`, `Overlap` | whole runs on links: when they are the runs on sequences, what they then keep, that no bandwidth lies idle, the order in which two messages of one interface are read, and two runs that go wrong |
| `NetworkInRun` | a network among the objects that the main loop commits |
| `FindList` | the packed bit set of a search, the compiled search program, searches by argument list |
| `Match` | the regular expression matcher |
| `Bits`, `SetText`, `SetMasks` | words bit by bit; printing and reading set properties; which tables of keywords are printed in full |
| `Enduse`, `EndusePool` | energy and demand metering, and the thread arithmetic of end uses; the pool of end-use threads in its barrier, merging what each of them found |
| `Aggregate` | aggregates over a group, including the on-line variance |

Code that changes things in place is a method or a class here, proved against a function of its inputs or old state; the
laws are then proved about that function. What cannot be seen from this code (what objects, schedules, transforms and
commits answer, random draws, whether a thread can be created, when a waiting thread wakes up) is a parameter or an
action that may happen at any time, so a statement about a run holds for every such choice. Doubles are reals; times and
identifiers are integers; counters whose wrap-around matters are 32 bits wide.

## Where the code does something other than expected

Each of these is a lemma below, with the exact condition or with a concrete input.

* Rounding an event to the minimum timestep is exact for positive times, and for others only if the time before is a
  multiple: C division truncates toward zero (`Sync.RoundUpExactIff`). The inexact side needs a time of zero or less,
  which the executive does not round while its clock is not negative (`Sync.AnnouncedIsLeast`).
* If a worker thread cannot be created, the main thread waits for ever (`BarrierTheorems.LeavingPossibleIff`).
* The clock goes back exactly if a transform answers with a time in the past, in one pass and over whole runs, and
  then the main loop need not end (`MainLoop.ClockMonotoneIff`, `MainLoop.NeverBackIff`,
  `MainLoop.PastTransformRunsForever`).
* An index's first used ordinal is the lowest rank in use exactly if some rank is at most 10
  (`Traversal.UsedTightIff`), and shuffling an index permutes the first `last_used - first_used` positions rather than
  the used ones (`RankIndex.Index.Shuffle`). Growing an index doubles its size until there is room, which ends exactly
  if the size is not zero; an index may be created with equal ordinals, and then the size is zero
  (`RankIndex.Index.Create`, `RankIndex.DoublingEndsIff`).
* A parent link that would close a loop is refused, but stays in place (`ObjectRank.LoopRefusedButKept`), and a refused
  link leaves marks that refuse later ones, but for the cases of `ObjectRank.RefusedKeepsAllIff`.
* In rejecting mode no message is ever rejected or delayed: the tally that is compared with the bandwidth is never
  raised, so a message without bandwidth is marked as being sent at rate zero, contrary to the enumeration's comment
  (`NetworkRuns.RejectsIffNoBandwidth`, `LinkedNetwork.LinkedNothingRejected`). Delivering a message when the latency
  rounds up to zero or less makes commit answer with a time that is not in the future, which ends the run, unless the
  answer is 1, which the executive takes for success (`NetworkRuns.AnswersLateIff`,
  `NetworkInRun.DeliveryWithoutLatencyFailsRun`).
* An interface is meant to send at its first poll (comm/network_interface.cpp:205-207), but the field that this branch
  looks at is never -1: it is assigned only the sizes of buffers (comm/network_interface.cpp:219, 275), and objects
  start as cleared memory (core/object.c:276). The first poll compares the data with a cleared buffer, and data that
  are all zero are not sent (`NetworkObjects.FirstPollIff`).
* A message is queued without a link back, and taking a finished message out of its outbox needs one unless it is the
  first. So a call leaves the outboxes with exactly their unfinished messages if and only if no finished message is
  behind an unfinished one (`LinkedCommit.CommitIff`), and a whole run does what it should if and only if that is so
  at every call (`LinkedRuns.FaithfulIff`), which is to say that no call delivers a message while a newer one of its
  interface stays undelivered (`SentOrder.AlwaysInFrontIff`). It suffices that interfaces queue only when their outbox
  is empty (`LinkedRuns.OneAtATime`). Whatever is said here of whole runs of a network is said of such runs.
* Otherwise the delivered message stays linked behind the newer one, and the next call delivers it again. Of two
  messages of size 3, queued at 0 and at 1, the older is delivered at 3, and again at 4, with a later end, behind the
  newer one, which is then read first (`Overlap.OverlapReversesOrder`). If the newer one is queued at 2, the message
  delivered again becomes its own successor, and neither a later call nor a reading of that inbox ends
  (`Overlap.OverlapNeverEnds`).
* Messages of one interface that finish in the same call are delivered newest first, and so they are read newest
  first. Of two messages of one interface the one sent first is read first if and only if the outbox does not hold it
  any more when the other is queued (`SentOrder.SentOrderKeptIff`).
* The node at the head of an inbox is neither kept nor freed when it is due (`Inbox.LostIff`).
* An escaped character in a pattern also matches a backslash (`Match.EscapeAcceptsBackslash`).
* Printing a set is greedy and can leave bits unnamed that some choice of keywords would name
  (`SetMasks.GreedMisses`). Every sub-table of a table prints every value made of its keywords in full if and only if
  of any two keywords the one printed later shares no bit with the earlier one or is part of it
  (`SetMasks.InFullIff`); for two keywords that is exact for the pair itself (`SetMasks.TwoInFullIff`). In such a
  table exactly the values made of keywords come back (`SetMasks.ComesBackIffCovered`). The table of flow directions
  is of that kind (`SetMasks.FlowDirectionsNested`).
* The constant power, current and impedance parts of an electric end use with a shape add up to its total exactly if
  their fractions add up to one or to nothing, or there is no load (`Enduse.PartsMakeTotalIff`).
* End uses get more threads than allowed if and only if there are at least four times as many as threads allowed, and
  not a multiple of them (`Enduse.MoreThanAllowedIff`); never by more than a quarter (`Enduse.SetupThreads`). 29 end
  uses on 6 threads make 8 (`Enduse.MoreThanAllowed`).
* The mean bias error is always zero, and counting or adding up an empty group divides zero by zero
  (`Aggregate.AggregateValue`).
* The comment on the rank a parent call returns says it is the object's; it is the parent's (`ObjectRank.SetParent`).

## Model

| member | source | states |
|---|---|---|
| Sync.RoundUpExactIff | core/exec.c:409-411 | the rounding yields the least multiple of the minimum timestep not before t, if and only if t is positive or t - 1 is a multiple |
| Sync.RoundingsDiffer | core/exec.c:1281-1282 | the test loop's rounding goes one timestep further on exact multiples and agrees everywhere else |
| Sync.AnnouncedIsLeast | core/exec.c:403-411 | an event an object announces to the executive is rounded exactly, to the least multiple of the minimum timestep not before it |
| Sync.RoundUpMin | core/exec.c:409-420 | rounding each event and then taking the earlier is taking the earlier and then rounding, for all times |
| Sync.DoObjectSync | core/exec.c:309-421 | synchronising an object changes only the calling thread's slot, by joining the object's contribution: announced time, hard event or not, stopped clock or not |
| ObjectLaws.PastServiceIgnored | core/exec.c:321-374 | an object past its service date may stand anywhere in the list and changes nothing |
| ObjectLaws.AwaitsService | core/exec.c:319-320 | an object not yet in service is as one that is asked and answers its in-service date |
| ObjectLaws.SoftEvent | core/exec.c:376-380 | an answer below -1 asks for the time of its magnitude, stops the clock like it, and counts no hard event |
| ObjectLaws.ObjectsFailIff | core/exec.c:382-391 | a thread fails if and only if an object in service answered with a time whose magnitude, the sign kept for -1, is before the clock |
| ObjectLaws.HardEventsCounted | core/exec.c:376-380 | the hard events a thread counts are the objects in service that answered a time of at least -1 other than never, and those not yet in service whose date is not never |
| ObjectLaws.StepTimeIsAsked | core/exec.c:409-416 | the step time is the earliest of what objects ask for: the magnitude of the answer, raised to the least multiple of the minimum timestep if it is in the future, or the in-service date |
| Slices.CoveredExactlyOnce | core/exec.c:998-1007 | in a slicing every position of the list lies in exactly one slice |
| Slices.Assign | core/exec.c:998-1007 | the assignment loop stays inside its array and leaves non-empty consecutive slices of the whole list, all full but the last |
| Slices.PoolFits | core/exec.c:977-992 | the computed thread count is at least one and at most the allowed one, so the exit for too many threads is unreachable, and its slices fit the list |
| Slices.SetupPool | core/exec.c:977-1007 | setting up the pool of a rank list yields a slicing with at most the allowed number of slices, the earlier ones at least as long |
| Slices.SyncSlice | core/exec.c:639-644 | a worker leaves in its slot the fold over its slice and touches no other slot |
| Slices.ParallelRefinesSequential | core/exec.c:960-965 | whatever the slicing, merging the threads' records gives the record of the single-threaded loop: earliest time, hard events, failure |
| Slices.MergeThreads | core/exec.c:1075-1081 | the main loop's merge is the join of its own record with all slots |
| Slices.CheckStatus | core/exec.c:1056-1061 | the loop over the slots finds a failure if there is one |
| BarrierInvariant.NextKeeps | core/exec.c:612-659 | every atomic step of a worker or of the main thread keeps the barrier's invariant |
| BarrierInvariant.ReachableInv | core/exec.c:1028-1049 | the invariant holds in every state any interleaving can reach |
| BarrierTheorems.LeavesOnlyWhenAllRan | core/exec.c:1045-1049 | when the main thread leaves its wait, every worker of the list has run its slice exactly once per call and is back at rest |
| BarrierTheorems.OutsideAllQuiet | core/exec.c:1028-1061 | while the main thread is outside the barrier no worker runs, and run counts are exact for every list |
| BarrierTheorems.BusyIsCurrent | core/exec.c:630-659 | a worker past its wait works for the list the main thread is waiting on |
| BarrierTheorems.OneWriterPerSlot | core/exec.c:639-644 | two workers inside their slices never share a slot of the thread data, though every list has a worker of each number |
| BarrierTheorems.NoRaceOnAnnouncement | core/exec.c:1035-1043 | no worker reads the announced value outside the lock while it is written |
| BarrierTheorems.StampMatches | core/enduse.c:193-195 | copying the announced time and counting the run leave the worker with the announced ticket, in both pools |
| BarrierTheorems.ReadsPresentTime | core/enduse.c:186-194 | in a pool that announces times, every worker past its wait finds the time of the present call announced, in every call, so that it synchronises at that time |
| BarrierTheorems.SliceIsFinished | core/exec.c:639-644 | a worker in its slice takes one object more with every step and leaves only after the last |
| BarrierTheorems.CountNeverWraps | core/exec.c:650-658 | the unsigned count is positive whenever a worker decrements it |
| BarrierTheorems.NoLostWakeup | core/exec.c:634-635 | no worker sleeps through a call and the main thread does not sleep on a zero count, except in the instant before the broadcast |
| BarrierTheorems.SomeStepEnabled | core/exec.c:1028-1049 | with all threads created some step is possible in every reachable state: the two locks cannot deadlock |
| BarrierTheorems.RoundBound | core/exec.c:1028-1049 | a round takes at most a number of steps linear in the objects and threads, plus nine for each spurious wakeup |
| BarrierTheorems.RoundEnds | core/enduse.c:297-323 | from every state of a round the main thread can be brought out of its wait |
| BarrierTheorems.FailedCreationBlocks | core/exec.c:1019-1021 | a list with a thread that could not be created is never finished |
| BarrierTheorems.LeavingPossibleIff | core/exec.c:1019-1049 | the main thread can get out of its wait if and only if all threads of the list were created |
| ParallelPass.ExecutivePlanIsValid | core/exec.c:977-992 | the executive's sharing is valid for every non-empty list and thread count |
| ParallelPass.PNextKeeps | core/exec.c:628-659 | every step of the system keeps each slot at what its worker must have collected so far |
| ParallelPass.ParallelPassRefinesSequential | core/exec.c:931-965 | under every interleaving, whenever the main thread is outside the barriers the slots merge to the sequential fold over all objects visited in this iteration |
| ParallelPass.FailureStopsPassIff | core/exec.c:1056-1061 | the status check stops the pass if and only if some object visited so far stopped its clock |
| ParallelProgress.ListCompletes | core/exec.c:1028-1061 | with its threads created a rank list can be brought from before its barrier to after it, under the invariant |
| ParallelProgress.CompletionPossibleIff | core/exec.c:931-1072 | with all threads created, an iteration over all rank lists can be brought to its end without failure if and only if none of its objects stops its clock |
| MainLoop.SyncInternals | core/exec.c:566-581 | synchronising the internals yields the earliest of the four answers |
| MainLoop.CommitAll | core/exec.c:488-519 | commit yields the earliest answer of the objects in service, 1 meaning none, or invalid as soon as one fails |
| MainLoop.RunPass | core/exec.c:869-1127 | one turn of the main loop with a single thread, as the pass function says: next loop state or reason to stop |
| PassLaws.PassStopsIff | core/exec.c:869-1127 | in terms of what is answered alone: a turn stops the run if and only if an internal sync asks for a time not after the clock, or else an object in service for one before it, or else the clock is to move and a commit fails or is not in the future, or it is to stay and one iteration is left |
| PassLaws.PassGoesOn | core/exec.c:1066-1127 | otherwise the next clock value is the earliest time asked for, or committed to if the clock moves, the counter is refilled or goes down by one, and hard events are left if and only if there is a stop time or an object asked for one |
| PassLaws.CommitTimeMeans | core/exec.c:488-519 | commit is invalid if an object in service answers 0, and otherwise the earliest time committed to |
| PassLaws.ConvergenceStopsIff | core/exec.c:1109-1127 | a run is given up for want of convergence if and only if the pass at hand asks for the clock again and ends exactly as many passes in a row at one clock value as the limit allows |
| MainLoop.FinishPass | core/exec.c:1056-1127 | the end of a turn with any number of slots: if they merge to what the objects contribute, it comes out as the pass function says |
| ParallelRun.FinishIteration | core/exec.c:931-1127 | under any interleaving of the pool, a turn comes out as the pass function says for the objects in the order of one thread |
| ParallelRun.StoppedPass | core/exec.c:1056-1061 | a turn stopped at a status check after some of its rank lists is one the pass function stops |
| ParallelRun.PoolRunsIff | core/exec.c:869-1128 | with all threads created, a sequence of loop states is a run with a pool of threads, under some interleaving of each pass, if and only if it is a run of the main loop |
| MainLoop.NextClockIsEarliest | core/exec.c:1066-1108 | the next clock value is the earliest of all times announced by internals, transforms, objects after rounding, and commits if time moves |
| MainLoop.ClockMonotoneIff | core/exec.c:1066-1071 | the clock does not go back if and only if no transform answered with a time in the past |
| MainLoop.NeverBackIff | core/exec.c:1066-1108 | over a whole run the clock never goes back if and only if no transform answered in the past in any of its passes |
| MainLoop.Tick | core/exec.c:1090-1127 | a pass that moves the clock refills the iteration counter, one that does not uses one unit and does not leave zero, whatever transforms answer |
| MainLoop.HardEventsIff | core/exec.c:869-880 | the loop goes on for want of a stop time only if some object announced a hard event |
| MainLoop.ClockSafety | core/exec.c:869-907 | over whole runs in which no transform answered in the past the clock never decreases and never passes the stop time |
| MainLoop.ClockStops | core/exec.c:869-907 | over all runs no pass is made after the stop time, whatever transforms answer |
| MainLoop.PassesPerClock | core/exec.c:1109-1127 | fewer passes in a row than the iteration limit leave the clock where it is, whatever transforms answer |
| MainLoop.SharedClockInARow | core/exec.c:1066-1108 | passes at one clock value are in a row if no transform answers in the past |
| MainLoop.TotalPasses | core/exec.c:869-1128 | a run in which no transform answered in the past has at most limit times (stop - start + 1) passes, whatever objects answer |
| MainLoop.ExecStart | core/exec.c:810-1128 | the main loop ends, along a trace of passes: with success if and only if the next step time is after the stop time or never, or no hard event is left, and otherwise with a pass that stops the run |
| MainLoop.PastTransformRunsForever | core/exec.c:1066-1071 | a transform answering one second early makes the clock alternate for any number of passes |
| LinkedList.List.Append | core/list.c:83-96 | appending a node keeps both chains of links spelling the same list, with the item at its end |
| LinkedList.List.Shuffle | core/list.c:100-124 | shuffling swaps the nodes' data, for any random draws: the nodes and links stay, the items are permuted |
| RankIndex.Index.Create | core/index.c:23-60 | an index is refused if and only if last is below first; a new one is empty, with first and last used reversed |
| RankIndex.DoublingEndsIff | core/index.c:88-94 | doubling a size makes room for a position if and only if the size is not zero |
| RankIndex.Index.Grow | core/index.c:88-113 | doubling ends, makes room for the ordinal, and loses no list |
| RankIndex.Index.Insert | core/index.c:65-125 | inserting appends to the list of its ordinal and changes no other, across doublings; an ordinal below the first is refused without change |
| RankIndex.Index.Shuffle | core/index.c:130-136 | shuffling permutes lists within themselves, at positions 0 to last used - first used - 1, and leaves the others as they are |
| Traversal.GroupIsOfRank | core/index.c:114-121 | the list of a rank is the subsequence of the inserted objects with that rank, in order |
| Traversal.UsedTightIff | core/index.c:53-55 | last used is the highest rank in use; first used is the lowest if and only if some rank does not exceed the initial last ordinal |
| Traversal.UsedNotTight | core/index.c:122-123 | one object of rank 11 leaves first used at 10 |
| Traversal.PassOfBit | core/exec.c:138-179 | an object uses the pass that goes down first, goes up, or goes down last exactly if bit 0, 1 or 2 of its class is set |
| Traversal.SetupRanks | core/exec.c:161-201 | the index of a pass groups exactly the objects that use the pass by rank, in creation order unless it is shuffled; it fails if and only if one of them has a negative rank |
| Traversal.Walk | core/exec.c:132-134 | the loop over ordinals visits the grouping in pass order and stays inside the block |
| Traversal.VisitsOnceInRankOrder | core/exec.c:931-965 | every object that uses the pass is visited exactly once, in non-increasing rank top-down and non-decreasing rank bottom-up, shuffled or not |
| Traversal.AncestorsInOrder | core/gridlabd.h:449-453 | if parents outrank children, ancestors come before descendants top-down and after them bottom-up |
| Traversal.VisitPass | core/exec.c:931-965 | setting up the ranks of a pass, shuffling them or not, and walking them visits every object that uses the pass exactly once and in pass order |
| RankedTree.LinkedModelInOrder | core/gridlabd.h:449-453 | in a model built by accepted parent links, every pass meets an object after its ancestors top-down and before them bottom-up |
| ObjectRank.SetRank | core/object.c:1082-1122 | setting a rank, field by field, as the lifting function says, and it terminates even on a loop of parents |
| ObjectRank.SetParent | core/object.c:1144-1160 | setting a parent installs the link and lifts the parent; what is returned is the parent's rank |
| ObjectRank.LiftKeepsOutranked | core/object.c:1112-1121 | a successful lift leaves the object outranked by its parent, and every other object that was |
| ObjectRank.LiftSucceeds | core/object.c:1089-1119 | a way up that ends, unmarked, without the starting object and with ranks in bounds can be lifted |
| ObjectRank.LiftSucceeded | core/object.c:1112-1121 | only such a way up can, and it is left with the lifted ranks while no other object changes |
| ObjectRank.LiftedIsLeast | core/object.c:1112-1121 | the ranks a lift leaves rise above each other, and no ranks that do, above the same start and not below the present ones, are lower anywhere |
| ObjectRank.AdoptIff | core/object.c:1144-1160 | a parent link is accepted if and only if the new parent's way up, with the link in place, can be lifted |
| ObjectRank.AdoptMakesNoLoop | core/object.c:1075-1081 | an accepted link makes no loop of parents |
| ObjectRank.LoopRefusedButKept | core/object.c:1156-1158 | a link to a descendant is refused, but remains, and no way up from the object ends any more |
| ObjectRank.RefusedKeepsAllIff | core/object.c:1089-1158 | a refused link leaves everything as it was if and only if the object was to be its own parent, or had that parent already and the lift fails at once |
| ObjectRank.AdoptKeepsOrder | core/object.c:1144-1160 | an accepted link keeps every parent above its children and no object marked |
| ObjectRank.ParentsOutrank | core/gridlabd.h:449-453 | in every model built by accepted links parents outrank their children |
| NetworkObjects.CommNetwork.Attach | comm/network.cpp:150-165 | following the links from the first interface meets the same interfaces in the same order, and the new one last; one that is attached already becomes the last, and those behind it are not met any more; null is refused |
| NetworkObjects.Interface.CheckBuffer | comm/network_interface.cpp:188-234 | polling queues a message if and only if the interface may send and its interval is over or its data differ from the buffer, by its mode; the message becomes the head of the linked outbox, without a link back; time and data are remembered |
| NetworkObjects.PolledAgainIff | comm/network_interface.cpp:200-217 | an interface that has queued a message, and read any messages since, queues another if and only if it looks at data and they differ from what it then holds, or it has an interval and it is over |
| NetworkObjects.FirstPollIff | comm/network_interface.cpp:200-217 | the first poll queues a message if and only if the interface may send, and its interval is over or it looks at data that are not all zero |
| NetworkObjects.OverlaidMeans | comm/network_interface.cpp:275-281 | a message read replaces what an interface holds as far as it reaches and leaves the rest |
| NetworkObjects.CommNetwork.TakeNode | comm/network.cpp:362-385 | a finished message is unlinked through its link back, if it has one, and put on top of its receiver's inbox; every link of every message is as this order of assignments leaves it, whatever the links were |
| NetworkObjects.CommNetwork.Update | comm/network.cpp:183-194 | the walks along all outboxes bring the counters of the messages they meet up to date |
| NetworkObjects.CommNetwork.ScanDemand | comm/network.cpp:200-218 | the demand is what the walks along the links add up, each cut off at the interface's rate |
| Demand.ScanIsDemand | comm/network.cpp:200-218 | along links that are lists the scan adds up what each interface wants |
| Demand.WantedIsLess | comm/network.cpp:200-218 | what an interface would like to send is all it has left, or its rate if that is less |
| NetworkObjects.CommNetwork.ShareOut | comm/network.cpp:244-322 | the walks offer each message the interface's rate or what is left of the bandwidth, capped by what it has left to send; the network's and each interface's bandwidth in use are the sums |
| LinkedCommit.SharesAreLoads | comm/network.cpp:244-322 | along links that are lists, the bandwidth in use by each interface is the sum of the rates of its messages |
| Bandwidth.CommitLeavesNoneIdle | comm/network.cpp:256-319 | after a timely call every message left has its interface's rate or all it has left to send, or the bandwidth in use is the whole bandwidth and the messages after it have none |
| NetworkObjects.CommNetwork.CommitNow | comm/network.cpp:168-405 | one call of commit, along whatever links there are: if its walks end, links, messages, bandwidths in use and returned time are those of the call on the links |
| LinkedCommit.CommitKeeps | comm/network.cpp:168-405 | from links that are lists, with finished messages in front, a call ends and leaves lists: outboxes, inboxes, bandwidth in use and returned time are those of the commit function on sequences |
| LinkedCommit.CommitIff | comm/network.cpp:356-404 | from links that are lists every call ends, and it leaves the outboxes with exactly the unfinished messages if and only if no finished message is behind an unfinished one |
| LinkedReading.FilterKeeps | comm/network_interface.cpp:260-287 | filtering a linked inbox ends, leaves a list of the messages not yet due in their order, reads the others last first, and touches no other list |
| LinkedRuns.LinkedRefines | comm/network.cpp:168-405 | along a run in which every call finds finished messages in front, linked outboxes and inboxes, accounts and what every interface has read are those of the run on sequences |
| LinkedRuns.FaithfulIff | comm/network.cpp:369-376 | the linked outboxes are those of the run on sequences after every step if and only if no call finds a finished message behind an unfinished one |
| LinkedRuns.OneAtATime | comm/network_interface.cpp:218-231 | which is so if interfaces queue only when their outbox is empty |
| SentOrder.AlwaysInFrontIff | comm/network.cpp:369-376 | and if and only if no call delivers a message while a newer one of its interface stays undelivered |
| Overlap.OverlapReversesOrder | comm/network.cpp:362-385 | of two messages of size 3 queued at 0 and 1 the older is delivered at 3 with end 13, again at 4 with end 14, and read after the newer |
| Overlap.OverlapNotInFront | comm/network.cpp:369-376 | in that run the third call, which comes when it was asked for, finds the older message finished behind the newer |
| Overlap.OverlapNeverEnds | comm/network.cpp:362-385 | with the newer message queued at 2, no call after the one at 4 ends, and no reading of the inbox |
| Network.ServeBoxAt | comm/network.cpp:256-319 | a message's share is computed from the bandwidth the messages before it left |
| NetworkRuns.RejectsIffNoBandwidth | comm/network.cpp:254-275 | a message is marked rejected or delayed if and only if the network has no bandwidth at all; one that gets none is marked as sent at rate zero |
| LinkedNetwork.LinkedNothingRejected | comm/network.cpp:254-275 | over any run of a network with bandwidth, with finished messages in front at every call, every message in a linked outbox is marked as being sent and every message in an inbox, or read, as delivered |
| NetworkRuns.WakeIsWhole | comm/network.cpp:386-396 | after the cap no message is predicted to need less than a second, so that branch is never taken |
| NetworkRuns.CommitAccounts | comm/network.cpp:183-322 | one timely call keeps every message's bytes sent equal to bytes received and below its size, its rate within interface and remainder, and the bandwidth in use equal to the sum of rates and within the bandwidth |
| LinkedNetwork.LinkedBytesConserved | comm/network.cpp:168-405 | over whole runs of timely calls, with finished messages in front at every call, those accounts hold of the linked outboxes, and every message in an inbox, or read, was received in full and not a byte more |
| Bandwidth.LinkedNoneIdle | comm/network.cpp:256-319 | and that holds of the linked outboxes after every step of such runs: no bandwidth lies idle while a message could use it |
| LinkedNetwork.LinkedExactDelivery | comm/network.cpp:361-398 | in such runs a message of size S queued at T on an interface of rate r that always has r left is in its linked outbox, on schedule, until T + ceil(S/r), and is put into its receiver's linked inbox at exactly that time, end time a rounded-up latency later, however often commit is called |
| NetworkRuns.AnswersLateIff | comm/network.cpp:361-367 | commit answers with a time not in the future if and only if it delivers something and the latency rounds up to zero or less |
| NetworkInRun.ExecutiveCallsInTime | core/exec.c:1091-1108 | the executive never lets the clock pass the time a network asked for |
| NetworkInRun.RunCallsInTime | core/exec.c:869-1128 | the calls a network gets along a run of the main loop are timely, each of them |
| NetworkInRun.RunConservesBytes | core/exec.c:869-1128 | so that along a run of the main loop in which finished messages are always in front, the linked outboxes keep the accounts, and every message in an inbox, or read, was received in full |
| NetworkInRun.DeliveryWithoutLatencyFailsRun | core/exec.c:1095-1105 | a pass in which a network delivers while the latency rounds up to zero or less cannot move the clock, unless the answer is 1 |
| SentOrder.SentOrderKeptIff | comm/network.cpp:369-385 | along runs in which finished messages are in front at every call, of two messages of one interface, whose times do not cross, the older is read first if and only if its linked outbox does not hold it any more when the newer is queued |
| SentOrder.LinkedNewerAhead | comm/network_interface.cpp:225-230 | and a linked outbox always holds the newer of two messages in front of the older |
| MessageOrder.ReadOrder | comm/network_interface.cpp:236-287 | of two messages read, the first is the one read by an earlier filtering, or delivered first if by the same |
| MessageOrder.ReadIffDue | comm/network_interface.cpp:249-287 | a message is read if and only if, since its delivery, the inbox was filtered at its time or later: none is read early, late or never |
| MessageOrder.StackIsPushed | comm/network.cpp:380-383 | the inboxes of the network are these stacks |
| MessageOrder.StackCarries | comm/network.cpp:380-383 | and a linked inbox with the nodes of the same messages put on top carries them |
| MessageOrder.FilterCarries | comm/network_interface.cpp:260-287 | filtering the linked inbox leaves and reads the nodes of the messages that stay and are read |
| Inbox.Receiver.Filter | comm/network_interface.cpp:260-287 | the recursive filter leaves a list of exactly the messages not yet due in their order, reads the due ones last first into the buffer and the parent's property, and frees all due nodes but the first once each without using one afterwards |
| Inbox.NextEnd | comm/network_interface.cpp:241-245 | the loop over the inbox yields the earliest end time, or never |
| Inbox.Receiver.HandleInbox | comm/network_interface.cpp:236-247 | the inbox keeps what is not due, the next message time is the earliest end time of it, and buffer and property start with the newest message read |
| Inbox.ReadInOrderOfArrival | comm/network_interface.cpp:249-259 | due messages are read in the order in which they arrived on the stack |
| Inbox.LostIff | comm/network_interface.cpp:264-268 | a node is neither kept nor freed if and only if it is the head of the list and due |
| FindList.IdSet.constructor | core/find.c:275-288 | a new list is empty and has a bit for every id |
| FindList.IdSet.AddAll | core/find.c:294-294 | all ids are added and the count is that of the live ids, padding bits ignored |
| FindList.IdSet.Add | core/find.c:292-292 | adding sets the named bit only and keeps the count equal to the number of ids |
| FindList.IdSet.Del | core/find.c:293-293 | deleting clears the named bit only and keeps the count equal to the number of ids |
| FindList.IdSet.FindNext | core/find.c:527-538 | the next object of the list, or none, and none is passed over |
| FindList.RunPgm | core/find.c:760-780 | running a program, which deletes from the list it walks, leaves exactly the initial members that no clause drops |
| FindList.RunPgmOnAll | core/find.c:760-766 | without a list it starts from all objects |
| FindList.CompiledSearchIsConjunction | core/find.c:725-757 | a program of clauses that delete what fails finds the objects that pass all tests |
| FindList.TurnedAroundKeepsOthers | core/find.c:772-775 | a clause with its actions turned around keeps exactly the others |
| FindList.ClauseOrderIrrelevant | core/find.c:770-777 | the order of clauses does not matter |
| FindList.Judge | core/find.c:472-490 | one criterion adds, deletes or leaves the object by AND or OR, negation and parent steps included |
| FindList.FindObjects | core/find.c:385-494 | every object is listed if and only if the left-to-right fold of the criteria from its initial membership says so |
| FindList.AndOnlyIsConjunction | core/find.c:480-488 | with conjunctions only the fold is membership and all tests |
| FindList.CriterionMeans | core/find.c:472-490 | one more criterion makes membership the earlier membership or, for AND, and the outcome of its test, negated or not, on the object reached by its parent links |
| FindList.OrOnlyIsDisjunction | core/find.c:480-483 | with OR only, an object is listed if and only if it was, or some criterion holds of it |
| FindList.MissingParentSkips | core/find.c:472-477 | a criterion about a parent that is not there changes nothing |
| Match.MatchHere | core/match.c:27-40 | matching here holds if and only if some split of a prefix of the text fits the pattern's tokens |
| Match.MatchStar | core/match.c:55-61 | matching c* and the rest holds if and only if some run of c and a match of the rest do |
| Match.Search | core/match.c:16-24 | a search holds if and only if the pattern matches at the start, for ^, or at some position including the end |
| Match.MatchHereOrig | core/match.c:42-52 | the original matcher decides the same relation for its own reading of the pattern, in which the first token is never an escape |
| Match.OrigAgreesIff | core/match.c:42-52 | that reading is the other matcher's if and only if the pattern does not start with a backslash |
| Match.PlainIsSubstring | core/match.c:16-40 | a pattern of ordinary characters is found if and only if it is a substring |
| Match.RepeatIff | core/match.c:55-61 | p, a repeated character, q, with p and q plain, is found if and only if p and q occur with only that character between them, or anything if it is a dot |
| Match.DotIff | core/match.c:37-38 | p, a dot, q, with p and q plain, is found if and only if they occur with one character between them |
| Match.WholeTextIff | core/match.c:17-36 | a plain pattern between ^ and $ matches itself only, and before $ what ends in it |
| Match.EscapeAcceptsBackslash | core/match.c:37-38 | an escaped character matches itself and a backslash |
| SetText.ConvertFromSet | core/convert.cpp:285-343 | the buffer never overflows; with room for every keyword it holds the greedy text and its length is returned, otherwise zero |
| SetText.RoomIff | core/convert.cpp:314-337 | there is room if and only if the text and its terminator fit, with one more character to spare if no separator is written |
| SetText.PrintedMeans | core/convert.cpp:303-312 | the keywords printed have a bit and lie inside the value, and none is passed over that lies inside what is left in the end; zero is printed by all keywords for zero |
| SetText.ConvertToSet | core/convert.cpp:349-423 | a number is scanned; otherwise reading yields the members' bits in the lower half, keeps the upper, and counts them, or leaves the property alone if any member is unknown or the text is too long |
| SetText.ScannedIff | core/convert.cpp:358-361 | a text is scanned as a number if and only if it starts with a digit, whatever the table |
| SetText.WordsReadIff | core/convert.cpp:398-419 | words are read if and only if each names a keyword; a bit of what they give is set if and only if the first keyword of one of the names has it, in whatever order and however often |
| SetText.CharsReadIff | core/convert.cpp:374-394 | and the same of single characters |
| SetText.RefusedIff | core/convert.cpp:363-419 | a text that is no number is refused if and only if it has more than 4095 characters or an unknown member |
| SetText.WordsApart | core/convert.cpp:398-398 | the words of a text are those before a separator and those after it |
| SetText.RoundTrip | core/convert.cpp:285-423 | reading what was printed gives the value without its residue, in both modes, or is refused above 4095 characters |
| SetText.RoundTripIff | core/convert.cpp:285-423 | the value comes back if and only if the residue is zero |
| SetText.PropertyKeptIff | core/convert.cpp:421-421 | writing a property's text back over it keeps all 64 bits if and only if the residue is no more than its upper half |
| SetMasks.InFullIff | core/convert.cpp:303-312 | every sub-table prints every value made of its keywords in full if and only if of any two masks the later is apart from the earlier or inside it |
| SetMasks.TwoInFullIff | core/convert.cpp:303-312 | a table of two keywords prints their combination in full if and only if the second mask is apart from the first or inside it |
| SetMasks.GreedSucceeds | core/convert.cpp:303-312 | in a table with that property every value covered by keywords is printed in full |
| SetMasks.PrintsIffCovered | core/convert.cpp:303-312 | and every value printed in full is covered by keywords |
| SetMasks.ComesBackIffCovered | core/convert.cpp:285-423 | in such a table a value printed and read comes back if and only if every bit of it is a bit of a keyword inside it |
| SetMasks.ReadPrintRead | core/convert.cpp:285-423 | in such a table reading, printing and reading again gives the same value for every text that can be read |
| SetMasks.FlowDirectionsNested | powerflow/link.cpp:149-159 | the table of flow directions, three per phase, is such a table |
| SetMasks.CharsetIff | core/class.c:1048-1066 | a table is read by single characters if and only if it has a keyword and none has a longer name; keywords are in reverse order of definition |
| SetMasks.GreedMisses | core/convert.cpp:303-312 | with masks 3, 6 and 1 the value 7 is printed as the first and 4 is left over |
| SetMasks.SevenIsBAndC | core/convert.cpp:387-417 | although 7 can be written as the other two |
| Enduse.EndUse.Sync | core/enduse.c:71-143 | a synchronisation updates energy, total, demand, heat and last time as the metering function says |
| Enduse.PartsMakeTotalIff | core/enduse.c:95-122 | after a bottom-up synchronisation of an electric load with a voltage its constant power, current and impedance add up to its total if and only if it has no shape, or the fractions add up to one or nothing, or there is no load |
| Enduse.HeatIsEnergy | core/enduse.c:78-138 | from a bottom-up synchronisation to the next metering, heat gain times hours is the heat fraction of the energy metered, in Btu |
| Enduse.DemandMeans | core/enduse.c:126-135 | a heat load leaves total and demand alone; an electric load raises demand to a larger total and never lowers it |
| Enduse.UsedIsProduct | core/enduse.c:82-84 | power used over a time is power times hours |
| Enduse.EnergyIsIntegral | core/enduse.c:78-89 | in any order of passes, metered energy is the integral of the power in effect since the first positive synchronisation, less the time before each bottom-up synchronisation that no top-down one metered |
| Enduse.EnergyExact | core/enduse.c:78-89 | with top-down before bottom-up at each time nothing is lost: energy is the integral |
| Enduse.ExtraPreChangesNothing | core/enduse.c:78-89 | runs with the same bottom-up synchronisations, start and end meter the same energy, whatever top-down ones come between |
| Enduse.DemandIsMaximum | core/enduse.c:132-138 | demand is the earliest total with the largest real part seen |
| Enduse.BottomUpTwiceIff | core/enduse.c:126-138 | repeating a bottom-up synchronisation changes nothing, if and only if the end use is not a heat load without a shape, or its fraction is one or its heat zero |
| Enduse.WantedIsMost | core/enduse.c:233-239 | the threads wanted are the most, up to the allowed number, that have four end uses each, or one |
| Enduse.SetupThreads | core/enduse.c:233-266 | the slices cover the list, the threads are the quotient rounded up, at least as many as wanted and at most a quarter more, and more than allowed if and only if four times the allowed number are there and some are left over |
| Enduse.MoreThanAllowedIff | core/enduse.c:233-249 | the rounded quotient exceeds the allowed number of threads if and only if there are at least four end uses for each and not a multiple of them |
| Enduse.NextChange | core/enduse.c:186-191 | the loop over end uses yields the earliest change |
| Enduse.ParallelAnswersSame | core/enduse.c:197-208 | the threads' minimum equals the sequential one, in whatever order they finish |
| EndusePool.ENextKeeps | core/enduse.c:186-208 | every atomic step keeps each thread's earliest change at that of the end uses it has done, synchronised at the announced time, and the shared time at the earliest of the threads that have counted themselves done |
| EndusePool.PoolAnswersEarliest | core/enduse.c:297-327 | whatever the interleaving, when the main thread leaves the shared time is the earliest change of all end uses at the time of that call |
| EndusePool.AnswerAlone | core/enduse.c:283-294 | which is what the loop of one thread answers |
| Aggregate.UpdateMeans | core/aggregate.c:374-426 | one more value keeps what the accumulators mean: extremes, count, sum, mean, squared distances from the mean |
| Aggregate.SquaresMove | core/aggregate.c:409-418 | the compensated update gives the squared distances from the new mean |
| Aggregate.AggregateValue | core/aggregate.c:325-450 | the aggregate of the members in service: least, greatest, count, sum, mean, population variance times scale, root of sample variance, and zero for the mean bias error |
| Aggregate.MemberAdds | core/aggregate.c:341-370 | wherever it stands, a member adds its value if it is in service strictly between its dates and has one, and nothing otherwise |
| Aggregate.SignsDoNotMatter | core/aggregate.c:371-371 | with the absolute flag a group has the aggregates that the group with its signs taken away has without it |

## Left out

- MainLoop.ExecStart: assumes that no transform answers with a time in the past, because the code does not check it; without that it need not end, as PastTransformRunsForever shows.
- RankIndex.Index.Insert: on an index with equal ordinals it is stated for refused ordinals only; any other makes the code double a size of zero for ever, as DoublingEndsIff shows.
- Match.Search: if the pattern ends in an unpaired backslash the text must not contain one, because the code then reads past the end of the pattern.
- SetText.ConvertToSet: what scanning a number yields is an input.
- SetText.RoundTrip: keywords must be distinct, not empty, free of separators, not start with a digit, below 32 bits, and in single-character mode one character long; bits of words are defined on natural numbers.
- NetworkObjects.CommNetwork.CommitNow: the memory that polling takes for new messages, and the numbers of messages, are inputs; the walks along the links must end, which `LinkedCommit.CommitIff` proves of links that are lists, and which `Overlap.OverlapNeverEnds` shows is not so after any run.
- NetworkObjects.Interface.CheckBuffer: the buffer it compares with and the one that `Inbox.Receiver` reads messages into are one in the code; `PolledAgainIff` joins the two. A buffer that the model file sets before the first poll is not modelled.
- NetworkObjects.CommNetwork.ShareOut: the rate already used by an interface is zero throughout, because the code never raises it, so there is no cap on an interface's total.
- LinkedRuns.LinkedRefines: an address names one message for ever; memory that is freed and handed out again is not modelled, and what reading frees is in `Inbox`.
- LinkedRuns.FaithfulIff: runs in which a finished message is behind an unfinished one have no law here beyond the exact condition and the two runs of `Overlap`.
- SentOrder.SentOrderKeptIff: a change of latency that makes the message delivered later due first is excluded; `MessageOrder.ReadOrder` covers it.
- Inbox.Receiver.Filter: a message must fit the buffer and the parent's property, which the code does not check.
- Aggregate.AggregateValue: the square root of a standard deviation is left symbolic.
- Enduse.EndUse.Sync: the factor between real and reactive power, a square root, is an input.
- Real time mode, checkpoints, progress and profiling output, signals and the interactive debugger, which are input and output or wall clock.
- The float in the ceiling of the thread pool's division; the exact ceiling is used.
- Overflow of 64-bit times near the end of time and of the hard event counter.
- How workers end after the main loop.
- object_sync, schedules, load shapes, transforms and object code, which are arbitrary answers.
- Queueing and scaling modes of the network and draining of buffers, whose sizes the code does not enforce.
- Messages whose validation failed, and random latency.
- DELALL and findlist_copy, which do not keep the count of a list.
- Parsing of search expressions and the operators that lie beyond the comparison table.
- Product, gamma, skewness and kurtosis aggregates, complex parts and unit conversion.
- object_set_rank and object_set_dependent, which only call what is modelled.
- list_destroy, which reads nodes it has freed.
