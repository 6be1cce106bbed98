# Seven operating-systems labs, verified

This project models the algorithms and protocols of seven lab programs in Dafny and proves what
they are meant to guarantee.  The results hold for all inputs, all runs or all interleavings; where
the code falls short of what it is meant to do, an if-and-only-if says for which inputs, beside an
example.

| lab | program | modules |
|---|---|---|
| LA8 | resource manager with the banker's algorithm | `Banker`, `GrantPass`, `ManagerProtocol`, `RequestQueue`, `ResourceManager`, `ManagerRuns`, `ManagerDeadlock`, `ManagerCrossing`, `ManagerOneResource` |
| LA7 | boats and visitors | `Boating`, `BoatingSteps`, `BoatingRuns` |
| LA3 | event-driven scheduler | `EventOrder`, `EventHeap`, `SchedulerSpec`, `SchedulerSteps`, `SchedulerRuns`, `Scheduler` |
| LA9 | demand paging with swapping | `DemandPagingSpec`, `SwappingSpec`, `DealingSpec`, `DemandPaging` |
| LA10 | page replacement with aging | `ReplacementChoice`, `AgingSpec`, `AgingContent`, `AgingRuns`, `AgingCounts`, `AgingStart`, `AgingTraces`, `AgingFailures`, `PageReplacement` |
| LA9, LA10 | page tables, their 16-bit entries, binary search, processes | `PageTables`, `EntryBits`, `BinarySearch`, `Processes` |
| LA5 | leader and followers | `SumTable`, `TurnRing`, `TurnDraws` |
| LA4 | Foodoku board | `Foodoku`, `BoardDraws`, `BoardGen`, `FoodokuBlocks` |

`Sequences` and `Counting` hold what several of them need.

Programs that change state in place (LA8, LA3, LA9, LA10, LA4) are modelled twice: as functions
and step relations on values, about which the properties are proved, and as classes with arrays,
linked nodes and loops, whose methods are proved to compute those functions.  The thread and
process protocols (LA7, LA5, the threads of LA8) are state machines whose steps are the critical
sections or the single reads and writes of shared words, interleaved freely.

## What the code does, where one might expect otherwise

- LA3: `comp` is not transitive on arbitrary events.  `CirclesAreExactly` says when it runs in a
  circle; reachable heaps never hold such events.
- LA3: `ready_queue` has 2000 entries and is never wrapped round.  `QueueFitsExactly`: a run stays
  within it if and only if the input has at most 2000 time slices in all.  Beyond that the program
  writes past the array; `Scheduler.Simulator.Schedule` stops there and says so in its result.
- LA8: without `_DLAVOID` the manager can deadlock.  `DeadlockExactlyWhen` says for which totals and
  maxima; `OneResource` is the same for a single kind of resource, `AllowModeCanDeadlock` an example.
- LA9: a process that is swapped in starts with an empty page table; its essential pages do not
  come back.  `SwappingSpec` follows the code in this.
- LA9: with more than 1228 processes the frames run out while the essential pages are dealt, and an
  empty queue yields frame 0 again and again (`DealingSpec.FramesAreSoundExactly`; in
  `OneProcessTooMany` three pages hold it).
- LA10: with more than 1128 processes the list is at its minimum before all essential pages are
  loaded.  `get_frame` then finds nothing to give up and returns -1, which is stored as 0xFFFF: a
  valid page in frame 16383, which there is not (`AgingStart.FramesAreSoundExactly` and
  `OneProcessTooMany`).  These frames join the list when their processes finish, so that it can
  outgrow its array: `ArrayIsLongEnoughExactly`.
- LA10: a process whose search finds no page to give up is in no queue afterwards and keeps its
  frames for good.  The model keeps such processes in a ghost list, `dropped`; `AgingFailures` says
  exactly when a search fails and when all frames come back, and shows a run that drops a process.
- LA10: `rand` is seeded with the same number before its only use, so it yields the same number
  every time; the model has it as a constant of any value.
- LA4: `if (flag = 0)` and `if (flag = 1)` in the `s` command are assignments, so `s` always ends
  the game: placements are refused until the next `n`.
- LA4: the corrections at the end of `col_get` never apply.
- LA4: `newboard` exchanges at most two rows and two columns in each band, so that the three lines of
  a band never all move: `BoardDraws.LineOrdersAreExactly`.

## Conventions

Page-table entries and histories are numbers below 65536, their bit operations written as the
arithmetic they amount to; `EntryBits` and `AgingSpec.AgingOnBits` prove that of 16-bit words.  Processes,
boats, visitors and blocks are numbered from 0, LA5's followers from 1.  Random draws are
arguments of any value in their range, and so are the contents of input files.

## Model

| member | source | states |
|---|---|---|
| Banker.StuckMeansUnsafe | LA8/resource.c:280-313 | If no unfinished thread can finish on what the finished ones returned, no order of the live threads exists at all: the greedy loop never has to backtrack |
| Banker.FinishOneMore | LA8/resource.c:300-310 | A thread that can finish now extends the finishing order, whatever its index |
| Banker.SafeBeforeGrant | LA8/resource.c:253-336 | A state that is unsafe stays unsafe after any grant |
| Banker.RefusalIsMonotone | LA8/resource.c:208-337 | A request that is refused, for want of units or of safety, is refused after every other grant |
| Banker.GrantsCommute | LA8/resource.c:529-534 | Two grants lead to the same tables in either order |
| Banker.FirstInOrderIsGrantable | LA8/resource.c:208-337 | In a safe state, a request within its maximum from the first thread of a finishing order is granted |
| Banker.SafeAfterRetire | LA8/resource.c:433-443 | A safe state stays safe when a thread exits and returns what it holds |
| GrantPass.PassIsFixpoint | LA8/resource.c:504-548 | After one left-to-right pass every request still queued would again be refused |
| GrantPass.PassLeavesOnlyRefused | LA8/resource.c:504-548 | The same, request by request, in the state the pass ends in |
| GrantPass.PassPartitionsQueue | LA8/resource.c:504-548 | Every queued request is either granted or still waiting, none twice |
| GrantPass.PassKeepsOrder | LA8/resource.c:504-548 | Waiting requests keep their FIFO order and grants happen in it |
| GrantPass.PassKeepsSafe | LA8/resource.c:504-548 | With avoidance, a pass over a safe state ends in a safe state |
| GrantPass.PassMakesProgress | LA8/resource.c:504-548 | In a safe state in which every live thread has a request within its maximum queued, the pass grants at least one |
| ManagerProtocol.UpdateKeepsTables | LA8/resource.c:433-467 | Exit, release and mixed request keep units conserved, allocations within 0 and the maximum, the queue well formed and, with avoidance, the state safe |
| ManagerProtocol.PassKeepsTables | LA8/resource.c:504-548 | The grant pass keeps all of that |
| ManagerProtocol.MessageKeepsInvariant | LA8/resource.c:414-549 | One whole turn of the master keeps the invariant |
| ManagerProtocol.NotAllWaiting | LA8/resource.c:414-549 | After each turn in avoid mode some live thread is not waiting for a grant |
| ManagerProtocol.WalkPastGranted | LA8/resource.c:526-544 | Walking the queue and unlinking a granted request in mid-walk is a step of the pass |
| ManagerProtocol.InitialInvariant | LA8/resource.c:341-412 | The tables as the master sets them up satisfy the invariant |
| RequestQueue.Queue.Enqueue | LA8/resource.c:73-106 | The linked queue gains the request at its end |
| RequestQueue.Queue.RemoveRequest | LA8/resource.c:142-178 | The first request of the thread leaves the queue, the others keep their order; nothing happens if there is none |
| RequestQueue.Queue.Unlink | LA8/resource.c:167-177 | Unlinking an inner or last node mends the links and the rear pointer |
| ResourceManager.StuckDecidesSafety | LA8/resource.c:315-336 | When a sweep adds nothing, all live threads are marked exactly if the state is safe |
| ResourceManager.GreedyFinish | LA8/resource.c:261-324 | The `finish`/`work` loop ends, with all live threads finished exactly if some finishing order exists |
| ResourceManager.Master.Bankers | LA8/resource.c:208-337 | -1, 0 or 1: the request does not fit, would leave an unsafe state, or may be granted; without avoidance it only has to fit |
| ResourceManager.Master.GrantPending | LA8/resource.c:504-548 | The loop over the linked queue computes the grant pass, with the ready flags of the granted threads set |
| ResourceManager.Master.RetireThread | LA8/resource.c:433-443 | Exit returns all units of the thread and marks it dead |
| ResourceManager.Master.ReturnNegatives | LA8/resource.c:456-465 | The negative part of a mixed request is given back and struck from it |
| ResourceManager.Master.AcceptRequest | LA8/resource.c:454-467 | The negative part is given back at once and the positive part queued |
| ResourceManager.Master.Receive | LA8/resource.c:416-548 | One turn of the master computes the specified next state |
| ManagerRuns.LineIsSentAsWritten | LA8/resource.c:618-656 | A line of the script goes out as it is written: as a request exactly if it has a positive entry, as a release exactly if it has none; only a request makes its thread wait |
| ManagerRuns.EndIsSentAsExit | LA8/resource.c:615-616 | The end of the script, and nothing else, goes out as the exit of the thread |
| ManagerRuns.Classify | LA8/resource.c:618-626 | The loop that reads a line finds out whether it has a positive entry |
| ManagerRuns.SendIsLegitimate | LA8/resource.c:607-664 | A thread that follows a script within its maximum only sends what the master relies on |
| ManagerRuns.MessageEntitlement | LA8/resource.c:416-548 | What a thread holds plus what it waits for changes by its own messages only |
| ManagerRuns.StepKeepsInvariant | LA8/resource.c:414-549 | Every step of master and threads keeps the invariant of the whole system |
| ManagerRuns.NoDeadlock | LA8/resource.c:339-549 | With avoidance, in every reachable state with threads left, some thread can step |
| ManagerRuns.RunsAreBounded | LA8/resource.c:607-664 | Every run is finite, its length bounded by the scripts |
| ManagerRuns.AllGoneMeansAllFree | LA8/resource.c:433-443 | When all threads are gone, all units are available again and nobody waits |
| ManagerRuns.AvoidanceAlwaysFinishes | LA8/resource.c:339-671 | With avoidance, a run that can go no further has all threads gone and all units free |
| ManagerDeadlock.StuckIsBlocked | LA8/resource.c:215-217 | Without avoidance, in a state in which nobody can step each remaining thread waits for more of some resource than is free |
| ManagerDeadlock.DeadlockIsCrossing | LA8/resource.c:215-217 | In a deadlock of the allow mode the waiting threads could hold all units of what they wait for and still want one more |
| ManagerCrossing.AskServed | LA8/resource.c:504-548 | Without avoidance a request that fits and finds nobody waiting is granted at once |
| ManagerCrossing.AskQueued | LA8/resource.c:504-548 | A request that does not fit joins the refused ones and changes nothing else |
| ManagerCrossing.CrossingDeadlocks | LA8/resource.c:215-217 | For every such set of threads and wishes there are valid scripts and an interleaving that end in a deadlock |
| ManagerCrossing.DeadlockExactlyWhen | LA8/resource.c:215-217 | Without avoidance a system can deadlock if and only if some threads, each with a resource it may ask for, can hold between them all units of each of these resources while still wanting one more |
| ManagerOneResource.OneResource | LA8/resource.c:215-217 | With one kind of resource: if and only if the maxima, less one unit for each thread with any, sum up to the total |
| ManagerOneResource.AllowModeCanDeadlock | LA8/resource.c:215-217 | Two threads that may each ask for both of two units can deadlock |
| ManagerOneResource.OneThreadCannot | LA8/resource.c:215-217 | One such thread alone cannot |
| BoatingSteps.ScannerHasBoatAhead | LA7/boating.c:128-140 | A visitor that passes a slot in vain has a free boat further on |
| BoatingSteps.StepKeepsPrefixAt | LA7/boating.c:74-81 | Every step keeps, for each k, at least as many free boats at slots from k on as visitors that have passed k slots |
| BoatingSteps.StepKeepsCounts | LA7/boating.c:32-53 | Every step keeps the semaphore counts equal to the threads and boats they stand for |
| BoatingSteps.StepKeepsSemaphores | LA7/boating.c:32-53 | A negative semaphore value is the number of sleepers |
| BoatingSteps.BoatAnnouncesItsOwnRide | LA7/boating.c:85-93 | A step adds nothing to the announcements, or it is a boat past its barrier that adds its own ride: its number, the visitor it carries and the time that visitor drew |
| BoatingSteps.VisitorLeavesByItsBoat | LA7/boating.c:83-143 | A visitor gets past a barrier only at the boat it found, which is the boat that carries it |
| BoatingSteps.StepKeepsLog | LA7/boating.c:85-93 | Every visitor announced has left by the boat that announced it, with its own ride time, and none is announced twice |
| BoatingSteps.StepKeepsInvariant | LA7/boating.c:61-146 | Every step of every thread keeps the whole invariant |
| BoatingSteps.StartInvariant | LA7/boating.c:61-146 | The start satisfies it |
| BoatingRuns.ScanFindsBoat | LA7/boating.c:127-143 | `boat_index` is never -1 after the scan, in any interleaving |
| BoatingRuns.BarrierPairsBoatWithItsVisitor | LA7/boating.c:83-143 | Only the boat and the visitor recorded in `BC` meet at its barrier |
| BoatingRuns.ProgressUntilServed | LA7/boating.c:72-105 | Until the last ride has been counted, some thread can step |
| BoatingRuns.RunsAreBounded | LA7/boating.c:61-146 | Every run is finite |
| BoatingRuns.ServedMeansAllRode | LA7/boating.c:96-104 | When the counter is zero every visitor has had exactly one ride, announced by the boat at whose barrier it met, and exactly one boat goes to `EOS` |
| BoatingRuns.EveryRunServesEveryone | LA7/boating.c:61-146 | From the start, every run is bounded, and one that can go no further has given every visitor its one ride, by the boat it met |
| EventOrder.CompIsNotTransitive | LA3/schedule.c:61-70 | Three events at one time on which `comp` runs in a circle |
| EventOrder.CirclesAreExactly | LA3/schedule.c:61-70 | `comp` runs in a circle exactly on an arrival or I/O end, a timeout and a burst end at one time with ascending ids; there are no other circles |
| EventOrder.CompIsOrderWhenOrderly | LA3/schedule.c:61-70 | On events with one per process and at most one of the CPU, `comp` is a strict total order |
| EventHeap.SiftDownRestores | LA3/schedule.c:73-85 | `heapify` repairs a heap with one bad place |
| EventHeap.SiftUpRestores | LA3/schedule.c:92-102 | The loop of `insert` repairs a heap with one bad place |
| EventHeap.SiftDownPermutes | LA3/schedule.c:73-85 | It only reorders |
| EventHeap.HeapMinimum | LA3/schedule.c:105-111 | The root of a heap comes before every other event |
| EventHeap.Heap.Heapify | LA3/schedule.c:73-85 | The recursion in place computes the sift |
| EventHeap.Heap.Insert | LA3/schedule.c:87-103 | The heap gains exactly the event and stays a heap |
| EventHeap.Heap.Min | LA3/schedule.c:105-111 | The least event is returned and exactly it removed; the rest stays a heap |
| SchedulerSpec.EventsAreOrderly | LA3/schedule.c:191-291 | In every reachable state the heap holds one event per process and at most one of the CPU |
| SchedulerSpec.AdvanceKeepsTracks | LA3/schedule.c:195-199 | Time only advances, and never past the end of a running slice |
| SchedulerSteps.StepKeepsPlaces | LA3/schedule.c:191-291 | Every step keeps each unfinished process in exactly one of pending event, ready queue and CPU, and leaves nobody ready when the CPU is idle |
| SchedulerSteps.BurstEndsOnTime | LA3/schedule.c:216-236 | At the end of a burst the process has had exactly its bursts so far, and at its exit `tat` is its runtime plus its time in the ready queue |
| SchedulerSteps.HandleKeepsBusy | LA3/schedule.c:194-258 | Busy time remains the CPU time handed out |
| SchedulerSteps.DispatchKeepsBusy | LA3/schedule.c:260-291 | So it does when a slice is handed out |
| SchedulerSteps.Slices | LA3/schedule.c:268-283 | The number of slices of a burst is max(1, burst / q rounded up) |
| SchedulerSteps.HandleTrackCounts | LA3/schedule.c:204-258 | Each event is one less to come, each enqueue one less to come |
| SchedulerSteps.HandleKeepsWaits | LA3/schedule.c:204-258 | The k-th waiting process gets the CPU within k slices, at most (n - 1) q after joining |
| SchedulerSteps.WaitIsBounded | LA3/schedule.c:260-291 | A dispatched process has waited at most (n - 1) q |
| SchedulerRuns.InitialInvariant | LA3/schedule.c:171-183 | The start satisfies the invariant |
| SchedulerRuns.StepKeepsInvariant | LA3/schedule.c:191-292 | Every iteration keeps it |
| SchedulerRuns.RunKeepsInvariant | LA3/schedule.c:191-292 | So does every run, and each iteration is one event less to come |
| SchedulerRuns.FirstExists | LA3/schedule.c:105-111 | While events are left one comes before all others by `comp`, and it is an earliest |
| SchedulerRuns.RunsEndExactly | LA3/schedule.c:169-303 | For every input and quantum, every run is over after exactly as many iterations as arrivals, slices and I/O bursts together, whichever of simultaneous events come first; then turnarounds, busy time and enqueues are exact |
| SchedulerRuns.RunExists | LA3/schedule.c:191-292 | From every reachable state there is a run to the end that takes events as `comp` orders them |
| SchedulerRuns.QueueFitsExactly | LA3/schedule.c:114-117 | No reachable state has more than 2000 enqueues behind it if and only if the input has at most 2000 time slices; otherwise the run of the program passes 2000 |
| SchedulerRuns.OneLongBurstOverflows | LA3/schedule.c:114-117 | One process with a burst of 20001 and quantum 10 has 2001 slices and overruns the ready queue |
| SchedulerRuns.ReportIsExact | LA3/schedule.c:294-303 | At the end every process has exited with turnaround = runtime + waiting, busy time is the sum of all CPU bursts, and there were exactly as many enqueues as slices |
| Scheduler.Simulator.TakeEvent | LA3/schedule.c:194-199 | The event taken is the least, and the clock and idle time move with it |
| Scheduler.Simulator.HandleBurstEnd | LA3/schedule.c:214-238 | A finished burst ends the process or starts its I/O burst |
| Scheduler.Simulator.StartSlice | LA3/schedule.c:265-283 | The process runs for the smaller of q and its remaining time |
| Scheduler.Simulator.Iterate | LA3/schedule.c:193-291 | One iteration in place computes the specified step on the event that comes first, or stops where the ready queue is full |
| Scheduler.Simulator.Schedule | LA3/schedule.c:169-303 | The whole simulation ends for every input; it fits the ready queue if and only if there are at most `MAXP` slices, and then the numbers of the report are exact and `r_rear` is the number of slices |
| PageTables.FramesUpdate | LA9/demandpaging.c:92-93 | Changing one entry exchanges exactly its frame |
| PageTables.FramesBound | LA9/demandpaging.c:77-113 | A table with a missing page holds fewer frames than it has pages |
| PageTables.AllFramesOnce | LA9/demandpaging.c:135-139 | Every usable frame is in exactly one place |
| EntryBits.TestingTheValidBit | LA9/demandpaging.c:83-83 | Testing bit 15 of a 16-bit word is comparing it with 32768 |
| EntryBits.SettingTheReferenceBit | LA10/LRU.c:295-295 | Setting bit 14 is `SetReference` |
| EntryBits.ClearingTheReferenceBit | LA10/LRU.c:309-309 | Clearing bit 14 is `ClearReference` |
| EntryBits.ClearingTheValidBit | LA10/LRU.c:177-177 | Clearing bit 15 of a valid entry subtracts 32768 |
| EntryBits.MaskingTheLowBits | LA9/demandpaging.c:104-104 | Masking bit 15 away is `FrameOf` in LA9 |
| EntryBits.MaskingTheFrame | LA10/LRU.c:257-257 | Masking the low 14 bits is `FrameOf` |
| EntryBits.PackedFramesComeBack | LA10/LRU.c:290-290 | A frame or-ed with the valid bit, and with the reference bit, is the frame masked out again, in LA9 and in LA10 |
| EntryBits.PushingABit | LA10/LRU.c:307-308 | Shifting a history right and or-ing a top bit in is halving it and adding 32768 or nothing |
| AgingSpec.AgingOnBits | LA10/LRU.c:303-311 | The whole aging step on the 16-bit entry and history is `Aged` |
| BinarySearch.Middle | LA9/demandpaging.c:79-79 | The probe is the floor of the mean of the two ends |
| BinarySearch.PageOf | LA9/demandpaging.c:80-80 | The page probed is the one with the 1024 elements around it, after the ten essential pages |
| BinarySearch.SearchFindsIndex | LA9/demandpaging.c:77-118 | The search ends at the index looked for |
| BinarySearch.ProbesAreFew | LA9/demandpaging.c:77-118 | It takes at most log2 of s probes, rounded up |
| BinarySearch.Log2UpIsLeast | LA9/demandpaging.c:77-118 | That bound is the least k with 2^k >= s |
| BinarySearch.ProbesInRange | LA9/demandpaging.c:79-80 | Every probed page lies in the page table if the table covers the s elements |
| DemandPagingSpec.WalkKeepsFrames | LA9/demandpaging.c:77-118 | A search moves frames between queue and table and loses none; it fails only with an empty queue and a page missing |
| DemandPagingSpec.WalkKeepsPages | LA9/demandpaging.c:77-118 | A search evicts nothing |
| DemandPagingSpec.WalkLoadsPages | LA9/demandpaging.c:77-118 | A successful search leaves every page it probed in memory |
| DemandPagingSpec.WalkFaultsAreLoads | LA9/demandpaging.c:81-94 | Every fault but a failing one brings in one page |
| DemandPagingSpec.WalkTakesInOrder | LA9/demandpaging.c:81-94 | A search succeeds exactly if there is a free frame for each different missing page it probes; frames are taken from the head of the queue and go to the missing pages in the order in which they are met |
| SwappingSpec.IterateRotates | LA9/demandpaging.c:187-217 | A process with searches left goes to the tail of the ready queue; one that has finished is replaced there by the first one swapped out; one whose search failed goes, without frames, to the tail of the swapped queue; all others keep their order |
| SwappingSpec.SwappedOutExactlyWhen | LA9/demandpaging.c:68-120 | A process is swapped out exactly if its search meets more missing pages than there are free frames; accesses, faults, swaps and the degree of multiprogramming are counted accordingly |
| SwappingSpec.SwapOutLeavesSix | LA9/demandpaging.c:95-112 | A swap-out leaves at least six processes ready, for any number of processes |
| SwappingSpec.IterateKeepsInvariant | LA9/demandpaging.c:182-219 | Whatever frames were dealt, every iteration keeps them all free or held by ready processes, as often as they are, swapped processes without frames and never on an empty ready queue, and swaps at most n - 6 |
| SwappingSpec.IterateCountsSearches | LA9/demandpaging.c:187-209 | A found search is done once and for all; a swap-out only shortens the ready queue |
| SwappingSpec.RunFreesAllFrames | LA9/demandpaging.c:182-227 | Every run ends with both queues empty and all frames it began with free; swaps are 0 or at most n - 6, the degree of multiprogramming is at least 6 |
| SwappingSpec.RunDoesEverySearchOnce | LA9/demandpaging.c:182-219 | The loop runs once for every search and once for every swap-out |
| DealingSpec.DealtInOrder | LA9/demandpaging.c:135-174 | For any number of processes, process i gets frames 10i to 10i + 9 as far as there are any, and frame 0 after that |
| DealingSpec.FramesAreSoundExactly | LA9/demandpaging.c:135-174 | After dealing every frame is in exactly one place if and only if there are at most 1228 processes |
| DealingSpec.StartInvariant | LA9/demandpaging.c:135-182 | The invariant of the main loop holds at its start for any number of processes |
| DealingSpec.AllFramesFreeExactlyWhen | LA9/demandpaging.c:124-227 | Every run of the program ends; at its end the 12288 frames are free, each once, if and only if there were at most 1228 processes |
| DealingSpec.OneProcessTooMany | LA9/demandpaging.c:164-170 | With 1229 processes page 0 of the first and pages 8 and 9 of the last hold frame 0 |
| DemandPaging.Pager.ReleaseAll | LA9/demandpaging.c:100-107 | The frames of a process join the queue in page order |
| DemandPaging.Pager.SwapOutProcess | LA9/demandpaging.c:96-111 | A process that is swapped out gives up all frames, and the counters follow |
| DemandPaging.Pager.Fetch | LA9/demandpaging.c:79-94 | A missing page gets the first free frame, if there is one |
| DemandPaging.Pager.BS | LA9/demandpaging.c:68-120 | The search in place does what the search on values does, probe by probe, and ends at the specified index, leaving other processes alone |
| DemandPaging.Pager.Step | LA9/demandpaging.c:184-218 | One iteration of the main loop in place computes the specified one, and the processes move in the two queues as they should |
| DemandPaging.Pager.Run | LA9/demandpaging.c:182-219 | The main loop ends in the specified final state, with both queues empty |
| DemandPaging.Pager.constructor | LA9/demandpaging.c:127-175 | For any number of processes the program starts in the state that dealing leads to and can run; every frame is in one place exactly for at most 1228 |
| ReplacementChoice.VictimIsLeast | LA10/LRU.c:91-102 | The victim has the least history, and of those the least page number; there is one if there is a candidate |
| ReplacementChoice.ChoiceIsBest | LA10/LRU.c:111-162 | The frame is of the best available of the four classes and the last of its class in the list, or in the fourth class the one that is drawn |
| ReplacementChoice.ChoiceByOwner | LA10/LRU.c:111-162 | With the classes written out: an entry of this page, else one of nobody, else one of this process, else the one that is drawn |
| ReplacementChoice.NoFrameExactlyWhen | LA10/LRU.c:89-102 | -1 is returned exactly if the list is at its minimum and no resident non-essential page has a history below 0xFFFF |
| ReplacementChoice.ListStaysLong | LA10/LRU.c:225-248 | The list never gets shorter than `NFFMIN` |
| AgingSpec.GetFrameKeepsFrames | LA10/LRU.c:164-177 | Taking a frame and giving up a page loses and duplicates no frame |
| AgingSpec.SearchKeepsFrames | LA10/LRU.c:269-313 | Nor does a whole search, found or not |
| AgingSpec.LoadedPagesStay | LA10/LRU.c:283-292 | A page brought in by a search is not given up by that search |
| AgingSpec.AgingPushesBit | LA10/LRU.c:303-311 | Aging shifts one reference bit into the record of the last sixteen |
| AgingSpec.ReferencedMeansProbed | LA10/LRU.c:283-296 | When a search ends, the reference bits set in it are those of the pages it probed |
| AgingSpec.SearchRecordsReferences | LA10/LRU.c:269-313 | Each history is the record of the last sixteen searches, newest first, a search before loading counting as one that referenced the page |
| AgingSpec.FailedSearchAgesNothing | LA10/LRU.c:286-289 | A search that fails ages nothing: each history is as it was, or that of a page just loaded |
| AgingSpec.ResidentPagesKeepTheirLog | LA10/LRU.c:283-296 | A page that is not brought in keeps its record |
| AgingSpec.SmallerMeansOlder | LA10/LRU.c:95-99 | Comparing histories compares the records, newest search first |
| AgingSpec.VictimIsLeastRecentlyUsed | LA10/LRU.c:91-102 | The page given up is the least recently used by that record, and the first of those |
| AgingSpec.CandidateMeansPassedBy | LA10/LRU.c:95-95 | A resident non-essential page can be given up exactly if one of its last sixteen searches passed it by |
| AgingContent.ProbeKeepsTruth | LA10/LRU.c:170-177 | The list stays truthful: an entry with an owner names a frame that still holds the page it names |
| AgingContent.WalkKeepsTruth | LA10/LRU.c:276-302 | So it does over a search, which touches no frame that is neither listed nor its own |
| AgingContent.WalkKeepsOrder | LA10/LRU.c:164-174 | The list is in the order in which its entries were freed |
| AgingRuns.ProbeCounts | LA10/LRU.c:199-220 | Run and process count alike, and every replacement is one of the four attempts |
| AgingRuns.SearchCounts | LA10/LRU.c:199-220 | The counters of the run stay the sums of those of the processes |
| AgingCounts.ProbeIsCounted | LA10/LRU.c:280-296 | Every probe is one access, and one fault exactly if its page is not there |
| AgingCounts.FaultIsMet | LA10/LRU.c:225-248 | While the list is above its minimum its first frame meets the fault; at the minimum a replacement does, and the list keeps its length; else nothing changes |
| AgingCounts.WalkCountsLoads | LA10/LRU.c:276-296 | A search that is found has one access for each probe; frames held and replacements grow together by the faults, a failing one excepted |
| AgingCounts.SearchCountsLoads | LA10/LRU.c:269-313 | So it is with the probes of the binary search |
| AgingCounts.ReplacementIsCounted | LA10/LRU.c:199-220 | A replacement raises the counter of the first of the four classes that has an entry in the list, and no other |
| AgingCounts.OthersAreNotCounted | LA10/LRU.c:199-220 | Nothing else raises any of them |
| AgingCounts.RunCountsEveryProbe | LA10/LRU.c:280-281 | A run in which no search fails has exactly one access for each probe of each search |
| AgingRuns.IterateRotates | LA10/LRU.c:375-384 | A process with searches left goes to the tail of the ready queue, one that has finished leaves it and gives back its frames, one whose search failed is nowhere; the others move up |
| AgingRuns.IterateKeepsInvariant | LA10/LRU.c:373-385 | Every iteration keeps all frames, as often as they are, in the list or held by processes, dropped ones included, and the counters balanced |
| AgingRuns.RunEnds | LA10/LRU.c:373-385 | Every run ends; then every frame is in the list, which fits its array, or held by a process that was dropped |
| AgingRuns.ListFits | LA10/LRU.c:171-174 | The list never outgrows its array |
| AgingTraces.IterateKeepsTrace | LA10/LRU.c:373-385 | Along every run histories are records, list entries truthful and the list in the order of freeing |
| AgingTraces.FirstAttemptFindsThePage | LA10/LRU.c:111-121 | At every probe of every run, a frame found by the first attempt still holds the very page that is missing |
| AgingTraces.TraceExistsExactly | LA10/LRU.c:356-362 | The histories, the list and the content of the frames can be accounted for when the run begins if and only if there are at most 1128 processes; then every frame of a process holds its essential page |
| AgingStart.DealtInOrder | LA10/LRU.c:326-366 | For any number of processes, process i gets frames 10i to 10i + 9 while the list is above its minimum, and -1, stored as 0xFFFF, after that |
| AgingStart.FramesAreSoundExactly | LA10/LRU.c:326-366 | When the run begins every frame is in exactly one place if and only if there are at most 1128 processes |
| AgingStart.BeginInvariant | LA10/LRU.c:326-373 | The invariant of the main loop holds at its start for exactly those inputs |
| AgingStart.OneProcessTooMany | LA10/LRU.c:357-362 | With 1129 processes pages 8 and 9 of the last name frame 16383, which there is not |
| AgingStart.ListOutgrowsArray | LA10/LRU.c:257-262 | With more than 1128 processes of which none is dropped, the list ends longer than its array |
| AgingStart.SmallProcessesOverrunTheArray | LA10/LRU.c:257-262 | So it does, for any such number, for processes with a single element |
| AgingStart.ArrayIsLongEnoughExactly | LA10/LRU.c:257-262 | The list stays within its array in every run of n processes if and only if n is at most 1128 |
| AgingRuns.RunStaysInArray | LA10/LRU.c:171-174 | A run that begins with every frame in one place never leaves the array |
| AgingFailures.WalkFailsExactlyWhen | LA10/LRU.c:276-296 | A search fails if and only if it comes to a missing page while the list is at its minimum and no page can be given up |
| AgingFailures.SearchFailsExactlyWhen | LA10/LRU.c:269-313 | The same for the probes of the binary search |
| AgingFailures.WalkOfNothing | LA10/LRU.c:276-296 | With no page to give up a search is found if and only if the list has a frame to spare for each different missing page it probes |
| AgingFailures.FirstSearchFoundExactlyWhen | LA10/LRU.c:269-313 | A process with its essential pages only finds if and only if the list can spare as many frames as it probes different pages |
| AgingFailures.BigProcessIsDropped | LA10/LRU.c:283-289 | With 1128 processes of which the first has more than 2^19 elements and looks for the first, that process is dropped at once |
| AgingFailures.SomeRunDropsAProcess | LA10/LRU.c:283-289 | 1128 processes of 2000000 elements are such an input |
| AgingFailures.NobodyDroppedExactlyWhen | LA10/LRU.c:373-385 | A run drops nobody if and only if each of its searches is found |
| AgingFailures.BeginFreeExactlyWhen | LA10/LRU.c:373-385 | For any number of processes, all frames that the list and the processes have when the run begins, 12288 different ones for at most 1128 processes, are in the list at its end if and only if no search failed |
| AgingFailures.FramesComeBackExactlyWhen | LA10/LRU.c:373-385 | For at most 1128 processes the 12288 frames are in the list at the end, each once, if and only if no search failed |
| PageReplacement.Replacer.FindVictim | LA10/LRU.c:91-100 | The scan in place computes the victim |
| PageReplacement.Replacer.ScanBack | LA10/LRU.c:111-121 | Scanning from the end of the list finds the last entry of the class |
| PageReplacement.Replacer.RemoveAt | LA10/LRU.c:164-168 | Moving later entries up removes exactly one |
| PageReplacement.Replacer.PageReplacementAlgo | LA10/LRU.c:89-222 | The replacement in place computes the specified one, counters included |
| PageReplacement.Replacer.TakeFrame | LA10/LRU.c:225-248 | `get_frame` in place computes the specified choice |
| PageReplacement.Replacer.AgeTable | LA10/LRU.c:303-311 | The aging loop ages every resident page and no other |
| PageReplacement.Replacer.BS | LA10/LRU.c:269-313 | The search in place does what the search on values does, probe by probe |
| PageReplacement.Replacer.FinishProcess | LA10/LRU.c:251-267 | The frames of a finished process join the list in page order, owned by nobody, if they fit into the array |
| PageReplacement.Replacer.Step | LA10/LRU.c:375-384 | One iteration in place computes the specified one, or stops where the list outgrows its array; the queue moves up, and a process with searches left is at its tail |
| PageReplacement.Replacer.Run | LA10/LRU.c:373-385 | The main loop ends in the specified final state if the list stays within its array, and notices exactly if it does not |
| PageReplacement.Replacer.constructor | LA10/LRU.c:326-366 | For any number of processes the program starts in the state that loading page by page leads to and can run; every frame is in one place exactly for at most 1128 |
| SumTable.FoundMeansSeen | LA5/leader.c:90-101 | While entries are in place probing never moves, and a sum is found exactly if it was recorded before |
| SumTable.Find | LA5/leader.c:90-94 | Linear probing ends at the sum or at an empty slot, as long as there is one |
| SumTable.RoundSum | LA5/leader.c:78-82 | The loop adds the leader's number and all n slots |
| SumTable.Record | LA5/leader.c:90-101 | The loop in place finds the slot of probing and fills it with a new sum |
| TurnRing.StepKeepsInvariant | LA5/follower.c:15-41 | Every step of leader and followers keeps the invariant |
| TurnRing.OnlyTheHolderWritesTheTurn | LA5/follower.c:15-41 | The turn word is written only by whoever holds the turn |
| TurnRing.OnlyTheHolderWritesItsSlot | LA5/follower.c:32-32 | A follower writes only its own slot, and only while it holds the turn |
| TurnRing.RoundSumInRange | LA5/leader.c:76-82 | When the leader has its sum, every slot was written exactly once in the round, and n < sum <= 9n + 99 < 1000 |
| TurnRing.StopsExactlyOnDuplicate | LA5/leader.c:90-101 | The leader stops exactly if the sum of the round has occurred before |
| TurnRing.SomebodyCanMove | LA5/leader.c:70-104 | Until the leader is gone somebody can move |
| TurnRing.GoneMeansAllLeft | LA5/leader.c:103-106 | When the leader is gone every follower has left |
| TurnRing.RoundsAreBounded | LA5/leader.c:70-102 | There are at most 8n + 100 rounds |
| TurnRing.EveryRunStopsOnDuplicate | LA5/leader.c:70-111 | Every run is finite, and one that can go no further ended on a repeated sum with all followers gone |
| TurnDraws.EveryDrawIsCountedOnce | LA5/leader.c:76-101 | When the leader is gone, the sums of all rounds add up to exactly the numbers that leader and followers drew |
| TurnDraws.DrawsAreThose | LA5/leader.c:76-76 | Any number from 1 to 9 can be a follower's draw, any from 1 to 99 the leader's, and no other |
| Foodoku.SolvedIsSolution | LA4/boardgen.c:15-24 | The fixed board `C` is a solution |
| Foodoku.PuzzleShowsSolved | LA4/boardgen.c:5-24 | The fixed board `B` agrees with `C` wherever it is not empty |
| Foodoku.ShufflingKeepsSolutions | LA4/boardgen.c:26-66 | Renaming digits, reordering lines within bands and transposing keep a solution a solution and what is shown of it |
| Foodoku.ShuffledCells | LA4/boardgen.c:52-66 | Cell by cell: the renamed digit of the reordered row and column; flipping exchanges rows and columns |
| BoardDraws.EveryRenamingOnce | LA4/boardgen.c:27-31 | Every renaming of the digits comes out of exactly one sequence of draws |
| BoardDraws.LineOrdersAreExactly | LA4/boardgen.c:32-51 | The orders of rows, or of columns, that can come out are exactly those that keep each line in its band and, in each band, one of them in its place |
| BoardDraws.BoardsAreExactly | LA4/boardgen.c:26-66 | A board can come out if and only if it is the fixed one with its digits renamed in any way, at most two rows and two columns of each band exchanged, flipped or not |
| BoardGen.ShuffleDigits | LA4/boardgen.c:27-31 | The exchanges in place lead to the renaming that the draws stand for |
| BoardGen.ShuffleRows | LA4/boardgen.c:32-41 | Both boards have their rows exchanged as drawn, one pair in each band, and are otherwise the same |
| BoardGen.ShuffleColumns | LA4/boardgen.c:42-51 | The same for columns |
| BoardGen.WriteOut | LA4/boardgen.c:52-66 | The target gets the renamed board, transposed or not |
| BoardGen.NewBoard | LA4/boardgen.c:1-67 | For all draws, `A` and `S` get the puzzle and the solution that the draws make of the fixed ones; `S` is a solution and `A` shows part of it |
| Foodoku.PutWrites | LA4/coordinator.c:161-186 | A digit from 1 to 9 that is legal in the cell is written there and nowhere else, once a game is on; any other placement changes nothing |
| Foodoku.PutKeepsOk | LA4/block.c:83-132 | A placement keeps the board free of conflicts and every given in place |
| Foodoku.DoKeepsOk | LA4/coordinator.c:126-241 | So does every command |
| Foodoku.PlayInTurn | LA4/coordinator.c:126-241 | Commands take effect one after the other |
| Foodoku.GivensStay | LA4/coordinator.c:161-186 | Until the next new game or solution no given changes |
| Foodoku.SolutionStays | LA4/coordinator.c:187-216 | After `s` the solution stays on show, whatever is placed |
| Foodoku.GameStaysConflictFree | LA4/coordinator.c:126-241 | After the first new game, whatever commands follow, the board is free of row, column and block conflicts |
| FoodokuBlocks.RowGet | LA4/coordinator.c:32-38 | The two results are the other two blocks of the block row |
| FoodokuBlocks.ColGet | LA4/coordinator.c:39-47 | The two results are the other two blocks of the block column; the corrections never apply |
| FoodokuBlocks.ThreeChecksAreEnough | LA4/block.c:87-129 | A placement is legal on the board exactly if the cell is no given and block, row blocks and column blocks are free of the digit |
| FoodokuBlocks.Block.Load | LA4/block.c:194-207 | A block gets its part of the board as original and as current state |
| FoodokuBlocks.Block.RowSignal | LA4/block.c:133-143 | The flag says whether the row of the block holds the digit |
| FoodokuBlocks.Block.ColSignal | LA4/block.c:151-161 | The flag says whether the column of the block holds the digit |
| FoodokuBlocks.Coordinator.RowConflict | LA4/block.c:41-61 | The two answers together decide whether the digit is anywhere in the row of the board |
| FoodokuBlocks.Coordinator.ColConflict | LA4/block.c:62-82 | The two answers together decide whether the digit is anywhere in the column of the board |
| FoodokuBlocks.Coordinator.MayPlace | LA4/block.c:83-127 | The four checks pass exactly if the cell is no given and block, row and column are free of the digit |
| FoodokuBlocks.Coordinator.Place | LA4/coordinator.c:161-186 | The `p` command writes the digit into its cell, and changes no other, exactly if a game is on, the parameters are in range and the placement is legal; otherwise it changes nothing |
| FoodokuBlocks.Coordinator.NewGame | LA4/coordinator.c:136-160 | The `n` command starts the game and gives the nine blocks a newly generated puzzle, as givens and as what they show |
| FoodokuBlocks.Coordinator.ShowSolution | LA4/coordinator.c:187-216 | The `s` command shows the solution in all blocks and, because of its two assignments in conditions, always ends the game |

## Left out

- Reading and checking of input files, printing, percentages and averages in floating point,
  terminals, pipes, sleeping and delays.
- `malloc` and `free`, and running out of memory.
- Wrap-around of 32-bit counters and times: all numbers are unbounded.
- LA8: the barriers `REQB` and `ACK` and the copy of `reqc` are one atomic step, "a message is
  received and acted on"; waking up is a separate step of the thread.  `dequeue` and
  `get_request_node` are not used by the program.
- LA8: scripts are taken to keep what a thread holds between 0 and its declared maximum, and the
  maxima to be within the totals, as the input generator makes them.
- LA7: modelled on values; spurious wake-ups of `pthread_cond_wait` are taken not to happen (`P`
  uses `if`), and cancelling and destroying threads at the end is not modelled.
- LA7: sightseeing and ride times only matter as the numbers a boat announces.
- LA5: several follower programs joining at the same time (the read and the write of `M[1]` are
  not atomic); weak memory; the interrupt handler.  The leader and the followers are one state
  machine on values; only the leader's summing and its hash table are also modelled in place.
- LA4: a placement is handled to its end before the next command, so a block that waits for
  answers never reads another block's question; `s` before the first `n`; the pipes themselves.
- LA9, LA10: the queues of processes and free frames are sequences, not linked nodes.  The loop of
  `BS` and the swap-out inside it are separate methods.
- LA10: global counters and the counters of a process are one record each.
- LA3: the two equal copies of the program (`LA3/22CS30016_Omkar.c` repeats `LA3/schedule.c`) are
  modelled once.  `init` inserts arrivals that `schedule` discards at once; only the process
  records it leaves are modelled.
- LA3: what a write past `ready_queue` does to the rest of memory; more than `MAXP` processes, which
  do not fit into the program's arrays.
- LA10: what a write past `FFLIST` does to the rest of memory; `PageReplacement.Replacer.Run` stops
  there and says so in its result.
- The other labs: LA1 (its `visited` copy is stale and its parsing mixed with input and output),
  LA2 (signals), LA6 (a slot can be overwritten and time can go back), LA11, the input generators
  and the sample programs.
