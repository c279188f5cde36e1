# Verification of the scheduler runtime

A Dafny model of the concurrent core of the work-stealing task scheduler: the Chase-Lev
deque, task graphs, the ready queues, the timer queue, the await handshake and the
ownership of coroutine frames, bounded trace capture, and the admission slots that tie
ready queues and graphs together.

Concurrent code is modelled as a transition system. A state holds the shared variables
and one program counter per thread; a step is one atomic access or one locked region of
one thread; `Run` takes any list of steps, so a lemma about `Run` speaks of every
interleaving. Sequential code is modelled in its own form: classes with the same fields,
methods with the same loops, each proved against a specification function whose meaning
is then proved by lemmas. `dafny verify dfyconfig.toml` checks the project.

## The modules

| file | what it models |
|---|---|
| `RingBuffer.dfy` | cells addressed through the mask `i & (capacity - 1)` |
| `ChaseLevProtocol.dfy`, `ChaseLevRuns.dfy` | the production deque under concurrency: one owner, any number of thieves, growth, rebase, injected failures; what holds of every run |
| `ChaseLevSequential.dfy` | the production deque and the oracle as classes on 64-bit integers, against a plain sequence |
| `TaskGraphs.dfy`, `CycleSearch.dfy`, `GraphFreeze.dfy` | graphs, the depth-first witness search, `freeze` |
| `GraphRunProtocol.dfy`, `GraphRunOutcomes.dfy`, `GraphRunTally.dfy`, `GraphRunProgress.dfy` | one run of a frozen graph of plain nodes: who unlocks whom, what each node's outcome means, the counters and callbacks, termination |
| `FrozenRuns.dfy` | freezing and running put together |
| `TimerSpec.dfy`, `TimerQueues.dfy` | pending timers as a map; the indexed heap |
| `ReadySpec.dfy`, `BoundedWait.dfy`, `DeadlineWait.dfy`, `ReadyLedger.dfy` | the global bands as values; bounded waits of FIFO tasks and of deadline tasks; conservation |
| `ReadyQueues.dfy`, `IntrusiveFifos.dfy` | the queues in place; the linked FIFO |
| `AwaitHandshake.dfy`, `TaskLifecycle.dfy`, `TaskAwait.dfy` | arm, trigger and cancel; a task's state and callbacks; an await end to end |
| `CoroutineFrame.dfy`, `FrameHandshakes.dfy` | invokers, handoff and publication counters, destruction of a frame; the frame together with the handshake of each await |
| `TraceCapture.dfy`, `TraceFates.dfy` | capture generations, tickets, emitters, start, stop and abort; the fate of every emission |
| `Admission.dfy` | the slot counter and the graph lease |
| `SlotConservation.dfy` | where every slot is: the counter together with the graph runs, the ready queues and the submissions under construction |

Where each step function comes from:

- `ChaseLevProtocol.OwnerStep`: push `src/scheduling/chase_lev_deque.hpp:252-280`, pop `284-318`,
  rebase `382-430`, grow `460-483`; `ThiefStep`: steal `322-350`.
- `CycleSearch.Visit`, `VisitFrom`, `VisitRoots`: `src/graph/graph.cpp:31-59`, `133-139`.
- `GraphRunProtocol.Step`: `run` and `post_node` (`src/graph/graph_execution.cpp:154-171`, `302-370`),
  `trigger_successors` (`226-251`), `mark_node_terminal` and `add_completion_callback`
  (`src/graph/graph_shared_state.hpp:66-125`), `request_cancel` (`src/graph/graph.cpp:218-228`).
- `ReadySpec.ClaimBand`, `Choose`, `ClaimGlobal`: `src/runtime/ready_queues.cpp:382-443`; the calendar and the
  burst limit: `src/runtime/ready_queues.hpp:85-93`; `BoundedWait.WorkerStep`: `src/runtime/worker_loop.cpp:89-111`, `207-246`.
- `AwaitHandshake.TriggerStep`, `CancelStep`, `ArmStep`: `src/task/await_handshake.hpp:25-88`.
- `TaskLifecycle.Next`: `src/task/task_control_block.cpp:65-158`, `160-217`.
- `CoroutineFrame.Next`: `src/task/await_protocol.cpp:51-96`, `include/astra/coroutine.hpp:215-234`,
  `src/task/task_control_block.cpp:274-287`, `360-368`, `src/task/await_protocol.cpp:160-173`; an awaiter's arm-then-publish order: `include/astra/coroutine.hpp:333-337`.
- `TraceCapture.EmitStep`: `src/observability/trace_collector.cpp:418-463`; `StartStep`, `OpenStep`, `StopStep`, `HoldStep`:
  `155-186`, `204-276`, `283-356`.
- `Admission.Attempt`, `Released`: `src/runtime/admission_controller.cpp:23-133`.
- `SlotConservation.Next`: submissions `include/astra/scheduler.hpp:278-294`, graphs `src/graph/graph_execution.cpp:127-171`,
  a propagated cancellation's release `240-246`, a claim's release `src/runtime/runtime_state.cpp:29-34`, clean-up
  `src/runtime/ready_queues.cpp:489-540`; in between `GraphRunProtocol.Step` and `ReadySpec.Step`.

## Findings

- A completion callback registered after the last node has counted itself down, but before it has published the
  final state, may run while the run's state is still Running (`src/graph/graph_shared_state.hpp:66-79`, `103-118`).
  `FrozenRuns.LateCallbackSeesRunning` gives such a run. `FrozenRuns.SeesRunningExactlyWhenLate`: at any moment of any
  run, some continuation shows Running to a callback registered now if and only if no node remains and the state
  is Running now; so a caller that registers while a node remains, or once `is_completed()`, always sees the
  final state (`FrozenRuns.InTimeSeesFinal`).
- A coroutine without a rescheduler that yields or awaits is never resumed, and its frame never destroyed
  (`src/task/await_protocol.cpp:36-38`, `160-173`): `CoroutineFrame.SuspensionStrands` gives one run for each.
  `CoroutineFrame.DestroyedExactlyWithRescheduler`: every finished run has destroyed the frame exactly once if and only
  if the coroutine was given a rescheduler. The runtime meets that condition: whatever gives a coroutine its shared
  state also sets the rescheduler before the first segment (`include/astra/scheduler.hpp:300-310`,
  `src/graph/graph_execution.cpp:265-272`), and only a terminal transition clears it
  (`src/task/task_control_block.cpp:166`, `189`, `207`).

## Model

| member | source | states |
|---|---|---|
| RingBuffer.MaskIsRemainder | src/scheduling/chase_lev_deque.hpp:228-234 | masking with capacity - 1 is the remainder modulo the capacity, for every power of two |
| RingBuffer.SlotsDiffer | src/scheduling/chase_lev_deque.hpp:228-234 | two indices less than one capacity apart never share a cell |
| RingBuffer.DoubleFits | src/scheduling/chase_lev_deque.hpp:464-470 | doubling a power-of-two capacity below the limit does not pass the limit |
| ChaseLevProtocol.PushGrowKeeps | src/scheduling/chase_lev_deque.hpp:460-483 | a step of the copy loop, its publication or its failure keeps the invariant, the content, and every older buffer's value at top |
| ChaseLevProtocol.OwnerMoves | src/scheduling/chase_lev_deque.hpp:252-318 | every owner step keeps the invariant, is one event of a sequential deque on the content, and leaves alone what thieves with stale locals rely on |
| ChaseLevProtocol.CasTakesFront | src/scheduling/chase_lev_deque.hpp:336-347 | a compare-and-swap of top by one removes exactly the oldest item |
| ChaseLevProtocol.CasMoves | src/scheduling/chase_lev_deque.hpp:332-347 | a thief whose compare-and-swap succeeds returns the value pushed at that index, however old its buffer is |
| ChaseLevProtocol.StepRefines | src/scheduling/chase_lev_deque.hpp:252-350 | every step of every thread keeps the invariant and follows the sequential deque: pop takes the newest item, steal the oldest |
| ChaseLevRuns.RunIsLinearizable | src/scheduling/chase_lev_deque.hpp:252-350 | the events of any run, with any number of thieves and any injected failures, are a history of one sequential deque |
| ChaseLevRuns.EachCallHasOneEvent | src/scheduling/chase_lev_deque.hpp:252-350 | in any run, of the owner and of every thief, the i-th event answers the i-th call; a call without its event is the last one and still under way |
| ChaseLevRuns.RefusedOnlyWhenFull | src/scheduling/chase_lev_deque.hpp:252-280 | from any idle owner on, whatever thieves do, a push is refused only with all but one cell taken at the capacity limit, unless an allocation failed or a failure was injected since |
| ChaseLevRuns.PushBelowLimitSucceeds | src/scheduling/chase_lev_deque.hpp:262-280 | in a fault-free run shorter than the limit no push is refused, however small the first buffer |
| ChaseLevRuns.OwnerCallsEnd | src/scheduling/chase_lev_deque.hpp:252-318 | every owner step brings its call closer to its return, but for waiting until thieves have left |
| ChaseLevRuns.StealsEnd | src/scheduling/chase_lev_deque.hpp:322-350 | a steal returns after at most nine steps of its thread |
| ChaseLevRuns.SoloStealSucceeds | src/scheduling/chase_lev_deque.hpp:322-350 | a steal that nobody disturbs takes the oldest item, unless the owner is renumbering or a pop is deciding on the last item |
| ChaseLevRuns.HistoryConserves | src/scheduling/chase_lev_deque.hpp:252-350 | along a sequential history, old content plus pushed items equals taken items plus new content |
| ChaseLevRuns.NothingLostOrDuplicated | src/scheduling/chase_lev_deque.hpp:252-350 | from an empty deque, pushed items are exactly the popped and stolen ones plus the live content, as multisets |
| ChaseLevRuns.StaleThiefSeesFront | src/scheduling/chase_lev_deque.hpp:332-347 | as long as top is a thief's index, its loaded buffer and item show the oldest live value, after any growth, pops and pushes since |
| ChaseLevRuns.RebaseExcludesThieves | src/scheduling/chase_lev_deque.hpp:322-430 | while the owner renumbers, no thief is between its second maintenance check and its decrement |
| ChaseLevRuns.NoStaleIndexWins | src/scheduling/chase_lev_deque.hpp:332-430 | in any run, a compare-and-swap that succeeds uses an index loaded after the last renumbering |
| ChaseLevRuns.IndicesNeverWrap | src/scheduling/chase_lev_deque.hpp:458-470 | no index or capacity exceeds 2 to the 62, so no 64-bit arithmetic of the source wraps |
| ChaseLevRuns.UnsuccessfulSteal | src/scheduling/chase_lev_deque.hpp:322-350 | a steal reports Empty only on an empty deque or one whose only item a pop in flight is deciding on; Retry only under maintenance or after losing the race |
| ChaseLevSequential.Cells.CopyFrom | src/scheduling/chase_lev_deque.hpp:470-475 | the copy loop reproduces the live window in the larger buffer |
| ChaseLevSequential.ChaseLevDeque.Grow | src/scheduling/chase_lev_deque.hpp:460-483 | doubles the capacity, keeps the contents and the old buffers; refused exactly at the capacity limit |
| ChaseLevSequential.ChaseLevDeque.MaybeQuiescentRebase | src/scheduling/chase_lev_deque.hpp:382-430 | resets top to 0 without changing the contents, exactly when an index reached the watermark |
| ChaseLevSequential.ChaseLevDeque.Push | src/scheduling/chase_lev_deque.hpp:252-280 | appends the item; refused, without effect, exactly when the deque is full at the capacity limit |
| ChaseLevSequential.ChaseLevDeque.Pop | src/scheduling/chase_lev_deque.hpp:284-318 | removes and returns the newest item, or reports Empty |
| ChaseLevSequential.ChaseLevDeque.Steal | src/scheduling/chase_lev_deque.hpp:322-350 | removes and returns the oldest item, or reports Empty |
| ChaseLevSequential.ChaseLevSeqCstOracle.Grow | src/scheduling/chase_lev_deque.hpp:192-204 | doubles the oracle's buffer, keeps its contents and the old buffer |
| ChaseLevSequential.ChaseLevSeqCstOracle.Push | src/scheduling/chase_lev_deque.hpp:115-125 | appends the item |
| ChaseLevSequential.ChaseLevSeqCstOracle.Pop | src/scheduling/chase_lev_deque.hpp:127-153 | removes and returns the newest item, or reports Empty |
| ChaseLevSequential.ChaseLevSeqCstOracle.Steal | src/scheduling/chase_lev_deque.hpp:155-175 | removes and returns the oldest item, or reports Empty |
| ChaseLevSequential.RunBoth | src/scheduling/chase_lev_deque.hpp:115-430 | on every list of push, pop and steal the production deque and the oracle both give the results of a plain sequence and end with its items |
| TaskGraphs.InDegreeCounts | src/graph/graph.cpp:95-98 | the counting loop yields the number of edges that lead to the node |
| TaskGraphs.RankedIsAcyclic | src/graph/graph.cpp:105-125 | a graph whose edges all climb in rank has no closed walk |
| CycleSearch.WitnessIsClosed | src/graph/graph.cpp:40-47 | cutting the path at the repeated node and closing it gives a closed walk along edges |
| CycleSearch.VisitOutcome | src/graph/graph.cpp:31-59 | a search from a new node finds a closed walk, or finishes it with all its successors finished before |
| CycleSearch.SearchDecides | src/graph/graph.cpp:127-141 | the search over all roots returns a closed walk of the graph, or its finishing order ranks the graph |
| CycleSearch.AcyclicIsRanked | src/graph/graph.cpp:127-141 | every acyclic graph can be ranked along its edges |
| CycleSearch.Searcher.FindCycle | src/graph/graph.cpp:31-59 | the recursive search on the vectors computes the specification, colours, path and witness included |
| CycleSearch.Searcher.FindAnyCycle | src/graph/graph.cpp:133-139 | the root loop computes the specification |
| GraphFreeze.FreezeAcceptsExactlyValid | src/graph/graph.cpp:63-146 | freeze succeeds exactly on graphs with endpoints in 1..n, no self or duplicate edge and no cycle; a Cycle error carries a closed walk |
| GraphFreeze.FreezeReports | src/graph/graph.cpp:66-88 | an unknown endpoint is reported before a self edge, and a self edge before a duplicate one |
| GraphFreeze.FreezeIgnoresInsertionOrder | src/graph/graph.cpp:100-141 | inserting the same edges in any order gives the same result and the same witness |
| GraphFreeze.OpenAfter | src/graph/graph.cpp:120-124 | processing a node lowers a count of open predecessors by one for each of its successors and for no other node |
| GraphFreeze.StuckIsUnranked | src/graph/graph.cpp:113-127 | nodes that each keep an unprocessed predecessor lie on a cycle |
| GraphFreeze.Kahn | src/graph/graph.cpp:105-125 | the in-degree queue visits every node if and only if the graph has no cycle |
| GraphFreeze.BuildAdjacency | src/graph/graph.cpp:91-103 | the loops build the sorted successor lists and the in-degrees |
| GraphFreeze.HasForeignEndpoint | src/graph/graph.cpp:66-72 | decides whether an endpoint lies outside 1..n |
| GraphFreeze.HasDuplicate | src/graph/graph.cpp:81-88 | decides whether two edges join the same nodes |
| GraphFreeze.FreezeGraph | src/graph/graph.cpp:63-146 | the checks in the source's order, Kahn and the witness search together compute the specification |
| GraphRunProtocol.DecrementMove | src/graph/graph_execution.cpp:236-238 | a countdown removes exactly one pending edge of the successor, and whoever reaches zero alone decides its fate |
| GraphRunTally.StepKeeps | src/graph/graph_execution.cpp:217-251 | every step of the poster, the workers, cancellers and registrars keeps the whole invariant |
| GraphRunTally.InitialKeeps | src/graph/graph_execution.cpp:148-165 | the materialised run satisfies the invariant |
| GraphRunOutcomes.BodyStartsAfterPredecessors | src/graph/graph_execution.cpp:226-251 | when a body starts, every predecessor is terminal and every required one succeeded |
| GraphRunOutcomes.OutcomeIsMeaning | src/graph/graph_execution.cpp:226-370 | without a cancel request a node's outcome is its recursive meaning: Cancelled if a required predecessor did not succeed, else its body's outcome |
| FrozenRuns.TerminalIsForEver | src/graph/graph_shared_state.hpp:81-82 | a node becomes terminal once: no run changes its outcome afterwards |
| GraphRunProgress.Progress | src/graph/graph_execution.cpp:217-251 | while a node of a rankable graph is unfinished some thread can move |
| GraphRunProgress.WorkDecreases | src/graph/graph_execution.cpp:226-251 | every step that changes something lowers a measure |
| GraphRunProgress.RunsAreBounded | src/graph/graph_execution.cpp:226-370 | any run takes at most the initial measure plus one step per registered callback |
| GraphRunProgress.QuiescentIsComplete | src/graph/graph_shared_state.hpp:81-125 | when no thread can move: all nodes are terminal, the counts sum to the total, the final state is published, every callback ran once and every slot is back |
| GraphRunProgress.PublishedStateIsWorst | src/graph/graph_shared_state.hpp:109-115 | the published state is Failed exactly if some node failed, else Cancelled exactly if some node was cancelled, else all succeeded; it is published when all nodes are done |
| FrozenRuns.FrozenRunFinishes | src/graph/graph_execution.cpp:154-251 | every run of a graph that freeze accepted either is done or can move, and takes boundedly many steps |
| FrozenRuns.OutcomesAgree | src/graph/graph_execution.cpp:226-366 | without cancel requests a node ends the same way in every schedule |
| FrozenRuns.SchedulesAgree | src/graph/graph_shared_state.hpp:81-125 | two finished runs nobody cancelled report the same outcomes, counts and final state |
| FrozenRuns.CancelCancelsUnstarted | src/graph/graph_execution.cpp:240-246 | after a cancel request no body starts that has not started, and those nodes end Cancelled |
| FrozenRuns.CancelStopsPosting | src/graph/graph_execution.cpp:240-249 | after a cancel request only roots left to post and nodes already decided to be posted are handed to the ready queues |
| FrozenRuns.EveryCallbackRegisters | src/graph/graph_shared_state.hpp:66-79 | the registered callbacks are exactly those that callers added |
| FrozenRuns.CallbackSees | src/graph/graph_shared_state.hpp:66-125 | callbacks taken by the last node see the final state; Running is visible after the last countdown exactly until publication |
| FrozenRuns.SeesRunningExactlyWhenLate | src/graph/graph_shared_state.hpp:66-125 | some continuation runs a callback registered now while the state is Running if and only if no node remains and the state is Running now |
| FrozenRuns.InTimeSeesFinal | src/graph/graph_shared_state.hpp:66-125 | a callback registered while a node remains, or after publication, sees the final state in every continuation |
| FrozenRuns.LateCallbackSeesRunning | src/graph/graph_shared_state.hpp:66-79 | a run in which a late callback sees Running exists |
| TimerSpec.DrainTakesExactlyDue | src/runtime/timer_queue.cpp:107-124 | repeatedly removing the earliest due timer takes exactly the due ones, in increasing (wake time, sequence) order |
| TimerSpec.DrainIsTheOnlyOrder | src/runtime/timer_queue.cpp:107-124 | any increasing list of exactly the due timers is that list |
| TimerSpec.ApplyAccounts | src/runtime/timer_queue.cpp:51-161 | each operation keeps every id in exactly one place, and after collect_due no pending timer is due |
| TimerSpec.EveryTimerAccounted | src/runtime/timer_queue.cpp:51-161 | after any operations every id handed out is pending, taken or cancelled, and so exactly once |
| TimerQueues.CompareTimerEntry | src/runtime/timer_queue.cpp:7-12 | the branches decide the lexicographic order on (wake time, sequence) |
| TimerQueues.SwapUp | src/runtime/timer_queue.cpp:17-21 | one upward swap moves the only possible violation of heap order to the parent |
| TimerQueues.SwapDown | src/runtime/timer_queue.cpp:34-43 | one downward swap with the smallest child moves the violation to that child |
| TimerQueues.RootIsLeast | src/runtime/timer_queue.cpp:163-169 | in an ordered heap no entry comes before the root |
| TimerQueues.ReplaceKeeps | src/runtime/timer_queue.cpp:96-102 | after a middle entry is replaced only its place may violate heap order, below or above |
| TimerQueues.TimerQueue.BubbleUp | src/runtime/timer_queue.cpp:14-26 | restores heap order upwards, with the same entries and correct back-pointers |
| TimerQueues.TimerQueue.BubbleDown | src/runtime/timer_queue.cpp:28-49 | restores heap order downwards, leaving at most the start above its parent's order |
| TimerQueues.TimerQueue.Insert | src/runtime/timer_queue.cpp:68-80 | the locked part of add inserts exactly the entry; became_earliest if and only if it is the minimum |
| TimerQueues.TimerQueue.Add | src/runtime/timer_queue.cpp:51-81 | add hands out a new id, inserts exactly that timer, and tells whether it is the minimum |
| TimerQueues.TimerQueue.Cancel | src/runtime/timer_queue.cpp:83-105 | removes only that id, from any position, and keeps the heap; an unknown id changes nothing |
| TimerQueues.TimerQueue.PopRoot | src/runtime/timer_queue.cpp:112-120 | takes exactly the earliest timer out of heap and map |
| TimerQueues.TimerQueue.CollectDue | src/runtime/timer_queue.cpp:107-137 | returns exactly the timers due now, earliest first, and keeps exactly the others |
| TimerQueues.TimerQueue.CancelAll | src/runtime/timer_queue.cpp:139-161 | returns all timers, earliest first, and leaves none |
| TimerQueues.TimerQueue.EarliestWakeTime | src/runtime/timer_queue.cpp:163-169 | the wake time of the true minimum, if any timer is pending |
| ReadySpec.Least | src/runtime/ready_queues.cpp:26-31 | entries with distinct admission sequences have one minimum by (deadline, sequence) |
| ReadySpec.Choose | src/runtime/ready_queues.cpp:419-437 | a claim takes from a non-empty band, and from the calendar's band unless that is empty |
| BoundedWait.SlotIs | src/runtime/ready_queues.hpp:87-91 | which of the fifteen slots belong to which priority |
| BoundedWait.RoundVisits | src/runtime/ready_queues.hpp:85-91 | any fifteen consecutive slots visit a band exactly 8, 4, 2 or 1 times |
| BoundedWait.ClaimKeeps | src/runtime/ready_queues.cpp:382-443 | a claim never moves a waiting task back, and a claimant's own claim in the task's slot brings it closer |
| BoundedWait.VisitsAreSpent | src/runtime/ready_queues.cpp:382-443 | a task that still waits has cost a claimant all its visits to the band |
| BoundedWait.ClaimedWithinBound | src/runtime/ready_queues.cpp:382-443 | a task at position k of a FIFO whose band has w slots is gone after 15 * ceil(9(k+1)/w) claims of one claimant, whatever arrives and whoever else claims |
| BoundedWait.ClaimedAmongMany | src/runtime/ready_queues.cpp:414-443 | the same for W claimants together, after W times (bound - 1) plus one claims |
| BoundedWait.WaitingClaimsSucceed | src/runtime/ready_queues.cpp:414-443 | while the task waits no claim comes back empty-handed |
| BoundedWait.TurnsBecomeClaims | src/runtime/worker_loop.cpp:89-111 | while the task waits a worker claims globally at least once in local_burst_limit + 1 turns |
| BoundedWait.ClaimedWithinTurns | src/runtime/worker_loop.cpp:89-111 | the bound in turns of a worker's loop: local_burst_limit + 1 times as many |
| BoundedWait.LocalWorkFirst | src/runtime/worker_loop.cpp:89-111 | while a worker finds local work it claims globally at most once in local_burst_limit turns |
| DeadlineWait.StaysInPlace | src/runtime/ready_queues.cpp:341-380 | deadline tasks stay in their priority's heap under their own deadline, all others in its FIFO |
| DeadlineWait.ClaimReturns | src/runtime/ready_queues.cpp:382-443 | a claim returns the task of a band with the least (deadline, sequence) or the FIFO's oldest, from the calendar's band or, if that is empty, the highest with work; nothing else moves |
| DeadlineWait.ClaimFindsWork | src/runtime/ready_queues.cpp:414-443 | a claim succeeds exactly if some band has work |
| DeadlineWait.AtMostOneInNine | src/runtime/ready_queues.cpp:392-405 | of any nine claims of one claimant from a band while deadline tasks wait there, at most one takes a FIFO task |
| DeadlineWait.DeadlineClaimedWithinBound | src/runtime/ready_queues.cpp:382-443 | the r-th deadline task of a band with w slots is gone after 15 * ceil(floor((9r+7)/8)/w) claims of one claimant, whatever happens but earlier deadlines |
| DeadlineWait.DeadlineClaimedAmongMany | src/runtime/ready_queues.cpp:414-443 | the same for all claimants together |
| ReadyLedger.ClaimBandConserves | src/runtime/ready_queues.cpp:382-412 | a claim takes exactly the task it returns out of the band |
| ReadyLedger.CleanupConserves | src/runtime/ready_queues.cpp:489-540 | clean-up: what was queued or moved in is kept or cancelled, for every property of tasks |
| ReadyQueueState.CleanupConservesEverything | src/runtime/ready_queues.cpp:489-540 | the multiset of everything queued before clean-up, local bands included, is what is queued after it plus what was cancelled |
| ReadyLedger.RunConserves | src/runtime/ready_queues.cpp:341-540 | over any run of publications, claims and clean-ups: entered equals queued plus claimed plus cancelled, for every property of tasks and so for external slots |
| ReadyQueueState.ResumesKeepTheirBand | src/runtime/ready_queues.cpp:529-539 | local resume segments join the FIFO of their own band, worker after worker, in relative order |
| ReadyQueueState.CleanupPartitions | src/runtime/ready_queues.cpp:278-320 | clean-up splits a queue into its resume segments and the cancelled rest, each task once |
| ReadyQueueState.PopHeap | src/runtime/ready_queues.cpp:394-396 | takes the minimum by (deadline, admission sequence) |
| ReadyQueueState.ReadyQueues.Publish | src/runtime/ready_queues.cpp:341-380 | a deadline task goes to its band's heap, another one to the local band if allowed and there is room, else to the FIFO |
| ReadyQueueState.ReadyQueues.ClaimBandLocked | src/runtime/ready_queues.cpp:382-412 | one band's claim computes the specification |
| ReadyQueueState.ReadyQueues.ClaimGlobal | src/runtime/ready_queues.cpp:414-443 | the calendar's band first, then Critical down to Low, computes the specification |
| ReadyQueueState.ReadyQueues.TakeLocal | src/runtime/ready_queues.cpp:162-212 | the owner takes the newest task of the chosen local band, a thief the oldest |
| ReadyQueueState.LocalClaimIs | src/runtime/ready_queues.cpp:162-212 | the owner's claim is the newest of its band, a thief's the oldest; the band is the calendar's or the first with work from Critical down; nothing else moves |
| ReadyQueueState.OwnerIsLifo | src/runtime/ready_queues.cpp:162-212 | what the owner has just published comes back first in its slot |
| ReadyQueueState.ReadyQueues.CancelUnstarted | src/runtime/ready_queues.cpp:489-540 | every resume segment stays in its band and order, every other task is cancelled once, and cancelled external tasks free exactly their slots; all queues together keep or cancel each item |
| ReadyQueueState.CleanLocal | src/runtime/ready_queues.cpp:278-320 | a Chase-Lev local queue is emptied, a locked one keeps its resume segments in order |
| IntrusiveFifos.IntrusiveFifo.PushBack | src/runtime/ready_queues.cpp:79-93 | links the task at the tail; the queue's contents grow by it |
| IntrusiveFifos.IntrusiveFifo.PopFront | src/runtime/ready_queues.cpp:95-110 | unlinks and returns the oldest task with its external mark |
| IntrusiveFifos.IntrusiveFifo.AnyResume | src/runtime/ready_queues.cpp:112-119 | tells whether a queued task is a resume segment |
| AwaitHandshake.StepKeeps | src/task/await_handshake.hpp:25-88 | every step of any number of callers keeps the invariant |
| AwaitHandshake.ActionRunsAtMostOnce | src/task/await_handshake.hpp:25-88 | the resume action runs at most once in any run |
| AwaitHandshake.ResumedExactlyOnce | src/task/await_handshake.hpp:25-88 | once arm and one trigger or cancel have returned the handshake is resolved, and when all have returned the action ran exactly once |
| AwaitHandshake.CancelledBitIsFinal | src/task/await_handshake.hpp:42-96 | in every run after the deciding move the cancelled bit is set if and only if a cancel made that move |
| AwaitHandshake.StepsAreBounded | src/task/await_handshake.hpp:42-71 | every step but a spurious failure brings all callers closer to returning |
| TaskLifecycle.NextKeeps | src/task/task_control_block.cpp:65-217 | every locked transition keeps the invariant |
| TaskLifecycle.TerminalAtMostOnce | src/task/task_control_block.cpp:107-217 | at most one terminal transition is made, and it is the final state |
| TaskLifecycle.CancelledNeverStarts | src/task/task_control_block.cpp:107-158 | a task cancelled before it started never starts, whatever happens afterwards |
| TaskLifecycle.StartedIsNotCancelled | src/task/task_control_block.cpp:107-129 | a started task stays running or suspended until its own thread finishes it, however often cancellation is requested |
| TaskLifecycle.FirstComesFirst | src/task/task_control_block.cpp:107-217 | the first start or cancel request decides: a started task ends as its own thread first says and sleeps exactly after a suspension, one cancelled before ends Cancelled |
| TaskLifecycle.StopIsRequested | src/task/task_control_block.cpp:107-113 | a stop is requested exactly once somebody asked for cancellation |
| TaskLifecycle.EveryCallbackRegisters | src/task/task_control_block.cpp:82-95 | the registered callbacks are exactly those that callers added |
| TaskLifecycle.CallbacksDrain | src/task/task_control_block.cpp:82-95 | a callback that is due runs and leaves its runner one fewer |
| TaskLifecycle.CallbacksRunExactlyOnce | src/task/task_control_block.cpp:82-95 | no callback runs before the terminal state, and in the end each registered one has run exactly once |
| TaskAwait.NextKeeps | src/task/await_protocol.cpp:117-133 | registration, completion, cancellation and arming in any order keep the combined invariant |
| TaskAwait.ResumedForAReason | src/task/await_protocol.cpp:117-133 | a waiter is resumed at most once, and only after the target finished or the waiter was asked to stop, as the cancelled bit tells |
| TaskAwait.ResumedExactlyOnce | src/task/await_protocol.cpp:117-133 | once the target has finished and all threads are through, the waiter was resumed exactly once |
| TaskAwait.RegistrationTakesEffect | src/task/await_protocol.cpp:122-133 | the await's callback is registered with its target before it arms |
| TaskAwait.TriggerIsDue | src/task/await_protocol.cpp:122-131 | when the target's callbacks have been handed out, arm and trigger may both run |
| TaskAwait.ThreadsReturn | src/task/await_handshake.hpp:25-88 | whoever may move gets through: each step but a spurious failure lowers a measure |
| CoroutineFrame.NextKeeps | src/task/await_protocol.cpp:51-96 | every step of every invoker and every delivery keeps the invariant |
| CoroutineFrame.OneOwner | src/task/await_protocol.cpp:51-96 | at most one invoker is inside the frame, and only while it exists |
| CoroutineFrame.SegmentsDoNotOverlap | src/task/task_control_block.cpp:274-287 | a segment runs only after every earlier suspension is published, with no earlier invoker in the frame |
| CoroutineFrame.NeverTouchesAgain | include/astra/coroutine.hpp:228-233 | an invoker that handed off and left its body never touches the frame again |
| CoroutineFrame.DestroyedAtMostOnce | include/astra/coroutine.hpp:228-233 | the frame is destroyed at most once in any run |
| CoroutineFrame.DestroyedUnlessStranded | src/task/await_protocol.cpp:90-95 | when all invokers are through, the frame was destroyed once if no suspension went without a rescheduler, and never otherwise |
| CoroutineFrame.SuspensionStrands | src/task/await_protocol.cpp:160-173 | runs of a yield and of an await without a rescheduler that end with the frame not destroyed |
| CoroutineFrame.DestroyedExactlyWithRescheduler | src/task/await_protocol.cpp:32-96 | every finished run has destroyed the frame exactly once if and only if there is a rescheduler |
| CoroutineFrame.BodyMoves | src/task/await_protocol.cpp:117-173 | an await counts a handoff and owes its delivery, a yield with a rescheduler delivers at once, a due delivery adds the next invoker |
| CoroutineFrame.StepsAreBounded | src/task/await_protocol.cpp:51-96 | every step that changes something lowers a measure; a suspension adds at most one invoker's way |
| CoroutineFrame.SomebodyMoves | src/task/task_control_block.cpp:274-287 | until all invokers are through, a resume action is due or some invoker can move |
| CoroutineFrame.EndsInDestruction | src/task/await_protocol.cpp:51-96 | after the coroutine's end boundedly many steps change anything, and when none can the frame was destroyed exactly once |
| CoroutineFrame.SpinnerIsReleased | src/task/task_control_block.cpp:279-287 | a spinning invoker waits only for the previous segment, which is about to publish |
| FrameHandshakes.NextKeeps | src/task/await_protocol.cpp:117-133 | in any interleaving of invokers and handshake callers, a handoff is owed exactly while the last await's action has not run |
| FrameHandshakes.DeliveredInTurn | src/task/await_protocol.cpp:32-42 | a resume action that runs finds its own handoff owed: there is no second delivery of a handoff |
| FrameHandshakes.SuspendStarts | src/task/await_protocol.cpp:117-133 | each await counts one handoff and starts a handshake of its own |
| FrameHandshakes.CallersReturn | src/task/await_handshake.hpp:25-88 | the callers of every await's handshake get through |
| FrameHandshakes.EveryAwaitIsResumed | src/task/await_protocol.cpp:117-133 | when all handshake callers have returned every await has delivered exactly once |
| FrameHandshakes.EverythingReturned | src/task/await_protocol.cpp:51-133 | when callers and invokers are through, the frame of a coroutine with a rescheduler was destroyed exactly once |
| TraceCapture.NextKeeps | src/observability/trace_collector.cpp:204-463 | every access of every emitter and of the mutex holder keeps the invariant |
| TraceCapture.QuietBuffersAreFinal | src/observability/trace_collector.cpp:295-299 | once stop or abort saw no emitter in flight, no run ever writes to that generation's buffers |
| TraceCapture.CellsAreWrittenOnce | src/observability/trace_collector.cpp:443-460 | a written cell is never written again |
| TraceCapture.SnapshotIsExact | src/observability/trace_collector.cpp:308-330 | each producer is reported once, with exactly tickets 0 to min(tickets, capacity) - 1 in order; tickets drawn are events plus drops |
| TraceCapture.GenerationsAreIsolated | src/observability/trace_collector.cpp:427-441 | an emitter that may write holds a buffer of its own slot and of the current generation, for a recorded category |
| TraceFates.NextKeeps | src/observability/trace_collector.cpp:204-463 | every access keeps the log of calls, their tickets and the buffers in agreement |
| TraceFates.EveryCallHasItsFate | src/observability/trace_collector.cpp:418-463 | a finished call was skipped exactly if it saw its generation inactive, found no buffer of it, or has a category outside the mask; otherwise it drew a ticket, whose cell holds its slot, category and body, or which lies beyond the buffer |
| TraceFates.TicketsAreCalls | src/observability/trace_collector.cpp:443-447 | the tickets of a buffer are exactly the calls that drew from it, one each; those beyond the buffer are the drops |
| TraceFates.ProducersHaveBuffers | src/observability/trace_collector.cpp:155-186 | each registered producer has a buffer of the current generation, of the size set for its kind |
| TraceFates.SnapshotHoldsEveryCall | src/observability/trace_collector.cpp:308-330 | each call that drew a ticket of a stopped generation is in its producer's report, at its ticket, or among its drops |
| TraceFates.StoppedAreReported | src/observability/trace_collector.cpp:283-356 | exactly the stopped generations, not the aborted ones, have a snapshot |
| TraceFates.EmissionsEnd | src/observability/trace_collector.cpp:418-463 | an emission is over after at most seven accesses |
| TraceFates.HoldersEnd | src/observability/trace_collector.cpp:204-356 | start, stop and abort give the mutex back after boundedly many accesses, but for waiting for emitters in flight |
| TraceFates.CapturesStartAndStop | src/observability/trace_collector.cpp:204-299 | a start with valid options is accepted exactly when nothing records, and its generation becomes current; a stop makes it inactive |
| Admission.AdmissionController.AcquireOnce | src/runtime/admission_controller.cpp:23-98 | succeeds exactly if the status admits the caller and it is internal, needs no slot or fits the capacity; says which refusal follows from which cause; takes the slots exactly on external success |
| Admission.AttemptDecides | src/runtime/admission_controller.cpp:23-98 | the same of the specification, for every status, count and caller |
| Admission.GraphAdmissionLease.Rollback | src/graph/graph_runtime_port.hpp:69-78 | gives all slots of external work back once, and nothing after commit |
| SlotConservation.TransferMoves | src/graph/graph_execution.cpp:217-251 | a step of a graph run makes a node leave the waiting ones exactly when it posts or cancels it |
| SlotConservation.NextKeeps | src/graph/graph_execution.cpp:127-251 | conservation: pending slots are exactly those of queued external items, submissions under construction, unposted nodes of external graphs and claims about to release, within the capacity; each submission and each node is in one of these places or returned, exactly once |
| SlotConservation.ReleaseNeverSaturates | src/runtime/admission_controller.cpp:120-133 | every release, of a claim, a cancelled node, a rollback or clean-up, finds the slots it gives back, and the counter falls by exactly as many |
| SlotConservation.AllOrNothing | src/runtime/admission_controller.cpp:84-98 | an external graph takes a slot for each node or none at all, an internal one takes none |
| SlotConservation.AdmittedWhenRoom | src/runtime/admission_controller.cpp:84-91 | a graph or a submission is admitted whenever the status admits it and the slots held leave it enough |
| SlotConservation.WaitsOnlyWhenFull | src/runtime/admission_controller.cpp:77-108 | acquire waits exactly when an external blocking caller's slots fit the capacity but queued items, unpublished work and claims about to release hold them |
| SlotConservation.ClaimFindsPosted | src/runtime/worker_loop.cpp:97-101 | a claimed item carries its origin's external mark, and a claimed node is posted in its run |
| SlotConservation.SubmissionMovesOn | include/astra/scheduler.hpp:278-294 | a published submission is in the bands with its mark, a rolled back one has its slot back |
| SlotConservation.ClaimMovesOn | src/runtime/worker_loop.cpp:97-101 | a claimed external item waits for its release |
| SlotConservation.ReleaseMovesOn | src/runtime/runtime_state.cpp:29-34 | the release gives a claimed item's slot back |
| SlotConservation.ClaimedNodeRuns | src/runtime/worker_loop.cpp:97-101 | a claimed node that is run goes on in its run |
| SlotConservation.LocalClaimMovesOn | src/runtime/ready_queues.cpp:162-212 | a node claimed from a local queue leaves it and goes on in its run |
| SlotConservation.LeaseMovesOn | src/graph/graph_execution.cpp:146-171 | a committed lease leaves the slots to the waiting nodes, a rolled back one gives all of them back |
| SlotConservation.GraphRunsOn | src/graph/graph_execution.cpp:217-251 | the run takes its step, whatever it hands over |
| SlotConservation.NodesMoveOn | src/graph/graph_execution.cpp:240-249 | a posted node is in the bands or a local queue, a cancelled one has its slot back |
| SlotConservation.CleanupCancelsAll | src/runtime/ready_queues.cpp:489-540 | Immediate clean-up leaves nothing queued but resume segments |
| SlotConservation.EveryNodeIsReturnedOnce | src/graph/graph_execution.cpp:240-246 | a graph rolled back, or with all nodes done, has given each node's slot back exactly once, claimed or cancelled |
| SlotConservation.NeverReturnedTwice | src/runtime/runtime_state.cpp:29-34 | no slot is given back twice, nor while its item is queued, unpublished or about to be released |
| SlotConservation.EverySlotComesBack | src/runtime/admission_controller.cpp:120-133 | when everything is through no slot is pending and every external submission and node has given its slot back exactly once |

## Left out

- Weak memory orders, fences and sanitizer hooks: atomics are sequentially consistent. The owner's reads of
  locations only it writes (bottom, the active buffer, the cells) are folded into its next shared access.
- ChaseLevRuns.UnsuccessfulSteal: does not claim that Empty means an empty deque, because an owner's pop of the
  last item lowers bottom before it decides.
- The 32-bit count of active thieves, 64-bit timer ids, ticket counts and handoff counters are unbounded numbers.
- ChaseLevSequential.ChaseLevSeqCstOracle.Push: asks for a bottom below the largest int64 and fewer items than 2 to the
  62, because the source computes the next index, and casts a doubled capacity, in int64 without a check.
- ChaseLevSequential.ChaseLevSeqCstOracle.Grow: asks for a capacity below 2 to the 62, for the same reason.
- ChaseLevSequential.RunBoth: allocation failures and injected failures are modelled in ChaseLevProtocol only.
- Coroutine nodes of graphs, and graph runs under Immediate shutdown, whose queued nodes never become terminal.
  Completion callbacks and node deadlines: callbacks do not throw, deadlines do not change outcomes.
- The call of request_cancel into the nodes' invokers: it does nothing for plain nodes and requests a stop from nodes
  that take a stop_token, which may then end in any way (the next line).
- GraphRunProtocol.Step: a body may return any outcome once cancellation was requested, its fixed outcome otherwise.
- ReadyQueueState.PopHeap: stands for std::pop_heap and pop_back; how the standard library arranges the vector is
  not part of this model. ReadyQueues holds its FIFOs as sequences; IntrusiveFifos proves the linked list on its own.
- ReadyQueueState.ReadyQueues.TakeLocal: is the lock-protected backend; local Chase-Lev bands are those of
  ChaseLevProtocol, and a failed growth is the room parameter of Publish.
- TimerQueues.TimerQueue.Add: draws its id and sequence number and inserts as one caller; Insert admits draws and
  insertions of several callers in any order.
- Parking and waking of workers, spinning, steal victims, helping recursion and the deferral of a self-resume to the
  end of its segment: the rescheduler call is the delivery point.
- SlotConservation.Next: a graph's nodes are plain nodes; local queues hold its internal nodes as a set, and internal
  tasks in local queues, which hold no slot, are left out. Clean-up of all queues is one step.
- CoroutineFrame.NextKeeps: assumes that nothing throws between counting a handoff and publishing it.
- TraceCapture.SnapshotIsExact: timestamps and the export to Chrome's format are left out, and so is the check
  that total buffer size does not overflow.
- Admission.AdmissionController.AcquireOnce: the condition variable's wait is a None result after which the caller tries again.
- TaskLifecycle.NextKeeps: succeed, set_exception and set_cancelled are called once, by the thread that started the task.
- Metrics, diagnostics, id allocation, the reaper, shutdown mode history, public handles.
