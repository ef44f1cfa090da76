# A verified model of the rl-aqs simulator

rl-aqs simulates a network of queues whose vertices learn where to send their jobs. This project
models five parts of it in Dafny and proves what they keep over all inputs and all runs.

* **The ladder queue** holds the pending events in three tiers: an unsorted Top, a ladder of up
  to five rungs of buckets, and a sorted Bottom. `LadderSpec` and `QueueSpec` describe it over
  values, `Tiers`, `RungState`, `Ladder` and `LadderQueue` as classes that are proved to behave
  like that description, and `QueueTheorems`, `QueueOrder`, `QueueFifo` and `PushBackOrder`
  compare it with a sorted multiset.
* **The queueing network** is a step machine. `Server` is one vertex with the log of what it has
  served, `Network` the handlers, `NetworkServers`, `NetworkRoutes`, `NetworkRuns` and
  `NetworkDrain` the properties of all runs, `NetworkEffects` what each event adds and changes,
  and `Evonet` the growth of the graph. `Simulator` is
  the handlers and the main loop as a class that makes exactly the machine's steps, with the
  ladder queue, as `EventQueue` presents it, for its pending events. What does not depend on
  time (tokens, routes, acknowledgements, draining, learning) is proved whatever order the queue
  keeps; the accounts of the servers for runs in time order, which are those without `pushBack`.
* **The orthogonal Latin hypercube**: `Bits` and `LhsSpec` hold the theory of bit flips and
  signs, `Lhs` the loops over matrices, `LhsDesign` the two ways of sampling.
* **Learning**: `Simplex` and `SimplexExact` are the randomised simplex step, `PolicySpec` and
  `Policy` the two policy-gradient learners, `Sarsa` the response handler, `OnlineStats` running
  statistics.
* **Integer sets as text**: `IntSet`.

Random draws, the outcome of library comparisons that are not modelled, and the choice among
events of equal time are arbitrary inputs. `double` is `real`. The library comparison of a
policy's sum with 1 is modelled: with a relative accuracy of 1e-6 it accepts sums within 2e-6
of 1.

Six properties turned out not to hold of the code as it stands:

* Time order does not survive `pushBack`: the new rung starts one bucket width below the rung
  above it, whatever the list holds, and keeps accepting events after it has been emptied.
  `QueueOrder.PushBackBreaksOrder` gives a run for every threshold, and
  `PushBackOrder.OrderSurvivesIff` proves that the guard of the branch is the exact condition:
  everything that can follow a push is in order if and only if the push does not take it.
* Events of equal time do not always leave first in, first out, even without `pushBack`: when
  Bottom overflows while its front lies at the last dequeued time, a newer event at that time
  goes to the emptied Bottom, before the older ones. `QueueFifo.TieOverflowBreaks` gives the run
  and `QueueFifo.FifoSurvivesIff` the exact condition on a push.
* The header comment of the ladder describes a partition of times into buckets. The corrections
  in `bucket` pin the result to the rung's current bucket: `RungStates.BucketIsNotFloor` is an
  example, and by `RungStates.BucketIsFloorIff` the promise holds for the times of the current
  bucket and no others.
* The queue integral is not that of the number of jobs waiting: a departure that leaves nobody
  behind counts the time since the event before it, in which the job was in service.
  `Servers.LoneJobCounts` is an example; by `Servers.QueueIntegralIff` the integral is right if and
  only if all such times are zero, and otherwise too large by their sum.
* The simplex step compares indices where the algorithm it is named after compares values.
  `Simplex.MissesTheSimplex` shows a vector it does not project onto the simplex, and
  `SimplexExact.ProjectsIff` the exact condition on the vector; ascending vectors meet it.
  Renormalisation repairs the sum, so the policies are valid all the same.
* The floor under the probabilities holds only if n times epsilon is at most 1, which nothing
  checks: `PolicySpec.FloorMissed` is an example, and `PolicySpec.LearnersFloorIff` proves over
  all gradients and random choices that this is the exact condition. What the flooring returns
  is a policy at all if and only if (n-1) epsilon is at most 1 (`PolicySpec.FlooredIsPolicyIff`).

## Model

| member | source | states |
|---|---|---|
| QueueTheorems.Conservation | src/common/queue/LadderQueue.cc:101-325 | for every run of pushes and dequeues, `pushBack` included: accepted events = events handed out + events still stored, as multisets |
| QueueTheorems.PushConserves | src/common/queue/LadderQueue.cc:101-224 | an accepted push stores exactly one more event, a rejected one changes nothing, whichever tier and overflow branch is taken |
| QueueTheorems.DequeueConserves | src/common/queue/LadderQueue.cc:227-325 | dequeue answers nothing if and only if nothing is stored; otherwise it removes exactly the event it returns |
| QueueTheorems.RefinesSortedMultiset | src/common/queue/LadderQueue.cc:101-325 | every run that avoids the `pushBack` branch answers like a sorted multiset: dequeue returns an event of least arrival, push is rejected exactly when it lies before the last dequeued time |
| QueueTheorems.OrderedRefines | src/common/queue/LadderQueue.cc:101-325 | the same from any queue in order: a run that avoids the branch is answered like the sorted multiset and leaves a queue in order |
| QueueTheorems.PushRefines | src/common/queue/LadderQueue.cc:101-224 | one push is allowed by the sorted multiset and keeps Bottom, ladder, Top in order of time |
| QueueTheorems.DequeueRefines | src/common/queue/LadderQueue.cc:227-325 | one dequeue is allowed by the sorted multiset and keeps the tiers in order |
| QueueOrder.DequeueTimesMonotone | src/common/queue/LadderQueue.cc:227-325 | in such a run dequeue times never decrease |
| QueueFifo.FifoOnTies | src/common/queue/Bottom.cc:107-208 | with records pushed in creation order and no overflow of Bottom onto an occupied ladder or with its front at the last dequeued time, events leave in lexicographic order of (arrival, gid) |
| QueueFifo.FifoSurvivesIff | src/common/queue/LadderQueue.cc:122-200 | for a push that avoids `pushBack`: whatever follows leaves in that order if and only if the push does not make Bottom overflow with its front at the last dequeued time |
| QueueFifo.TieOverflowBreaks | src/common/queue/LadderQueue.cc:122-200 | after such an overflow a newer event at the last dequeued time goes to the empty Bottom and is handed out before older ones at that time |
| QueueFifo.FifoFrom | src/common/queue/LadderQueue.cc:101-325 | from any queue in order a run that keeps ties hands out events in that order, and keeps the queue so |
| QueueOrder.PushBackBreaksOrder | src/common/queue/Ladder.cc:680-685 | for every threshold there is a run through the `pushBack` branch that dequeues an event while an earlier one is stored |
| PushBackOrder.OrderSurvivesIff | src/common/queue/Ladder.cc:402-432 | from any queue in order with finite times: every further run without another `pushBack` is answered like the sorted multiset answers it if and only if the push does not take the `pushBack` branch |
| PushBackOrder.RunsStayInOrderIff | src/common/queue/LadderQueue.cc:143-150 | for whole runs from a new queue: after a run that has avoided the branch, a push can be followed by any operations in order if and only if it avoids the branch too |
| PushBackOrder.PushBackCanBreak | src/common/queue/Ladder.cc:680-685 | after the branch some run goes wrong: a late event overtakes, an event from the past is accepted, or the emptied rung lingers below Bottom |
| PushBackOrder.LowerRungLingers | src/common/queue/Ladder.cc:622-624 | a delisted crowded rung keeps accepting times that lie before those in Bottom |
| PushBackOrder.Tracked | src/common/queue/LadderQueue.cc:101-325 | in order or not, the stored events and the last dequeued time are those the reference tracks |
| LadderQueues.Run | src/common/queue/LadderQueue.cc:101-325 | a loop over any operations on the mutable queue: its outputs are those of the specification, hence conservation for all runs and order where `pushBack` is avoided |
| LadderQueues.LadderQueue.constructor | src/common/queue/LadderQueue.cc:60-83 | a new queue is the empty specification queue |
| LadderQueues.LadderQueue.Push | src/common/queue/LadderQueue.cc:101-224 | tier choice, fallback to Bottom when the ladder throws, and Bottom's exception: the mutable queue makes the specification's push |
| LadderQueues.LadderQueue.PushBottom | src/common/queue/LadderQueue.cc:122-200 | overflow of Bottom: an epoch if the ladder is empty, `pushBack` otherwise, nothing lost when that fails |
| LadderQueues.LadderQueue.Dequeue | src/common/queue/LadderQueue.cc:227-325 | the refill chain from ladder and Top makes the specification's dequeue |
| LadderQueues.LadderQueue.LadderToBottom | src/common/queue/LadderQueue.cc:255-264 | the ladder's next list is sorted and merged into Bottom, which is then not empty |
| LadderQueues.LadderQueue.TopToLadder | src/common/queue/LadderQueue.cc:267-288 | Top's whole list becomes a new epoch and Top is reset, so that the ladder is not empty |
| LadderQueues.LadderQueue.Size | src/common/queue/LadderQueue.cc:327-337 | the size is the number of stored events |
| RungStates.BucketIsCurrent | src/common/queue/Ladder.cc:179-228 | the three corrections of `bucket` yield the current bucket if and only if the time is at most one bucket width behind it (always, for the first two buckets) |
| RungStates.BucketIsFloorIff | src/common/queue/includes/Ladder.hh:184-195 | the bucket is the floor that the header promises if and only if the time lies in the current bucket |
| RungStates.BucketIsNotFloor | src/common/queue/includes/Ladder.hh:184-195 | time 25 on a fresh rung of width 10 is filed in bucket 0, not 2 |
| Ladders.Ladder.CountsAgree | src/common/queue/Ladder.cc:230-254 | in every valid state `m_NBC` is the sum of `m_events`, and each `m_events` the sum of its bucket sizes |
| Ladders.Ladder.LowerRungsAcceptEarlier | src/common/queue/Ladder.cc:667-710 | a rung never accepts from later than the rung above it |
| Ladders.Ladder.FirstRungOccupied | src/common/queue/Ladder.cc:495-547 | while the ladder holds events the first rung does |
| Ladders.Ladder.constructor | src/common/queue/Ladder.cc:57-112 | a new ladder: three empty rungs, no epoch |
| Ladders.Ladder.SearchRung | src/common/queue/Ladder.cc:275-292 | the search stops at the highest rung that accepts the time |
| Ladders.Ladder.PushEntry | src/common/queue/Ladder.cc:257-337 | the event joins the current bucket of the highest accepting rung, or the exception is "no epoch" or "no rung", exactly when the specification says so |
| Ladders.Ladder.EnterRung | src/common/queue/Ladder.cc:294-337 | the rung that the search has found takes the event into its current bucket, and the ladder stays in order |
| Ladders.Ladder.PushList | src/common/queue/Ladder.cc:349-399 | a fresh rung takes a whole list, in order, into one bucket; the list is drained |
| Ladders.Ladder.PushBack | src/common/queue/Ladder.cc:402-432 | a spawned rung takes the list; with five rungs in use it fails and both ladder and list are unchanged |
| Ladders.Ladder.PushEpoch | src/common/queue/Ladder.cc:435-493 | a new epoch on the first rung, whatever the approximate comparison that decides the resizing returns; rejected while events are left |
| Ladders.Ladder.ResizeFirstRung | src/common/queue/Ladder.cc:549-559 | resizing an empty first rung loses nothing |
| Ladders.Ladder.FitFirstRung | src/common/queue/Ladder.cc:465-479 | whatever the approximate comparison returns, the first rung keeps its place and its contents when it is resized |
| Ladders.Ladder.CreateRung | src/common/queue/Ladder.cc:722-823 | growing the per-rung arrays keeps every rung |
| Ladders.Ladder.Spawn | src/common/queue/Ladder.cc:653-720 | a spawned rung spans up to where its parent accepts, and takes over the parent's current bucket |
| Ladders.Ladder.StartRung | src/common/queue/Ladder.cc:667-692 | start, width and first bucket of the spawned rung |
| Ladders.Ladder.EnlistParent | src/common/queue/Ladder.cc:693-712 | the parent's bucket moves to the new rung and the parent steps on |
| Ladders.Ladder.RetireEmpty | src/common/queue/Ladder.cc:566-585 | empty rungs are given up from the low end until one holds events |
| Ladders.Ladder.FindBucket | src/common/queue/Ladder.cc:586-620 | the search stops at the next filled bucket, with `m_RCur` in step |
| Ladders.Ladder.AdvanceDequeueBucket | src/common/queue/Ladder.cc:561-632 | terminates with the current bucket filled; a crowded bucket goes one rung deeper if there is one |
| Ladders.Ladder.Delist | src/common/queue/Ladder.cc:495-547 | hands out a non-empty list, and contents and rungs are those of the specification |
| Ladders.Ladder.HandOut | src/common/queue/Ladder.cc:503-531 | the current bucket is handed out, `m_RCur` moves past it, an emptied lower rung is retired |
| LadderSpec.DelistContents | src/common/queue/Ladder.cc:495-547 | delisting splits the contents into list and rest, and from a non-empty ladder the list is not empty |
| LadderSpec.PutContents | src/common/queue/Ladder.cc:349-399 | filing a list adds exactly its events |
| LadderSpec.CrowdedRungStays | src/common/queue/Ladder.cc:495-547 | a rung that has handed out a list stays if it is the first, or if the list is longer than the threshold and there is room below; it then starts one bucket later |
| LadderSpec.WidthsSpan | src/common/queue/Ladder.cc:170-176 | as many buckets as there are events span the times of an epoch |
| QueueTheorems.TopStartsPastEpoch | src/common/queue/Top.cc:162-174 | Top starts anew where n + 1 buckets of the epoch of its n events end |
| QueueTheorems.BottomStaysShort | src/common/queue/LadderQueue.cc:122-200 | a push leaves no more than the threshold in Bottom, unless all rungs are in use, and empties it onto the ladder exactly when it would hold more |
| Tiers.Top.Push | src/common/queue/Top.cc:109-159 | running minimum and maximum are those of the list |
| Tiers.Top.Delist | src/common/queue/Top.cc:162-174 | Top starts anew past its latest event |
| Tiers.Top.Reset | src/common/queue/Top.cc:136-147 | only an emptied Top may be reset |
| Tiers.Bottom.Push | src/common/queue/Bottom.cc:107-175 | insertion from the back, behind equal times; past events are refused and change nothing |
| Tiers.Bottom.PushList | src/common/queue/Bottom.cc:184-208 | sort and merge by `operator<`, which drains the list |
| Tiers.Bottom.PopFront | src/common/queue/Bottom.cc:226-241 | the front is dropped and its time recorded |
| EventLists.InsertByTimeSorted | src/common/queue/Bottom.cc:107-175 | the insertion keeps Bottom sorted by time |
| EventLists.SortCorrect | src/common/list/Entry.cc:74-90 | sorting by `operator<` permutes and orders |
| EventLists.MergeSorted | src/common/queue/Bottom.cc:184-208 | merging sorted lists by `operator<` keeps time order |
| Servers.AdmitKeeps | src/core/event/ArrivalHandler.cc:90-165 | an arrival in time order keeps Lindley's recursion, the counters and the integrals: departure max(A_k, D_(k-1)) + S_k, delay max(0, D_(k-1) - A_k), mean delay the mean of the delays |
| Servers.DischargeKeeps | src/core/event/DepartureHandler.cc:86-92 | the departure that is due keeps them, the last one freeing the server |
| Servers.AdmitCounted | src/core/event/NumEventsHandler.cc:48-58 | after an arrival the count of events, queue length, service end and mean delay are those of the log |
| Servers.AdmitLog | src/core/event/LastEventHandler.cc:56-80 | after an arrival everything served lies before the last event time and every departure that is due after it |
| Servers.DischargeLog | src/core/event/LastEventHandler.cc:56-80 | and the same after a departure |
| Servers.IntegralsGrow | src/core/event/ExpectedAverageEventInQueueHandler.cc:69-112 | between two events the time spent waiting grows with the queue length, the time spent present with queue length plus one if busy |
| Servers.DeparturesInOrder | src/core/event/ArrivalHandler.cc:127-155 | departures leave in order of arrival |
| Servers.UtilisationInUnit | src/core/event/UtilisationHandler.cc:89-99 | utilisation is between 0 and 1 at positive times |
| Servers.AveragesOverTime | src/core/event/ExpectedAverageEventInQueueHandler.cc:103-110 | utilisation and average queue length times the last event time are the busy time and the queue integral |
| Servers.QueueIntegralIff | src/core/event/ExpectedAverageEventInQueueHandler.cc:69-112 | the queue integral is the time spent waiting plus the gaps before departures that leave nobody behind; it is the integral of the queue length that its comment promises if and only if all those gaps are zero |
| Servers.LoneJobCounts | src/core/event/ExpectedAverageEventInQueueHandler.cc:91-99 | a single job adds its service time to the queue integral although nobody has waited |
| RealSums.RunningMeanIsMean | src/statistics/analysis/Stats.cc:29-32 | the running mean of n+1 values is their arithmetic mean |
| NetworkServers.StepKeepsServers | src/core/event/EventProcessor.cc:83-215 | every step keeps each vertex a consistent server whose pending departures are those Lindley's recursion has fixed |
| NetworkServers.DepartureIsDue | src/core/event/DepartureHandler.cc:71-92 | a departure taken in time order is the oldest one due at its vertex |
| NetworkServers.PendingDepartures | src/core/event/ArrivalHandler.cc:127-165 | pending departures = number in queue + (1 if busy) |
| NetworkServers.ServiceEndsIsLatest | src/core/event/ArrivalHandler.cc:135-155 | while a vertex is busy its service end is the latest of its pending departures |
| NetworkRuns.ServersInRuns | src/core/event/UtilisationHandler.cc:59-105 | in every run from the start: Lindley's recursion, work conservation, busy time = integral of the busy indicator, queue integral = time spent waiting plus the gaps before departures of lone jobs, mean delay, utilisation in [0, 1] and, like the average queue length, the integral over the time |
| NetworkRoutes.StepKeepsRoutes | src/core/event/AckHandler.cc:62-119 | every step, whichever pending event it takes, keeps one token per job, stacks that mirror the walk, and next actions that are -1 or an out-neighbour |
| NetworkRoutes.VisitForward | src/core/event/ArrivalHandler.cc:118-165 | an arrival extends walk and history stacks alike, and the delay field by the wait |
| NetworkRoutes.OnwardForward | src/core/event/DepartureHandler.cc:94-132 | a departure moves the job along an edge with its origin kept, or turns it round at a vertex without out-edges |
| NetworkRoutes.BackwardReturning | src/core/event/AckHandler.cc:73-87 | an acknowledgement moves one vertex back along the walk, or leaves where the walk began |
| NetworkRoutes.AudienceOk | src/core/event/AckHandler.cc:89-110 | 1-hop copies go to in-neighbours of the acknowledging vertex with non-empty history |
| NetworkRoutes.OthersAreNeighbours | src/core/event/AckHandler.cc:93-97 | told are exactly the in-neighbours other than the destination, each once |
| NetworkRoutes.EventsAreHandled | src/common/list/Entry.cc:190-212 | `popEvent` and `topArrival` never meet an empty stack at an acknowledgement |
| NetworkRoutes.AcknowledgedOverEdge | src/core/event/RLResponseHandler.cc:114-118 | an acknowledgement at a vertex with out-edges comes from one of its out-neighbours, so the edge lookup is defined |
| NetworkRoutes.RewardIsTimeSinceArrival | src/common/list/Entry.cc:219-232 | the reward at an acknowledged vertex is minus the time since the job arrived there |
| NetworkRoutes.LeavingJobIsTimed | src/core/event/LeaveHandler.cc:55-72 | a leaving job still has the time of its external arrival, which is not after its first visit, and its delay is the sum of its waits |
| NetworkRoutes.LearnKeeps | src/core/event/RLResponseHandler.cc:85-150 | the stored next action is an out-neighbour where there is one |
| NetworkEffects.ClockMoves | src/core/event/EventProcessor.cc:103-119 | an event that is not in the past is handled at its time, any other 2^-52 after the clock |
| NetworkEffects.DepartureIsRouted | src/core/event/DepartureHandler.cc:94-132 | a departing job goes to the stored next action if learning is on and there is one, to the neighbour drawn otherwise; at a vertex without out-edges its acknowledgement starts; job, stacks, time and all else stay |
| NetworkEffects.ArrivalIsLogged | src/core/event/ArrivalHandler.cc:118-203 | an arrival adds the departure of the job, with origin and time on its stacks, and behind an external one a new job for the same vertex at the clock plus the drawn gap |
| NetworkEffects.ArrivalIsServed | src/core/event/ArrivalHandler.cc:127-165 | in time order the departure is due when the departures before it are over and then the drawn service, and what the job waits is added to its delay |
| NetworkEffects.ExternalsAreGenerated | src/core/event/GenerateArrivalsAdminHandler.cc:66-104 | one new job for each vertex, due at the clock plus the gap drawn for that vertex, each with an id of its own |
| NetworkEffects.AckIsPassedOn | src/core/event/AckHandler.cc:72-110 | an acknowledgement goes one hop back or out, and a vertex gets one more 1-hop copy if and only if the flag is on, the job does not leave, and it is another in-neighbour; the copies carry the acknowledging vertex, the time and the stacks less their tops |
| NetworkEffects.ActionIsStored | src/core/event/RLResponseHandler.cc:85-150 | with learning on both kinds of acknowledgement store the drawn action, the only neighbour, or 0 at their vertex; nothing else changes a next action |
| NetworkEffects.OthersAddNothing | src/core/event/EventProcessor.cc:155-201 | 1-hop copies, leaving jobs and other administrative events add no event and change no server and no route; a leaving job is counted |
| NetworkEffects.OthersAreIdle | src/core/event/EventProcessor.cc:155-215 | a vertex at which nothing arrives and from which nothing departs keeps its state |
| NetworkEffects.RecordsAreNumbered | src/common/list/Entry.cc:57-68 | every record that a step adds gets the next global number |
| NetworkEffects.GidsRise | src/common/list/Entry.cc:74-90 | in every run the pending events, in the order in which they were pushed, have rising numbers, so that `operator<` breaks ties by that order |
| NetworkEffects.RemembersLastTaught | src/core/rl/OnPolicySelection.cc:52-65 | in every run from the start a vertex with several out-edges remembers the last action drawn for it |
| NetworkEffects.JobsFollowLearning | src/core/rl/OnPolicySelection.cc:52-109 | so in every run each job leaves such a vertex for the neighbour last learned there, or the one drawn where nothing was learned yet |
| NetworkRuns.RunsAreSafe | src/core/event/EventProcessor.cc:78-215 | in every run in time order from the start every step is defined, all invariants hold and the clock never runs back |
| NetworkRuns.StepKeepsFree | src/core/event/EventProcessor.cc:103-119 | whichever pending event is handed out, its handlers are defined on it, the corrected clock does not run back, and tokens, routes and external arrivals stay in order |
| NetworkRuns.FreeRunsAreSafe | src/core/event/EventProcessor.cc:78-215 | in every run from the start, whatever order the queue keeps, every step is defined and keeps them |
| NetworkRuns.StepKeeps | src/core/event/EventProcessor.cc:103-119 | where an event of least arrival is handed out the clock correction changes nothing, and all invariants are kept |
| NetworkRuns.StepKeepsPunctual | src/core/event/ArrivalHandler.cc:90-116 | an event that does not lie before the clock keeps jobs punctual: the first visit is at the time of the external arrival |
| NetworkRuns.LeavesWithFirstArrival | src/core/event/LeaveHandler.cc:55-72 | in a run in time order a leaving job carries the time of its first arrival |
| NetworkRuns.StepKeepsExternals | src/core/event/GenerateArrivalsHandler.cc:64-81 | each vertex always has exactly one pending external arrival, once generation has started, whichever event a step takes |
| NetworkRuns.LeavesByItsRoute | src/core/event/AckHandler.cc:73-110 | in every run, whatever order the queue keeps: a job forwarded v0..vk has been acknowledged at vk..v0 when it leaves; it leaves once and no event carries it afterwards |
| NetworkRuns.DrainedMeansLeft | src/core/event/LeaveHandler.cc:55-72 | when nothing is pending every job that has arrived has returned and left |
| NetworkDrain.InternalStepUses | src/core/event/DepartureHandler.cc:94-151 | every step but an external arrival lowers the total weight of the pending events |
| NetworkDrain.AckUses | src/core/event/AckHandler.cc:73-110 | an acknowledgement outweighs what it pushes: the next one and a copy for each in-neighbour |
| NetworkDrain.StepsAreBounded | src/core/event/EventProcessor.cc:83-215 | in every run, whatever its order, the number of internal steps is bounded by the initial weight and the weight external arrivals bring |
| NetworkDrain.TotalWeightAtMost | src/core/event/AckHandler.cc:89-110 | the weight of pending events is bounded by their number, the longest path and the greatest in-degree |
| NetworkDrain.Drains | src/core/event/EventProcessor.cc:83-102 | without external arrivals a run, whatever its order, is no longer than the weight of the pending events |
| NetworkDrain.DrainsOnceTurnedOff | src/core/event/EventProcessor.cc:83-102 | from any reachable world with external arrivals off: bounded runs, progress until the queue is empty, and then every job has left along its route |
| NetworkDrain.DrainsWithin | src/core/event/EventProcessor.cc:83-102 | the number of steps is at most the number of pending events times a bound from longest path and in-degree |
| NetworkDrain.StackIsLow | src/common/list/Entry.cc:179-202 | no history stack of a reachable world is higher than the longest path plus one |
| NetworkDrain.TurnOffKeeps | src/core/event/GenerateArrivalsHandler.cc:64-81 | turning external arrivals off keeps tokens and routes, and servers consistent where they are, and leaves internal events only |
| Evonets.Evonet.Advance | src/network/evolution/WEvonet.cc:291-396 | the growth loop: older vertices keep their edges, each new vertex gets the links its draws say |
| Evonets.Evonet.Grow | src/network/evolution/WEvonet.cc:291-396 | one new vertex, linked to earlier vertices only |
| Evonets.Evonet.TryLink | src/network/evolution/WEvonet.cc:362-388 | one draw links the first vertex in order whose share is reached and that is not linked yet, or none |
| Evonets.Pick | src/network/evolution/WEvonet.cc:365-388 | the picked position is the first eligible one |
| Evonets.LinksAreSimple | src/network/evolution/WEvonet.cc:362-388 | links go to earlier vertices, never twice to the same |
| Evonets.SomeLink | src/network/evolution/WEvonet.cc:349-388 | the first draw always finds a vertex if the rates do not vanish |
| Evonets.LinkedIff | src/network/evolution/WEvonet.cc:362-388 | a draw picks a vertex if and only if it is not linked, the draw falls below the share reached there, and below that of no unlinked vertex before it |
| Evonets.OneMoreDraw | src/network/evolution/WEvonet.cc:362-388 | the links after one more draw are the same with that vertex behind them, or the same if the condition holds nowhere |
| Evonets.LinkedByRate | src/network/evolution/WEvonet.cc:349-388 | the first draw links to a vertex for an interval of draws in proportion to its service rate |
| Evonets.CumulativeIsSum | src/network/evolution/WEvonet.cc:294-317 | the rates add up to the same total in sorted order |
| Evonets.GrownIsAcyclic | src/network/evolution/WEvonet.cc:291-388 | a grown graph is simple and acyclic, ranked by vertex index |
| Evonets.GrownIsRooted | src/network/evolution/WEvonet.cc:291-388 | grown from one vertex, only that vertex has no out-edges |
| Evonets.RoutesReachTheRoot | src/core/event/DepartureHandler.cc:94-132 | in a grown network every returned job had reached the first vertex |
| Evonets.GrownDrains | src/network/evolution/WEvonet.cc:291-388 | a grown network of n vertices drains within events * (2 + 2n + n (d+1)) steps for in-degree at most d, hence within events * (2 + 2n + n (n+1)) |
| Evonets.Evonet.constructor | src/network/evolution/WEvonet.cc:151-154 | the first vertex, without edges |
| Simulators.Simulator.constructor | src/core/event/EventGenerator.cc:49-76 | the simulation starts with the event that generates the external arrivals |
| Simulators.Simulator.GenerateArrival | src/core/event/EventGenerator.cc:79-109 | a fresh job is scheduled after the drawn gap |
| Simulators.Simulator.GenerateAll | src/core/event/GenerateArrivalsAdminHandler.cc:66-104 | one external arrival for each vertex |
| Simulators.Simulator.ScheduleDeparture | src/core/event/ArrivalHandler.cc:90-203 | busy flag, queue length, service end, mean delay and the departure event are those of the specified server, if the queue takes the departure |
| Simulators.Simulator.PassOn | src/core/event/DepartureHandler.cc:71-152 | the server is released or takes the next job, and the job goes on or turns round |
| Simulators.Simulator.StoreNextAction | src/core/event/RLResponseHandler.cc:85-150 | the next action after an acknowledgement |
| Simulators.Simulator.SendBack | src/core/event/AckHandler.cc:72-110 | acknowledgement, leave event and 1-hop copies in the order in which they are pushed |
| Simulators.Simulator.TellOthers | src/core/event/AckHandler.cc:89-110 | the loop over in-edges tells exactly the other in-neighbours |
| Simulators.Simulator.UpdateUtilisation | src/core/event/UtilisationHandler.cc:59-105 | busy time and utilisation, from the queue length after the event |
| Simulators.Simulator.UpdateQueueLength | src/core/event/ExpectedAverageEventInQueueHandler.cc:64-118 | queue integral and its average, from the queue length after the event |
| Simulators.Simulator.PostAny | src/core/main/Simulation.cc:612-618 | the three handlers in the order in which they are attached |
| Simulators.Simulator.Arrive | src/core/event/EventProcessor.cc:156-173 | everything that happens on an arrival is one specified step |
| Simulators.Simulator.Serve | src/core/event/EventProcessor.cc:156-173 | the handlers of an arrival leave the vertex counted, occupied and accounted for, and schedule the departure |
| Simulators.Simulator.Depart | src/core/event/DepartureHandler.cc:71-152 | everything that happens on a departure is one specified step |
| Simulators.Simulator.Acknowledge | src/core/event/AckHandler.cc:62-119 | learning, then one hop back with its copies, is one specified step |
| Simulators.Simulator.HandleEvent | src/core/event/EventProcessor.cc:155-201 | dispatch by type, a first arrival falling through to the arrival handlers |
| EventQueues.EventQueue.Push | src/common/queue/LadderQueue.cc:101-224 | the ladder queue as the pending events: a push adds its event or, for an event before the last one handed out, is refused and changes nothing |
| EventQueues.EventQueue.Dequeue | src/common/queue/LadderQueue.cc:227-325 | one of the pending events is handed out, an earliest one as long as no push has taken the `pushBack` branch |
| Simulators.Simulator.Turn | src/core/event/EventProcessor.cc:83-220 | one turn of the loop, on the ladder queue: an event after the stop time that is not administrative ends the loop unhandled, and no other does; every other event is one step of the specified machine, or, only when the queue is out of order, one that the queue refuses |
| Simulators.Simulator.Process | src/core/event/EventProcessor.cc:78-240 | the loop on the ladder queue makes a run of the specified machine with tokens and routes in order throughout, and handles no event after the stop time but administrative ones; if no push takes the `pushBack` branch the run is in time order, every invariant holds in each of its worlds, no event is refused, and at the stop time nothing earlier is pending |
| LhsSpec.Orthogonal | src/sampling/lhs/LHS.cc:269-408 | for every size m >= 2 and every seed vector any two columns of the product of matrixM and matrixS are orthogonal |
| LhsSpec.RowsPairOff | src/sampling/lhs/LHS.cc:269-408 | xor-ing the row with the difference of two columns' masks negates the product of their entries |
| LhsSpec.OddOverlap | src/sampling/lhs/LHS.cc:269-408 | difference of masks and difference of sign bits share an odd number of bits |
| LhsDesign.MirroredOrthogonal | src/sampling/lhs/LHS.cc:166-172 | the stacked design, mirror image included, has orthogonal columns |
| LhsDesign.MirroredCentred | src/sampling/lhs/LHS.cc:166-172 | each column of the stacked design adds up to zero |
| LhsDesign.DeliveredMean | src/sampling/lhs/LHS.cc:175-217 | the mean of each delivered column is the middle of its bounds |
| LhsDesign.DeliveredUncorrelated | src/sampling/lhs/LHS.cc:84-230 | any two delivered columns have zero covariance, whatever their bounds |
| LhsSpec.ColumnByBlocks | src/sampling/lhs/LHS.cc:269-408 | column c below m: in each block of 2^c rows the seed comes in reverse, below the middle in the first half and above it in the second |
| LhsSpec.ColumnByPairs | src/sampling/lhs/LHS.cc:269-408 | column m + j: the blocks of 2^(j+1) rows come in reverse order, each as it is, above the middle where block and row are both even or both odd |
| LhsSpec.LevelsExactlyOnce | src/sampling/lhs/LHS.cc:166-217 | for every permutation as seed, each column takes each of its 2^m + 1 levels in exactly one row |
| LhsSpec.ValueInRange | src/sampling/lhs/LHS.cc:175-217 | every value lies between the column's bounds |
| LhsSpec.ValuesDiffer | src/sampling/lhs/LHS.cc:175-217 | different rows of a column get different values |
| Lhs.Kronecker | src/sampling/lhs/LHS.cc:411-436 | block (p, q) of the result is b scaled by a[p, q] |
| Lhs.FlipMatrix | src/sampling/lhs/LHS.cc:294-322 | A_k picks row i xor (2^k - 1) |
| Lhs.KroneckerFlip | src/sampling/lhs/LHS.cc:294-322 | a Kronecker factor I or R appends one bit, kept or flipped |
| Lhs.MultiplyIntoColumn | src/sampling/lhs/LHS.cc:323-332 | matrix times vector: the seed with its rows permuted |
| Lhs.Multiply | src/sampling/lhs/LHS.cc:328-333 | the product of two bit-flip matrices flips the bits in which their masks differ |
| Lhs.MatrixM | src/sampling/lhs/LHS.cc:269-345 | all columns of matrixM are the seed with rows flipped by the column's mask |
| Lhs.SignColumn | src/sampling/lhs/LHS.cc:348-400 | a column of Kronecker products of sign pairs is the sign of one bit |
| Lhs.KroneckerSigns | src/sampling/lhs/LHS.cc:348-400 | a factor appends one bit, ignored or signed |
| Lhs.MatrixS | src/sampling/lhs/LHS.cc:348-408 | all columns of matrixS are signs of the column's bits |
| LhsDesign.Stack | src/sampling/lhs/LHS.cc:164-172 | the products above, zeros between, their negatives below |
| LhsDesign.Scale | src/sampling/lhs/LHS.cc:175-217 | shift, scale and stretch put each level where it belongs between the bounds |
| LhsDesign.SampleOrthogonal | src/sampling/lhs/LHS.cc:84-230 | the errors, and otherwise the design of the permutation chosen as seed |
| LhsDesign.OnePerStratum | src/sampling/lhs/LHS.cc:68-76 | every one of the n strata holds exactly one of a column's samples, whatever the draws |
| LhsDesign.LandsInStratum | src/sampling/lhs/LHS.cc:70-76 | a draw lands in the stratum of its row and in no other |
| LhsDesign.SampleStratified | src/sampling/lhs/LHS.cc:43-81 | the errors, and otherwise the stratified sample between the bounds |
| Simplex.ProjectionDuchi | src/utils/simplex/Simplex.cc:35-83 | for every random choice the loop ends, at least one index is accepted, and every component is reduced by the threshold of the accepted ones and cut off at b |
| Simplex.Accept | src/utils/simplex/Simplex.cc:49-76 | the loop accepts the specified indices; the sums are theirs and rho >= 1 |
| Simplex.ProjectedSum | src/utils/simplex/Simplex.cc:78-82 | the result is non-negative with sum at least z, and the sum is z exactly when the accepted components are those above the threshold; when the input makes it so is ProjectsIff |
| SimplexExact.ProjectsIff | src/utils/simplex/Simplex.cc:35-83 | on the input: the sum is z for every random choice if and only if no component behind the first one above the level falls below the level, and every component in front of it has a margin of at least z |
| SimplexExact.LevelExists | src/utils/simplex/Simplex.cc:78-82 | every vector has a level at which cutting leaves z, and a first component above it |
| SimplexExact.AcceptsFrom | src/utils/simplex/Simplex.cc:49-76 | under that condition every choice accepts exactly the indices from the first component above the level on |
| SimplexExact.SmallMarginMisses | src/utils/simplex/Simplex.cc:49-76 | with a margin below z some choice accepts a component below the level |
| SimplexExact.NearestPoint | src/utils/simplex/Simplex.cc:35-83 | where the step reaches the simplex it reaches its nearest point: any other is farther away by at least its distance from the result |
| Simplex.MissesTheSimplex | src/utils/simplex/Simplex.cc:51-64 | from (3, 0) every random choice leads to (2, 0), which is not on the simplex |
| Simplex.HitsTheSimplexWhenAscending | src/utils/simplex/Simplex.cc:35-83 | on components in ascending order the sum is z for every random choice |
| Simplex.AcceptsATail | src/utils/simplex/Simplex.cc:49-76 | on ascending components the loop accepts exactly those above the threshold |
| Simplex.SplitAt | src/utils/simplex/Simplex.cc:51-57 | the two filters split an ascending index list at the chosen position |
| Policies.Mult | src/utils/vector/Vector.cc:54-59 | every component times the factor |
| Policies.Scale | src/utils/vector/Vector.cc:92-97 | [0, 1] mapped to [min, max] |
| PolicySpec.SumScaled | src/utils/vector/Vector.cc:54-59 | scaling a vector scales its sum |
| PolicySpec.SumMapped | src/utils/vector/Vector.cc:92-97 | the sum after mapping to [min, max] |
| PolicySpec.NormalisedIsDistribution | src/core/rl/WeightedPolicyLearner.cc:148-152 | a vector of sum at least 1 becomes a distribution; its sum is 1 unless the comparison held it to be 1 already |
| PolicySpec.NormalisedKeepsShares | src/core/rl/WeightedPolicyLearner.cc:148-152 | renormalising keeps every component's share of the sum, and changes nothing where the sum is held to be 1 |
| PolicySpec.PolicyKeepsShares | src/core/rl/WeightedPolicyLearner.cc:136-156 | what an action gets beyond epsilon is its share of the projected gradient, times 1 - n epsilon |
| PolicySpec.PolicyFollowsGradient | src/core/rl/WeightedPolicyLearner.cc:136-156 | with n epsilon below 1 the policy keeps the order of the gradient: the greater component is the more probable action, unless both are cut off and get epsilon |
| PolicySpec.FlooredIsDistribution | src/core/rl/WeightedPolicyLearner.cc:154-156 | the floor keeps a distribution one and leaves every action at least epsilon, if n epsilon is at most 1 |
| PolicySpec.FloorHoldsIff | src/core/rl/WeightedPolicyLearner.cc:154-156 | the floor holds for every policy if and only if n epsilon is at most 1 |
| PolicySpec.LearnersFloorIff | src/core/rl/WeightedPolicyLearner.cc:136-156 | over all gradients and random choices: the learners leave each of n actions at least epsilon if and only if n epsilon is at most 1 |
| PolicySpec.FloorMissed | src/core/rl/WeightedPolicyLearner.cc:154-156 | for the gradient (1, 0) and epsilon 0.6 every random choice makes the policy (0.4, 0.6) |
| PolicySpec.FlooredIsPolicyIff | src/core/rl/WeightedPolicyLearner.cc:154-156 | flooring keeps every vector of non-negative probabilities of sum 1 one if and only if (n-1) epsilon is at most 1 |
| PolicySpec.PolicyIsValid | src/core/rl/WeightedPolicyLearner.cc:136-156 | for every gradient and every random choice the new policy is a distribution with at least epsilon for each action |
| PolicySpec.GradientFollowsValue | src/core/rl/WeightedPolicyLearner.cc:112-127 | an action is moved up exactly where its value exceeds the policy's value |
| PolicySpec.ValueIsWeighted | src/core/rl/WeightedPolicyLearner.cc:99-110 | the value of a policy weighs each q-value by its own probability |
| PolicySpec.ValueBetween | src/core/rl/WeightedPolicyLearner.cc:99-110 | the value lies between the least and the greatest q-value |
| PolicySpec.WeightedMovesTowards | src/core/rl/WeightedPolicyLearner.cc:112-127 | a better action moves towards 1, a worse one towards 0, by the share eta times the difference of values, and stays a probability while that share is at most 1 |
| PolicySpec.FairMovesApart | src/core/rl/FairActionLearner.cc:110-117 | two actions are moved apart by eta times the difference of their q-values, one as good as the policy not at all |
| PolicySpec.ChosenByProbability | src/core/rl/WeightedPolicyLearner.cc:180-211 | each action is chosen for an interval of draws as long as its probability, the last one for what is left |
| PolicySpec.ChosenForItsProbability | src/core/rl/WeightedPolicyLearner.cc:180-211 | through the sort: each offered action is chosen for an interval of draws as long as the probability the policy gives it, the least probable one for what is left |
| Policies.MakePolicy | src/core/rl/WeightedPolicyLearner.cc:136-156 | simplex step, renormalisation and floor on the array yield the specified policy |
| Policies.Roulette | src/core/rl/WeightedPolicyLearner.cc:190-211 | the scan stops at the specified position |
| Policies.PositionIsOffered | src/core/rl/WeightedPolicyLearner.cc:180-211 | the action is one of those offered |
| Policies.Learner.MeanValue | src/core/rl/WeightedPolicyLearner.cc:99-110 | the value of the current policy |
| Policies.Learner.Write | src/core/rl/WeightedPolicyLearner.cc:165-178 | only the weights of the offered edges change |
| Policies.Learner.Weighted | src/core/rl/WeightedPolicyLearner.cc:82-218 | the weighted learner's call: new weights, chosen action, and the cases of one or no action |
| Policies.Learner.Fair | src/core/rl/FairActionLearner.cc:82-200 | the fair action learner's call |
| Policies.LearnersKeepDistributions | src/core/rl/WeightedPolicyLearner.cc:82-218 | after every call the source's weights are a distribution with at least epsilon each, all other vertices' weights unchanged |
| Policies.GradientOfEdge | src/core/rl/WeightedPolicyLearner.cc:99-127 | the gradients of both learners move each offered edge from its own weight by its own q-value |
| Policies.EdgesFollowGradient | src/core/rl/WeightedPolicyLearner.cc:136-178 | after a call the edge with the greater component of the gradient has the greater weight, unless both are cut off and get epsilon |
| Policies.ChosenByItsWeight | src/core/rl/WeightedPolicyLearner.cc:180-211 | over all draws an action is chosen for an interval as long as the weight of its edge, the least probable one for what is left |
| Policies.Learner.Select | src/core/rl/OnPolicySelection.cc:52-109 | the stored next action if there is one, otherwise an out-neighbour by the weighted learner's call on the q-values, with the weights that call writes |
| SarsaLearning.NewQIsSarsa | src/core/event/RLResponseHandler.cc:114-128 | the update is SARSA's: (1-alpha) Q + alpha (r + lambda Q') |
| SarsaLearning.RespondMovesEdge | src/core/event/RLResponseHandler.cc:112-150 | where there is a choice, the q-value of the edge over which the acknowledgement came takes SARSA's step towards reward plus discounted value of the next action's edge; every other q-value, all statistics and the other next actions stay |
| SarsaLearning.RespondAverages | src/core/event/RLResponseHandler.cc:130-150 | where there is one out-edge, its q-value becomes the mean of all rewards received, and nothing else changes but the next action |
| SarsaLearning.OnlyEdgeIsAveraged | src/core/event/RLResponseHandler.cc:130-147 | in every run of the network the q-value of a vertex's only out-edge is the mean of all rewards received at that vertex |
| SarsaLearning.ActionsAgree | src/core/event/RLResponseHandler.cc:85-150 | in every run the next actions that the handler stores are those by which departures go |
| SarsaLearning.NewQBounded | src/core/event/RLResponseHandler.cc:114-128 | one update stays between -R/(1-lambda) and 0 |
| SarsaLearning.StatsStayBounded | src/core/event/RLResponseHandler.cc:130-147 | so does the mean of a vertex with a single neighbour |
| SarsaLearning.RespondKeepsBounds | src/core/event/RLResponseHandler.cc:69-151 | every acknowledgement keeps all q-values bounded |
| SarsaLearning.QValuesStayBounded | src/core/event/RLResponseHandler.cc:69-151 | after every sequence of acknowledgements every q-value lies between -R/(1-lambda) and 0 |
| SarsaLearning.StepKeepsBounds | src/core/event/RLResponseHandler.cc:69-151 | the acknowledgement that a network step hands out is one the handler can respond to, and the response keeps the q-values bounded |
| SarsaLearning.RunsKeepQValuesBounded | src/core/event/RLResponseHandler.cc:69-151 | in every run of the network from the start, whatever its order, with rewards of at least -R: the acknowledgements keep every q-value between -R/(1-lambda) and 0 |
| SarsaLearning.NetworkRespondsLegally | src/core/event/RLResponseHandler.cc:80-118 | the network's acknowledgements meet what the handler relies on |
| SarsaLearning.RLResponseHandler.Update | src/core/event/RLResponseHandler.cc:69-151 | the handler makes the specified update in place |
| Statistics.PushKeeps | src/statistics/analysis/OnlineStats.cc:36-52 | a push keeps mean and sum of squared deviations those of the values pushed |
| Statistics.WelfordCorrect | src/statistics/analysis/OnlineStats.cc:59-75 | the mean is the arithmetic mean, and n-1 times the variance the sum of squared deviations from it |
| Statistics.OnlineStats.Push | src/statistics/analysis/OnlineStats.cc:36-52 | the fields after a push |
| Statistics.OnlineStats.Mean | src/statistics/analysis/OnlineStats.cc:59-70 | the arithmetic mean of the values since creation or clearing |
| Statistics.OnlineStats.Variance | src/statistics/analysis/OnlineStats.cc:72-75 | the unbiased variance of two or more values |
| Statistics.OnlineStats.Clear | src/statistics/analysis/OnlineStats.cc:31-34 | after clearing the statistics start anew |
| IntSets.RoundTrip | src/network/evolution/includes/IntSet.hh:45-83 | reading a printed set into an empty one gives it back, and the union into another; the rest of the stream is left |
| IntSets.IntSet.Print | src/network/evolution/includes/IntSet.hh:45-61 | elements in ascending order, a comma behind all but the last |
| IntSets.IntSet.Read | src/network/evolution/includes/IntSet.hh:63-83 | the ints of one line are inserted up to the first token that is none |
| IntSets.ReadIntShow | src/network/evolution/includes/IntSet.hh:45-83 | every 32-bit int is read back from its text |
| IntSets.TokensOfJoin | src/network/evolution/includes/IntSet.hh:45-73 | the tokens of a printed set are its printed elements |
| IntSets.InsertAdds | src/network/evolution/includes/IntSet.hh:72-76 | inserting adds exactly one element and keeps the order |

## Left out

- Rounding, infinities, wrap-around of 16- and 32-bit counters: reals and unbounded numbers; vertex indices are taken to fit.
- Event records are values: every handler changes a copy, so aliasing of records and their deallocation are not modelled.
- The per-rung arrays of the ladder are one sequence of records, and bucket lists are sequences; `Delist` hands out a fresh list instead of the bucket itself.
- `advanceDequeueBucket` calls itself once without spawning; the model runs its two loops a second time instead.
- PushBackOrder.OrderSurvivesIff: for thresholds above 2; the queue always uses 50.
- `Top::push` of a list, `Ladder::front`, `Ladder::canAdvance` and printing: not used by the queue's operations.
- Servers out of time order: after `pushBack` an arrival can be handled before one that is earlier; Lindley's recursion and the integrals are claimed for runs in time order only. What an event that the queue refuses leaves behind is not described: the source's exception ends the main loop.
- Dispatch goes by event type alone; the source looks at the administrative origin first, which only administrative events have.
- Administrative events other than the generation of arrivals (graph logs, serialised arrivals, rolling statistics) have no effect in the model.
- The default random selection of an out-neighbour and the exploration policies are an arbitrary choice among the out-neighbours.
- Utilisation and average queue length at time 0: the source divides by zero there, the model says 0.
- Events left over at the stop time are dropped by the source; the model stops and keeps them.
- LeaveHandler's statistics, coefficient of variation, expert signals: averages of quantities that are modelled.
- Evonets.Evonet.Advance: takes the sorted order of the vertices and the rebalanced service rates as inputs; edge weights and `balance_vertex_strength` are not modelled.
- The Erdos-Renyi generator and feature sets: their visitors and random graphs are library code.
- LhsDesign.SampleOrthogonal: requires no more bounds than columns; with more the matrix library stops the program.
- The optimising loop of the orthogonal sample and `uniqueInts`: the seed is any permutation, and the theorems hold for all of them.
- LhsDesign.SampleStratified: the shuffles of the random library are arbitrary permutations.
- The sort by probability is one stable sort; the order of equal probabilities is unspecified in the source, and PolicySpec.ChosenByProbability holds for any order.
- The three-argument simplex projection and the dot product: neither computes what it is named after, and neither is used by the learners modelled.
- Boltzmann and epsilon-greedy policies, neural networks, cognitive signals, multifractal arrivals: exponentials and logarithms.
- IntSets.IntSet.Read: locale-specific digit grouping of the library's number parser is not modelled.
- Command line, MPI, result files, graph files, timing and statistics code of the ladder: input and output.
