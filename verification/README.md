# Verified model of rmf_task

This project models the decision-making core of `rmf_task` and `rmf_task_sequence` in Dafny and proves
properties of it that hold for all inputs and over all runs. `dafny verify dfyconfig.toml` checks everything.

**The task planner.** `PlannerNode` defines the nodes of the A* search and the two ways of expanding them;
`PlannerExpand`, `PlannerFresh`, `PlannerSearch` and `PlannerComplete` are the loops that compute them:
`expand_candidate`, `expand_charger`, `make_initial_node`, `solve` and `complete_solve`. `PlannerInvariant` holds
what every reachable node keeps; the results that follow from it are in `PlannerTheorems`, `PlannerChildren`,
`PlannerProgress`, `PlannerSegments` and `PlannerSolvable`. The planner is proved for any deterministic request models
and any cost calculator. `Requests` models Delivery, Loop, Clean and ChargeBattery, and `TripMeaning` says what their
numbers mean. `PlannerTimeline` and `PlannerModels` carry what they promise over to whole plans, `PlannerReserves` tells
when they leave the planner without one, and `TravelCache` justifies that travel is a function of two waypoints.
`CandidateIndex` is the multimap behind the candidates of a task. `HeuristicQueue`, `CostCalculator` and `CostMeaning`
model the heuristic and the cost; `PlannerOptimal` and `PlannerTeams` prove for how many agents they make the search
optimal.

**Execution.** `TaskExecution` is the phase machine of `Task::Active`, `EventSequence` the event machine of
`events::internal::Sequence`, both as objects whose methods are proved against a transition function, and with
results over every run of that function. `TaskProgress` proves how a task comes to its end and what
interruptions, cancellations and skipped phases do to that. `EventStatus` is the status of nested sequences and `CancellationEvent` the
traversal that picks an event id.

**Two protocols.** `LogReader` is the reader that passes every log entry on once, `BackupFile` the backup that is
written and then renamed.

## How the model relates to the code

- Time is `int` (nanoseconds), charge and cost are `real`. 32-bit and 64-bit wrap-around is written out where it
  matters: log numbers, backup numbers, event ids.
- The route planner and the power sinks are function parameters. `Physical` states what is assumed of them: no
  negative durations or drains. An agent, at least one, and requests that are not themselves charging tasks are
  required of callers.
- Hash tables are traversed in an arbitrary order, and any node of least cost may be the top of the priority queue.
- Candidates of a task: `update_candidate` erases the entry of an agent without checking that there is one, so
  `CompleteSolve` requires that every agent is a candidate for every request unless some request has no candidate
  at all (which is an error). `AgentCapable` proves that this then stays so in all later segments.
- `best_candidates` does not check for the end of the multimap; the model stops there.
- Where the code differs from its documentation, the model follows the code. The error that is returned is that of the
  last agent, whatever the others lack. The cost of a fresh node is computed before its invariants are collected.
  The consistency loop of `_begin_next_stage` never runs, so only sizes are compared. The invariants of unassigned
  tasks are sorted by booked start plus duration, while the heuristic needs them sorted by duration
  (`OrderIsSafeIff`, `FinishOrderOverestimates`). Even with one booked start, the estimate can exceed the cost of a
  plan for any number of agents but one (`OptimalIff`). A task whose phase finishes in spite of an interruption is
  meant to move on when it is resumed, but it still holds what the phase returned and resumes that instead
  (`StuckIff`, `StuckForever`); and of two overlapping interruptions the second resumption can start a phase beside
  the active one (`OneAtATimeIff`).
  A second thread that asks the travel cache for a way that is being calculated is told that there is none
  (`ThreadsAreRightIff`). A robot that is nearly full is refused a charge, so it cannot wait at its charger, and the
  planner may find no plan although there is one (`StrandedIff`, `YardIsDeadEnd`). An agent with only charging tasks
  ends the priority check (`PriorityCheckExact`); no node of a search has one.

## Model

| member | source | states |
|---|---|---|
| PlannerTheorems.FilterSound | rmf_task/src/rmf_task/TaskPlanner.cpp:280-323 | two nodes of one search whose assignments carry the same ids in the same places are equal in all finish states, unassigned tasks, candidate entries, invariants, latest time and cost, so dropping a duplicate loses no plan |
| PlannerTheorems.EntriesUpToDate | rmf_task/src/rmf_task/TaskPlanner.cpp:772-863 | in every reachable node every entry equals the model's estimate recomputed from the agent's last state; the charge-first flag is set only for an idle agent that needs it, and then the entry is the estimate after the charge |
| PlannerTheorems.TasksConserved | rmf_task/src/rmf_task/TaskPlanner.cpp:765-770 | in every reachable node a task is unassigned or in exactly one non-charging assignment |
| PlannerTheorems.InvariantsConserved | rmf_task/src/rmf_task/internal_task_planning.hpp:162-201 | the invariant set has exactly one element for every unassigned task, so the assertion of the pop never fails |
| PlannerTheorems.ChargesSeparated | rmf_task/src/rmf_task/TaskPlanner.cpp:891-905 | in every reachable node no agent charges twice in a row or has only charging tasks |
| PlannerTheorems.NodeRated | rmf_task/src/rmf_task/TaskPlanner.cpp:865-868 | every reachable node with assignments carries the calculator's cost of exactly its contents and the latest end of its agents |
| PlannerTheorems.FinishedAssignsNothing | rmf_task/src/rmf_task/TaskPlanner.cpp:1045-1059 | from a finished node no task can be assigned |
| PlannerInvariant.RunInv | rmf_task/src/rmf_task/TaskPlanner.cpp:713-955 | every node that any run of expansions reaches keeps the invariant from which the rows above follow |
| PlannerExpand.Filter.Ignore | rmf_task/src/rmf_task/TaskPlanner.cpp:317-323 | a node is ignored exactly if one with the same ids was seen, and is remembered |
| PlannerExpand.LatestTime | rmf_task/src/rmf_task/TaskPlanner.cpp:694-711 | the loop computes the latest finish of the last assignments |
| PlannerExpand.PopInvariant | rmf_task/src/rmf_task/internal_task_planning.hpp:183-201 | the search loop removes the first element of the task and keeps the others in order |
| PlannerExpand.UpdateCandidates | rmf_task/src/rmf_task/TaskPlanner.cpp:772-815 | in any order of the tasks, the loop updates all entries of the agent, or stops at a task that cannot be done and has changed entries of that agent only |
| PlannerExpand.ReestimateOverwrites | rmf_task/src/rmf_task/TaskPlanner.cpp:838-855 | what an update that stopped half-way leaves behind does not matter to the update after the charge |
| PlannerExpand.TryCharge | rmf_task/src/rmf_task/TaskPlanner.cpp:817-863 | appending a charging task computes the specified node or none |
| PlannerExpand.Candidate | rmf_task/src/rmf_task/TaskPlanner.cpp:720-868 | the sequential edits of a copied node compute the specified child, including the charge before and after the task |
| PlannerExpand.ExpandCandidate | rmf_task/src/rmf_task/TaskPlanner.cpp:713-878 | the child is returned unless it does not exist or its ids were seen; the filter learns it exactly if it exists |
| PlannerExpand.ExpandCharger | rmf_task/src/rmf_task/TaskPlanner.cpp:880-955 | no child for an idle agent or one that has just charged; otherwise the child with a charging task |
| PlannerChildren.RechargeIff | rmf_task/src/rmf_task/TaskPlanner.cpp:891-955 | in every node, an agent can be sent to its charger exactly if it has assignments that do not end with a charge, the charge is accepted from their end, and every task that is left can be performed after it |
| PlannerChildren.RechargedChild | rmf_task/src/rmf_task/TaskPlanner.cpp:907-955 | that child has the charge at the end of the agent's list, the estimates from its end for that agent, and everything else as before |
| PlannerChildren.AssignIff | rmf_task/src/rmf_task/TaskPlanner.cpp:713-863 | in every node, a task can be assigned exactly if it is due for a best candidate and every task that is left can be performed afterwards, directly or after a charge |
| PlannerChildren.AssignedChild | rmf_task/src/rmf_task/TaskPlanner.cpp:720-868 | in every reachable node, that child has the predicted assignment, with a charge before it exactly if the task needs one and a charge behind it exactly if some other task does, and the estimates from there |
| PlannerExpand.CheckFinished | rmf_task/src/rmf_task/TaskPlanner.cpp:1045-1059 | the nested loops decide whether no best candidate is due within the segment |
| PlannerProgress.StepRank | rmf_task/src/rmf_task/TaskPlanner.cpp:1079-1099 | twice the unassigned tasks plus the agents whose last assignment is not a charge drops on every expansion |
| PlannerSearch.WeightDrops | rmf_task/src/rmf_task/TaskPlanner.cpp:1079-1099 | with bounded branching, expanding a node makes the whole queue lighter, so the search ends |
| PlannerSearch.Expand | rmf_task/src/rmf_task/TaskPlanner.cpp:1014-1043 | every child of the node is among the new nodes or was known before, all new nodes are reachable and of lower rank, and their number is bounded |
| PlannerSearch.FinishedWaits | rmf_task/src/rmf_task/TaskPlanner.cpp:1079-1099 | at every turn, every reachable finished node has an ancestor on the queue |
| PlannerSearch.Solve | rmf_task/src/rmf_task/TaskPlanner.cpp:1061-1102 | terminates; returns a reachable finished node, and a cheapest one if no estimate exceeds the cost of a finished descendant; it asks the interrupter at every turn and stops when told; without interruption it returns none only if none is reachable |
| PlannerSearch.RisingIsAdmissible | rmf_task/src/rmf_task/TaskPlanner.cpp:1061-1102 | a cost that no expansion lowers meets that condition |
| PlannerOptimal.OneAgentRises | rmf_task/src/rmf_task/BinaryPriorityCostCalculator.cpp:206-221 | for one agent, requests with one booked start, models that run forward and no shortcut by the charger, the built-in calculator gives such a cost |
| PlannerOptimal.RechargeRisesIff | rmf_task/src/rmf_task/BinaryPriorityCostCalculator.cpp:73-127 | in particular, sending the agent to its charger lowers the cost exactly if it could begin a task earlier then |
| PlannerOptimal.FallbackIsFree | rmf_task/src/rmf_task/BinaryPriorityCostCalculator.cpp:100-115 | in every reachable node, an agent that is best for no task enters the estimate when it is free, which is not after it could begin any task |
| PlannerOptimal.OneAgentTripsOptimal | rmf_task/src/rmf_task/requests/Loop.cpp:106-201 | with the built-in models this is so if the way over a third place is not shorter |
| PlannerTeams.TeamOverestimates | rmf_task/src/rmf_task/BinaryPriorityCostCalculator.cpp:81-126 | for any larger number of agents, four tasks for which a node costs more than a finished descendant |
| PlannerTeams.OptimalIff | rmf_task/src/rmf_task/BinaryPriorityCostCalculator.cpp:73-221 | under these conditions no estimate is ever too high exactly for one agent |
| CostCalculator.CostExists | rmf_task/src/rmf_task/BinaryPriorityCostCalculator.cpp:206-221 | every node with agents has a cost, as `Rates` assumes of a planner |
| PlannerProgress.FreshNotFinished | rmf_task/src/rmf_task/TaskPlanner.cpp:664-689 | a fresh node with tasks is never finished already |
| PlannerProgress.SegmentProgress | rmf_task/src/rmf_task/TaskPlanner.cpp:543-609 | every segment assigns at least one task, so the outer loop ends |
| PlannerFresh.MakeCandidates | rmf_task/src/rmf_task/internal_task_planning.cpp:98-183 | the candidates are exactly the agents that can perform the request, directly or after a charge; the error is that of the last agent that cannot, and unchanged if all can |
| PlannerFresh.CandidateIff | rmf_task/src/rmf_task/internal_task_planning.cpp:109-152 | an agent is a candidate exactly if it can perform the request now or after a charge; its entry is that estimate and asks for the charge exactly if there is no way without |
| PlannerFresh.ErrorIs | rmf_task/src/rmf_task/internal_task_planning.cpp:153-171 | which error is left: the capacity is too small for the last agent that is no candidate if it could be charged or is charged already, and its charge is too low otherwise |
| PlannerFresh.FinishMeaning | rmf_task/src/rmf_task/internal_task_planning.cpp:207-211 | a task is estimated for the present, or for its booked start if that is later |
| PlannerReserves.LowBatteryIff | rmf_task/src/rmf_task/internal_task_planning.cpp:160-171 | with the built-in models an agent lacks charge exactly if it is away from its charger, not charged, and cannot get there above the threshold |
| PlannerFresh.SortInvariants | rmf_task/src/rmf_task/internal_task_planning.hpp:162-181 | one element per unassigned task, sorted by earliest finish, in any order of insertion |
| PlannerFresh.LatestStart | rmf_task/src/rmf_task/TaskPlanner.cpp:664-689 | the latest time is the maximum of the states and of the earliest deployment of a best candidate, or of the greatest time if no task is unassigned |
| PlannerFresh.MakeInitialNode | rmf_task/src/rmf_task/TaskPlanner.cpp:624-692 | the fresh node is as specified; it is rejected only if some request has no candidate, with the error of the last agent |
| PlannerSegments.NodeConsistent | rmf_task/src/rmf_task/TaskPlanner.cpp:732-767 | in every node each assignment is what its model predicts from the end of the agent's previous one |
| PlannerSegments.RequestsConserved | rmf_task/src/rmf_task/TaskPlanner.cpp:765-770 | assigned and unassigned requests together are those of the fresh node, as multisets |
| PlannerSegments.NextCapable | rmf_task/src/rmf_task/TaskPlanner.cpp:588-607 | after pruning, every agent can still perform every remaining request, possibly after a charge |
| PlannerComplete.AgentCapable | rmf_task/src/rmf_task/TaskPlanner.cpp:604-607 | so the next fresh node has all candidates and is never rejected |
| PlannerComplete.PruneNode | rmf_task/src/rmf_task/TaskPlanner.cpp:413-429 | drops a charging task at the end of each list and nothing else |
| PlannerComplete.PrunePlan | rmf_task/src/rmf_task/TaskPlanner.cpp:394-411 | the same on the plan |
| PlannerComplete.Collect | rmf_task/src/rmf_task/TaskPlanner.cpp:559-568 | the nested loops append every agent's assignments in order |
| PlannerComplete.RemainingRequests | rmf_task/src/rmf_task/TaskPlanner.cpp:584-586 | the new requests are those of the unassigned tasks, as a multiset |
| PlannerComplete.NextStates | rmf_task/src/rmf_task/TaskPlanner.cpp:588-602 | the state in which each agent ends the segment |
| PlannerComplete.SegmentAdvances | rmf_task/src/rmf_task/TaskPlanner.cpp:556-608 | after a segment the plan is still consistent, conserves the requests, ends where the next segment starts, and all agents are capable of the rest |
| PlannerComplete.AppendFinishing | rmf_task/src/rmf_task/TaskPlanner.cpp:431-509 | an agent with work gets the finishing request if it is predicted from the end of that work, a charge and the request if it is predicted only after the charge, and nothing exactly if neither is; idle agents stay idle |
| PlannerComplete.CompletedUnique | rmf_task/src/rmf_task/TaskPlanner.cpp:431-509 | nothing else meets this |
| PlannerComplete.CompleteSolve | rmf_task/src/rmf_task/TaskPlanner.cpp:511-622 | terminates; a returned plan is what its segments lead to, each a cheapest solution of its search if no estimate there is too high; it holds every request exactly once and each assignment as predicted from the previous one, across segments and pruning, plus finishing requests as in the row above; an error only if a request has no candidate; the interrupter is asked in every segment; an empty plan only if interrupted, or if the segment after those solved has no finished node |
| PlannerSolvable.EndsFinished | rmf_task/src/rmf_task/TaskPlanner.cpp:1061-1102 | if from the end of any request every agent can perform all the others, possibly after a charge, a finished node can be reached from every node of a search |
| PlannerSolvable.NoDeadEnd | rmf_task/src/rmf_task/TaskPlanner.cpp:543-609 | then no segment is a dead end: an empty plan means that the planner was interrupted |
| PlannerReserves.AmpleNeverStranded | rmf_task/src/rmf_task/requests/ChargeBattery.cpp:82-155 | with the built-in models this is so if every request can be done and returned from at the usual level of charge, from the charger of every agent, and costs more than the thousandth below which a charge is refused |
| PlannerReserves.AmpleIsSolvable | rmf_task/src/rmf_task/TaskPlanner.cpp:543-609 | so the planner finds a plan for such requests |
| PlannerReserves.StrandedIff | rmf_task/src/rmf_task/TaskPlanner.cpp:772-863 | in every node, a due task is not assigned exactly if another one could then not be performed, neither directly nor after a charge, which is refused exactly within a thousandth of the usual level |
| PlannerSolvable.DeadEndStops | rmf_task/src/rmf_task/TaskPlanner.cpp:1014-1099 | in a search without a finished node, every node leads to one that cannot be expanded although a task is due |
| PlannerReserves.DeadEndStrands | rmf_task/src/rmf_task/TaskPlanner.cpp:772-863 | so every dead end of a search for trips has a node with a due task in which every due task would strand its agent |
| PlannerReserves.YardIsPhysical | rmf_task/src/rmf_task/Estimate.cpp:132-169 | an environment with two places meets what is assumed of environments, its ways take and drain what the estimator makes of its routes, and a planner uses it |
| PlannerReserves.YardIsDeadEnd | rmf_task/src/rmf_task/TaskPlanner.cpp:817-863 | two deliveries for which there is a plan, but no finished node: the robot may not wait for the second one at its charger because it is nearly full |
| PlannerTimeline.PlanKeeps | rmf_task/src/rmf_task/TaskPlanner.cpp:543-609 | any relation between a state and a prediction that all models keep holds along every returned plan |
| PlannerTimeline.PlanTimeline | rmf_task/src/rmf_task/TaskPlanner.cpp:431-609 | deployments are not before the initial time or the previous finish, and finishes not before deployments |
| PlannerModels.PlansRunForward | rmf_task/src/rmf_task/TaskPlanner.cpp:431-609 | this holds for Delivery, Loop, Clean and charging tasks, with finishing requests |
| PlannerModels.PlanCharged | rmf_task/src/rmf_task/requests/Delivery.cpp:172-195 | with draining batteries no agent of a plan ends an assignment with an illegal charge, or at or below the threshold unless it has just been charged |
| Requests.RouteEffort | rmf_task/src/rmf_task/requests/Delivery.cpp:84-101 | the loop over the legs of a route sums to the time between its start and its end, and to the drain of all legs |
| Requests.ModelEffort | rmf_task/src/rmf_task/requests/Loop.cpp:64-102 | the constructors compute the invariant duration and drain of the three kinds of task |
| TripMeaning.LoopIsWalk | rmf_task/src/rmf_task/requests/Loop.cpp:64-102 | a loop request takes and drains the sum over the steps of its walk, there and back but the last time only there, which ends where the task ends |
| TripMeaning.DeliveryEffort | rmf_task/src/rmf_task/requests/Delivery.cpp:68-101 | a delivery takes both waits and the way between its places, and drains for both |
| TripMeaning.CleanEffort | rmf_task/src/rmf_task/requests/Clean.cpp:60-85 | cleaning takes its path, and drains for the motion, the ambient and the tool all along it |
| TripMeaning.RouteParts | rmf_task/src/rmf_task/requests/Delivery.cpp:84-101 | a route takes and drains what its parts do, the second from the end of the first on |
| TripMeaning.RouteOfOne | rmf_task/src/rmf_task/requests/Delivery.cpp:84-101 | one leg drains for its motion and for the ambient over its duration |
| Requests.EffortNonNegative | rmf_task/src/rmf_task/requests/Delivery.cpp:68-101 | neither is negative |
| Requests.DeliveryEstimate | rmf_task/src/rmf_task/requests/Delivery.cpp:107-198 | its checks along the way amount to one: the task is accepted exactly if it can be reached and the charge left at the end takes the robot back to its charger above the threshold; with the finish state and deployment in closed form |
| Requests.LoopEstimate | rmf_task/src/rmf_task/requests/Loop.cpp:106-201 | the same for loops |
| Requests.CleanEstimate | rmf_task/src/rmf_task/requests/Clean.cpp:87-186 | the same for cleaning |
| Requests.EstimateCharge | rmf_task/src/rmf_task/requests/ChargeBattery.cpp:82-155 | a charge is accepted exactly if the charger can be reached above the threshold and there is more than a thousandth to gain |
| Requests.TaskForward | rmf_task/src/rmf_task/requests/Delivery.cpp:147-170 | a task is deployed no earlier than the robot is free, and done no earlier than its booked start plus its duration |
| Requests.TaskAboveThreshold | rmf_task/src/rmf_task/requests/Clean.cpp:160-183 | with draining batteries an accepted task ends above the threshold and with no more charge than before |
| Requests.TaskCanCharge | rmf_task/src/rmf_task/requests/ChargeBattery.cpp:94-154 | from there a charge is refused exactly if the robot would arrive within a thousandth of the recharge level, never for lack of charge or route |
| Requests.ChargeForward | rmf_task/src/rmf_task/requests/ChargeBattery.cpp:143-154 | a charge starts at once, takes no negative time and ends at the recharge level |
| Requests.NoChargeAfterCharge | rmf_task/src/rmf_task/requests/ChargeBattery.cpp:88-100 | after a charge no further one is accepted |
| TripMeaning.TripAccount | rmf_task/src/rmf_task/requests/Delivery.cpp:107-198 | an accepted trip: deployed at once or as late as the booked start allows, done after the way and the task, and its charge spent on the way, on waiting away from the charger, and on the task |
| TripMeaning.TripAccepted | rmf_task/src/rmf_task/requests/Clean.cpp:87-186 | with draining batteries a trip is accepted exactly if the charge exceeds the threshold by what it, the way there and the way back to the charger cost |
| TripMeaning.TripAcceptedIdly | rmf_task/src/rmf_task/requests/Loop.cpp:106-201 | without, exactly if the robot is there, or can get there and is above the threshold |
| TripMeaning.ChargeAccount | rmf_task/src/rmf_task/requests/ChargeBattery.cpp:94-155 | an accepted charge: to the charger at once, and there until the current has supplied what is lacking |
| TripMeaning.ChargeAccepted | rmf_task/src/rmf_task/requests/ChargeBattery.cpp:82-155 | a charge is accepted exactly if the robot is at its charger or gets there above the threshold, and lacks more than a thousandth then |
| TravelCache.TravelEstimator.Estimate | rmf_task/src/rmf_task/Estimate.cpp:106-130 | the first result for two waypoints is stored and returned from then on |
| TravelCache.AnswersAreAFunction | rmf_task/src/rmf_task/Estimate.cpp:106-130 | all answers of any run of calls agree with one function of the waypoints |
| TravelCache.TransparentIff | rmf_task/src/rmf_task/Estimate.cpp:115-120 | the cache cannot be noticed exactly if time and orientation do not influence the calculation |
| TravelCache.ThreadsAreRightIff | rmf_task/src/rmf_task/Estimate.cpp:106-130 | over every interleaving of threads, all get the right answer exactly if none asks for a way while another one is calculating it |
| TravelCache.ToldNoWay | rmf_task/src/rmf_task/Estimate.cpp:119-120 | such a thread is told that there is no way |
| TravelCache.CalculateResult | rmf_task/src/rmf_task/Estimate.cpp:132-169 | duration and drain of a route, or nothing if none was found |
| TripMeaning.TravelParts | rmf_task/src/rmf_task/Estimate.cpp:141-158 | the estimator adds up legs that are all counted from the start of the route |
| TripMeaning.TravelOfOne | rmf_task/src/rmf_task/Estimate.cpp:141-158 | and for one leg drains for its motion and for the ambient from that start on |
| TravelCache.TravelDrainIsCautious | rmf_task/src/rmf_task/Estimate.cpp:141-158 | the estimator drains no less for a route than the request models do |
| CandidateIndex.CandidateIndex.Copy | rmf_task/src/rmf_task/internal_task_planning.cpp:83-95 | rebuilding the index of a copy gives the same candidates |
| CandidateIndex.CandidateIndex.Insert | rmf_task/src/rmf_task/internal_task_planning.cpp:53-57 | insertion keeps the multimap sorted |
| CandidateIndex.CandidateIndex.UpdateCandidate | rmf_task/src/rmf_task/internal_task_planning.cpp:44-58 | replaces the entry of one agent and keeps multimap and index consistent |
| CandidateIndex.CandidateIndex.BestCandidates | rmf_task/src/rmf_task/internal_task_planning.cpp:68-80 | returns exactly the agents with the least finish time, each once |
| HeuristicQueue.InvariantHeuristicQueue.constructor | rmf_task/src/rmf_task/InvariantHeuristicQueue.cpp:26-34 | the stacks are the initial values in ascending order |
| HeuristicQueue.InvariantHeuristicQueue.Add | rmf_task/src/rmf_task/InvariantHeuristicQueue.cpp:37-60 | the task goes to the agent that is free first, and rotating keeps the stacks sorted and the cost |
| HeuristicQueue.InvariantHeuristicQueue.ComputeCost | rmf_task/src/rmf_task/InvariantHeuristicQueue.cpp:63-80 | the nested loops sum the cost of all stacks but their first elements |
| HeuristicQueue.Estimate | rmf_task/src/rmf_task/InvariantHeuristicQueue.cpp:26-80 | filling the queue task by task gives the cost of the list schedule |
| HeuristicQueue.QueueIsLowerBound | rmf_task/src/rmf_task/InvariantHeuristicQueue.cpp:26-80 | with tasks in ascending duration and none booked after an agent is free, the cost is at most that of every assignment of the tasks to the agents in every order |
| HeuristicQueue.QueueIsAttained | rmf_task/src/rmf_task/InvariantHeuristicQueue.cpp:37-60 | and some assignment has exactly that cost |
| HeuristicQueue.QueueIsSchedule | rmf_task/src/rmf_task/InvariantHeuristicQueue.cpp:26-80 | for any tasks and agents the cost is that of a schedule in which a task that ends before its booked start costs nothing |
| HeuristicQueue.MoveToEarliest | rmf_task/src/rmf_task/InvariantHeuristicQueue.cpp:37-43 | any schedule can be changed, without raising its cost, so that a shortest task comes first at an agent that is free first |
| HeuristicQueue.OrderIsSafeIff | rmf_task/src/rmf_task/InvariantHeuristicQueue.cpp:26-80 | for tasks of non-negative duration: the cost is at most that of every schedule, for any number of agents and any times after the tasks are due, exactly if the tasks are added in ascending duration |
| HeuristicQueue.FinishOrderOverestimates | rmf_task/src/rmf_task/BinaryPriorityCostCalculator.cpp:117-126 | tasks for which the order of booked start plus duration, in which the calculator adds them, is not that one |
| CostCalculator.CheckBalanced | rmf_task/src/rmf_task/BinaryPriorityCostCalculator.cpp:133-158 | decides whether no agent has two priority tasks while another has none |
| CostCalculator.CheckOrder | rmf_task/src/rmf_task/BinaryPriorityCostCalculator.cpp:162-191 | decides, by comparing neighbours, whether all priority tasks of an agent come first, charges aside |
| CostCalculator.ValidPriority | rmf_task/src/rmf_task/BinaryPriorityCostCalculator.cpp:130-195 | both, for the agents up to the first that has only charging tasks |
| CostCalculator.PriorityCheckExact | rmf_task/src/rmf_task/BinaryPriorityCostCalculator.cpp:167-176 | the check means what it should exactly if no agent with only charging tasks, behind ordered agents, hides one that is out of order |
| CostCalculator.DeceptiveExists | rmf_task/src/rmf_task/BinaryPriorityCostCalculator.cpp:167-176 | lists on which it does not |
| CostCalculator.PriorityCheckOfNode | rmf_task/src/rmf_task/BinaryPriorityCostCalculator.cpp:130-195 | for every node of a search the check covers all agents |
| CostCalculator.ComputeG | rmf_task/src/rmf_task/BinaryPriorityCostCalculator.cpp:26-70 | the sum of finish minus booked start over all assignments but charges |
| CostCalculator.ComputeH | rmf_task/src/rmf_task/BinaryPriorityCostCalculator.cpp:73-127 | the queue cost from the earliest deployment of each agent over the tasks it is best for, or its fallback |
| CostCalculator.HeuristicUnique | rmf_task/src/rmf_task/BinaryPriorityCostCalculator.cpp:81-98 | the estimate does not depend on the order in which the hash table is visited |
| CostCalculator.HeuristicIsLowerBound | rmf_task/src/rmf_task/BinaryPriorityCostCalculator.cpp:117-126 | for tasks with one booked start the estimate is at most the cost of any way to give them to agents that start from those values |
| CostCalculator.ComputeCost | rmf_task/src/rmf_task/BinaryPriorityCostCalculator.cpp:206-221 | cost and estimate together, times the penalty if priorities are not respected |
| CostMeaning.PenaltyIff | rmf_task/src/rmf_task/BinaryPriorityCostCalculator.cpp:206-221 | with priorities a node costs what it costs without if it respects them, and the penalty times as much if not |
| CostMeaning.RespectingIsCheaper | rmf_task/src/rmf_task/BinaryPriorityCostCalculator.cpp:206-221 | of two nodes that cost the same without priorities, one that respects them is cheaper than one that does not |
| CostMeaning.NoPriorities | rmf_task/src/rmf_task/BinaryPriorityCostCalculator.cpp:130-195 | without priority requests there is never a penalty |
| CostMeaning.RespectsMeaning | rmf_task/src/rmf_task/BinaryPriorityCostCalculator.cpp:130-195 | the check succeeds exactly if no agent has two priority requests while another has none, and each list, up to one of charges only, has its priority requests up front |
| CostMeaning.RespectsOfNode | rmf_task/src/rmf_task/BinaryPriorityCostCalculator.cpp:167-176 | in every reachable node all lists are looked at |
| CostCalculator.CostUnique | rmf_task/src/rmf_task/BinaryPriorityCostCalculator.cpp:206-221 | the cost is a function of the contents of a node, as the duplicate filter needs |
| CostCalculator.CompleteCost | rmf_task/src/rmf_task/BinaryPriorityCostCalculator.cpp:206-228 | without unassigned tasks nothing is estimated |
| TaskExecution.EveryRun | rmf_task_sequence/src/rmf_task_sequence/Task.cpp:805-1090 | over every run of finish, cancel, kill, skip, interrupt and resume in which each phase signals at most once, after its activation: pending stages and phases carry the same ids and the mismatch is never thrown; pending ids increase above the active one, those of a cancellation above all ordinary ones; completed ids increase up to the active one; no phase is activated twice |
| TaskExecution.NothingAfterKill | rmf_task_sequence/src/rmf_task_sequence/Task.cpp:855-856 | over every run nothing is activated after a kill |
| TaskExecution.NextStageMeaning | rmf_task_sequence/src/rmf_task_sequence/Task.cpp:858-1089 | the loop activates the first pending phase that is not skipped and keeps those behind it, or finishes the task |
| TaskExecution.Active.constructor | rmf_task_sequence/src/rmf_task_sequence/Task.cpp:151-173 | a new task has its phases numbered from one and the first one started |
| TaskExecution.Active.GeneratePendingPhases | rmf_task_sequence/src/rmf_task_sequence/Task.cpp:784-802 | one pending phase per stage, with its id, not skipped |
| TaskExecution.Active.BeginNextStage | rmf_task_sequence/src/rmf_task_sequence/Task.cpp:833-863 | the whole new state |
| TaskExecution.Active.StartNext | rmf_task_sequence/src/rmf_task_sequence/Task.cpp:858-1089 | the loop refines the transition function |
| TaskExecution.Active.FinishPhase | rmf_task_sequence/src/rmf_task_sequence/Task.cpp:805-830 | a signal of a phase that is not active changes nothing; otherwise the whole new state |
| TaskExecution.Active.PrepareCancellation | rmf_task_sequence/src/rmf_task_sequence/Task.cpp:1125-1144 | what was pending is replaced by the cancellation sequence, numbered above the ordinary phases |
| TaskExecution.Active.Cancel | rmf_task_sequence/src/rmf_task_sequence/Task.cpp:564-584 | only the first cancellation of an unfinished task has an effect, and which |
| TaskExecution.Active.Skip | rmf_task_sequence/src/rmf_task_sequence/Task.cpp:595-614 | the whole new state |
| TaskProgress.SkipFlags | rmf_task_sequence/src/rmf_task_sequence/Task.cpp:595-614 | in every run, being told to skip or not to skip a phase sets its flag if it is pending and changes nothing else |
| TaskProgress.SkipChanges | rmf_task_sequence/src/rmf_task_sequence/Task.cpp:595-614 | so what is to be done becomes what it was, without the phase or with it, in the order of the ids |
| TaskProgress.SkippedIsPassed | rmf_task_sequence/src/rmf_task_sequence/Task.cpp:858-1089 | a pending phase that is told to be skipped, and not told otherwise, is activated in no continuation |
| TaskProgress.SkippedRunsToEnd | rmf_task_sequence/src/rmf_task_sequence/Task.cpp:595-1089 | and the task completes exactly the other ones, in order |
| TaskExecution.Active.Kill | rmf_task_sequence/src/rmf_task_sequence/Task.cpp:587-592 | the whole new state |
| TaskProgress.CommandFlags | rmf_task_sequence/src/rmf_task_sequence/Task.cpp:541-592 | in every run, what a kill, an interruption and a resumption change, and that they change nothing else |
| TaskProgress.CancelOnce | rmf_task_sequence/src/rmf_task_sequence/Task.cpp:564-584 | in every run, only the first cancellation of an unfinished task acts; it is recorded for the active phase, and what is pending is its cancellation sequence, numbered on from the ordinary phases |
| TaskProgress.StaleSignal | rmf_task_sequence/src/rmf_task_sequence/Task.cpp:805-817 | in every run, a signal that does not belong to the active stage changes nothing |
| TaskProgress.MismatchThrows | rmf_task_sequence/src/rmf_task_sequence/Task.cpp:865-1006 | a mismatch, which no run has, throws and does nothing else |
| TaskExecution.Active.Interrupt | rmf_task_sequence/src/rmf_task_sequence/Task.cpp:541-546 | the whole new state, also if the phase signals before it returns: then it is that of the signal between two equal interruptions |
| TaskExecution.SignalAfterInterruption | rmf_task_sequence/src/rmf_task_sequence/Task.cpp:541-546 | with a callback that is the same as a signal right after the interruption |
| TaskExecution.Active.Resume | rmf_task_sequence/src/rmf_task_sequence/Task.cpp:548-560 | the whole new state |
| TaskProgress.NextStageMoves | rmf_task_sequence/src/rmf_task_sequence/Task.cpp:858-1089 | of the pending phases that are not skipped the loop activates the first and leaves the others; if there are none the task is announced as finished |
| TaskProgress.RunsToEnd | rmf_task_sequence/src/rmf_task_sequence/Task.cpp:805-1089 | from any state of any run that is not interrupted, killed or stuck: if the active phase and then each activated one finishes, exactly the pending phases that are not skipped are activated and completed, in order, and the task is announced as finished once |
| TaskProgress.CancelledRunsSequence | rmf_task_sequence/src/rmf_task_sequence/Task.cpp:564-584 | after a cancellation these are exactly the phases of the cancellation sequence of the active stage |
| TaskProgress.OneAtATimeIff | rmf_task_sequence/src/rmf_task_sequence/Task.cpp:548-560 | over every run, phases run one at a time and the task is announced as finished once and after all of them, exactly if every resumption comes while the task holds what its active phase returned |
| TaskProgress.PairedInTurn | rmf_task_sequence/src/rmf_task_sequence/Task.cpp:541-560 | which is so if interruptions carry a callback and do not overlap |
| TaskProgress.TwoAtATime | rmf_task_sequence/src/rmf_task_sequence/Task.cpp:548-560 | a run with two overlapping interruptions in which two phases are active at once |
| TaskProgress.StuckIff | rmf_task_sequence/src/rmf_task_sequence/Task.cpp:836-845 | a task becomes stuck, its active phase finished and the next one not begun, exactly by a phase that finishes during an interruption |
| TaskProgress.StuckRun | rmf_task_sequence/src/rmf_task_sequence/Task.cpp:836-845 | every task with phases has such a run |
| TaskProgress.StuckForever | rmf_task_sequence/src/rmf_task_sequence/Task.cpp:548-560 | over every continuation, with resumptions, cancellation and kill, a stuck task activates nothing and is never announced as finished |
| TaskProgress.FinishableIff | rmf_task_sequence/src/rmf_task_sequence/Task.cpp:833-863 | an unfinished task of any run has a continuation that finishes it exactly if it is not stuck |
| EventSequence.SequenceActive.Next | rmf_task_sequence/src/rmf_task_sequence/events/Sequence.cpp:362-400 | refines the transition function although dependencies may signal while they are begun; a nested call has no effect |
| EventSequence.SequenceActive.Signal | rmf_task_sequence/src/rmf_task_sequence/events/Sequence.cpp:382-392 | only a signal for the current dependency, outside `next`, has an effect |
| EventSequence.SequenceActive.Cancel | rmf_task_sequence/src/rmf_task_sequence/events/Sequence.cpp:312-317 | the whole new state |
| EventSequence.SequenceActive.Kill | rmf_task_sequence/src/rmf_task_sequence/events/Sequence.cpp:320-325 | the whole new state |
| EventSequence.BeginInOrder | rmf_task_sequence/src/rmf_task_sequence/events/Sequence.cpp:362-400 | over every run dependencies begin in description order, each at most once, whether they finish inside `begin`, signal late or again |
| EventSequence.NothingBeginsAfter | rmf_task_sequence/src/rmf_task_sequence/events/Sequence.cpp:312-325 | over every run nothing begins after cancel or kill |
| EventSequence.AllBegun | rmf_task_sequence/src/rmf_task_sequence/events/Sequence.cpp:362-400 | over every run without cancel and kill no dependency is dropped, and a sequence announced as finished has begun them all |
| EventSequence.AnnouncedOnce | rmf_task_sequence/src/rmf_task_sequence/events/Sequence.cpp:371-376 | if each dependency signals once, when it becomes finished, the sequence is announced as finished once, exactly when all begun ones are finished and none will begin |
| EventSequence.AnnouncedCount | rmf_task_sequence/src/rmf_task_sequence/events/Sequence.cpp:371-392 | over every run it is announced only when nothing remains, and as often as once plus the signals of the current dependency that come after the announcement |
| EventSequence.AnnouncedOnceIff | rmf_task_sequence/src/rmf_task_sequence/events/Sequence.cpp:371-392 | so it is announced at most once exactly if there is no such signal |
| EventSequence.AnnouncedTwice | rmf_task_sequence/src/rmf_task_sequence/events/Sequence.cpp:371-392 | a run with one |
| EventSequence.StatusFollows | rmf_task_sequence/src/rmf_task_sequence/events/Sequence.cpp:148-160 | over every run the status is that of the dependencies, or fixed by what ended it |
| EventSequence.CommandFixesStatus | rmf_task_sequence/src/rmf_task_sequence/events/Sequence.cpp:312-325 | over every run, a cancelled or killed sequence has the status of the last such command, whatever its dependencies do |
| EventSequence.ToldIsKnown | rmf_task_sequence/src/rmf_task_sequence/events/Sequence.cpp:148-160 | over every run, a dependency has the status that it was last told or began with |
| EventStatus.ComputeSequenceStatus | rmf_task/src/rmf_task/Event.cpp:41-62 | the loops compute the status of two events in sequence |
| EventStatus.UpdateStatus | rmf_task_sequence/src/rmf_task_sequence/events/Sequence.cpp:148-160 | folds the dependencies unless the status is final |
| EventStatus.StatusOfTwo | rmf_task/src/rmf_task/Event.cpp:41-62 | the status of two events in sequence, status by status |
| EventStatus.UpdateKeeps | rmf_task_sequence/src/rmf_task_sequence/events/Sequence.cpp:148-160 | canceled, killed and skipped are kept, and any other status becomes that of the dependencies |
| EventStatus.FoldIsOverall | rmf_task/src/rmf_task/Event.cpp:41-62 | the fold gives the most critical status that needs attention, else the first unfinished, else the last |
| EventStatus.NestingIsFilled | rmf_task/src/rmf_task/Event.cpp:41-62 | for sequences nested in any way it equals the fold over all leaves, with a completed one for every empty sequence |
| EventStatus.NestingIsFlatIff | rmf_task/src/rmf_task/Event.cpp:52-58 | it equals the fold over the leaves alone exactly unless the tree ends with an empty sequence, all leaves are finished and the last of them was skipped, canceled or killed |
| CancellationEvent.FinalEventId | rmf_task_sequence/src/rmf_task_sequence/phases/CancellationPhase.cpp:73-106 | on every finite graph, shared or cyclic and with missing entries, the traversal ends, and its id is above that of every event reachable from the child exactly unless one has the greatest 64-bit number |
| LogReader.Log.Push | rmf_task/src/rmf_task/Log.cpp:285-299 | entries are numbered in order, modulo 2^32; the uninitialized tier is an error; no view changes |
| LogReader.Log.TakeView | rmf_task/src/rmf_task/Log.cpp:89-109 | a view shows everything that has been pushed before it is taken |
| LogReader.Reader.Read | rmf_task/src/rmf_task/Log.cpp:208-257 | what is passed on and remembered, for new, known, expired and empty cases |
| LogReader.Iterate | rmf_task/src/rmf_task/Log.cpp:388-399 | iterating yields the entries from the first to the last, inclusive |
| LogReader.EachEntryOnce | rmf_task/src/rmf_task/Log.cpp:208-257 | over every interleaving of creations, pushes, expiries and reads, with old and empty views and recycled addresses, the entries of every log of at most 2^32 entries are passed on in order, each once, up to the furthest view read |
| LogReader.DeliveryIff | rmf_task/src/rmf_task/Log.cpp:208-257 | all runs with at most n entries per log deliver every entry once exactly if n is at most 2^32 |
| LogReader.NumbersTellOrder | rmf_task/src/rmf_task/Log.cpp:219-234 | comparing entry numbers is right exactly for logs of at most 2^32 entries |
| LogReader.OverflowLosesEntry | rmf_task/src/rmf_task/Log.cpp:219-234 | a run that loses the entry after that |
| BackupFile.Robot.constructor | rmf_task/src/rmf_task/BackupFileManager.cpp:97-107 | what a new handle finds, with and without clearing |
| BackupFile.Robot.Write | rmf_task/src/rmf_task/BackupFileManager.cpp:171-184 | the backup is replaced by the whole state; it is an error if the second file cannot be opened, and then nothing changes, or cannot be renamed, and then it stays |
| BackupFile.Robot.WriteIfNew | rmf_task/src/rmf_task/BackupFileManager.cpp:134-144 | older numbers change nothing; otherwise the whole new state; a failed write has taken its number |
| BackupFile.Robot.Read | rmf_task/src/rmf_task/BackupFileManager.cpp:270-330 | the backup or nothing, the three error cases, and the removal of an unfinished file |
| BackupFile.ReadsLastCommitted | rmf_task/src/rmf_task/BackupFileManager.cpp:134-330 | through every run of writes, reads, failed renames and crashes at any character of a write, a read returns the whole state of the last write whose rename happened, or nothing |
| BackupFile.WriteIsRun | rmf_task/src/rmf_task/BackupFileManager.cpp:134-184 | the steps between which such a run may crash make up the write of a handle, with each of its faults |
| BackupFile.WindowOrder | rmf_task/src/rmf_task/BackupFileManager.cpp:136-140 | within half the range the wrap-around order is the order of distances |
| BackupFile.KeepsGreatest | rmf_task/src/rmf_task/BackupFileManager.cpp:134-144 | of the backups that it was given, a handle has last tried to write the first with the greatest number |
| BackupFile.WriteAll | rmf_task/src/rmf_task/BackupFileManager.cpp:134-184 | and remembers its number; the file holds the last one that it tried and could write |
| BackupFile.StoredIsKept | rmf_task/src/rmf_task/BackupFileManager.cpp:134-184 | which is that one exactly if its write did not fail; otherwise it is what was there before |

## Left out

- `greedy_solve`: its backtracking drops assignments without returning them to the unassigned tasks.
- The trie form of the duplicate filter, which `solve` does not select.
- Conditions under which `compute_h` is admissible for several agents, or with priorities: `Solve` takes it as a
  hypothesis, which `OptimalIff` shows to be needed.
- Overflow of 64-bit time points, rounding of floating point numbers, and the random part of charging request ids.
- Models of requests that are composed of events: they enter the planner as an arbitrary function, and the time line
  of plans is proved under the condition that this function runs forward, which tasks that begin with WaitFor or
  PerformAction do not meet.
- A cleaning request without a tool sink, for which the original throws, and a loop request for zero loops.
- Concurrent use of logs. Reading an entry of the travel cache is one step.
- `Task::Active::rewind`, restoring a task or a sequence from a backup, and the backups that a task issues.
- What a phase does when it is interrupted or resumed, other than to signal once that it is finished.
- The status of the final event of a cancellation phase, of which `FinalEventId` gives the id.
- Phases that signal while they are being activated, and clients that call back into a task from its callbacks.
- Commands given to a task without phases or to a sequence without dependencies, which have no active phase or
  event to pass them to.
- `Log::insert`, which may give entries any number.
- A backup whose second file cannot be written completely although it was opened: the original does not check this.
- Text, headers, schemas, loggers, activator registries, getters and setters.
