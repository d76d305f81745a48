/** When the search of a segment is optimal with the built-in cost calculator. */
module PlannerOptimal {
  import opened Domain
  import opened PlannerNode
  import opened PlannerInvariant
  import opened PlannerTheorems
  import opened PlannerFresh
  import opened PlannerExpand
  import opened PlannerSearch
  import opened PlannerSolvable
  import opened Requests
  import opened PlannerModels
  import opened PlannerReserves
  import opened CostCalculator
  import Queue = HeuristicQueue

  // ---- one line of tasks ----

  lemma {:induction false} LineCostNonNegative(ready: real, tasks: seq<Queue.Task>)
    requires forall t | t in tasks :: t.duration >= 0.0 && t.start <= ready
    ensures Queue.LineCost(ready, tasks) >= 0.0
    decreases |tasks|
  {
    if tasks != [] {
      assert tasks[0] in tasks && forall t | t in tasks[1..] :: t in tasks;
      LineCostNonNegative(ready + tasks[0].duration, tasks[1..]);
    }
  }

  /** Being free later is not cheaper. */
  lemma LaterCosts(early: real, late: real, tasks: seq<Queue.Task>)
    requires early <= late
    ensures Queue.LineCost(early, tasks) <= Queue.LineCost(late, tasks)
  {
    hide Queue.LineCost;
    Queue.LineCostLater(early, late - early, tasks);
    assert early + (late - early) == late;
    Queue.MoreOf(0.0, |tasks| as real, late - early);
  }

  /** And strictly dearer, if there is anything to do. */
  lemma LaterCostsMore(early: real, late: real, tasks: seq<Queue.Task>)
    requires early < late && tasks != []
    ensures Queue.LineCost(early, tasks) < Queue.LineCost(late, tasks)
  {
    hide Queue.LineCost;
    Queue.LineCostLater(early, late - early, tasks);
    assert early + (late - early) == late;
    Queue.MoreOf(1.0, |tasks| as real, late - early);
  }

  /** Performing task `t` next, which ends at `end`, does not make the rest cheaper than was estimated. */
  lemma NextTaskCosts(v: real, x: seq<Queue.Task>, t: Queue.Task, y: seq<Queue.Task>, end: real, v': real)
    requires Queue.AscendingDurations(x + ([t] + y)) && Queue.Booked([v], x + ([t] + y))
    requires v + t.duration <= end && (x + y != [] ==> end <= v')
    ensures Queue.LineCost(v, x + ([t] + y)) <= end - t.start + Queue.LineCost(v', x + y)
  {
    hide Queue.LineCost, Queue.QueueCost;
    var tasks := x + ([t] + y);
    assert v in [v];
    Queue.OneAgent(v, tasks);
    OneLine(v, tasks, [t] + (x + y));
    Queue.LineCostCons(v, t, x + y);
    LaterCosts(v + t.duration, end, x + y);
    if x + y == [] {
      NothingCosts(end);
      NothingCosts(v');
    } else {
      LaterCosts(end, v', x + y);
    }
  }

  lemma NothingCosts(ready: real)
    ensures Queue.LineCost(ready, []) == 0.0
  {
  }

  lemma OneLine(v: real, tasks: seq<Queue.Task>, order: seq<Queue.Task>)
    requires Queue.AscendingDurations(tasks) && Queue.Booked([v], tasks) && multiset(order) == multiset(tasks)
    ensures Queue.QueueCost([v], tasks) <= Queue.LineCost(v, order)
  {
    var lines := [Queue.Line(v, order)];
    assert lines[1..] == [];
    Queue.QueueIsLowerBound([v], tasks, lines);
  }

  // ---- one agent ----

  /** The planner rates nodes by `compute_cost`, without priorities. */
  ghost predicate Rates(p: Planner) {
    forall lists: Assigned, un: map<nat, Pending>, inv: seq<Invariant> |
      lists != [] && (forall u, a: nat | u in un && IsBest(un[u].candidates, a) :: a < |lists|) ::
      CostOf(p.duration, p.timeNow, false, 1.0, lists, un, inv, p.cost(lists, un, inv))
  }

  /** There is a planner that does, whatever else it uses. */
  lemma SomeRates(p: Planner) returns (p': Planner)
    ensures Rates(p') && p' == p.(cost := p'.cost)
  {
    hide CostOf;
    p' := p.(cost := (lists, un, inv) => CostFunction(p.duration, p.timeNow, false, 1.0, lists, un, inv));
  }

  /** All requests are booked for the same time, and take their time from then, and from when the agent is free. */
  ghost predicate Steady(p: Planner, requests: set<Request>, start: Time) {
    && (forall r | r in requests :: r.earliestStart == start && p.duration(r) >= 0)
    && (forall r, s | r in requests && Finish(p, r, s).Some? ::
          && s.time + p.duration(r) <= Finish(p, r, s).value.finish.time
          && start + p.duration(r) <= Finish(p, r, s).value.finish.time)
    && (forall s | p.charge(s).Some? :: s.time <= p.charge(s).value.finish.time)
  }

  /** No request is done sooner for going by the charger. */
  ghost predicate NoShortcut(p: Planner, requests: set<Request>) {
    forall r, s | r in requests && p.charge(s).Some? && Finish(p, r, s).Some?
                  && Finish(p, r, p.charge(s).value.finish).Some? ::
      Finish(p, r, s).value.finish.time <= Finish(p, r, p.charge(s).value.finish).value.finish.time
  }

  /** A search for one agent. */
  ghost predicate Solo(p: Planner, s0: State, root: Node, requests: set<Request>, start: Time) {
    && Root(p, [s0], root) && RequestsIn(root.unassigned, requests)
    && InvariantsFor(p, root.unassigned, root.invariants)
    && root.cost == p.cost(root.lists, root.unassigned, [])
    && Rates(p) && Steady(p, requests, start)
  }

  /** What is known of the unassigned tasks of a node when the agent ends its assignments in state `s`: the agent is
      their only candidate, and its entries are estimates from `s`, unless it has to be charged first. */
  ghost predicate Pends(p: Planner, requests: set<Request>, un: map<nat, Pending>, l: seq<Wrapped>, s0: State) {
    forall u | u in un ::
      && un[u].request in requests && un[u].candidates.Keys == {0}
      && UpToDate(p, un[u].request, s0, l, un[u].candidates[0])
  }

  /** The invariants of a node, as a queue of tasks. */
  ghost predicate Queued(p: Planner, un: map<nat, Pending>, inv: seq<Invariant>, start: Time) {
    && Sorted(inv) && InvariantsMatch(inv, un.Keys)
    && forall i | 0 <= i < |inv| ::
         && inv[i].start == Seconds(start)
         && inv[i].finish == Seconds(start) + Seconds(p.duration(un[inv[i].id].request))
  }

  lemma SoloNode(p: Planner, s0: State, root: Node, requests: set<Request>, start: Time, n: Node)
    requires Solo(p, s0, root, requests, start) && Reachable(p, root, n)
    ensures |n.lists| == 1 && Pends(p, requests, n.unassigned, n.lists[0], s0)
    ensures Queued(p, n.unassigned, n.invariants, start)
    ensures if n.lists[0] == [] then n == root else n.cost == p.cost(n.lists, n.unassigned, n.invariants)
  {
    hide Root, Reachable, Rates, Inv, InvariantsFor, InvariantsMatch, Pends, Queued, RequestsIn, Steady;
    ReachableInv(p, [s0], root, n);
    SoloPends(p, s0, root, requests, n);
    SoloRated(p, root, n);
    InvariantsConserved(p, [s0], root, n);
    SoloQueued(p, root, requests, start, n);
  }

  lemma SoloPends(p: Planner, s0: State, root: Node, requests: set<Request>, n: Node)
    requires Root(p, [s0], root) && RequestsIn(root.unassigned, requests)
    requires Reachable(p, root, n) && Inv(p, root, n)
    ensures |n.lists| == 1 && Pends(p, requests, n.unassigned, n.lists[0], s0)
  {
    hide Root, Reachable, UpToDate, Inv, Agents, Chain;
    InvParts(p, root, n, requests);
    OneList(p, s0, root, n);
    OnlyZero();
    forall u | u in n.unassigned
      ensures n.unassigned[u].candidates.Keys == {0}
      ensures UpToDate(p, n.unassigned[u].request, s0, n.lists[0], n.unassigned[u].candidates[0])
    {
      EntriesUpToDate(p, [s0], root, n, u, 0);
      assert [s0][0] == s0;
    }
  }

  lemma OnlyZero()
    ensures Agents(1) == {0}
  {
    assert Agents(0) == {};
  }

  lemma OneList(p: Planner, s0: State, root: Node, n: Node)
    requires Root(p, [s0], root) && Inv(p, root, n)
    ensures |n.lists| == 1
  {
    hide ListsOk, TasksAgree, InvariantsMatch;
  }

  lemma SoloRated(p: Planner, root: Node, n: Node)
    requires Inv(p, root, n) && |n.lists| == 1
    ensures if n.lists[0] == [] then n == root else n.cost == p.cost(n.lists, n.unassigned, n.invariants)
  {
    hide ListsOk, TasksAgree, Conserved, InvariantsOf;
  }

  lemma SoloQueued(p: Planner, root: Node, requests: set<Request>, start: Time, n: Node)
    requires Inv(p, root, n) && InvariantsFor(p, root.unassigned, root.invariants)
    requires RequestsIn(root.unassigned, requests) && Steady(p, requests, start)
    requires InvariantsMatch(n.invariants, n.unassigned.Keys)
    ensures Queued(p, n.unassigned, n.invariants, start)
  {
    hide ListsOk, EntryAgrees, InvariantsOf;
    SortedKept(root.invariants, n.unassigned.Keys);
    forall i | 0 <= i < |n.invariants|
      ensures n.invariants[i].start == Seconds(start)
      ensures n.invariants[i].finish
              == Seconds(start) + Seconds(p.duration(n.unassigned[n.invariants[i].id].request))
    {
      var id := n.invariants[i].id;
      assert TaskAgrees(p, root.unassigned[id], n.lists, n.unassigned[id]);
      assert n.invariants[i] in root.invariants;
      var k :| 0 <= k < |root.invariants| && root.invariants[k] == n.invariants[i];
    }
  }

  lemma {:induction false} SortedKept(s: seq<Invariant>, ids: set<nat>)
    requires Sorted(s)
    ensures Sorted(InvariantsOf(s, ids)) && forall v | v in InvariantsOf(s, ids) :: v in s
  {
    if s != [] {
      SortedKept(s[1..], ids);
      SortedFirst(s, InvariantsOf(s[1..], ids));
    }
  }

  lemma SortedFirst(s: seq<Invariant>, rest: seq<Invariant>)
    requires s != [] && Sorted(s) && Sorted(rest) && forall v | v in rest :: v in s[1..]
    ensures Sorted([s[0]] + rest) && forall v | v in [s[0]] + rest :: v in s
  {
    forall j | 0 <= j < |rest| ensures s[0].finish <= rest[j].finish {
      assert rest[j] in rest;
      var k :| 0 <= k < |s[1..]| && s[1..][k] == rest[j];
      assert s[k + 1] == rest[j];
    }
  }

  // ---- the cost of a node ----

  /** The agent could begin the invariant part of a task at `v`, and of none earlier; `v` does not matter if there is
      no task. */
  ghost predicate Deploys(p: Planner, un: map<nat, Pending>, v: real) {
    un != map[] ==> IsEarliestDeployment(p.duration, un, 0, v)
  }

  /** Every task ends after its booked start and its duration. */
  lemma EntryLasts(p: Planner, requests: set<Request>, start: Time, un: map<nat, Pending>, l: seq<Wrapped>, s0: State,
                   u: nat)
    requires Steady(p, requests, start) && Pends(p, requests, un, l, s0) && u in un
    ensures start + p.duration(un[u].request) <= un[u].candidates[0].state.time
    ensures l != [] ==>
              Last(l).assignment.finish.time + p.duration(un[u].request) <= un[u].candidates[0].state.time
  {
  }

  lemma SomeInvariant(inv: seq<Invariant>, ids: set<nat>)
    requires InvariantsMatch(inv, ids)
    ensures inv == [] <==> ids == {}
  {
    if inv != [] {
      assert inv[0].id in ids;
    }
  }

  lemma QueuedTasks(p: Planner, requests: set<Request>, start: Time, un: map<nat, Pending>, l: seq<Wrapped>, s0: State,
                    inv: seq<Invariant>, v: real)
    requires Steady(p, requests, start) && Pends(p, requests, un, l, s0) && Queued(p, un, inv, start)
    requires Deploys(p, un, v)
    ensures Queue.AscendingDurations(QueueTasks(inv)) && Queue.Booked([v], QueueTasks(inv))
  {
    hide IsBest, UpToDate, Finish;
    forall i | 0 <= i < |inv| ensures inv[i].start <= inv[i].finish {
      assert un[inv[i].id].request in requests;
    }
    if un != map[] {
      var u :| u in un && IsBest(un[u].candidates, 0) && DeploymentOf(p.duration, un[u], 0) == v;
      EntryLasts(p, requests, start, un, l, s0, u);
      assert Seconds(start) <= v;
      CommonStart(inv, Seconds(start), [v], [v]);
    } else {
      SomeInvariant(inv, un.Keys);
    }
  }

  /** A node costs what its assignments cost, and what its other tasks would cost one after the other from `v` on. */
  lemma SoloCost(p: Planner, s0: State, root: Node, requests: set<Request>, start: Time, n: Node) returns (v: real)
    requires Solo(p, s0, root, requests, start) && Reachable(p, root, n)
    ensures |n.lists| == 1 && Deploys(p, n.unassigned, v)
    ensures n.lists[0] != [] ==> n.cost == ListCost(n.lists[0]) + Queue.LineCost(v, QueueTasks(n.invariants))
  {
    SoloNode(p, s0, root, requests, start, n);
    hide Root, Reachable, Queue.LineCost, Queue.QueueCost, IsBest, Steady, Queued;
    assert OnlyAgent(n.unassigned) by { hide UpToDate; }
    var h;
    v, h := SoloEstimate(p, n.lists, n.unassigned, n.invariants);
    QueuedTasks(p, requests, start, n.unassigned, n.lists[0], s0, n.invariants, v);
    assert v in [v];
    Queue.OneAgent(v, QueueTasks(n.invariants));
  }

  ghost predicate OnlyAgent(un: map<nat, Pending>) {
    forall u | u in un :: un[u].candidates.Keys == {0}
  }

  lemma SoloEstimate(p: Planner, lists: Assigned, un: map<nat, Pending>, inv: seq<Invariant>) returns (v: real, h: real)
    requires Rates(p) && |lists| == 1 && OnlyAgent(un)
    ensures Deploys(p, un, v) && h == Queue.QueueCost([v], QueueTasks(inv))
    ensures p.cost(lists, un, inv) == ListCost(lists[0]) + h
  {
    hide Queue.QueueCost, QueueTasks, ListCost, Heuristic, IsBest;
    assert CostOf(p.duration, p.timeNow, false, 1.0, lists, un, inv, p.cost(lists, un, inv)) by { Candidate(un); }
    h :| Heuristic(p.duration, p.timeNow, lists, un, inv, h)
         && p.cost(lists, un, inv) == Penalized(false, 1.0, lists, AssignedCost(lists) + h);
    v := SoloHeuristic(p, lists, un, inv, h);
    assert AssignedCost(lists[1..]) == 0.0;
  }

  lemma Candidate(un: map<nat, Pending>)
    requires OnlyAgent(un)
    ensures forall u, a: nat | u in un && IsBest(un[u].candidates, a) :: a == 0
    ensures forall u | u in un :: IsBest(un[u].candidates, 0)
  {
  }

  lemma SoloHeuristic(p: Planner, lists: Assigned, un: map<nat, Pending>, inv: seq<Invariant>, h: real)
    returns (v: real)
    requires |lists| == 1 && OnlyAgent(un) && Heuristic(p.duration, p.timeNow, lists, un, inv, h)
    ensures Deploys(p, un, v) && h == Queue.QueueCost([v], QueueTasks(inv))
  {
    hide Queue.QueueCost, QueueTasks, IsBest, IsEarliestDeployment;
    var values, ends :| InitialValues(p.duration, p.timeNow, lists, un, values) && Queue.Ascending(ends)
                        && multiset(ends) == multiset(values) && ends != []
                        && h == Queue.QueueCost(ends, QueueTasks(inv));
    v := values[0];
    assert values == [v];
    Queue.SortedUnique(ends, [v]);
    Candidate(un);
  }

  // ---- agents that are best for nothing ----

  /** An agent that is a best candidate for no task enters the estimate when it is free, which is not after it could
      begin any task. */
  lemma FallbackIsFree(p: Planner, states: seq<State>, root: Node, requests: set<Request>, start: Time, n: Node,
                       a: nat, x: real)
    requires Root(p, states, root) && Reachable(p, root, n) && RequestsIn(root.unassigned, requests)
    requires Steady(p, requests, start) && a < |n.lists| == |states| && p.timeNow <= states[a].time
    requires InitialValue(p.duration, p.timeNow, n.lists, n.unassigned, a, x)
    requires forall u | u in n.unassigned :: !IsBest(n.unassigned[u].candidates, a)
    ensures x == Seconds(if n.lists[a] == [] then p.timeNow else Last(n.lists[a]).assignment.finish.time)
    ensures forall u | u in n.unassigned ::
              && a in n.unassigned[u].candidates
              && x <= Seconds(n.unassigned[u].candidates[a].state.time - p.duration(n.unassigned[u].request))
  {
    hide Root, Reachable, IsBest, UpToDate, Inv, Steady, Chain;
    ReachableInv(p, states, root, n);
    InvParts(p, root, n, requests);
    forall u | u in n.unassigned
      ensures a in n.unassigned[u].candidates
      ensures x <= Seconds(n.unassigned[u].candidates[a].state.time - p.duration(n.unassigned[u].request))
    {
      EntriesUpToDate(p, states, root, n, u, a);
      FreeBefore(p, requests, start, states[a], n.lists[a], n.unassigned[u].request, n.unassigned[u].candidates[a]);
    }
  }

  lemma FreeBefore(p: Planner, requests: set<Request>, start: Time, s0: State, l: seq<Wrapped>, r: Request, e: Entry)
    requires Steady(p, requests, start) && r in requests && UpToDate(p, r, s0, l, e)
    ensures LastState(l, s0).time + p.duration(r) <= e.state.time
  {
  }

  // ---- no expansion lowers the cost ----

  lemma {:induction false} ListCostConcat(x: seq<Wrapped>, y: seq<Wrapped>)
    ensures ListCost(x + y) == ListCost(x) + ListCost(y)
  {
    if x == [] {
      assert x + y == y;
    } else {
      assert (x + y)[1..] == x[1..] + y;
      ListCostConcat(x[1..], y);
    }
  }

  lemma OneCost(w: Wrapped)
    ensures ListCost([w]) == AssignmentCost(w.assignment)
  {
    assert [w][1..] == [];
  }

  lemma AppendedCost(p: Planner, l: seq<Wrapped>, u: nat, r: Request, e: Entry)
    requires !r.description.ChargeBattery?
    ensures var l' := Appended(p, l, u, r, e);
            && ListCost(l') == ListCost(l) + Seconds(e.state.time - r.earliestStart)
            && l' != [] && Last(l').assignment.finish == e.state
  {
    hide ListCost;
    var task := Wrapped(u, Assignment(r, e.state, e.waitUntil));
    OneCost(task);
    if Appended(p, l, u, r, e) == l + [task] {
      ListCostConcat(l, [task]);
    } else {
      var charge := ChargingTask(u, e.previous, p.charge(e.previous).value);
      OneCost(charge);
      ListCostConcat([charge], [task]);
      ListCostConcat(l, [charge] + [task]);
      assert [charge] + [task] == [charge, task];
    }
  }

  /** The assignments of the child to which assigning task `u` leads. */
  lemma AssignedChild(p: Planner, n: Node, u: nat)
    requires u in n.unassigned && 0 in n.unassigned[u].candidates && |n.lists| == 1
    requires AssignTask(p, n, u, 0).Some? && !n.unassigned[u].request.description.ChargeBattery?
    requires forall s | p.charge(s).Some? :: s.time <= p.charge(s).value.finish.time
    ensures var m, e := AssignTask(p, n, u, 0).value, n.unassigned[u].candidates[0];
            && |m.lists| == 1 && m.lists[0] != []
            && ListCost(m.lists[0]) == ListCost(n.lists[0])
                                       + Seconds(e.state.time - n.unassigned[u].request.earliestStart)
            && e.state.time <= Last(m.lists[0]).assignment.finish.time
            && m.unassigned.Keys == n.unassigned.Keys - {u}
            && m.invariants == WithoutInvariant(n.invariants, u)
  {
    hide ListCost, Appended, WithoutInvariant;
    var e := n.unassigned[u].candidates[0];
    var l := Appended(p, n.lists[0], u, n.unassigned[u].request, e);
    AppendedCost(p, n.lists[0], u, n.unassigned[u].request, e);
    if Reestimate(p, n.unassigned - {u}, 0, e.state, e.state).None? {
      var charge := ChargingTask(CHARGING_ID, e.state, p.charge(e.state).value);
      ListCostConcat(l, [charge]);
      OneCost(charge);
    }
  }

  /** Where the task of `u` is in the queue. */
  lemma QueueAt(p: Planner, un: map<nat, Pending>, inv: seq<Invariant>, start: Time, u: nat)
    returns (x: seq<Queue.Task>, y: seq<Queue.Task>)
    requires Queued(p, un, inv, start) && u in un
    ensures QueueTasks(inv) == x + ([Queue.Task(Seconds(start), Seconds(p.duration(un[u].request)))] + y)
    ensures QueueTasks(WithoutInvariant(inv, u)) == x + y
  {
    hide QueueTasks, WithoutInvariant, Sorted, InvariantsMatch;
    var i := FindInvariant(inv, un.Keys, u);
    WithoutAt(inv, u, i);
    var before, after := inv[..i], inv[i + 1..];
    x, y := QueueTasks(before), QueueTasks(after);
    QueueTasksConcat(before, after);
    QueueTasksAround(before, inv[i], after);
    assert inv == before + ([inv[i]] + after);
  }

  lemma QueueTasksAround(x: seq<Invariant>, v: Invariant, y: seq<Invariant>)
    ensures QueueTasks(x + ([v] + y))
            == QueueTasks(x) + ([Queue.Task(v.start, v.finish - v.start)] + QueueTasks(y))
  {
    var tasks := QueueTasks(x) + ([Queue.Task(v.start, v.finish - v.start)] + QueueTasks(y));
    forall i | 0 <= i < |tasks| ensures QueueTasks(x + ([v] + y))[i] == tasks[i] {
    }
  }

  lemma FindInvariant(inv: seq<Invariant>, ids: set<nat>, u: nat) returns (i: nat)
    requires InvariantsMatch(inv, ids) && u in ids
    ensures i < |inv| && inv[i].id == u && forall k | 0 <= k < i :: inv[k].id != u
  {
    i :| 0 <= i < |inv| && inv[i].id == u;
  }

  lemma QueueTasksConcat(x: seq<Invariant>, y: seq<Invariant>)
    ensures QueueTasks(x + y) == QueueTasks(x) + QueueTasks(y)
  {
  }

  /** The earliest deployment of a child is not before the end of the task that led to it. */
  lemma ChildDeploys(p: Planner, requests: set<Request>, start: Time, m: Node, s0: State, end: Time, v: real)
    requires Steady(p, requests, start) && |m.lists| == 1 && m.lists[0] != []
    requires Pends(p, requests, m.unassigned, m.lists[0], s0) && m.unassigned != map[]
    requires Deploys(p, m.unassigned, v) && end <= Last(m.lists[0]).assignment.finish.time
    ensures Seconds(end) <= v
  {
    hide IsBest;
    var u :| u in m.unassigned && IsBest(m.unassigned[u].candidates, 0)
             && DeploymentOf(p.duration, m.unassigned[u], 0) == v;
    EntryLasts(p, requests, start, m.unassigned, m.lists[0], s0, u);
  }

  lemma AssignRises(p: Planner, s0: State, root: Node, requests: set<Request>, start: Time, n: Node, u: nat)
    requires Solo(p, s0, root, requests, start) && Reachable(p, root, n) && Apply(p, n, Assign(u, 0)).Some?
    ensures n.cost <= Apply(p, n, Assign(u, 0)).value.cost
  {
    hide Root, Reachable, Rates, Queue.LineCost, ListCost, Queued, IsBest, AssignTask, UpToDate, InvariantsFor;
    var m := Apply(p, n, Assign(u, 0)).value;
    StepReachable(p, root, n, Assign(u, 0));
    SoloNode(p, s0, root, requests, start, n);
    SoloNode(p, s0, root, requests, start, m);
    var v := SoloCost(p, s0, root, requests, start, n);
    var v' := SoloCost(p, s0, root, requests, start, m);
    SoloNoCharge(p, s0, root, requests, start, n, u);
    AssignedChild(p, n, u);
    var r, end := n.unassigned[u].request, n.unassigned[u].candidates[0].state.time;
    assert r in requests;
    EntryLasts(p, requests, start, n.unassigned, n.lists[0], s0, u);
    QueuedTasks(p, requests, start, m.unassigned, m.lists[0], s0, m.invariants, v');
    assert v' in [v'];
    LineCostNonNegative(v', QueueTasks(m.invariants));
    if n.lists[0] == [] {
      RootCostsNothing(p, s0, root, requests, start);
    } else {
      var x, y := QueueAt(p, n.unassigned, n.invariants, start, u);
      QueuedTasks(p, requests, start, n.unassigned, n.lists[0], s0, n.invariants, v);
      assert v <= DeploymentOf(p.duration, n.unassigned[u], 0) by { BestOfOne(n.unassigned[u].candidates); }
      if x + y != [] {
        MoreTasks(p, m.unassigned, m.invariants, start, x + y);
        ChildDeploys(p, requests, start, m, s0, end, v');
      }
      NextTaskCosts(v, x, Queue.Task(Seconds(start), Seconds(p.duration(r))), y, Seconds(end), v');
    }
  }

  lemma BestOfOne(c: Candidates)
    requires c.Keys == {0}
    ensures IsBest(c, 0)
  {
  }

  lemma MoreTasks(p: Planner, un: map<nat, Pending>, inv: seq<Invariant>, start: Time, tasks: seq<Queue.Task>)
    requires Queued(p, un, inv, start) && QueueTasks(inv) == tasks && tasks != []
    ensures un != map[]
  {
    SomeInvariant(inv, un.Keys);
    assert inv != [];
  }

  lemma SoloNoCharge(p: Planner, s0: State, root: Node, requests: set<Request>, start: Time, n: Node, u: nat)
    requires Solo(p, s0, root, requests, start) && Reachable(p, root, n) && u in n.unassigned
    ensures !n.unassigned[u].request.description.ChargeBattery?
  {
    hide Reachable, Rates, Steady, InvariantsFor, EntryAgrees, ListsOk, InitialEntry;
    ReachableInv(p, [s0], root, n);
    assert TaskAgrees(p, root.unassigned[u], n.lists, n.unassigned[u]);
  }

  /** The fresh node is rated before its invariants are collected. */
  lemma RootCostsNothing(p: Planner, s0: State, root: Node, requests: set<Request>, start: Time)
    requires Solo(p, s0, root, requests, start)
    ensures root.cost == 0.0 && root.lists == [[]] && ListCost([]) == 0.0
  {
    hide Rates, Steady, InvariantsFor;
    ReachesItself(p, root);
    SoloNode(p, s0, root, requests, start, root);
    assert OnlyAgent(root.unassigned);
    var v, h := SoloEstimate(p, root.lists, root.unassigned, []);
    assert QueueTasks([]) == [] && ListCost([]) == 0.0;
  }

  /** The child to which sending the agent to its charger leads. */
  lemma RechargedChild(p: Planner, n: Node)
    requires |n.lists| == 1 && SendToCharger(p, n, 0).Some?
    ensures var m := SendToCharger(p, n, 0).value;
            && |m.lists| == 1 && n.lists[0] != [] && m.lists[0] != []
            && ListCost(m.lists[0]) == ListCost(n.lists[0])
            && p.charge(Last(n.lists[0]).assignment.finish).Some?
            && Last(m.lists[0]).assignment.finish == p.charge(Last(n.lists[0]).assignment.finish).value.finish
            && m.unassigned.Keys == n.unassigned.Keys && m.invariants == n.invariants
            && forall u | u in n.unassigned :: m.unassigned[u].request == n.unassigned[u].request
  {
    hide ListCost;
    var s := Last(n.lists[0]).assignment.finish;
    var charge := ChargingTask(CHARGING_ID, s, p.charge(s).value);
    ListCostConcat(n.lists[0], [charge]);
    OneCost(charge);
  }

  /** Sending the agent to its charger lowers the cost exactly if it could begin some task earlier then. */
  lemma RechargeRisesIff(p: Planner, s0: State, root: Node, requests: set<Request>, start: Time, n: Node)
    returns (v: real, v': real)
    requires Solo(p, s0, root, requests, start) && Reachable(p, root, n) && Apply(p, n, Recharge(0)).Some?
    ensures var m := Apply(p, n, Recharge(0)).value;
            && Deploys(p, n.unassigned, v) && Deploys(p, m.unassigned, v')
            && (n.cost <= m.cost <==> n.unassigned == map[] || v <= v')
  {
    hide Solo, Reachable, Queue.LineCost, ListCost, Queued, SendToCharger, Pends, Deploys, QueueTasks;
    var m := Apply(p, n, Recharge(0)).value;
    StepReachable(p, root, n, Recharge(0));
    SoloNode(p, s0, root, requests, start, n);
    SoloNode(p, s0, root, requests, start, m);
    v := SoloCost(p, s0, root, requests, start, n);
    v' := SoloCost(p, s0, root, requests, start, m);
    RechargedChild(p, n);
    SomeTasks(p, n.unassigned, n.invariants, start);
    var tasks := QueueTasks(n.invariants);
    if v <= v' {
      LaterCosts(v, v', tasks);
    } else if tasks != [] {
      LaterCostsMore(v', v, tasks);
    } else {
      NothingCosts(v);
      NothingCosts(v');
    }
  }

  lemma SomeTasks(p: Planner, un: map<nat, Pending>, inv: seq<Invariant>, start: Time)
    requires Queued(p, un, inv, start)
    ensures QueueTasks(inv) == [] <==> un == map[]
  {
    SomeInvariant(inv, un.Keys);
    assert |QueueTasks(inv)| == |inv|;
    assert un == map[] <==> un.Keys == {};
  }

  lemma RechargeRises(p: Planner, s0: State, root: Node, requests: set<Request>, start: Time, n: Node)
    requires Solo(p, s0, root, requests, start) && NoShortcut(p, requests)
    requires Reachable(p, root, n) && Apply(p, n, Recharge(0)).Some?
    ensures n.cost <= Apply(p, n, Recharge(0)).value.cost
  {
    hide Solo, Reachable, SendToCharger, NoShortcut, IsBest, Queued;
    var m := Apply(p, n, Recharge(0)).value;
    var v, v' := RechargeRisesIff(p, s0, root, requests, start, n);
    StepReachable(p, root, n, Recharge(0));
    SoloNode(p, s0, root, requests, start, n);
    SoloNode(p, s0, root, requests, start, m);
    RechargedChild(p, n);
    if n.unassigned != map[] {
      var u :| u in m.unassigned && IsBest(m.unassigned[u].candidates, 0)
               && DeploymentOf(p.duration, m.unassigned[u], 0) == v';
      LaterAfterCharge(p, requests, s0, n, m, u);
      BestOfOne(n.unassigned[u].candidates);
      assert v <= DeploymentOf(p.duration, n.unassigned[u], 0);
    }
  }

  lemma LaterAfterCharge(p: Planner, requests: set<Request>, s0: State, n: Node, m: Node, u: nat)
    requires NoShortcut(p, requests) && |n.lists| == |m.lists| == 1 && n.lists[0] != [] && m.lists[0] != []
    requires u in n.unassigned && u in m.unassigned && m.unassigned[u].request == n.unassigned[u].request
    requires Pends(p, requests, n.unassigned, n.lists[0], s0) && Pends(p, requests, m.unassigned, m.lists[0], s0)
    requires p.charge(Last(n.lists[0]).assignment.finish).Some?
    requires Last(m.lists[0]).assignment.finish == p.charge(Last(n.lists[0]).assignment.finish).value.finish
    ensures n.unassigned[u].candidates[0].state.time <= m.unassigned[u].candidates[0].state.time
  {
  }

  /** For one agent, requests that are booked for the same time, and no shortcut by the charger: no expansion lowers the
      cost. So the search returns a cheapest finished node. */
  lemma OneAgentRises(p: Planner, s0: State, root: Node, requests: set<Request>, start: Time)
    requires Solo(p, s0, root, requests, start) && NoShortcut(p, requests)
    ensures CostsRise(p, root) && Admissible(p, root)
  {
    hide Solo, NoShortcut, Reachable, AssignTask, SendToCharger, Admissible, IsBest, Pends, Queued;
    forall n, act | Reachable(p, root, n) && Apply(p, n, act).Some?
      ensures n.cost <= Apply(p, n, act).value.cost
    {
      SoloNode(p, s0, root, requests, start, n);
      match act
      case Assign(u, a) =>
        assert a == 0;
        AssignRises(p, s0, root, requests, start, n, u);
      case Recharge(a) =>
        assert a == 0;
        RechargeRises(p, s0, root, requests, start, n);
    }
    RisingIsAdmissible(p, root);
  }

  /** In terms of the fresh node of a segment. */
  lemma OneAgentOptimal(p: Planner, s0: State, requests: seq<Request>, root: Node, start: Time)
    requires Fresh(p, [s0], requests, root) && AllCapable(p, [s0], requests) && NoCharging(requests)
    requires Rates(p) && Steady(p, RequestSet(requests), start) && NoShortcut(p, RequestSet(requests))
    ensures CostsRise(p, root) && Admissible(p, root)
  {
    hide Rates, Steady, NoShortcut, Root, CostsRise, Admissible, AllCapable, InvariantsFor, IsLatestStart;
    FreshIsRoot(p, [s0], requests, root);
    OneAgentRises(p, s0, root, RequestSet(requests), start);
  }

  // ---- the built-in models ----

  /** The way over a third place is not shorter. */
  ghost predicate Triangle(env: Environment) {
    forall x, y, z | Way(env, x, y).Some? && Way(env, x, z).Some? && Way(env, z, y).Some? ::
      Way(env, x, y).value.duration <= Way(env, x, z).value.duration + Way(env, z, y).value.duration
  }

  /** The requests are trips, booked for the same time, and the planner knows how long they take. */
  ghost predicate Trips(p: Planner, env: Environment, requests: set<Request>, start: Time) {
    forall r | r in requests ::
      && IsTrip(r.description) && r.earliestStart == start
      && p.duration(r) == EffortOf(env, r.description, Max(p.timeNow, start)).duration
  }

  lemma TripsAreSteady(p: Planner, env: Environment, composed: (nat, Time, State) -> Option<Estimate>,
                       requests: set<Request>, start: Time)
    requires Uses(p, env, composed) && Trips(p, env, requests, start)
    ensures Steady(p, requests, start)
  {
    hide Uses, Finish, EffortOf, TaskEstimate, ChargeEstimate, Physical;
    var t := Max(p.timeNow, start);
    forall r | r in requests ensures p.duration(r) >= 0 {
      ChargeIs(p, env, composed, State(0, 0.0, 0, 0, 0.0));
      EffortNonNegative(env, r.description, t);
    }
    forall r, s | r in requests && Finish(p, r, s).Some?
      ensures s.time + p.duration(r) <= Finish(p, r, s).value.finish.time
      ensures start + p.duration(r) <= Finish(p, r, s).value.finish.time
    {
      ChargeIs(p, env, composed, s);
      TripEstimate(p, env, composed, r, s);
      TaskForward(env, s, r.description, t);
      TripLasts(env, s, r.description, t);
    }
    forall s | p.charge(s).Some? ensures s.time <= p.charge(s).value.finish.time {
      ChargeIs(p, env, composed, s);
      ChargeForward(env, s);
    }
  }

  lemma TripLasts(env: Environment, s: State, d: Description, t: Time)
    requires Physical(env) && IsTrip(d)
    requires TaskEstimate(env, s, StartOf(d), EndOf(d), t, EffortOf(env, d, t)).Some?
    ensures var e := TaskEstimate(env, s, StartOf(d), EndOf(d), t, EffortOf(env, d, t)).value;
            && s.time + EffortOf(env, d, t).duration <= e.finish.time
            && e.finish.time == Max(s.time + Way(env, s.waypoint, StartOf(d)).value.duration, t)
                                + EffortOf(env, d, t).duration
  {
    hide Physical, EffortOf;
    WayNonNegative(env, s.waypoint, StartOf(d));
  }

  lemma ChargeTakesWay(env: Environment, s: State)
    requires Physical(env) && ChargeEstimate(env, s).Some?
    ensures var e := ChargeEstimate(env, s).value;
            && Way(env, s.waypoint, s.charger).Some? && e.finish.waypoint == s.charger
            && s.time + Way(env, s.waypoint, s.charger).value.duration <= e.finish.time
  {
  }

  lemma TriangleNoShortcut(p: Planner, env: Environment, composed: (nat, Time, State) -> Option<Estimate>,
                           requests: set<Request>, start: Time)
    requires Uses(p, env, composed) && Trips(p, env, requests, start) && Triangle(env)
    ensures NoShortcut(p, requests)
  {
    hide Uses, Finish, EffortOf, ChargeEstimate, Physical, Way;
    var t := Max(p.timeNow, start);
    forall r, s | r in requests && p.charge(s).Some? && Finish(p, r, s).Some?
                  && Finish(p, r, p.charge(s).value.finish).Some?
      ensures Finish(p, r, s).value.finish.time <= Finish(p, r, p.charge(s).value.finish).value.finish.time
    {
      var full := p.charge(s).value.finish;
      ChargeIs(p, env, composed, s);
      ChargeTakesWay(env, s);
      TripEstimate(p, env, composed, r, s);
      TripEstimate(p, env, composed, r, full);
      TripLasts(env, s, r.description, t);
      TripLasts(env, full, r.description, t);
      assert Way(env, s.waypoint, StartOf(r.description)).value.duration
             <= Way(env, s.waypoint, s.charger).value.duration
                + Way(env, s.charger, StartOf(r.description)).value.duration;
    }
  }

  /** With the built-in models and calculator, the plan of one agent for trips that are booked for the same time is
      optimal in every segment, if the way over the charger is not shorter. */
  lemma OneAgentTripsOptimal(p: Planner, env: Environment, composed: (nat, Time, State) -> Option<Estimate>,
                             s0: State, requests: seq<Request>, root: Node, start: Time)
    requires Uses(p, env, composed) && Triangle(env) && Trips(p, env, RequestSet(requests), start) && Rates(p)
    requires Fresh(p, [s0], requests, root) && AllCapable(p, [s0], requests)
    ensures CostsRise(p, root) && Admissible(p, root)
  {
    hide Uses, Rates, CostsRise, Admissible, AllCapable, Fresh, Triangle, Steady, NoShortcut, EffortOf;
    TripsAreSteady(p, env, composed, RequestSet(requests), start);
    TriangleNoShortcut(p, env, composed, RequestSet(requests), start);
    forall i | 0 <= i < |requests| ensures !requests[i].description.ChargeBattery? {
      assert requests[i] in RequestSet(requests);
    }
    OneAgentOptimal(p, s0, requests, root, start);
  }
}
