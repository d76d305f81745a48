/** `complete_solve`: segments until every request is assigned, then a finishing request for
    every agent that has something to do. */
module PlannerComplete {
  import opened Domain
  import opened PlannerNode
  import opened PlannerInvariant
  import opened PlannerTheorems
  import opened PlannerProgress
  import opened PlannerFresh
  import opened PlannerSegments
  import opened PlannerSearch
  import Bags

  datatype PlanResult = Plan(assignments: seq<seq<Assignment>>) | Failed(error: PlannerError)

  // ---- what a plan must be ----

  /** A plan for the agents in `states`: every request is assigned exactly once, and every
      assignment is what its model predicts when the agent comes from its previous one. */
  ghost predicate GoodPlan(p: Planner, states: seq<State>, requests: seq<Request>, plan: seq<seq<Assignment>>) {
    PlanSoFar(p, states, plan) && PlanBag(plan) == multiset(requests)
  }

  ghost predicate PlanSoFar(p: Planner, states: seq<State>, plan: seq<seq<Assignment>>) {
    && |plan| == |states|
    && forall a | 0 <= a < |plan| :: Consistent(p, states[a], plan[a]) && Settled(plan[a])
  }

  // ---- one segment ----

  function PrunedLists(lists: Assigned): (r: Assigned)
    ensures |r| == |lists|
    ensures forall a | 0 <= a < |lists| :: r[a] == Pruned(lists[a])
  {
    seq(|lists|, a requires 0 <= a < |lists| => Pruned(lists[a]))
  }

  /** `prune_assignments` on a node */
  method PruneNode(lists: Assigned) returns (pruned: Assigned)
    ensures pruned == PrunedLists(lists)
  {
    pruned := lists;
    for a := 0 to |lists|
      invariant |pruned| == |lists|
      invariant forall b | 0 <= b < |lists| :: pruned[b] == if b < a then Pruned(lists[b]) else lists[b]
    {
      if pruned[a] != [] {
        if IsChargeTask(Last(pruned[a])) {
          pruned := pruned[a := pruned[a][..|pruned[a]| - 1]];
        }
      }
    }
  }

  /** `prune_assignments` on a plan */
  method PrunePlan(plan: seq<seq<Assignment>>) returns (pruned: seq<seq<Assignment>>)
    ensures |pruned| == |plan|
    ensures forall a | 0 <= a < |plan| ::
              pruned[a] == if plan[a] != [] && IsCharge(Last(plan[a])) then plan[a][..|plan[a]| - 1] else plan[a]
  {
    pruned := plan;
    for a := 0 to |plan|
      invariant |pruned| == |plan|
      invariant forall b | 0 <= b < |plan| ::
                  pruned[b] == if b < a && plan[b] != [] && IsCharge(Last(plan[b]))
                               then plan[b][..|plan[b]| - 1] else plan[b]
    {
      if pruned[a] != [] {
        if IsCharge(Last(pruned[a])) {
          pruned := pruned[a := pruned[a][..|pruned[a]| - 1]];
        }
      }
    }
  }

  /** Appends the assignments of a segment to the plan. */
  method Collect(plan: seq<seq<Assignment>>, lists: Assigned) returns (plan': seq<seq<Assignment>>)
    requires |plan| == |lists|
    ensures |plan'| == |plan|
    ensures forall a | 0 <= a < |plan| :: plan'[a] == plan[a] + Plain(lists[a])
  {
    plan' := plan;
    for a := 0 to |plan|
      invariant |plan'| == |plan|
      invariant forall b | 0 <= b < |plan| :: plan'[b] == if b < a then plan[b] + Plain(lists[b]) else plan[b]
    {
      var l := plan[a];
      for k := 0 to |lists[a]|
        invariant l == plan[a] + Plain(lists[a])[..k]
      {
        l := l + [lists[a][k].assignment];
        assert Plain(lists[a])[..k + 1] == Plain(lists[a])[..k] + [lists[a][k].assignment];
      }
      assert Plain(lists[a])[..|lists[a]|] == Plain(lists[a]);
      plan' := plan'[a := l];
    }
  }

  ghost predicate IsPending(un: map<nat, Pending>, r: Request) {
    exists u :: u in un && un[u].request == r
  }

  /** The requests of the tasks that are left. */
  method RemainingRequests(un: map<nat, Pending>) returns (requests: seq<Request>)
    ensures multiset(requests) == PendingBag(un)
    ensures |requests| == |un|
    ensures forall r | r in requests :: IsPending(un, r)
  {
    hide PendingBag;
    requests := [];
    var todo := un;
    while todo != map[]
      invariant todo.Keys <= un.Keys && forall u | u in todo :: todo[u] == un[u]
      invariant multiset(requests) + PendingBag(todo) == PendingBag(un)
      invariant |requests| + |todo| == |un|
      invariant forall r | r in requests :: IsPending(un, r)
      decreases |todo|
    {
      var u :| u in todo;
      PendingBagAt(todo, u);
      FewerPending(todo, u);
      assert multiset(requests + [todo[u].request]) == multiset(requests) + multiset{todo[u].request};
      requests := requests + [todo[u].request];
      todo := todo - {u};
    }
    assert PendingBag(map[]) == multiset{} by { NothingPending(); }
  }

  lemma NothingPending()
    ensures PendingBag(map[]) == multiset{}
  {
  }

  /** The state of every agent at the end of a segment. */
  method NextStates(states: seq<State>, lists: Assigned) returns (next: seq<State>)
    requires |states| == |lists|
    ensures |next| == |states|
    ensures forall a | 0 <= a < |states| :: next[a] == EndState(Plain(lists[a]), states[a])
  {
    next := states;
    for a := 0 to |lists|
      invariant |next| == |states|
      invariant forall b | 0 <= b < |states| ::
                  next[b] == if b < a then EndState(Plain(lists[b]), states[b]) else states[b]
    {
      if lists[a] != [] {
        next := next[a := Last(lists[a]).assignment.finish];
      }
    }
  }

  /** The plan so far, and the segment that is searched next. */
  ghost predicate SegmentOk(p: Planner, states0: seq<State>, requests0: seq<Request>, plan: seq<seq<Assignment>>,
                            states: seq<State>, requests: seq<Request>) {
    && |states| == |states0| > 0
    && PlanSoFar(p, states0, plan)
    && (forall a | 0 <= a < |states| :: states[a] == EndState(plan[a], states0[a]))
    && PlanBag(plan) + multiset(requests) == multiset(requests0)
    && AllCapable(p, states, requests) && NoCharging(requests)
  }

  // ---- from one segment to the next ----

  lemma {:induction false} PlanBagSum(x: seq<seq<Assignment>>, y: seq<seq<Assignment>>, z: seq<seq<Assignment>>)
    requires |x| == |y| == |z| && forall a | 0 <= a < |x| :: z[a] == x[a] + y[a]
    ensures PlanBag(z) == PlanBag(x) + PlanBag(y)
  {
    if x != [] {
      hide RequestBag;
      RequestBagConcat(x[0], y[0]);
      PlanBagSum(x[1..], y[1..], z[1..]);
      Bags.Interchange(RequestBag(x[0]), RequestBag(y[0]), PlanBag(x[1..]), PlanBag(y[1..]));
    }
  }

  lemma PrunedBag(l: seq<Wrapped>)
    ensures RequestBag(Plain(Pruned(l))) == RequestBag(Plain(l))
  {
    if l != [] && IsChargeTask(Last(l)) {
      PlainSnoc(l[..|l| - 1], Last(l));
      assert l[..|l| - 1] + [Last(l)] == l;
    }
  }

  lemma {:induction false} PrunedListsBag(lists: Assigned)
    ensures PlanBag(PlainLists(PrunedLists(lists))) == PlanBag(PlainLists(lists))
  {
    if lists != [] {
      PrunedBag(lists[0]);
      PrunedListsBag(lists[1..]);
      assert PlainLists(lists)[1..] == PlainLists(lists[1..]);
      assert PlainLists(PrunedLists(lists))[1..] == PlainLists(PrunedLists(lists[1..]));
    }
  }

  lemma FirstTasks(p: Planner, states: seq<State>, requests: seq<Request>, un: map<nat, Pending>)
    requires TasksOf(p, states, requests, un) && requests != []
    ensures var k := |requests|;
            && k in un && un[k].request == requests[k - 1]
            && TasksOf(p, states, requests[..k - 1], un - {k})
  {
  }

  lemma MultisetSnoc(requests: seq<Request>)
    requires requests != []
    ensures multiset(requests) == multiset{Last(requests)} + multiset(requests[..|requests| - 1])
  {
    assert requests == requests[..|requests| - 1] + [Last(requests)];
  }

  lemma {:induction false} TasksBag(p: Planner, states: seq<State>, requests: seq<Request>, un: map<nat, Pending>)
    requires TasksOf(p, states, requests, un)
    ensures PendingBag(un) == multiset(requests)
    decreases |requests|
  {
    if requests == [] {
      assert un == map[];
    } else {
      hide PendingBag, TasksOf;
      var k := |requests|;
      FirstTasks(p, states, requests, un);
      PendingBagAt(un, k);
      TasksBag(p, states, requests[..k - 1], un - {k});
      MultisetSnoc(requests);
    }
  }

  /** The plan of one agent after a segment. */
  lemma AgentAdvances(p: Planner, states: seq<State>, root: Node, n: Node, a: nat, s0: State, l: seq<Assignment>)
    requires Root(p, states, root) && Reachable(p, root, n) && a < |states|
    requires Consistent(p, s0, l) && Settled(l) && states[a] == EndState(l, s0)
    ensures |n.lists| == |states|
    ensures var l' := l + Plain(Pruned(n.lists[a]));
            && Consistent(p, s0, l') && Settled(l')
            && EndState(l', s0) == EndState(Plain(Pruned(n.lists[a])), states[a])
  {
    hide Root, Reachable, Consistent, Settled, NoChargeTwice, Inv;
    ReachableInv(p, states, root, n);
    NodeConsistent(p, states, root, n, a);
    ChargesSeparated(p, states, root, n, a);
    var w := n.lists[a];
    PrunedSettled(w);
    SettledConcat(l, Plain(Pruned(w)));
    var k := |Pruned(w)|;
    ConsistentPrefix(p, states[a], Plain(w), k);
    assert Plain(w)[..k] == Plain(Pruned(w));
    ConsistentConcat(p, s0, l, Plain(Pruned(w)));
  }

  lemma AgentCapable(p: Planner, states: seq<State>, root: Node, n: Node, u: nat, a: nat)
    requires Root(p, states, root) && Reachable(p, root, n)
    requires u in n.unassigned && a < |states|
    ensures |n.lists| == |states|
    ensures InitialEntry(p, n.unassigned[u].request, EndState(Plain(Pruned(n.lists[a])), states[a])).Some?
    ensures !n.unassigned[u].request.description.ChargeBattery?
  {
    hide Reachable, UpToDate, InitialEntry, Pruned, Root, Inv;
    ReachableInv(p, states, root, n);
    EntriesUpToDate(p, states, root, n, u, a);
    CapableParts(p, states, root, n, u, a);
    NextCapable(p, root, a, states[a], n.lists[a], n.unassigned[u].request, n.unassigned[u].candidates[a]);
  }

  lemma CapableParts(p: Planner, states: seq<State>, root: Node, n: Node, u: nat, a: nat)
    requires Root(p, states, root) && Inv(p, root, n)
    requires u in n.unassigned && a < |states|
    ensures |n.lists| == |states|
    ensures Chain(p, root, a, n.lists[a]) && Proper(n.lists[a])
    ensures forall v | v in root.unassigned :: !root.unassigned[v].request.description.ChargeBattery?
    ensures !n.unassigned[u].request.description.ChargeBattery?
  {
    hide InitialEntry, EntryAgrees, Chain, Rated, IsLatestTime, IsEarliestWait, InvariantsMatch;
    assert TaskAgrees(p, root.unassigned[u], n.lists, n.unassigned[u]);
  }

  /** What a finished segment hands over to the next one. */
  lemma SegmentAdvances(p: Planner, states0: seq<State>, requests0: seq<Request>, plan: seq<seq<Assignment>>,
                        states: seq<State>, requests: seq<Request>, root: Node, n: Node,
                        plan': seq<seq<Assignment>>, states': seq<State>, requests': seq<Request>)
    requires SegmentOk(p, states0, requests0, plan, states, requests)
    requires Root(p, states, root) && TasksOf(p, states, requests, root.unassigned) && Reachable(p, root, n)
    requires |plan'| == |plan| == |n.lists|
    requires forall a | 0 <= a < |plan| :: plan'[a] == plan[a] + Plain(Pruned(n.lists[a]))
    requires |states'| == |states|
    requires forall a | 0 <= a < |states| :: states'[a] == EndState(Plain(Pruned(n.lists[a])), states[a])
    requires multiset(requests') == PendingBag(n.unassigned)
    requires forall r | r in requests' :: IsPending(n.unassigned, r)
    ensures SegmentOk(p, states0, requests0, plan', states', requests')
  {
    hide Root, Reachable, Consistent, Settled, TasksOf, PendingBag, PlanBag, InitialEntry, EndState, Pruned;
    forall a | 0 <= a < |states|
      ensures Consistent(p, states0[a], plan'[a]) && Settled(plan'[a]) && states'[a] == EndState(plan'[a], states0[a])
    {
      AgentAdvances(p, states, root, n, a, states0[a], plan[a]);
    }
    forall i, a | 0 <= i < |requests'| && 0 <= a < |states'|
      ensures InitialEntry(p, requests'[i], states'[a]).Some? && !requests'[i].description.ChargeBattery?
    {
      assert IsPending(n.unassigned, requests'[i]);
      var u :| u in n.unassigned && n.unassigned[u].request == requests'[i];
      AgentCapable(p, states, root, n, u, a);
    }
    assert NoCharging(requests') by {
      forall i | 0 <= i < |requests'| ensures !requests'[i].description.ChargeBattery? {
        assert IsPending(n.unassigned, requests'[i]);
        var u :| u in n.unassigned && n.unassigned[u].request == requests'[i];
        AgentCapable(p, states, root, n, u, 0);
      }
    }
    BagAdvances(p, states, requests, plan, root, n, plan');
    assert PlanBag(plan') + multiset(requests') == multiset(requests0);
  }

  lemma BagAdvances(p: Planner, states: seq<State>, requests: seq<Request>, plan: seq<seq<Assignment>>,
                    root: Node, n: Node, plan': seq<seq<Assignment>>)
    requires Root(p, states, root) && TasksOf(p, states, requests, root.unassigned) && Reachable(p, root, n)
    requires |plan'| == |plan| == |n.lists|
    requires forall a | 0 <= a < |plan| :: plan'[a] == plan[a] + Plain(Pruned(n.lists[a]))
    ensures PlanBag(plan') + PendingBag(n.unassigned) == PlanBag(plan) + multiset(requests)
  {
    hide Root, Reachable, TasksOf, PendingBag, PlanBag;
    RequestsConserved(p, states, root, n);
    TasksBag(p, states, requests, root.unassigned);
    PrunedListsBag(n.lists);
    PlanBagSum(plan, PlainLists(PrunedLists(n.lists)), plan');
    Bags.Associate(PlanBag(plan), PlanBag(PlainLists(n.lists)), PendingBag(n.unassigned));
  }

  // ---- finishing requests ----

  /** What `append_finishing_request` adds for an agent that ends in state `s`: the finishing
      request, if need be after a charge, or nothing if it cannot be performed. */
  function FinishingTail(p: Planner, factory: State -> Request, s: State): seq<Assignment> {
    var r := factory(s);
    match p.estimate(r, s.time, s)
    case Some(e) => [Assignment(r, e.finish, e.waitUntil)]
    case None =>
      match p.charge(s)
      case None => []
      case Some(b) =>
        match p.estimate(r, b.finish.time, b.finish)
        case None => []
        case Some(e) =>
          [Assignment(ChargingRequest(s.time), b.finish, b.waitUntil), Assignment(r, e.finish, e.waitUntil)]
  }

  function Completed(p: Planner, finishing: Option<State -> Request>, l: seq<Assignment>): seq<Assignment> {
    if finishing.None? || l == [] then l else l + FinishingTail(p, finishing.value, Last(l).finish)
  }

  /** A finishing request `q` for an agent in state `s`, as assignment `x`. */
  ghost predicate Finishes(p: Planner, q: Request, s: State, x: Assignment) {
    p.estimate(q, s.time, s) == Some(Estimate(x.finish, x.deployment)) && x.request == q
  }

  /** `r` is what an agent with assignments `l` ends up with: an agent without any stays idle; the finishing request is
      added if it is predicted from the end of its assignments, or with a charge before it if it is predicted only after
      that; and if it is not, nothing is. */
  ghost predicate WithFinishing(p: Planner, finishing: Option<State -> Request>, l: seq<Assignment>,
                                r: seq<Assignment>) {
    && |l| <= |r| <= |l| + 2 && r[..|l|] == l
    && if finishing.None? || l == [] then r == l
       else
         var s := Last(l).finish;
         var q := finishing.value(s);
         if p.estimate(q, s.time, s).Some? then |r| == |l| + 1 && Finishes(p, q, s, Last(r))
         else if p.charge(s).Some?
                 && p.estimate(q, p.charge(s).value.finish.time, p.charge(s).value.finish).Some? then
           && |r| == |l| + 2 && r[|l|].request == Request(0, s.time, false, ChargeBattery)
           && p.charge(s) == Some(Estimate(r[|l|].finish, r[|l|].deployment))
           && Finishes(p, q, r[|l|].finish, Last(r))
         else r == l
  }

  lemma CompletedMeaning(p: Planner, finishing: Option<State -> Request>, l: seq<Assignment>)
    ensures WithFinishing(p, finishing, l, Completed(p, finishing, l))
  {
    var r := Completed(p, finishing, l);
    assert r[..|l|] == l;
  }

  /** Nothing else meets this. */
  lemma CompletedUnique(p: Planner, finishing: Option<State -> Request>, l: seq<Assignment>, r: seq<Assignment>)
    requires WithFinishing(p, finishing, l, r)
    ensures r == Completed(p, finishing, l)
  {
    assert r == r[..|l|] + r[|l|..];
  }

  /** `append_finishing_request` */
  method AppendFinishing(p: Planner, factory: State -> Request, plan: seq<seq<Assignment>>)
    returns (plan': seq<seq<Assignment>>)
    ensures |plan'| == |plan|
    ensures forall a | 0 <= a < |plan| :: WithFinishing(p, Some(factory), plan[a], plan'[a])
  {
    plan' := plan;
    for i := 0 to |plan|
      invariant |plan'| == |plan|
      invariant forall a | 0 <= a < i :: WithFinishing(p, Some(factory), plan[a], plan'[a])
      invariant forall a | i <= a < |plan| :: plan'[a] == plan[a]
    {
      var l := plan'[i];
      if l != [] {
        var s := Last(l).finish;
        var r := factory(s);
        var estimate := p.estimate(r, s.time, s);
        if estimate.Some? {
          l := l + [Assignment(r, estimate.value.finish, estimate.value.waitUntil)];
        } else {
          var battery := p.charge(s);
          if battery.Some? {
            estimate := p.estimate(r, battery.value.finish.time, battery.value.finish);
            if estimate.Some? {
              l := l + [Assignment(ChargingRequest(s.time), battery.value.finish, battery.value.waitUntil)]
                     + [Assignment(r, estimate.value.finish, estimate.value.waitUntil)];
            }
          }
        }
      }
      assert WithFinishing(p, Some(factory), plan[i], l) by {
        assert l == Completed(p, Some(factory), plan[i]);
        CompletedMeaning(p, Some(factory), plan[i]);
      }
      plan' := plan'[i := l];
    }
  }

  // ---- the planner ----

  /** A segment: the plan before it, the states and requests with which it starts, its fresh node and the node in which
      its search ended. */
  datatype Segment = Segment(plan: seq<seq<Assignment>>, states: seq<State>, requests: seq<Request>,
                             root: Node, solution: Node)

  /** The search ended in a finished node, which is a cheapest one if no estimate is too high. */
  ghost predicate IsSolved(p: Planner, s: Segment) {
    && Fresh(p, s.states, s.requests, s.root)
    && Reachable(p, s.root, s.solution) && Finished(s.solution)
    && (Admissible(p, s.root) ==> Cheapest(p, s.root, s.solution))
  }

  /** What segment `s` adds to the plan, and what it leaves to do and where. */
  ghost predicate Hands(s: Segment, plan: seq<seq<Assignment>>, states: seq<State>, requests: seq<Request>) {
    && |plan| == |s.plan| == |s.solution.lists| == |states| == |s.states|
    && (forall a | 0 <= a < |plan| ::
          && plan[a] == s.plan[a] + Plain(Pruned(s.solution.lists[a]))
          && states[a] == EndState(Plain(Pruned(s.solution.lists[a])), s.states[a]))
    && multiset(requests) == PendingBag(s.solution.unassigned)
  }

  /** The segments, one after the other, lead from nothing to `plan`, with the agents in `states` and `requests`
      still to do. */
  ghost predicate Leads(p: Planner, states0: seq<State>, requests0: seq<Request>, segments: seq<Segment>,
                        plan: seq<seq<Assignment>>, states: seq<State>, requests: seq<Request>) {
    if segments == [] then
      plan == seq(|states0|, i => []) && states == states0 && requests == requests0
    else
      var s := Last(segments);
      && Leads(p, states0, requests0, segments[..|segments| - 1], s.plan, s.states, s.requests)
      && IsSolved(p, s) && Hands(s, plan, states, requests)
  }

  /** The search for the segment after `segments` found no finished node, because there is none. */
  ghost predicate DeadEnd(p: Planner, states0: seq<State>, requests0: seq<Request>, segments: seq<Segment>,
                          s: Segment) {
    && Leads(p, states0, requests0, segments, s.plan, s.states, s.requests)
    && SegmentOk(p, states0, requests0, s.plan, s.states, s.requests)
    && Fresh(p, s.states, s.requests, s.root) && NoneFinished(p, s.root)
  }

  /** `r` is the plan to which the segments lead, with the finishing requests. */
  ghost predicate IsResult(p: Planner, states0: seq<State>, requests0: seq<Request>, segments: seq<Segment>,
                           finishing: Option<State -> Request>, plan: seq<seq<Assignment>>,
                           r: seq<seq<Assignment>>) {
    && GoodPlan(p, states0, requests0, plan)
    && (exists states :: Leads(p, states0, requests0, segments, plan, states, []))
    && |r| == |plan| && forall a | 0 <= a < |plan| :: WithFinishing(p, finishing, plan[a], r[a])
  }

  /** The interrupter was asked in the first `n` segments and did not interrupt them at once. */
  ghost predicate Uninterrupted(interrupter: (nat, nat) -> bool, n: nat) {
    forall i: nat | i < n :: !interrupter(i, 0)
  }

  lemma NotStarted(interrupter: (nat, nat) -> bool)
    ensures Uninterrupted(interrupter, 0)
  {
  }

  lemma UninterruptedMore(interrupter: (nat, nat) -> bool, n: nat)
    requires Uninterrupted(interrupter, n) && !interrupter(n, 0)
    ensures Uninterrupted(interrupter, n + 1)
  {
  }

  /** The search of segment `segment`. */
  method SolveSegment(p: Planner, ghost states: seq<State>, root: Node, interrupter: (nat, nat) -> bool, segment: nat)
    returns (r: Option<Node>, interrupted: bool)
    requires Root(p, states, root)
    ensures r.Some? ==> Reachable(p, root, r.value) && Finished(r.value) && !interrupter(segment, 0)
    ensures r.Some? && Admissible(p, root) ==> Cheapest(p, root, r.value)
    ensures r.None? && !interrupted ==> NoneFinished(p, root)
    ensures interrupted ==> exists k :: interrupter(segment, k)
  {
    hide *;
    var ask := (k: nat) => interrupter(segment, k);
    ghost var turns;
    r, interrupted, turns := Solve(p, states, root, ask);
    assert interrupted ==> ask(turns);
    assert !interrupted ==> !ask(0);
  }

  /** `complete_solve` with the A* solver. `interrupter(i, k)` is what the interrupter answers in
      segment `i` when asked for the `k`-th time. An empty plan means that the search was
      interrupted or that it found no solution. `segments` are those that were solved, and `last` is
      the one in which the search stopped, if it did. */
  method CompleteSolve(p: Planner, states0: seq<State>, requests0: seq<Request>,
                       interrupter: (nat, nat) -> bool, finishing: Option<State -> Request>)
    returns (r: PlanResult, ghost segments: seq<Segment>, ghost last: Option<Segment>)
    requires |states0| > 0 && NoCharging(requests0)
    requires (forall i | 0 <= i < |requests0| :: InitialCandidates(p, requests0[i], states0) != map[])
             ==> AllCapable(p, states0, requests0)
    ensures r.Failed? ==>
              && r.error == ErrorOf(p, Last(states0))
              && exists i :: 0 <= i < |requests0| && InitialCandidates(p, requests0[i], states0) == map[]
    ensures r.Plan? && r.assignments != [] ==>
              exists plan :: IsResult(p, states0, requests0, segments, finishing, plan, r.assignments)
    ensures Uninterrupted(interrupter, |segments|)
    ensures r.Plan? && r.assignments == [] ==>
              || (exists k :: interrupter(|segments|, k))
              || (last.Some? && DeadEnd(p, states0, requests0, segments, last.value))
  {
    hide *;
    last := None;
    segments := [];
    var first := MakeInitialNode(p, states0, requests0);
    if first.Rejected? {
      NotStarted(interrupter);
      return Failed(first.error), [], None;
    }
    var root := first.node;
    var states, requests := states0, requests0;
    var plan: seq<seq<Assignment>> := seq(|states0|, i => []);
    FirstSegment(p, states0, requests0, plan, root);
    LeadsNowhere(p, states0, requests0, plan);
    NotStarted(interrupter);
    var segment: nat := 0;
    while true
      invariant segment == |segments| && Uninterrupted(interrupter, segment)
      invariant Leads(p, states0, requests0, segments, plan, states, requests)
      invariant Fresh(p, states, requests, root) && SegmentOk(p, states0, requests0, plan, states, requests)
      decreases |requests|
    {
      SegmentStarts(p, states0, requests0, plan, states, requests, root);
      var solved, interrupted := SolveSegment(p, states, root, interrupter, segment);
      if solved.None? {
        last := Some(Segment(plan, states, requests, root, root));
        if !interrupted {
          Stops(p, states0, requests0, segments, last.value);
        }
        return Plan([]), segments, last;
      }
      var n := solved.value;
      ghost var s := Segment(plan, states, requests, root, n);
      var lists := PruneNode(n.lists);
      SameAgents(p, states, root, n);
      ghost var plan0 := plan;
      plan := Collect(plan, lists);
      var states' := NextStates(states, lists);
      var requests' := RemainingRequests(n.unassigned);
      SegmentAdvances(p, states0, requests0, plan0, states, requests, root, n, plan, states', requests');
      SegmentHands(p, s, plan, states', requests');
      LeadsOn(p, states0, requests0, segments, s, plan, states', requests');
      segments := segments + [s];
      UninterruptedMore(interrupter, segment);
      if n.unassigned == map[] {
        PlanDone(p, states0, requests0, plan, states', requests');
        var pruned := PrunePlan(plan);
        assert pruned == plan;
        if finishing.Some? {
          pruned := AppendFinishing(p, finishing.value, pruned);
        } else {
          NothingAppended(p, plan);
        }
        AllDone(p, states0, requests0, segments, finishing, plan, states', pruned);
        return Plan(pruned), segments, None;
      }
      SegmentShrinks(p, states, requests, root, n);
      NextNotRejected(p, states0, requests0, plan, states', requests');
      var next := MakeInitialNode(p, states', requests');
      assert next.Ready?;
      root, states, requests, segment := next.node, states', requests', segment + 1;
    }
  }

  lemma Stops(p: Planner, states0: seq<State>, requests0: seq<Request>, segments: seq<Segment>, s: Segment)
    requires Leads(p, states0, requests0, segments, s.plan, s.states, s.requests)
    requires SegmentOk(p, states0, requests0, s.plan, s.states, s.requests)
    requires Fresh(p, s.states, s.requests, s.root) && NoneFinished(p, s.root)
    ensures DeadEnd(p, states0, requests0, segments, s)
  {
    hide Leads, SegmentOk, Fresh, NoneFinished;
  }

  lemma SegmentHands(p: Planner, s: Segment, plan: seq<seq<Assignment>>, states: seq<State>, requests: seq<Request>)
    requires Fresh(p, s.states, s.requests, s.root) && Reachable(p, s.root, s.solution) && Finished(s.solution)
    requires Admissible(p, s.root) ==> Cheapest(p, s.root, s.solution)
    requires |plan| == |s.plan| == |s.solution.lists| == |states| == |s.states|
    requires forall a | 0 <= a < |plan| :: plan[a] == s.plan[a] + Plain(Pruned(s.solution.lists[a]))
    requires forall a | 0 <= a < |states| ::
               states[a] == EndState(Plain(Pruned(s.solution.lists[a])), s.states[a])
    requires multiset(requests) == PendingBag(s.solution.unassigned)
    ensures IsSolved(p, s) && Hands(s, plan, states, requests)
  {
    hide Fresh, Reachable, Finished, Admissible, Cheapest, PendingBag;
  }

  lemma AllDone(p: Planner, states0: seq<State>, requests0: seq<Request>, segments: seq<Segment>,
                finishing: Option<State -> Request>, plan: seq<seq<Assignment>>, states: seq<State>,
                r: seq<seq<Assignment>>)
    requires GoodPlan(p, states0, requests0, plan) && Leads(p, states0, requests0, segments, plan, states, [])
    requires |r| == |plan| && forall a | 0 <= a < |plan| :: WithFinishing(p, finishing, plan[a], r[a])
    ensures IsResult(p, states0, requests0, segments, finishing, plan, r)
  {
    hide GoodPlan, Leads, WithFinishing;
  }

  lemma LeadsNowhere(p: Planner, states0: seq<State>, requests0: seq<Request>, plan: seq<seq<Assignment>>)
    requires plan == seq(|states0|, i => [])
    ensures Leads(p, states0, requests0, [], plan, states0, requests0)
  {
  }

  lemma LeadsOn(p: Planner, states0: seq<State>, requests0: seq<Request>, segments: seq<Segment>, s: Segment,
                plan: seq<seq<Assignment>>, states: seq<State>, requests: seq<Request>)
    requires Leads(p, states0, requests0, segments, s.plan, s.states, s.requests)
    requires IsSolved(p, s) && Hands(s, plan, states, requests)
    ensures Leads(p, states0, requests0, segments + [s], plan, states, requests)
  {
    hide IsSolved, Hands;
    assert (segments + [s])[..|segments|] == segments;
  }

  lemma FirstSegment(p: Planner, states0: seq<State>, requests0: seq<Request>, plan: seq<seq<Assignment>>, root: Node)
    requires |states0| > 0 && NoCharging(requests0) && Fresh(p, states0, requests0, root)
    requires (forall i | 0 <= i < |requests0| :: InitialCandidates(p, requests0[i], states0) != map[])
             ==> AllCapable(p, states0, requests0)
    requires plan == seq(|states0|, i => [])
    ensures SegmentOk(p, states0, requests0, plan, states0, requests0)
  {
    hide AllCapable, InitialCandidates;
    forall i | 0 <= i < |requests0| ensures InitialCandidates(p, requests0[i], states0) != map[] {
      assert i + 1 in root.unassigned;
    }
    assert forall a | 0 <= a < |plan| :: plan[a] == [];
    EmptyBag(plan);
    assert multiset{} + multiset(requests0) == multiset(requests0);
  }

  lemma SegmentStarts(p: Planner, states0: seq<State>, requests0: seq<Request>, plan: seq<seq<Assignment>>,
                      states: seq<State>, requests: seq<Request>, root: Node)
    requires Fresh(p, states, requests, root) && SegmentOk(p, states0, requests0, plan, states, requests)
    ensures Root(p, states, root) && TasksOf(p, states, requests, root.unassigned)
    ensures |plan| == |states| == |states0| > 0
  {
    hide Root;
    FreshIsRoot(p, states, requests, root);
  }

  lemma SameAgents(p: Planner, states: seq<State>, root: Node, n: Node)
    requires Root(p, states, root) && Reachable(p, root, n)
    ensures |n.lists| == |states|
  {
    hide Reachable;
    ReachableInv(p, states, root, n);
  }

  lemma PlanDone(p: Planner, states0: seq<State>, requests0: seq<Request>, plan: seq<seq<Assignment>>,
                 states: seq<State>, requests: seq<Request>)
    requires SegmentOk(p, states0, requests0, plan, states, requests) && requests == []
    ensures GoodPlan(p, states0, requests0, plan) && plan != []
    ensures forall a | 0 <= a < |plan| :: plan[a] != [] ==> !IsCharge(Last(plan[a]))
  {
  }

  lemma NothingAppended(p: Planner, plan: seq<seq<Assignment>>)
    ensures forall a | 0 <= a < |plan| :: WithFinishing(p, None, plan[a], plan[a])
  {
    assert forall a | 0 <= a < |plan| :: plan[a][..|plan[a]|] == plan[a];
  }

  lemma SegmentShrinks(p: Planner, states: seq<State>, requests: seq<Request>, root: Node, n: Node)
    requires Root(p, states, root) && TasksOf(p, states, requests, root.unassigned)
    requires Reachable(p, root, n) && Finished(n) && n.unassigned != map[]
    ensures |n.unassigned| < |requests|
  {
    hide Root, Reachable, Finished;
    ReachableInv(p, states, root, n);
    assert n.unassigned.Keys <= root.unassigned.Keys;
    assert root.unassigned != map[];
    SegmentProgress(p, states, root, n);
    TasksCount(p, states, requests, root.unassigned);
  }

  lemma {:induction false} TasksCount(p: Planner, states: seq<State>, requests: seq<Request>, un: map<nat, Pending>)
    requires TasksOf(p, states, requests, un)
    ensures |un| == |requests|
    decreases |requests|
  {
    if requests == [] {
      assert un == map[];
    } else {
      var k := |requests|;
      FewerPending(un, k);
      TasksCount(p, states, requests[..k - 1], un - {k});
    }
  }

  lemma NextNotRejected(p: Planner, states0: seq<State>, requests0: seq<Request>, plan: seq<seq<Assignment>>,
                        states: seq<State>, requests: seq<Request>)
    requires SegmentOk(p, states0, requests0, plan, states, requests)
    ensures forall i | 0 <= i < |requests| :: InitialCandidates(p, requests[i], states) != map[]
  {
    hide InitialCandidates, AllCapable;
    forall i | 0 <= i < |requests| ensures InitialCandidates(p, requests[i], states) != map[] {
      CapableNotRejected(p, states, requests, i);
    }
  }
}
