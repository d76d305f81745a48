/** When the planner finds a plan for whatever its models allow, and when it does not. */
module PlannerSolvable {
  import opened Domain
  import opened PlannerNode
  import opened PlannerInvariant
  import opened PlannerTheorems
  import opened PlannerProgress
  import opened PlannerFresh
  import opened PlannerSegments
  import opened PlannerSearch
  import opened PlannerComplete

  // ---- agents that are never stranded ----

  /** An agent in state `s` can perform any of the requests next. */
  ghost predicate Affords(p: Planner, requests: set<Request>, s: State) {
    forall r | r in requests :: Finish(p, r, s).Some?
  }

  /** It can, or it can after a charge. */
  ghost predicate Recovers(p: Planner, requests: set<Request>, s: State) {
    Affords(p, requests, s) || (p.charge(s).Some? && Affords(p, requests, p.charge(s).value.finish))
  }

  /** `ok` holds of the states that agents get into, and from the end of any of the requests an agent recovers. */
  ghost predicate NeverStranded(p: Planner, requests: set<Request>, ok: State -> bool) {
    && (forall s | ok(s) && p.charge(s).Some? :: ok(p.charge(s).value.finish))
    && (forall r, s | r in requests && ok(s) && Finish(p, r, s).Some? ::
          ok(Finish(p, r, s).value.finish) && Recovers(p, requests, Finish(p, r, s).value.finish))
  }

  function PendingRequests(un: map<nat, Pending>): set<Request> {
    set u | u in un :: un[u].request
  }

  ghost predicate RequestsIn(un: map<nat, Pending>, requests: set<Request>) {
    forall u | u in un :: un[u].request in requests
  }

  /** Every assignment that is not a charging task is for one of the requests. */
  ghost predicate PlannedFrom(l: seq<Assignment>, requests: set<Request>) {
    forall k | 0 <= k < |l| :: IsCharge(l[k]) || l[k].request in requests
  }

  lemma {:induction false} ConsistentOk(p: Planner, requests: set<Request>, ok: State -> bool, s: State,
                                        l: seq<Assignment>)
    requires NeverStranded(p, requests, ok) && ok(s) && Consistent(p, s, l) && PlannedFrom(l, requests)
    ensures ok(EndState(l, s))
  {
    hide Recovers;
    if l != [] {
      var k := |l| - 1;
      ConsistentPrefix(p, s, l, k);
      ConsistentOk(p, requests, ok, s, l[..k]);
      assert Predicted(p, EndState(l[..k], s), l[k]);
    }
  }

  lemma ChainPlanned(p: Planner, root: Node, a: nat, l: seq<Wrapped>, requests: set<Request>)
    requires Chain(p, root, a, l) && RequestsIn(root.unassigned, requests)
    ensures PlannedFrom(Plain(l), requests)
  {
    forall k | 0 <= k < |l| ensures IsCharge(Plain(l)[k]) || Plain(l)[k].request in requests {
      assert Link(p, root, a, l[..k], l[k]);
    }
  }

  /** A search whose agents are never stranded. */
  ghost predicate SafeSearch(p: Planner, states: seq<State>, root: Node, requests: set<Request>, ok: State -> bool) {
    && Root(p, states, root) && RequestsIn(root.unassigned, requests) && NeverStranded(p, requests, ok)
    && forall a | 0 <= a < |states| :: ok(states[a])
  }

  /** In every node of such a search, every agent recovers from performing any of the tasks. */
  lemma EntryRecovers(p: Planner, states: seq<State>, root: Node, requests: set<Request>, ok: State -> bool,
                      n: Node, u: nat, a: nat)
    requires SafeSearch(p, states, root, requests, ok) && Reachable(p, root, n)
    requires u in n.unassigned && a < |states|
    ensures RequestsIn(n.unassigned, requests) && a in n.unassigned[u].candidates && |n.lists| == |states|
    ensures Recovers(p, requests, n.unassigned[u].candidates[a].state)
  {
    hide Root, Reachable, Recovers, Chain, Consistent, UpToDate, NeverStranded, Inv;
    ReachableInv(p, states, root, n);
    InvParts(p, root, n, requests);
    EntriesUpToDate(p, states, root, n, u, a);
    NodeConsistent(p, states, root, n, a);
    ChainPlanned(p, root, a, n.lists[a], requests);
    ConsistentOk(p, requests, ok, states[a], Plain(n.lists[a]));
    LastStatePlain(n.lists[a], |n.lists[a]|, states[a]);
    assert Plain(n.lists[a])[..|n.lists[a]|] == Plain(n.lists[a]);
    assert n.lists[a][..|n.lists[a]|] == n.lists[a];
    UpToDateRecovers(p, requests, ok, n.unassigned[u].request, states[a], n.lists[a],
                     n.unassigned[u].candidates[a]);
  }

  lemma InvParts(p: Planner, root: Node, n: Node, requests: set<Request>)
    requires Inv(p, root, n) && RequestsIn(root.unassigned, requests)
    ensures RequestsIn(n.unassigned, requests)
    ensures forall a | 0 <= a < |n.lists| :: Chain(p, root, a, n.lists[a])
  {
    hide Chain, EntryAgrees;
    forall u | u in n.unassigned ensures n.unassigned[u].request in requests {
      assert TaskAgrees(p, root.unassigned[u], n.lists, n.unassigned[u]);
    }
  }

  lemma UpToDateRecovers(p: Planner, requests: set<Request>, ok: State -> bool, r: Request, s0: State,
                         l: seq<Wrapped>, e: Entry)
    requires NeverStranded(p, requests, ok) && r in requests
    requires UpToDate(p, r, s0, l, e) && ok(LastState(l, s0))
    ensures Recovers(p, requests, e.state)
  {
    hide Recovers;
  }

  // ---- there is always a way on ----

  /** A node that is not finished can be expanded. */
  lemma UnfinishedGoesOn(p: Planner, states: seq<State>, root: Node, requests: set<Request>, ok: State -> bool,
                         n: Node) returns (act: Action)
    requires SafeSearch(p, states, root, requests, ok) && Reachable(p, root, n) && !Finished(n)
    ensures Apply(p, n, act).Some?
  {
    var u, a :| u in n.unassigned && a in n.unassigned[u].candidates && IsBest(n.unassigned[u].candidates, a)
                && n.latest + SEGMENTATION_THRESHOLD >= n.unassigned[u].candidates[a].waitUntil;
    hide SafeSearch, Reachable, Recovers, IsBest;
    AgentExists(p, states, root, requests, ok, n, u, a);
    EntryRecovers(p, states, root, requests, ok, n, u, a);
    DueCanBeAssigned(p, requests, n, u, a);
    act := Assign(u, a);
  }

  lemma AgentExists(p: Planner, states: seq<State>, root: Node, requests: set<Request>, ok: State -> bool,
                    n: Node, u: nat, a: nat)
    requires SafeSearch(p, states, root, requests, ok) && Reachable(p, root, n)
    requires u in n.unassigned && a in n.unassigned[u].candidates
    ensures a < |states|
  {
    hide Reachable, NeverStranded, UpToDate;
    EntriesUpToDate(p, states, root, n, u, 0);
  }

  lemma DueCanBeAssigned(p: Planner, requests: set<Request>, n: Node, u: nat, a: nat)
    requires u in n.unassigned && a in n.unassigned[u].candidates && a < |n.lists|
    requires n.latest + SEGMENTATION_THRESHOLD >= n.unassigned[u].candidates[a].waitUntil
    requires RequestsIn(n.unassigned, requests) && Recovers(p, requests, n.unassigned[u].candidates[a].state)
    ensures AssignTask(p, n, u, a).Some?
  {
    hide Appended, Rated, WithoutInvariant;
    var s := n.unassigned[u].candidates[a].state;
    var rest := n.unassigned - {u};
    if Affords(p, requests, s) {
      AffordsReestimate(p, requests, rest, a, s, s);
    } else {
      AffordsReestimate(p, requests, rest, a, p.charge(s).value.finish, s);
    }
  }

  lemma AffordsReestimate(p: Planner, requests: set<Request>, un: map<nat, Pending>, a: nat, from: State,
                          previous: State)
    requires RequestsIn(un, requests) && Affords(p, requests, from)
    ensures Reestimate(p, un, a, from, previous).Some?
  {
  }

  /** From every node of the search a finished one can be reached. */
  lemma {:induction false} EndsFinished(p: Planner, states: seq<State>, root: Node, requests: set<Request>,
                                        ok: State -> bool, n: Node) returns (m: Node)
    requires SafeSearch(p, states, root, requests, ok) && Reachable(p, root, n)
    ensures Reachable(p, root, m) && Finished(m)
    decreases Rank(n)
  {
    hide SafeSearch, Reachable, Finished, Apply, Rank;
    if Finished(n) {
      m := n;
    } else {
      var act := UnfinishedGoesOn(p, states, root, requests, ok, n);
      StepReachable(p, root, n, act);
      StepRank(p, n, act);
      m := EndsFinished(p, states, root, requests, ok, Apply(p, n, act).value);
    }
  }

  lemma AlwaysSolvable(p: Planner, states: seq<State>, root: Node, requests: set<Request>, ok: State -> bool)
    requires SafeSearch(p, states, root, requests, ok)
    ensures !NoneFinished(p, root)
  {
    assert Run(p, root, []) == Some(root);
    assert Reachable(p, root, root);
    hide SafeSearch, Reachable, Finished;
    var m := EndsFinished(p, states, root, requests, ok, root);
  }

  // ---- dead ends ----

  /** Task `u` is due within the segment, and agent `a` is a best candidate for it. */
  predicate Due(n: Node, u: nat, a: nat) {
    && u in n.unassigned && IsBest(n.unassigned[u].candidates, a)
    && n.latest + SEGMENTATION_THRESHOLD >= n.unassigned[u].candidates[a].waitUntil
  }

  /** In a search without a finished node, every node leads to one that cannot be expanded although a task is due. */
  lemma {:induction false} DeadEndStops(p: Planner, root: Node, n: Node) returns (m: Node, u: nat, a: nat)
    requires NoneFinished(p, root) && Reachable(p, root, n)
    ensures Reachable(p, root, m) && Reachable(p, n, m)
    ensures Due(m, u, a) && forall act :: Apply(p, m, act).None?
    decreases Rank(n)
  {
    hide Reachable, Apply, Rank, IsBest;
    if act :| Apply(p, n, act).Some? {
      StepReachable(p, root, n, act);
      StepRank(p, n, act);
      var n' := Apply(p, n, act).value;
      m, u, a := DeadEndStops(p, root, n');
      ReachableBefore(p, n, act, m);
    } else {
      m := n;
      ReachesItself(p, n);
      u, a :| u in n.unassigned && a in n.unassigned[u].candidates && IsBest(n.unassigned[u].candidates, a)
              && n.latest + SEGMENTATION_THRESHOLD >= n.unassigned[u].candidates[a].waitUntil;
    }
  }

  lemma ReachesItself(p: Planner, n: Node)
    ensures Reachable(p, n, n)
  {
    assert Run(p, n, []) == Some(n);
  }

  lemma {:induction false} RunBefore(p: Planner, n: Node, act: Action, acts: seq<Action>)
    requires Apply(p, n, act).Some?
    ensures Run(p, n, [act] + acts) == Run(p, Apply(p, n, act).value, acts)
  {
    hide Apply;
    if acts == [] {
      assert [act] + acts == [act] && [act][..0] == [];
      assert Run(p, n, []) == Some(n);
    } else {
      var pre := acts[..|acts| - 1];
      RunBefore(p, n, act, pre);
      assert ([act] + acts)[..|acts|] == [act] + pre;
    }
  }

  lemma ReachableBefore(p: Planner, n: Node, act: Action, m: Node)
    requires Apply(p, n, act).Some? && Reachable(p, Apply(p, n, act).value, m)
    ensures Reachable(p, n, m)
  {
    var acts :| Run(p, Apply(p, n, act).value, acts) == Some(m);
    RunBefore(p, n, act, acts);
  }

  // ---- over all segments ----

  function RequestSet(requests: seq<Request>): set<Request> {
    set r | r in requests
  }

  lemma {:induction false} InRequestBag(l: seq<Assignment>, k: nat)
    requires k < |l| && !IsCharge(l[k])
    ensures l[k].request in RequestBag(l)
  {
    if k < |l| - 1 {
      InRequestBag(l[..|l| - 1], k);
    }
  }

  lemma {:induction false} InPlanBag(plan: seq<seq<Assignment>>, a: nat, r: Request)
    requires a < |plan| && r in RequestBag(plan[a])
    ensures r in PlanBag(plan)
  {
    if a > 0 {
      InPlanBag(plan[1..], a - 1, r);
    }
  }

  lemma PlanPlanned(p: Planner, states0: seq<State>, requests0: seq<Request>, plan: seq<seq<Assignment>>,
                    states: seq<State>, requests: seq<Request>, a: nat)
    requires SegmentOk(p, states0, requests0, plan, states, requests) && a < |plan|
    ensures PlannedFrom(plan[a], RequestSet(requests0))
  {
    forall k | 0 <= k < |plan[a]| && !IsCharge(plan[a][k]) ensures plan[a][k].request in RequestSet(requests0) {
      InRequestBag(plan[a], k);
      InPlanBag(plan, a, plan[a][k].request);
      assert plan[a][k].request in multiset(requests0);
    }
  }

  /** If agents are never stranded, no search of any segment comes to a dead end: the planner finds a plan unless
      it is interrupted. */
  lemma NoDeadEnd(p: Planner, states0: seq<State>, requests0: seq<Request>, ok: State -> bool,
                  segments: seq<Segment>, s: Segment)
    requires NeverStranded(p, RequestSet(requests0), ok) && forall a | 0 <= a < |states0| :: ok(states0[a])
    ensures !DeadEnd(p, states0, requests0, segments, s)
  {
    if DeadEnd(p, states0, requests0, segments, s) {
      hide Leads, NoneFinished, NeverStranded, Fresh;
      SegmentSafe(p, states0, requests0, ok, s);
      AlwaysSolvable(p, s.states, s.root, RequestSet(requests0), ok);
    }
  }

  lemma SegmentSafe(p: Planner, states0: seq<State>, requests0: seq<Request>, ok: State -> bool, s: Segment)
    requires NeverStranded(p, RequestSet(requests0), ok) && forall a | 0 <= a < |states0| :: ok(states0[a])
    requires SegmentOk(p, states0, requests0, s.plan, s.states, s.requests)
    requires Fresh(p, s.states, s.requests, s.root)
    ensures SafeSearch(p, s.states, s.root, RequestSet(requests0), ok)
  {
    hide NeverStranded, Root, Consistent, PlanBag;
    SegmentStarts(p, states0, requests0, s.plan, s.states, s.requests, s.root);
    forall a | 0 <= a < |s.states| ensures ok(s.states[a]) {
      PlanPlanned(p, states0, requests0, s.plan, s.states, s.requests, a);
      ConsistentOk(p, RequestSet(requests0), ok, states0[a], s.plan[a]);
    }
    forall u | u in s.root.unassigned ensures s.root.unassigned[u].request in RequestSet(requests0) {
      assert s.requests[u - 1] in multiset(s.requests);
      assert s.requests[u - 1] in multiset(requests0);
    }
  }
}
