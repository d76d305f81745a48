/** When a node of the search can be expanded, and what its children are, in terms of the models alone. */
module PlannerChildren {
  import opened Domain
  import opened PlannerNode
  import opened PlannerInvariant
  import opened PlannerTheorems

  /** An agent in state `s` can perform any of the tasks `ids` next. */
  ghost predicate CanDoAll(p: Planner, un: map<nat, Pending>, ids: set<nat>, s: State) {
    forall u | u in ids && u in un :: Finish(p, un[u].request, s).Some?
  }

  /** A charging task that starts in state `s`. */
  ghost predicate ChargesFrom(p: Planner, s: State, w: Wrapped) {
    && p.charge(s) == Some(Estimate(w.assignment.finish, w.assignment.deployment))
    && w.assignment.request == Request(0, s.time, false, ChargeBattery)
  }

  /** `m` is `n` with the tasks `ids` left, agent `a` having assignments `l`, which end in state `s`: nothing
      changes for the other agents, and agent `a` has the estimates from `s` for what is left. */
  ghost predicate Child(p: Planner, n: Node, m: Node, ids: set<nat>, a: nat, l: seq<Wrapped>, s: State) {
    && |m.lists| == |n.lists| && a < |n.lists| && m.lists[a] == l
    && (forall b | 0 <= b < |n.lists| && b != a :: m.lists[b] == n.lists[b])
    && m.unassigned.Keys == ids <= n.unassigned.Keys
    && forall u | u in ids ::
         && m.unassigned[u].request == n.unassigned[u].request
         && m.unassigned[u].candidates.Keys == n.unassigned[u].candidates.Keys + {a}
         && (forall b | b in n.unassigned[u].candidates && b != a ::
               m.unassigned[u].candidates[b] == n.unassigned[u].candidates[b])
         && var e := m.unassigned[u].candidates[a];
            Finish(p, n.unassigned[u].request, s) == Some(Estimate(e.state, e.waitUntil)) && !e.requireCharge
  }

  // ---- sending an agent to its charger ----

  /** Agent `a` may be sent to its charger exactly if it has assignments that do not end with a charge, a charge is
      accepted from their end, and every task that is left can be performed after it. */
  lemma RechargeIff(p: Planner, n: Node, a: nat)
    ensures Apply(p, n, Recharge(a)).Some? <==>
            && a < |n.lists| && n.lists[a] != [] && !IsCharge(Last(n.lists[a]).assignment)
            && var s := Last(n.lists[a]).assignment.finish;
               p.charge(s).Some? && CanDoAll(p, n.unassigned, n.unassigned.Keys, p.charge(s).value.finish)
  {
    hide Finish, Rated;
  }

  /** And then the child has that charge at the end. */
  lemma RechargedChild(p: Planner, n: Node, a: nat) returns (m: Node, w: Wrapped)
    requires Apply(p, n, Recharge(a)).Some?
    ensures Apply(p, n, Recharge(a)) == Some(m)
    ensures a < |n.lists| && n.lists[a] != [] && w.id == 0 && ChargesFrom(p, Last(n.lists[a]).assignment.finish, w)
    ensures Child(p, n, m, n.unassigned.Keys, a, n.lists[a] + [w], w.assignment.finish)
  {
    hide Finish, Child, Reestimate;
    m := Apply(p, n, Recharge(a)).value;
    var s := Last(n.lists[a]).assignment.finish;
    w := ChargingTask(CHARGING_ID, s, p.charge(s).value);
    ReestimatedChild(p, n, m, n.unassigned, a, n.lists[a] + [w], w.assignment.finish, s);
  }

  // ---- assigning a task ----

  /** Task `u` is due within the segment, and no agent would be done with it sooner than agent `a`. */
  ghost predicate DueFor(n: Node, u: nat, a: nat) {
    && u in n.unassigned && a in n.unassigned[u].candidates && a < |n.lists|
    && (forall b | b in n.unassigned[u].candidates ::
          n.unassigned[u].candidates[a].state.time <= n.unassigned[u].candidates[b].state.time)
    && n.unassigned[u].candidates[a].waitUntil <= n.latest + 1_000_000_000
  }

  /** Task `u` may be assigned to agent `a` exactly if it is due for it and every task that is left can be performed
      afterwards, or after a charge. */
  lemma AssignIff(p: Planner, n: Node, u: nat, a: nat)
    ensures Apply(p, n, Assign(u, a)).Some? <==>
            && DueFor(n, u, a)
            && var s := n.unassigned[u].candidates[a].state;
               var rest := n.unassigned.Keys - {u};
               || CanDoAll(p, n.unassigned, rest, s)
               || (p.charge(s).Some? && CanDoAll(p, n.unassigned, rest, p.charge(s).value.finish))
  {
    hide Finish, Rated, Appended, WithoutInvariant;
  }

  /** The assignments that performing task `u` adds for an agent in state `s`: a charge before it exactly if it
      cannot be performed without. */
  ghost predicate Performs(p: Planner, r: Request, u: nat, s: State, tail: seq<Wrapped>) {
    match Finish(p, r, s)
    case Some(e) => tail == [Wrapped(u, Assignment(r, e.finish, e.waitUntil))]
    case None =>
      && |tail| == 2 && tail[0].id == u && ChargesFrom(p, s, tail[0])
      && var f := Finish(p, r, tail[0].assignment.finish);
         f.Some? && tail[1] == Wrapped(u, Assignment(r, f.value.finish, f.value.waitUntil))
  }

  /** In every node of a search: the child has the task at the end of the agent's assignments, and a charge
      behind it exactly if some task that is left cannot be performed without. */
  lemma AssignedChild(p: Planner, states: seq<State>, root: Node, n: Node, u: nat, a: nat)
    returns (m: Node, tail: seq<Wrapped>, charge: seq<Wrapped>)
    requires Root(p, states, root) && Reachable(p, root, n) && Apply(p, n, Assign(u, a)).Some?
    ensures Apply(p, n, Assign(u, a)) == Some(m)
    ensures u in n.unassigned && a < |n.lists| == |states| && tail != []
    ensures Performs(p, n.unassigned[u].request, u, LastState(n.lists[a], states[a]), tail)
    ensures var s := Last(tail).assignment.finish;
            var rest := n.unassigned.Keys - {u};
            if CanDoAll(p, n.unassigned, rest, s) then
              charge == [] && Child(p, n, m, rest, a, n.lists[a] + tail, s)
            else
              && |charge| == 1 && charge[0].id == 0 && ChargesFrom(p, s, charge[0])
              && Child(p, n, m, rest, a, n.lists[a] + tail + charge, charge[0].assignment.finish)
  {
    hide Finish, Root, Reachable, Appended, Reestimate, Child, WithoutInvariant, CanDoAll, LatestFinish, UpToDate;
    var r, e := n.unassigned[u].request, n.unassigned[u].candidates[a];
    m := Apply(p, n, Assign(u, a)).value;
    AgentOf(p, states, root, n, u, a);
    EntriesUpToDate(p, states, root, n, u, a);
    tail := AppendedTail(p, states[a], n.lists[a], u, r, e);
    var rest := n.unassigned - {u};
    ReestimateIff(p, rest, n.unassigned, a, e.state, e.state);
    assert rest.Keys == n.unassigned.Keys - {u};
    if Reestimate(p, rest, a, e.state, e.state).Some? {
      charge := [];
      ReestimatedChild(p, n, m, rest, a, n.lists[a] + tail, e.state, e.state);
    } else {
      var w := ChargingTask(CHARGING_ID, e.state, p.charge(e.state).value);
      charge := [w];
      assert n.lists[a := n.lists[a] + tail][a := n.lists[a] + tail + charge]
             == n.lists[a := n.lists[a] + tail + charge];
      ReestimatedChild(p, n, m, rest, a, n.lists[a] + tail + charge, w.assignment.finish, e.state);
    }
  }

  lemma AgentOf(p: Planner, states: seq<State>, root: Node, n: Node, u: nat, a: nat)
    requires Root(p, states, root) && Reachable(p, root, n) && u in n.unassigned && a in n.unassigned[u].candidates
    ensures a < |n.lists| == |states|
  {
    hide Reachable, UpToDate;
    EntriesUpToDate(p, states, root, n, u, 0);
  }

  lemma AppendedTail(p: Planner, s0: State, l: seq<Wrapped>, u: nat, r: Request, e: Entry) returns (tail: seq<Wrapped>)
    requires UpToDate(p, r, s0, l, e)
    ensures Appended(p, l, u, r, e) == l + tail && tail != [] && Last(tail).assignment.finish == e.state
    ensures Performs(p, r, u, LastState(l, s0), tail)
  {
    hide Finish;
    tail := Appended(p, l, u, r, e)[|l|..];
  }

  lemma ReestimateIff(p: Planner, rest: map<nat, Pending>, un: map<nat, Pending>, a: nat, from: State, previous: State)
    requires rest.Keys <= un.Keys && forall u | u in rest :: rest[u] == un[u]
    ensures Reestimate(p, rest, a, from, previous).Some? <==> CanDoAll(p, un, rest.Keys, from)
  {
    hide Finish;
  }

  lemma ReestimatedChild(p: Planner, n: Node, m: Node, rest: map<nat, Pending>, a: nat, l: seq<Wrapped>, s: State,
                         previous: State)
    requires a < |n.lists| && rest.Keys <= n.unassigned.Keys && forall u | u in rest :: rest[u] == n.unassigned[u]
    requires m.lists == n.lists[a := l] && Some(m.unassigned) == Reestimate(p, rest, a, s, previous)
    ensures Child(p, n, m, rest.Keys, a, l, s)
  {
    hide Finish;
  }
}
