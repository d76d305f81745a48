/** Why the search and its segments come to an end. */
module PlannerProgress {
  import opened Domain
  import opened PlannerNode
  import opened PlannerInvariant
  import opened PlannerTheorems

  // ---- one search ----

  predicate IsWorking(l: seq<Wrapped>) {
    l != [] && !IsChargeTask(Last(l))
  }

  /** The number of agents whose last assignment is not a charging task. */
  function Working(lists: Assigned): nat {
    if lists == [] then 0 else (if IsWorking(lists[0]) then 1 else 0) + Working(lists[1..])
  }

  function Rank(n: Node): nat {
    2 * |n.unassigned| + Working(n.lists)
  }

  lemma {:induction false} UpdateWorking(lists: Assigned, a: nat, l: seq<Wrapped>)
    requires a < |lists|
    ensures Working(lists[a := l]) + (if IsWorking(lists[a]) then 1 else 0)
            == Working(lists) + (if IsWorking(l) then 1 else 0)
  {
    if a == 0 {
      assert lists[a := l][1..] == lists[1..];
    } else {
      assert lists[a := l][1..] == lists[1..][a - 1 := l];
      UpdateWorking(lists[1..], a - 1, l);
    }
  }

  lemma {:induction false} WorkingBound(lists: Assigned)
    ensures Working(lists) <= |lists|
  {
    if lists != [] {
      WorkingBound(lists[1..]);
    }
  }

  /** `AssignCharge` ends the list of agent `a` with a charging task. */
  lemma AssignChargeRank(p: Planner, lists: Assigned, un: map<nat, Pending>, inv: seq<Invariant>, a: nat, s: State)
    requires a < |lists| && AssignCharge(p, lists, un, inv, a, s).Some?
    ensures var m := AssignCharge(p, lists, un, inv, a, s).value;
            && |m.unassigned| == |un|
            && Working(m.lists) + (if IsWorking(lists[a]) then 1 else 0) == Working(lists)
  {
    var b := p.charge(s).value;
    var l := lists[a] + [ChargingTask(CHARGING_ID, s, b)];
    UpdateWorking(lists, a, l);
    ReestimateKeys(p, un, a, b.finish, s);
  }

  lemma ReestimateKeys(p: Planner, un: map<nat, Pending>, a: nat, from: State, previous: State)
    requires Reestimate(p, un, a, from, previous).Some?
    ensures Reestimate(p, un, a, from, previous).value.Keys == un.Keys
    ensures |Reestimate(p, un, a, from, previous).value| == |un|
  {
  }

  /** Every expansion lowers the rank. */
  lemma StepRank(p: Planner, n: Node, act: Action)
    requires Apply(p, n, act).Some?
    ensures Rank(Apply(p, n, act).value) < Rank(n)
    ensures |Apply(p, n, act).value.unassigned| <= |n.unassigned|
    ensures |Apply(p, n, act).value.lists| == |n.lists|
  {
    match act
    case Assign(u, a) => AssignRank(p, n, u, a);
    case Recharge(a) =>
      AssignChargeRank(p, n.lists, n.unassigned, n.invariants, a, Last(n.lists[a]).assignment.finish);
  }

  lemma AssignRank(p: Planner, n: Node, u: nat, a: nat)
    requires u in n.unassigned && a in n.unassigned[u].candidates && a < |n.lists|
    requires AssignTask(p, n, u, a).Some?
    ensures var m := AssignTask(p, n, u, a).value;
            Rank(m) < Rank(n) && |m.unassigned| == |n.unassigned| - 1 && |m.lists| == |n.lists|
  {
    var e := n.unassigned[u].candidates[a];
    var l := Appended(p, n.lists[a], u, n.unassigned[u].request, e);
    var rest := n.unassigned - {u};
    var inv := WithoutInvariant(n.invariants, u);
    assert |rest| == |n.unassigned| - 1 by {
      assert rest.Keys == n.unassigned.Keys - {u};
      assert |rest| == |rest.Keys| && |n.unassigned| == |n.unassigned.Keys|;
    }
    UpdateWorking(n.lists, a, l);
    if Reestimate(p, rest, a, e.state, e.state).Some? {
      ReestimateKeys(p, rest, a, e.state, e.state);
    } else {
      AssignChargeRank(p, n.lists[a := l], rest, inv, a, e.state);
    }
  }

  // ---- segments ----

  /** A fresh node with tasks to assign is not finished. */
  lemma FreshNotFinished(p: Planner, states: seq<State>, root: Node)
    requires Root(p, states, root) && root.unassigned != map[]
    ensures !Finished(root)
  {
    var t, w :| IsLatestTime(states, t) && IsEarliestWait(root.unassigned, w) && root.latest == Max(t, w);
    var u, a :| u in root.unassigned && IsBest(root.unassigned[u].candidates, a)
                && root.unassigned[u].candidates[a].waitUntil == w;
    assert root.latest + SEGMENTATION_THRESHOLD >= root.unassigned[u].candidates[a].waitUntil;
  }

  /** Every segment assigns at least one task. */
  lemma SegmentProgress(p: Planner, states: seq<State>, root: Node, n: Node)
    requires Root(p, states, root) && root.unassigned != map[]
    requires Reachable(p, root, n) && Finished(n)
    ensures |n.unassigned| < |root.unassigned|
  {
    ReachableInv(p, states, root, n);
    FreshNotFinished(p, states, root);
    assert !AllEmpty(n.lists);
    var a :| 0 <= a < |n.lists| && n.lists[a] != [];
    ChargesSeparated(p, states, root, n, a);
    var k :| 0 <= k < |n.lists[a]| && !IsChargeTask(n.lists[a][k]);
    HasTask(n.lists[a], k);
    HasTaskId(n.lists, a, n.lists[a][k].id);
    FewerTasks(root, n, n.lists[a][k].id);
  }

  lemma {:induction false} HasTask(l: seq<Wrapped>, k: nat)
    requires k < |l| && !IsChargeTask(l[k])
    ensures l[k].id in TaskIds(l)
  {
    if k < |l| - 1 {
      HasTask(l[..|l| - 1], k);
    }
  }

  lemma {:induction false} HasTaskId(lists: Assigned, a: nat, id: nat)
    requires a < |lists| && id in TaskIds(lists[a])
    ensures id in AllTaskIds(lists)
  {
    if a > 0 {
      HasTaskId(lists[1..], a - 1, id);
    }
  }

  lemma FewerTasks(root: Node, n: Node, id: nat)
    requires Conserved(root, n) && id in AllTaskIds(n.lists)
    ensures |n.unassigned| < |root.unassigned|
  {
    assert (AllTaskIds(n.lists) + multiset(n.unassigned.Keys))[id] == multiset(root.unassigned.Keys)[id];
    assert id in root.unassigned.Keys && id !in n.unassigned.Keys;
    assert n.unassigned.Keys < root.unassigned.Keys;
    ProperSubset(n.unassigned.Keys, root.unassigned.Keys);
    assert |n.unassigned| == |n.unassigned.Keys| && |root.unassigned| == |root.unassigned.Keys|;
  }

  lemma ProperSubset(x: set<nat>, y: set<nat>)
    requires x < y
    ensures |x| < |y|
  {
    assert y == x + (y - x);
    assert |y| == |x| + |y - x|;
    assert y - x != {};
  }
}
