/** What the invariant of the search means: duplicates can be dropped, the candidate
    entries are up to date, no request is lost, and every expansion makes progress. */
module PlannerTheorems {
  import opened Domain
  import opened PlannerNode
  import opened PlannerInvariant

  // ---- the duplicate filter ----

  /** `AssignmentEqual`: the same ids in the same places. */
  predicate SameIds(x: Assigned, y: Assigned) {
    && |x| == |y|
    && forall a | 0 <= a < |x| :: SameListIds(x[a], y[a])
  }

  predicate SameListIds(x: seq<Wrapped>, y: seq<Wrapped>) {
    && |x| == |y|
    && forall k | 0 <= k < |x| :: x[k].id == y[k].id
  }

  /** An assignment is determined by its id and the assignments before it. */
  lemma LinkDetermined(p: Planner, root: Node, a: nat, pre: seq<Wrapped>, v: Wrapped, w: Wrapped)
    requires Link(p, root, a, pre, v) && Link(p, root, a, pre, w) && v.id == w.id
    ensures v == w
  {
  }

  lemma {:induction false} ChainDetermined(p: Planner, root: Node, a: nat, x: seq<Wrapped>, y: seq<Wrapped>)
    requires Chain(p, root, a, x) && Chain(p, root, a, y) && SameListIds(x, y)
    ensures x == y
  {
    hide Link;
    if x != [] {
      var k := |x| - 1;
      ChainPrefix(p, root, a, x, k);
      ChainPrefix(p, root, a, y, k);
      ChainDetermined(p, root, a, x[..k], y[..k]);
      LinkDetermined(p, root, a, x[..k], x[k], y[k]);
      assert x == x[..k] + [x[k]] && y == y[..k] + [y[k]];
    }
  }

  lemma ChainPrefix(p: Planner, root: Node, a: nat, l: seq<Wrapped>, k: nat)
    requires Chain(p, root, a, l) && k <= |l|
    ensures Chain(p, root, a, l[..k])
  {
  }

  lemma ListsDetermined(p: Planner, root: Node, x: Assigned, y: Assigned)
    requires ListsOk(p, root, x) && ListsOk(p, root, y) && SameIds(x, y)
    ensures x == y
  {
    forall a | 0 <= a < |x| ensures x[a] == y[a] {
      ChainDetermined(p, root, a, x[a], y[a]);
    }
  }

  lemma TasksDetermined(p: Planner, root: Node, lists: Assigned, x: map<nat, Pending>, y: map<nat, Pending>)
    requires TasksAgree(p, root, lists, x) && TasksAgree(p, root, lists, y) && x.Keys == y.Keys
    ensures x == y
  {
    forall u | u in x ensures x[u] == y[u] {
      assert TaskAgrees(p, root.unassigned[u], lists, x[u]);
      assert TaskAgrees(p, root.unassigned[u], lists, y[u]);
      TaskDetermined(p, root.unassigned[u], lists, x[u], y[u]);
    }
  }

  lemma TaskDetermined(p: Planner, t0: Pending, lists: Assigned, x: Pending, y: Pending)
    requires TaskAgrees(p, t0, lists, x) && TaskAgrees(p, t0, lists, y)
    ensures x == y
  {
  }

  lemma KeysDetermined(root: Node, x: Node, y: Node)
    requires Conserved(root, x) && Conserved(root, y) && x.lists == y.lists
    ensures x.unassigned.Keys == y.unassigned.Keys
  {
    var ids := AllTaskIds(x.lists);
    forall u ensures u in x.unassigned.Keys <==> u in y.unassigned.Keys {
      assert (ids + multiset(x.unassigned.Keys))[u] == (ids + multiset(y.unassigned.Keys))[u];
    }
  }

  /** The duplicate filter loses nothing: two nodes of one search with the same ids
      in the same places are the same node, in its finish states, unassigned tasks, candidate
      entries, invariants, latest time and cost. */
  lemma FilterSound(p: Planner, states: seq<State>, root: Node, x: Node, y: Node)
    requires Root(p, states, root) && Reachable(p, root, x) && Reachable(p, root, y)
    requires SameIds(x.lists, y.lists)
    ensures x == y
  {
    ReachableInv(p, states, root, x);
    ReachableInv(p, states, root, y);
    ListsDetermined(p, root, x.lists, y.lists);
    KeysDetermined(root, x, y);
    TasksDetermined(p, root, x.lists, x.unassigned, y.unassigned);
  }

  // ---- candidate entries ----

  /** Entry `e` for request `r` of an agent that starts in state `s0` and has the
      assignments `l`: it holds what the model predicts from the state in which the agent ends
      its assignments. It asks for a charge only if the agent has no assignments and
      cannot perform the task without one, and then it holds the prediction after the charge. */
  ghost predicate UpToDate(p: Planner, r: Request, s0: State, l: seq<Wrapped>, e: Entry) {
    var s := LastState(l, s0);
    if e.requireCharge then
      && l == [] && e.previous == s && Finish(p, r, s).None? && p.charge(s).Some?
      && Finish(p, r, p.charge(s).value.finish) == Some(Estimate(e.state, e.waitUntil))
    else
      Finish(p, r, s) == Some(Estimate(e.state, e.waitUntil))
  }

  /** In every node of the search every agent has an entry for every unassigned task, and the
      entry is up to date. */
  lemma EntriesUpToDate(p: Planner, states: seq<State>, root: Node, n: Node, u: nat, a: nat)
    requires Root(p, states, root) && Reachable(p, root, n)
    requires u in n.unassigned && a < |states|
    ensures |n.lists| == |states| && n.unassigned[u].candidates.Keys == Agents(|states|)
    ensures UpToDate(p, n.unassigned[u].request, states[a], n.lists[a], n.unassigned[u].candidates[a])
  {
    ReachableInv(p, states, root, n);
    TaskUpToDate(p, root.unassigned[u], states[a], n.lists, n.unassigned[u], a);
  }

  lemma TaskUpToDate(p: Planner, t0: Pending, s0: State, lists: Assigned, t: Pending, a: nat)
    requires TaskAgrees(p, t0, lists, t) && a < |lists|
    requires Some(t0.candidates[a]) == InitialEntry(p, t0.request, s0)
    ensures UpToDate(p, t.request, s0, lists[a], t.candidates[a])
  {
  }

  // ---- conservation ----

  /** Every task of the fresh node is unassigned or in exactly one assignment that is not a
      charging task, and never both. */
  lemma TasksConserved(p: Planner, states: seq<State>, root: Node, n: Node, u: nat)
    requires Root(p, states, root) && Reachable(p, root, n)
    ensures n.unassigned.Keys <= root.unassigned.Keys
    ensures AllTaskIds(n.lists)[u] == if u in root.unassigned && u !in n.unassigned then 1 else 0
  {
    ReachableInv(p, states, root, n);
    assert (AllTaskIds(n.lists) + multiset(n.unassigned.Keys))[u] == multiset(root.unassigned.Keys)[u];
  }

  /** The invariant set has exactly one element for each unassigned task, so that
      popping the one of a task always succeeds. */
  lemma InvariantsConserved(p: Planner, states: seq<State>, root: Node, n: Node)
    requires Root(p, states, root) && Reachable(p, root, n)
    ensures InvariantsMatch(n.invariants, n.unassigned.Keys)
  {
    ReachableInv(p, states, root, n);
    InvariantsOfMatch(root.invariants, root.unassigned.Keys, n.unassigned.Keys);
  }

  lemma InvariantsOfMatch(s: seq<Invariant>, all: set<nat>, ids: set<nat>)
    requires InvariantsMatch(s, all) && ids <= all
    ensures InvariantsMatch(InvariantsOf(s, ids), ids)
  {
    var t := InvariantsOf(s, ids);
    InvariantsOfIds(s, ids);
    forall id | id in ids ensures exists i :: 0 <= i < |t| && t[i].id == id {
      var i :| 0 <= i < |s| && s[i].id == id;
      assert s[i] in t;
    }
  }

  ghost predicate Distinct(s: seq<Invariant>) {
    forall i, j | 0 <= i < j < |s| :: s[i].id != s[j].id
  }

  lemma {:induction false} InvariantsOfIds(s: seq<Invariant>, ids: set<nat>)
    requires Distinct(s)
    ensures forall v :: v in InvariantsOf(s, ids) <==> v in s && v.id in ids
    ensures Distinct(InvariantsOf(s, ids))
  {
    if s != [] {
      assert Distinct(s[1..]);
      InvariantsOfIds(s[1..], ids);
      assert forall v :: v in s <==> v == s[0] || v in s[1..];
      var t := InvariantsOf(s[1..], ids);
      if s[0].id in ids {
        assert forall v | v in s[1..] :: v.id != s[0].id;
        assert Distinct([s[0]] + t) by {
          assert forall j | 0 <= j < |t| :: t[j] in s[1..];
        }
      } else {
        assert InvariantsOf(s, ids) == t;
      }
    }
  }

  // ---- charging tasks ----

  /** No list holds two charging tasks in a row. */
  predicate NoChargeTwice(l: seq<Wrapped>) {
    forall k | 0 <= k < |l| - 1 :: !(IsChargeTask(l[k]) && IsChargeTask(l[k + 1]))
  }

  /** In every node of the search, no agent charges twice in a row and none has only charging
      tasks. */
  lemma ChargesSeparated(p: Planner, states: seq<State>, root: Node, n: Node, a: nat)
    requires Root(p, states, root) && Reachable(p, root, n) && a < |n.lists|
    ensures NoChargeTwice(n.lists[a])
    ensures n.lists[a] != [] ==> exists k :: 0 <= k < |n.lists[a]| && !IsChargeTask(n.lists[a][k])
  {
    ReachableInv(p, states, root, n);
    ChainSeparated(p, root, a, n.lists[a]);
  }

  lemma ChainSeparated(p: Planner, root: Node, a: nat, l: seq<Wrapped>)
    requires Chain(p, root, a, l) && Proper(l)
    requires forall u | u in root.unassigned :: !root.unassigned[u].request.description.ChargeBattery?
    ensures NoChargeTwice(l)
    ensures l != [] ==> exists k :: 0 <= k < |l| && !IsChargeTask(l[k])
  {
    forall k | 0 <= k < |l| - 1 ensures !(IsChargeTask(l[k]) && IsChargeTask(l[k + 1])) {
      assert Last(l[..k + 1]) == l[k];
      if IsChargeTask(l[k]) {
        LinkNotTwice(p, root, a, l[..k + 1], l[k + 1]);
      }
    }
    if |l| > 1 {
      assert !IsChargeTask(l[0]) || !IsChargeTask(l[0 + 1]);
    }
  }

  lemma LinkNotTwice(p: Planner, root: Node, a: nat, pre: seq<Wrapped>, w: Wrapped)
    requires Link(p, root, a, pre, w) && pre != [] && IsChargeTask(Last(pre))
    requires forall u | u in root.unassigned :: !root.unassigned[u].request.description.ChargeBattery?
    ensures !IsChargeTask(w)
  {
  }

  // ---- cost and latest time ----

  function EndTime(l: seq<Wrapped>): Time
    requires l != []
  {
    Last(l).assignment.finish.time
  }

  /** `t` is the latest time at which an agent ends its assignments. */
  ghost predicate IsLatestFinish(lists: Assigned, t: Time) {
    && (exists a :: 0 <= a < |lists| && lists[a] != [] && EndTime(lists[a]) == t)
    && (forall a | 0 <= a < |lists| && lists[a] != [] :: EndTime(lists[a]) <= t)
  }

  lemma {:induction false} LatestFinishMeaning(lists: Assigned, a: nat)
    requires a < |lists| && lists[a] != []
    requires forall b | 0 <= b < |lists| && lists[b] != [] :: TIME_MIN < EndTime(lists[b])
    ensures IsLatestFinish(lists, LatestFinish(lists))
  {
    var rest := lists[1..];
    if forall b | 0 <= b < |rest| :: rest[b] == [] {
      NoFinish(rest);
      assert lists[0] != [];
    } else {
      var b :| 0 <= b < |rest| && rest[b] != [];
      LatestFinishMeaning(rest, b);
      var c :| 0 <= c < |rest| && rest[c] != [] && EndTime(rest[c]) == LatestFinish(rest);
      assert lists[c + 1] == rest[c];
      forall d | 0 < d < |lists| && lists[d] != []
        ensures EndTime(lists[d]) <= LatestFinish(lists)
      {
        assert rest[d - 1] == lists[d];
      }
    }
  }

  lemma {:induction false} NoFinish(lists: Assigned)
    requires forall b | 0 <= b < |lists| :: lists[b] == []
    ensures LatestFinish(lists) == TIME_MIN
  {
    if lists != [] {
      NoFinish(lists[1..]);
    }
  }

  /** Every node of the search, once something is assigned, carries the cost that the calculator gives its
      assignments, its unassigned tasks and their invariants, and the latest time at which an agent ends its
      assignments. */
  lemma NodeRated(p: Planner, states: seq<State>, root: Node, n: Node, a: nat)
    requires Root(p, states, root) && Reachable(p, root, n) && a < |n.lists| && n.lists[a] != []
    requires forall b | 0 <= b < |n.lists| && n.lists[b] != [] :: TIME_MIN < EndTime(n.lists[b])
    ensures n.cost == p.cost(n.lists, n.unassigned, n.invariants) && IsLatestFinish(n.lists, n.latest)
  {
    hide Root, Reachable;
    ReachableInv(p, states, root, n);
    LatestFinishMeaning(n.lists, a);
  }

  /** A finished node is at the end of its segment: it cannot be expanded by assigning a task. */
  lemma FinishedAssignsNothing(p: Planner, n: Node, u: nat, a: nat)
    requires Finished(n)
    ensures Apply(p, n, Assign(u, a)).None?
  {
  }
}
