/** What one segment of a plan hands over to the next: consistent assignments, the remaining
    requests, and agents that can still perform all of them. */
module PlannerSegments {
  import opened Domain
  import opened PlannerNode
  import opened PlannerInvariant
  import opened PlannerTheorems
  import Bags

  // ---- consistent assignments ----

  /** An assignment is what the model of its request predicts from state `s`. */
  ghost predicate Predicted(p: Planner, s: State, x: Assignment) {
    (if IsCharge(x) then p.charge(s) else Finish(p, x.request, s)) == Some(Estimate(x.finish, x.deployment))
  }

  function EndState(l: seq<Assignment>, s: State): State {
    if l == [] then s else Last(l).finish
  }

  /** Every assignment is predicted from the state in which the previous one ends, and the first
      one from `s`. */
  ghost predicate Consistent(p: Planner, s: State, l: seq<Assignment>) {
    forall k | 0 <= k < |l| :: Predicted(p, EndState(l[..k], s), l[k])
  }

  lemma ConsistentConcat(p: Planner, s: State, x: seq<Assignment>, y: seq<Assignment>)
    requires Consistent(p, s, x) && Consistent(p, EndState(x, s), y)
    ensures Consistent(p, s, x + y)
  {
    hide Predicted;
    forall k | 0 <= k < |x + y| ensures Predicted(p, EndState((x + y)[..k], s), (x + y)[k]) {
      if k < |x| {
        assert (x + y)[..k] == x[..k];
      } else {
        assert (x + y)[..k] == x + y[..k - |x|];
        assert EndState((x + y)[..k], s) == EndState(y[..k - |x|], EndState(x, s));
      }
    }
  }

  lemma ConsistentPrefix(p: Planner, s: State, l: seq<Assignment>, k: nat)
    requires Consistent(p, s, l) && k <= |l|
    ensures Consistent(p, s, l[..k])
  {
  }

  function Plain(l: seq<Wrapped>): (r: seq<Assignment>)
    ensures |r| == |l|
    ensures forall k | 0 <= k < |l| :: r[k] == l[k].assignment
  {
    seq(|l|, k requires 0 <= k < |l| => l[k].assignment)
  }

  /** What an entry of a fresh node says about the assignment that follows from it. */
  lemma LinkPredicted(p: Planner, root: Node, a: nat, s: State, l: seq<Wrapped>, k: nat)
    requires Chain(p, root, a, l) && k < |l|
    requires forall u | u in root.unassigned ::
               && !root.unassigned[u].request.description.ChargeBattery?
               && a in root.unassigned[u].candidates
               && Some(root.unassigned[u].candidates[a]) == InitialEntry(p, root.unassigned[u].request, s)
    ensures Predicted(p, LastState(l[..k], s), l[k].assignment)
  {
  }

  lemma LastStatePlain(l: seq<Wrapped>, k: nat, s: State)
    requires k <= |l|
    ensures EndState(Plain(l)[..k], s) == LastState(l[..k], s)
  {
  }

  /** The assignments of every agent in every node of the search are consistent. */
  lemma NodeConsistent(p: Planner, states: seq<State>, root: Node, n: Node, a: nat)
    requires Root(p, states, root) && Inv(p, root, n) && a < |states|
    ensures |n.lists| == |states| && Consistent(p, states[a], Plain(n.lists[a]))
  {
    var l := n.lists[a];
    RootEntries(p, states, root, a);
    ListConsistent(p, root, a, states[a], l);
  }

  lemma RootEntries(p: Planner, states: seq<State>, root: Node, a: nat)
    requires Root(p, states, root) && a < |states|
    ensures forall u | u in root.unassigned ::
              && !root.unassigned[u].request.description.ChargeBattery?
              && a in root.unassigned[u].candidates
              && Some(root.unassigned[u].candidates[a]) == InitialEntry(p, root.unassigned[u].request, states[a])
  {
    hide InitialEntry;
  }

  lemma ListConsistent(p: Planner, root: Node, a: nat, s: State, l: seq<Wrapped>)
    requires Chain(p, root, a, l)
    requires forall u | u in root.unassigned ::
               && !root.unassigned[u].request.description.ChargeBattery?
               && a in root.unassigned[u].candidates
               && Some(root.unassigned[u].candidates[a]) == InitialEntry(p, root.unassigned[u].request, s)
    ensures Consistent(p, s, Plain(l))
  {
    hide Chain, InitialEntry, Predicted;
    forall k | 0 <= k < |l| ensures Predicted(p, EndState(Plain(l)[..k], s), Plain(l)[k]) {
      LinkPredicted(p, root, a, s, l, k);
      LastStatePlain(l, k, s);
    }
  }

  // ---- pruning ----

  /** `prune_assignments` for one agent: drops a charging task at the end. */
  function Pruned(l: seq<Wrapped>): seq<Wrapped> {
    if l != [] && IsChargeTask(Last(l)) then l[..|l| - 1] else l
  }

  /** A plan of an agent that ends with a task and never charges twice in a row. */
  ghost predicate Settled(l: seq<Assignment>) {
    && (l != [] ==> !IsCharge(Last(l)))
    && forall k | 0 <= k < |l| - 1 :: !(IsCharge(l[k]) && IsCharge(l[k + 1]))
  }

  lemma SettledConcat(x: seq<Assignment>, y: seq<Assignment>)
    requires Settled(x) && Settled(y)
    ensures Settled(x + y)
  {
  }

  lemma PrunedSettled(l: seq<Wrapped>)
    requires NoChargeTwice(l)
    ensures Settled(Plain(Pruned(l)))
  {
  }

  /** After the charging task at its end is dropped, every agent can still perform every remaining
      request, if need be by charging first. */
  lemma NextCapable(p: Planner, root: Node, a: nat, s: State, l: seq<Wrapped>, r: Request, e: Entry)
    requires Chain(p, root, a, l) && Proper(l)
    requires forall u | u in root.unassigned :: !root.unassigned[u].request.description.ChargeBattery?
    requires UpToDate(p, r, s, l, e)
    ensures InitialEntry(p, r, EndState(Plain(Pruned(l)), s)).Some?
  {
  }

  // ---- requests ----

  /** The requests of the assignments that are not charging tasks. */
  function RequestBag(l: seq<Assignment>): multiset<Request> {
    if l == [] then multiset{}
    else RequestBag(l[..|l| - 1]) + (if IsCharge(Last(l)) then multiset{} else multiset{Last(l).request})
  }

  function PlanBag(plan: seq<seq<Assignment>>): multiset<Request> {
    if plan == [] then multiset{} else RequestBag(plan[0]) + PlanBag(plan[1..])
  }

  function PlainLists(lists: Assigned): (r: seq<seq<Assignment>>)
    ensures |r| == |lists|
    ensures forall a | 0 <= a < |lists| :: r[a] == Plain(lists[a])
  {
    seq(|lists|, a requires 0 <= a < |lists| => Plain(lists[a]))
  }

  /** The requests of the unassigned tasks. */
  ghost function PendingBag(un: map<nat, Pending>): multiset<Request> {
    if un == map[] then multiset{}
    else
      var u :| u in un;
      multiset{un[u].request} + PendingBag(un - {u})
  }

  lemma FewerPending(un: map<nat, Pending>, u: nat)
    requires u in un
    ensures |un - {u}| == |un| - 1
  {
  }

  lemma SwapBags(un: map<nat, Pending>, u: nat, v: nat)
    requires u in un && v in un && u != v
    ensures un - {v} - {u} == un - {u} - {v}
    ensures var rest := PendingBag(un - {u} - {v});
            multiset{un[v].request} + (multiset{un[u].request} + rest)
            == multiset{un[u].request} + (multiset{un[v].request} + rest)
  {
  }

  lemma {:induction false} PendingBagAt(un: map<nat, Pending>, u: nat)
    requires u in un
    ensures PendingBag(un) == multiset{un[u].request} + PendingBag(un - {u})
    decreases |un|
  {
    var v :| v in un && PendingBag(un) == multiset{un[v].request} + PendingBag(un - {v});
    hide PendingBag;
    if u != v {
      FewerPending(un, u);
      FewerPending(un, v);
      PendingBagAt(un - {v}, u);
      PendingBagAt(un - {u}, v);
      SwapBags(un, u, v);
    }
  }

  lemma {:induction false} PendingBagSame(x: map<nat, Pending>, y: map<nat, Pending>)
    requires x.Keys == y.Keys && forall u | u in x :: x[u].request == y[u].request
    ensures PendingBag(x) == PendingBag(y)
    decreases |x|
  {
    if x == map[] {
      assert y == map[];
    } else {
      var u :| u in x;
      PendingBagAt(x, u);
      PendingBagAt(y, u);
      FewerPending(x, u);
      PendingBagSame(x - {u}, y - {u});
    }
  }

  lemma RequestBagSnoc(l: seq<Assignment>, x: Assignment)
    ensures RequestBag(l + [x]) == RequestBag(l) + (if IsCharge(x) then multiset{} else multiset{x.request})
  {
  }

  lemma {:induction false} RequestBagConcat(x: seq<Assignment>, y: seq<Assignment>)
    ensures RequestBag(x + y) == RequestBag(x) + RequestBag(y)
  {
    if y == [] {
      assert x + y == x;
    } else {
      hide RequestBag;
      var y', w := y[..|y| - 1], y[|y| - 1];
      assert y == y' + [w];
      RequestBagConcat(x, y');
      ConcatStep(x, y', w);
    }
  }

  lemma ConcatStep(x: seq<Assignment>, y: seq<Assignment>, w: Assignment)
    requires RequestBag(x + y) == RequestBag(x) + RequestBag(y)
    ensures RequestBag(x + (y + [w])) == RequestBag(x) + RequestBag(y + [w])
  {
    hide RequestBag;
    RequestBagSnoc(x + y, w);
    RequestBagSnoc(y, w);
    assert x + y + [w] == x + (y + [w]);
    Bags.Associate(RequestBag(x), RequestBag(y), if IsCharge(w) then multiset{} else multiset{w.request});
  }

  lemma {:induction false} UpdateBag(plan: seq<seq<Assignment>>, a: nat, l: seq<Assignment>)
    requires a < |plan|
    ensures PlanBag(plan[a := l]) + RequestBag(plan[a]) == PlanBag(plan) + RequestBag(l)
  {
    if a == 0 {
      assert plan[a := l][1..] == plan[1..];
    } else {
      hide RequestBag;
      assert plan[a := l][1..] == plan[1..][a - 1 := l];
      UpdateBag(plan[1..], a - 1, l);
      assert PlanBag(plan[a := l]) == RequestBag(plan[0]) + PlanBag(plan[1..][a - 1 := l]);
      Bags.Behind(RequestBag(plan[0]), PlanBag(plan[1..][a - 1 := l]), RequestBag(plan[a]),
                  PlanBag(plan[1..]), RequestBag(l));
    }
  }

  /** Replacing the list of one agent changes the bag of the plan by what it adds. */
  lemma GrowBag(lists: Assigned, a: nat, l: seq<Wrapped>, w: multiset<Request>)
    requires a < |lists| && RequestBag(Plain(l)) == RequestBag(Plain(lists[a])) + w
    ensures PlanBag(PlainLists(lists[a := l])) == PlanBag(PlainLists(lists)) + w
  {
    hide RequestBag, PlanBag;
    UpdateBag(PlainLists(lists), a, Plain(l));
    assert PlainLists(lists)[a := Plain(l)] == PlainLists(lists[a := l]);
    Bags.Cancel(PlanBag(PlainLists(lists[a := l])), RequestBag(Plain(lists[a])), PlanBag(PlainLists(lists)), w);
  }

  lemma PlainSnoc(l: seq<Wrapped>, w: Wrapped)
    ensures RequestBag(Plain(l + [w]))
            == RequestBag(Plain(l)) + (if IsChargeTask(w) then multiset{} else multiset{w.assignment.request})
  {
    assert Plain(l + [w]) == Plain(l) + [w.assignment];
    RequestBagSnoc(Plain(l), w.assignment);
  }

  lemma AppendedBag(p: Planner, l: seq<Wrapped>, u: nat, r: Request, e: Entry)
    requires !r.description.ChargeBattery?
    ensures RequestBag(Plain(Appended(p, l, u, r, e))) == RequestBag(Plain(l)) + multiset{r}
  {
    hide RequestBag;
    var task := Wrapped(u, Assignment(r, e.state, e.waitUntil));
    PlainSnoc(l, task);
    if e.requireCharge && p.charge(e.previous).Some? {
      var c := ChargingTask(u, e.previous, p.charge(e.previous).value);
      PlainSnoc(l, c);
      PlainSnoc(l + [c], task);
      assert l + [c] + [task] == l + [c, task];
    }
  }

  /** The requests that a node has assigned and those it has not. */
  ghost function NodeBag(n: Node): multiset<Request> {
    PlanBag(PlainLists(n.lists)) + PendingBag(n.unassigned)
  }

  lemma ReestimateBag(p: Planner, un: map<nat, Pending>, a: nat, from: State, previous: State)
    requires Reestimate(p, un, a, from, previous).Some?
    ensures PendingBag(Reestimate(p, un, a, from, previous).value) == PendingBag(un)
  {
    hide PendingBag;
    PendingBagSame(Reestimate(p, un, a, from, previous).value, un);
  }

  lemma AssignChargeBag(p: Planner, lists: Assigned, un: map<nat, Pending>, inv: seq<Invariant>, a: nat, s: State)
    requires a < |lists| && AssignCharge(p, lists, un, inv, a, s).Some?
    ensures var m := AssignCharge(p, lists, un, inv, a, s).value;
            PlanBag(PlainLists(m.lists)) == PlanBag(PlainLists(lists)) && PendingBag(m.unassigned) == PendingBag(un)
  {
    hide PendingBag, PlanBag, RequestBag;
    var b := p.charge(s).value;
    var w := ChargingTask(CHARGING_ID, s, b);
    ReestimateBag(p, un, a, b.finish, s);
    PlainSnoc(lists[a], w);
    GrowBag(lists, a, lists[a] + [w], multiset{});
  }

  lemma AssignBag(p: Planner, n: Node, u: nat, a: nat)
    requires u in n.unassigned && a in n.unassigned[u].candidates && a < |n.lists|
    requires AssignTask(p, n, u, a).Some? && !n.unassigned[u].request.description.ChargeBattery?
    ensures NodeBag(AssignTask(p, n, u, a).value) == NodeBag(n)
  {
    hide PendingBag, PlanBag, RequestBag;
    var e := n.unassigned[u].candidates[a];
    var r := n.unassigned[u].request;
    var l := Appended(p, n.lists[a], u, r, e);
    var rest := n.unassigned - {u};
    AppendedBag(p, n.lists[a], u, r, e);
    GrowBag(n.lists, a, l, multiset{r});
    PendingBagAt(n.unassigned, u);
    if Reestimate(p, rest, a, e.state, e.state).Some? {
      ReestimateBag(p, rest, a, e.state, e.state);
    } else {
      AssignChargeBag(p, n.lists[a := l], rest, WithoutInvariant(n.invariants, u), a, e.state);
    }
    Bags.Associate(PlanBag(PlainLists(n.lists)), multiset{r}, PendingBag(rest));
  }

  lemma StepBag(p: Planner, root: Node, n: Node, act: Action)
    requires TasksAgree(p, root, n.lists, n.unassigned) && Apply(p, n, act).Some?
    requires forall u | u in root.unassigned :: !root.unassigned[u].request.description.ChargeBattery?
    ensures NodeBag(Apply(p, n, act).value) == NodeBag(n)
  {
    hide PendingBag, PlanBag, RequestBag;
    match act
    case Assign(u, a) =>
      assert TaskAgrees(p, root.unassigned[u], n.lists, n.unassigned[u]);
      AssignBag(p, n, u, a);
    case Recharge(a) =>
      AssignChargeBag(p, n.lists, n.unassigned, n.invariants, a, Last(n.lists[a]).assignment.finish);
  }

  lemma {:induction false} RunBag(p: Planner, states: seq<State>, root: Node, acts: seq<Action>)
    requires Root(p, states, root)
    ensures Run(p, root, acts).Some? ==> NodeBag(Run(p, root, acts).value) == NodeBag(root)
  {
    hide NodeBag;
    if acts != [] && Run(p, root, acts).Some? {
      var pre := acts[..|acts| - 1];
      RunBag(p, states, root, pre);
      RunInv(p, states, root, pre);
      StepBag(p, root, Run(p, root, pre).value, Last(acts));
    }
  }

  lemma {:induction false} EmptyBag(plan: seq<seq<Assignment>>)
    requires forall a | 0 <= a < |plan| :: plan[a] == []
    ensures PlanBag(plan) == multiset{}
  {
    if plan != [] {
      EmptyBag(plan[1..]);
    }
  }

  /** In every node of the search, the requests of the fresh node are those that are assigned
      together with those that are not, each as often as it was there. */
  lemma RequestsConserved(p: Planner, states: seq<State>, root: Node, n: Node)
    requires Root(p, states, root) && Reachable(p, root, n)
    ensures PlanBag(PlainLists(n.lists)) + PendingBag(n.unassigned) == PendingBag(root.unassigned)
  {
    var acts :| Run(p, root, acts) == Some(n);
    RunBag(p, states, root, acts);
    assert forall a | 0 <= a < |root.lists| :: root.lists[a] == [];
    EmptyBag(PlainLists(root.lists));
    assert multiset{} + PendingBag(root.unassigned) == PendingBag(root.unassigned);
  }
}
