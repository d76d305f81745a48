/** What the cost of a node means for the search: how priorities change it, and when agents enter the estimate. */
module CostMeaning {
  import opened Domain
  import opened PlannerNode
  import opened PlannerTheorems
  import opened CostCalculator

  // ---- what the priority check looks at ----

  ghost predicate NoPriority(l: seq<Wrapped>, k: nat) {
    forall i | k <= i < |l| :: !l[i].assignment.request.priority
  }

  ghost predicate TwoPriorities(l: seq<Wrapped>, k: nat) {
    exists i, j :: k <= i < j < |l| && l[i].assignment.request.priority && l[j].assignment.request.priority
  }

  lemma {:induction false} CountMeaning(l: seq<Wrapped>, k: nat)
    ensures PriorityCount(l, k) == 0 <==> NoPriority(l, k)
    ensures PriorityCount(l, k) >= 2 <==> TwoPriorities(l, k)
    decreases |l| - k
  {
    if k < |l| {
      CountMeaning(l, k + 1);
    }
  }

  /** No agent has two priority requests while another one has none. */
  ghost predicate Shared(lists: Assigned) {
    forall a, b | 0 <= a < |lists| && 0 <= b < |lists| :: !(TwoPriorities(lists[a], 0) && NoPriority(lists[b], 0))
  }

  lemma BalancedMeaning(lists: Assigned)
    ensures Balanced(lists) <==> Shared(lists)
  {
    hide PriorityCount, NoPriority, TwoPriorities;
    forall a | 0 <= a < |lists|
      ensures PriorityCount(lists[a], 0) == 0 <==> NoPriority(lists[a], 0)
      ensures PriorityCount(lists[a], 0) >= 2 <==> TwoPriorities(lists[a], 0)
    {
      CountMeaning(lists[a], 0);
    }
  }

  /** Up to some place in the list there are only priority requests, and from there on none, charges aside. */
  ghost predicate Split(l: seq<Wrapped>, k: nat) {
    && (forall i | 0 <= i < k && i < |l| :: IsCharge(l[i].assignment) || l[i].assignment.request.priority)
    && (forall i | k <= i < |l| :: IsCharge(l[i].assignment) || !l[i].assignment.request.priority)
  }

  lemma {:induction false} SplitExists(l: seq<Wrapped>) returns (k: nat)
    requires PriorityFirst(l)
    ensures k <= |l| && Split(l, k)
  {
    if l == [] {
      k := 0;
    } else {
      var rest := l[1..];
      assert PriorityFirst(rest);
      var j := SplitExists(rest);
      if IsCharge(l[0].assignment) || l[0].assignment.request.priority {
        k := j + 1;
        assert forall i | 0 < i < |l| :: l[i] == rest[i - 1];
      } else {
        k := 0;
      }
    }
  }

  ghost predicate UpFront(l: seq<Wrapped>) {
    exists k: nat :: k <= |l| && Split(l, k)
  }

  lemma OrderMeaning(l: seq<Wrapped>)
    ensures PriorityFirst(l) <==> UpFront(l)
  {
    if PriorityFirst(l) {
      var k := SplitExists(l);
    }
  }

  // ---- what priorities cost ----

  /** An agent has nothing but charges to do. */
  ghost predicate JustCharges(l: seq<Wrapped>) {
    l != [] && forall i | 0 <= i < |l| :: IsCharge(l[i].assignment)
  }

  /** The check succeeds: priority requests are shared out, and come first for every agent up to one that has only
      charges. */
  ghost predicate Respects(lists: Assigned) {
    && Shared(lists)
    && forall a | 0 <= a < |lists| && (forall b | 0 <= b < a :: !JustCharges(lists[b])) :: UpFront(lists[a])
  }

  lemma RespectsMeaning(lists: Assigned)
    ensures Respects(lists) <==> Balanced(lists) && OrderedUpToIdle(lists)
  {
    BalancedMeaning(lists);
    hide Shared, Balanced, PriorityFirst, UpFront, OnlyCharges, JustCharges;
    forall a | 0 <= a < |lists|
      ensures UpFront(lists[a]) <==> PriorityFirst(lists[a])
      ensures JustCharges(lists[a]) <==> OnlyCharges(lists[a])
    {
      OrderMeaning(lists[a]);
      ChargesMeaning(lists[a]);
    }
  }

  lemma ChargesMeaning(l: seq<Wrapped>)
    ensures JustCharges(l) <==> OnlyCharges(l)
  {
  }

  /** With and without priorities, a node costs the same if it respects them, and the penalty times as much if not. */
  lemma PenaltyIff(duration: Request -> int, timeNow: Time, penalty: real, lists: Assigned, un: map<nat, Pending>,
                   inv: seq<Invariant>, with: real, without: real)
    requires CostOf(duration, timeNow, true, penalty, lists, un, inv, with)
    requires CostOf(duration, timeNow, false, penalty, lists, un, inv, without)
    ensures with == if Respects(lists) then without else penalty * without
  {
    hide Heuristic, Balanced, OrderedUpToIdle, AssignedCost, Respects;
    RespectsMeaning(lists);
    var g :| Heuristic(duration, timeNow, lists, un, inv, g)
             && with == Penalized(true, penalty, lists, AssignedCost(lists) + g);
    var h :| Heuristic(duration, timeNow, lists, un, inv, h)
             && without == Penalized(false, penalty, lists, AssignedCost(lists) + h);
    HeuristicUnique(duration, timeNow, lists, un, inv, g, h);
  }

  /** Of two nodes that would cost the same without priorities, one that respects them is cheaper than one that does
      not. */
  lemma RespectingIsCheaper(duration: Request -> int, timeNow: Time, penalty: real, cost: real,
                            x: Node, y: Node, costX: real, costY: real)
    requires penalty > 1.0 && cost > 0.0 && Respects(x.lists) && !Respects(y.lists)
    requires CostOf(duration, timeNow, false, penalty, x.lists, x.unassigned, x.invariants, cost)
    requires CostOf(duration, timeNow, false, penalty, y.lists, y.unassigned, y.invariants, cost)
    requires CostOf(duration, timeNow, true, penalty, x.lists, x.unassigned, x.invariants, costX)
    requires CostOf(duration, timeNow, true, penalty, y.lists, y.unassigned, y.invariants, costY)
    ensures costX < costY
  {
    hide CostOf, Respects;
    PenaltyIff(duration, timeNow, penalty, x.lists, x.unassigned, x.invariants, costX, cost);
    PenaltyIff(duration, timeNow, penalty, y.lists, y.unassigned, y.invariants, costY, cost);
    Dearer(penalty, cost);
  }

  lemma Dearer(penalty: real, cost: real)
    requires penalty > 1.0 && cost > 0.0
    ensures cost < penalty * cost
  {
  }

  /** Without priority requests there is nothing to respect. */
  lemma NoPriorities(lists: Assigned)
    requires forall a, i | 0 <= a < |lists| && 0 <= i < |lists[a]| :: !lists[a][i].assignment.request.priority
    ensures Respects(lists)
  {
    forall a | 0 <= a < |lists| ensures UpFront(lists[a]) && NoPriority(lists[a], 0) {
      assert Split(lists[a], 0);
    }
  }

  /** In the nodes of a search no agent has only charges, so all agents are looked at. */
  lemma RespectsOfNode(p: Planner, states: seq<State>, root: Node, n: Node)
    requires Root(p, states, root) && Reachable(p, root, n)
    ensures Respects(n.lists) <==> Shared(n.lists) && forall a | 0 <= a < |n.lists| :: UpFront(n.lists[a])
  {
    hide Root, Reachable, Shared, UpFront;
    forall a | 0 <= a < |n.lists| ensures !JustCharges(n.lists[a]) {
      ChargesSeparated(p, states, root, n, a);
    }
  }
}
