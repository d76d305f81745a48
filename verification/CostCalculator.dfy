/** `BinaryPriorityCostCalculator`: the cost of a node, and the check that priority tasks are
    served first. */
module CostCalculator {
  import opened Domain
  import opened PlannerNode
  import opened PlannerFresh
  import opened PlannerTheorems
  import Queue = HeuristicQueue

  // ---- priorities ----

  function IsPriority(w: Wrapped): bool {
    w.assignment.request.priority
  }

  /** The number of priority tasks of an agent, from assignment `k` on. */
  function PriorityCount(l: seq<Wrapped>, k: nat): nat
    decreases |l| - k
  {
    if k >= |l| then 0 else (if IsPriority(l[k]) then 1 else 0) + PriorityCount(l, k + 1)
  }

  /** No agent has two priority tasks while another has none. */
  ghost predicate Balanced(lists: Assigned) {
    !(exists a, b :: 0 <= a < |lists| && 0 <= b < |lists|
                     && PriorityCount(lists[a], 0) >= 2 && PriorityCount(lists[b], 0) == 0)
  }

  /** Leaving charging tasks aside, the priority tasks of an agent all come first. */
  ghost predicate PriorityFirst(l: seq<Wrapped>) {
    forall i, j | 0 <= i < j < |l| && !IsChargeTask(l[i]) && !IsChargeTask(l[j]) ::
      IsPriority(l[j]) ==> IsPriority(l[i])
  }

  ghost predicate OnlyCharges(l: seq<Wrapped>) {
    l != [] && forall k | 0 <= k < |l| :: IsChargeTask(l[k])
  }

  /** The agents are looked at in order, and one that has only charging tasks ends the
      check. */
  ghost predicate OrderedUpToIdle(lists: Assigned) {
    forall a | 0 <= a < |lists| && (forall b | 0 <= b < a :: !OnlyCharges(lists[b])) :: PriorityFirst(lists[a])
  }

  method CountPriority(lists: Assigned) returns (counts: seq<nat>)
    ensures |counts| == |lists| && forall a | 0 <= a < |lists| :: counts[a] == PriorityCount(lists[a], 0)
  {
    counts := seq(|lists|, i => 0);
    for i := 0 to |lists|
      invariant |counts| == |lists|
      invariant forall a | 0 <= a < |lists| :: counts[a] == if a < i then PriorityCount(lists[a], 0) else 0
    {
      for k := 0 to |lists[i]|
        invariant |counts| == |lists|
        invariant forall a | 0 <= a < |lists| && a != i :: counts[a] == if a < i then PriorityCount(lists[a], 0) else 0
        invariant counts[i] + PriorityCount(lists[i], k) == PriorityCount(lists[i], 0)
      {
        if IsPriority(lists[i][k]) {
          counts := counts[i := counts[i] + 1];
        }
      }
    }
  }

  /** The first step of `valid_assignment_priority`. */
  method CheckBalanced(lists: Assigned) returns (ok: bool)
    requires lists != []
    ensures ok == Balanced(lists)
  {
    var counts := CountPriority(lists);
    var max, most := counts[0], 0;
    for i := 1 to |counts|
      invariant most < i && counts[most] == max
      invariant forall a | 0 <= a < i :: counts[a] <= max
    {
      if counts[i] > max {
        max, most := counts[i], i;
      }
    }
    if max > 1 {
      for i := 0 to |counts|
        invariant forall a | 0 <= a < i :: counts[a] != 0
      {
        if counts[i] == 0 {
          return false;
        }
      }
    }
    return true;
  }

  /** The second step, for one agent. `stop` says that the agent has only charging tasks. */
  method CheckOrder(l: seq<Wrapped>) returns (ok: bool, stop: bool)
    ensures stop == OnlyCharges(l)
    ensures !stop ==> ok == PriorityFirst(l)
  {
    if l == [] {
      return true, false;
    }
    var i := 0;
    while IsChargeTask(l[i])
      invariant 0 <= i < |l|
      invariant forall k | 0 <= k < i :: IsChargeTask(l[k])
      decreases |l| - i
    {
      i := i + 1;
      if i == |l| {
        return true, true;
      }
    }
    stop := false;
    var first := i;
    var previous := IsPriority(l[i]);
    i := i + 1;
    ghost var last := first;
    while i < |l|
      invariant first <= last < i <= |l| && !IsChargeTask(l[last]) && previous == IsPriority(l[last])
      invariant forall k | last < k < i :: IsChargeTask(l[k])
      invariant PriorityFirst(l[..i])
    {
      if !IsChargeTask(l[i]) {
        var current := IsPriority(l[i]);
        if !previous && current {
          assert !PriorityFirst(l);
          return false, false;
        }
        FirstExtends(l, last, i);
        previous := current;
        last := i;
      } else {
        FirstExtendsCharge(l, i);
      }
      i := i + 1;
    }
    assert l[..i] == l;
    ok := true;
  }

  lemma FirstExtends(l: seq<Wrapped>, last: nat, i: nat)
    requires last < i < |l| && PriorityFirst(l[..i]) && !IsChargeTask(l[last])
    requires forall k | last < k < i :: IsChargeTask(l[k])
    requires IsPriority(l[i]) ==> IsPriority(l[last])
    ensures PriorityFirst(l[..i + 1])
  {
  }

  lemma FirstExtendsCharge(l: seq<Wrapped>, i: nat)
    requires i < |l| && PriorityFirst(l[..i]) && IsChargeTask(l[i])
    ensures PriorityFirst(l[..i + 1])
  {
  }

  /** `valid_assignment_priority`. The first agent that has only charging tasks ends the
      check with success, whatever the agents after it do. */
  method ValidPriority(lists: Assigned) returns (ok: bool)
    requires lists != []
    ensures ok == (Balanced(lists) && OrderedUpToIdle(lists))
  {
    hide Balanced, PriorityFirst, OnlyCharges;
    ok := CheckBalanced(lists);
    if !ok {
      return;
    }
    for i := 0 to |lists|
      invariant forall a | 0 <= a < i :: !OnlyCharges(lists[a]) && PriorityFirst(lists[a])
    {
      var stop;
      ok, stop := CheckOrder(lists[i]);
      if stop {
        ChargesAreOrdered(lists[i]);
        return true;
      }
      if !ok {
        return false;
      }
    }
    return true;
  }

  lemma ChargesAreOrdered(l: seq<Wrapped>)
    requires OnlyCharges(l)
    ensures PriorityFirst(l)
  {
  }

  ghost predicate AllOrdered(lists: Assigned) {
    forall a | 0 <= a < |lists| :: PriorityFirst(lists[a])
  }

  /** Balanced lists in which an agent that has only charging tasks, behind agents that are in order,
      hides one that is out of order. */
  ghost predicate Deceptive(lists: Assigned) {
    && Balanced(lists)
    && exists b, a :: 0 <= b < a < |lists| && OnlyCharges(lists[b]) && !PriorityFirst(lists[a])
                      && forall c | 0 <= c < b :: PriorityFirst(lists[c])
  }

  /** The check means what it should, that the lists are balanced and all in order, exactly for the lists
      that are not deceptive. */
  lemma PriorityCheckExact(lists: Assigned)
    ensures ((Balanced(lists) && OrderedUpToIdle(lists)) <==> (Balanced(lists) && AllOrdered(lists)))
            <==> !Deceptive(lists)
  {
    hide PriorityFirst, OnlyCharges, Balanced;
    if Balanced(lists) && OrderedUpToIdle(lists) && !AllOrdered(lists) {
      var a :| 0 <= a < |lists| && !PriorityFirst(lists[a]);
      var b := FirstIdle(lists, a);
    }
    if Deceptive(lists) {
      var b, a :| 0 <= b < a < |lists| && OnlyCharges(lists[b]) && !PriorityFirst(lists[a])
                  && forall c | 0 <= c < b :: PriorityFirst(lists[c]);
      ChargesAreOrdered(lists[b]);
    }
  }

  lemma FirstIdle(lists: Assigned, a: nat) returns (b: nat)
    requires a < |lists| && OrderedUpToIdle(lists) && !PriorityFirst(lists[a])
    ensures b < a && OnlyCharges(lists[b]) && forall c | 0 <= c < b :: PriorityFirst(lists[c])
  {
    hide PriorityFirst, OnlyCharges;
    b := LeastIdle(lists, 0, a);
  }

  lemma {:induction false} LeastIdle(lists: Assigned, k: nat, a: nat) returns (b: nat)
    requires k <= a < |lists| && (forall c | 0 <= c < k :: !OnlyCharges(lists[c]))
    requires exists c :: k <= c < a && OnlyCharges(lists[c])
    ensures b < a && OnlyCharges(lists[b]) && forall c | 0 <= c < b :: !OnlyCharges(lists[c])
    decreases a - k
  {
    hide OnlyCharges;
    if OnlyCharges(lists[k]) {
      b := k;
    } else {
      b := LeastIdle(lists, k + 1, a);
    }
  }

  /** There are deceptive lists. */
  lemma DeceptiveExists(s: State)
    ensures var charge := Wrapped(0, Assignment(ChargingRequest(s.time), s, s.time));
            var normal := Wrapped(1, Assignment(Request(1, 0, false, Composed(0)), s, s.time));
            var urgent := Wrapped(2, Assignment(Request(2, 0, true, Composed(0)), s, s.time));
            Deceptive([[charge], [normal, urgent]])
  {
    var charge := Wrapped(0, Assignment(ChargingRequest(s.time), s, s.time));
    var normal := Wrapped(1, Assignment(Request(1, 0, false, Composed(0)), s, s.time));
    var urgent := Wrapped(2, Assignment(Request(2, 0, true, Composed(0)), s, s.time));
    var lists := [[charge], [normal, urgent]];
    assert PriorityCount(lists[0], 1) == 0 && PriorityCount(lists[0], 0) == 0;
    assert PriorityCount(lists[1], 2) == 0 && PriorityCount(lists[1], 1) == 1 && PriorityCount(lists[1], 0) == 1;
    assert Balanced(lists);
    assert !PriorityFirst(lists[1]) by {
      assert !IsPriority(lists[1][0]) && IsPriority(lists[1][1]);
    }
    assert OnlyCharges(lists[0]);
  }

  /** In the nodes of a search no agent has only charging tasks, so the check means that no agent has
      two priority tasks while another has none, and that every agent serves its priority tasks
      first. */
  lemma PriorityCheckOfNode(p: Planner, states: seq<State>, root: Node, n: Node)
    requires Root(p, states, root) && Reachable(p, root, n)
    ensures OrderedUpToIdle(n.lists) <==> AllOrdered(n.lists)
  {
    hide PriorityFirst, Root, Reachable;
    forall a | 0 <= a < |n.lists| ensures !OnlyCharges(n.lists[a]) {
      ChargesSeparated(p, states, root, n, a);
    }
  }

  // ---- cost ----

  /** What an assignment costs: nothing if it is a charging task. */
  function AssignmentCost(x: Assignment): real {
    if IsCharge(x) then 0.0 else Seconds(x.finish.time - x.request.earliestStart)
  }

  function ListCost(l: seq<Wrapped>): real {
    if l == [] then 0.0 else AssignmentCost(l[0].assignment) + ListCost(l[1..])
  }

  function AssignedCost(lists: Assigned): real {
    if lists == [] then 0.0 else ListCost(lists[0]) + AssignedCost(lists[1..])
  }

  /** `compute_g` */
  method ComputeG(lists: Assigned) returns (cost: real)
    ensures cost == AssignedCost(lists)
  {
    cost := 0.0;
    for i := 0 to |lists|
      invariant cost + AssignedCost(lists[i..]) == AssignedCost(lists)
    {
      var l := lists[i];
      ghost var before := cost;
      assert lists[i..][0] == l && lists[i..][1..] == lists[i + 1..];
      for k := 0 to |l|
        invariant cost + ListCost(l[k..]) == before + ListCost(l)
      {
        assert l[k..][0] == l[k] && l[k..][1..] == l[k + 1..];
        cost := cost + AssignmentCost(l[k].assignment);
      }
      assert l[|l|..] == [];
    }
    assert lists[|lists|..] == [];
  }

  /** When agent `a`, which is a best candidate for task `t`, would begin the invariant part of it. */
  function DeploymentOf(duration: Request -> int, t: Pending, a: nat): real
    requires a in t.candidates
  {
    Seconds(t.candidates[a].state.time - duration(t.request))
  }

  /** `x` is the earliest time at which agent `a` would begin the invariant part of a task for which it
      is a best candidate. */
  ghost predicate IsEarliestDeployment(duration: Request -> int, un: map<nat, Pending>, a: nat, x: real) {
    && (exists u :: u in un && IsBest(un[u].candidates, a) && DeploymentOf(duration, un[u], a) == x)
    && (forall u | u in un && IsBest(un[u].candidates, a) :: x <= DeploymentOf(duration, un[u], a))
  }

  ghost predicate NeverBest(un: map<nat, Pending>, a: nat) {
    forall u | u in un :: !IsBest(un[u].candidates, a)
  }

  /** The value with which agent `a` enters the queue. */
  ghost predicate InitialValue(duration: Request -> int, timeNow: Time, lists: Assigned, un: map<nat, Pending>,
                               a: nat, x: real)
    requires a < |lists|
  {
    if NeverBest(un, a) then
      x == if lists[a] == [] then Seconds(timeNow) else Seconds(Last(lists[a]).assignment.finish.time)
    else
      IsEarliestDeployment(duration, un, a, x)
  }

  function QueueTasks(inv: seq<Invariant>): (r: seq<Queue.Task>)
    ensures |r| == |inv|
    ensures forall i | 0 <= i < |inv| :: r[i] == Queue.Task(inv[i].start, inv[i].finish - inv[i].start)
  {
    seq(|inv|, i requires 0 <= i < |inv| => Queue.Task(inv[i].start, inv[i].finish - inv[i].start))
  }

  ghost predicate InitialValues(duration: Request -> int, timeNow: Time, lists: Assigned, un: map<nat, Pending>,
                                values: seq<real>) {
    |values| == |lists| && forall a | 0 <= a < |lists| :: InitialValue(duration, timeNow, lists, un, a, values[a])
  }

  /** `h` is the estimate for the unassigned tasks. */
  ghost predicate Heuristic(duration: Request -> int, timeNow: Time, lists: Assigned, un: map<nat, Pending>,
                            inv: seq<Invariant>, h: real) {
    exists values, ends ::
      && InitialValues(duration, timeNow, lists, un, values)
      && Queue.Ascending(ends) && multiset(ends) == multiset(values) && ends != []
      && h == Queue.QueueCost(ends, QueueTasks(inv))
  }

  /** Lowers the values of the best candidates of one task. */
  method LowerValues(duration: Request -> int, t: Pending, values: seq<Option<real>>)
    returns (values': seq<Option<real>>)
    requires forall a: nat | IsBest(t.candidates, a) :: a < |values|
    ensures |values'| == |values|
    ensures forall a | 0 <= a < |values| ::
              values'[a] == if IsBest(t.candidates, a)
                               && (values[a].None? || DeploymentOf(duration, t, a) < values[a].value)
                            then Some(DeploymentOf(duration, t, a)) else values[a]
  {
    values' := values;
    var best := set a | a in t.candidates && IsBest(t.candidates, a);
    var todo := best;
    while todo != {}
      invariant todo <= best && |values'| == |values|
      invariant forall a | 0 <= a < |values| ::
                  values'[a] == if IsBest(t.candidates, a) && a !in todo
                                   && (values[a].None? || DeploymentOf(duration, t, a) < values[a].value)
                                then Some(DeploymentOf(duration, t, a)) else values[a]
      decreases todo
    {
      var a :| a in todo;
      var x := DeploymentOf(duration, t, a);
      if values'[a].None? || x < values'[a].value {
        values' := values'[a := Some(x)];
      }
      todo := todo - {a};
    }
  }

  ghost predicate Lowered(duration: Request -> int, un: map<nat, Pending>, a: nat, x: Option<real>) {
    match x
    case None => NeverBest(un, a)
    case Some(v) => IsEarliestDeployment(duration, un, a, v)
  }

  /** `compute_h` */
  method ComputeH(duration: Request -> int, timeNow: Time, lists: Assigned, un: map<nat, Pending>, inv: seq<Invariant>)
    returns (h: real)
    requires lists != []
    requires forall u, a: nat | u in un && IsBest(un[u].candidates, a) :: a < |lists|
    ensures Heuristic(duration, timeNow, lists, un, inv, h)
  {
    hide IsBest, Queue.QueueCost, Queue.Ascending;
    var lowest: seq<Option<real>> := seq(|lists|, i => None);
    var seen: map<nat, Pending> := map[];
    var todo := un.Keys;
    while todo != {}
      invariant todo <= un.Keys && |lowest| == |lists|
      invariant seen.Keys == un.Keys - todo && forall u | u in seen :: seen[u] == un[u]
      invariant forall a | 0 <= a < |lists| :: Lowered(duration, seen, a, lowest[a])
      decreases todo
    {
      var u :| u in todo;
      ghost var before := lowest;
      lowest := LowerValues(duration, un[u], lowest);
      forall a | 0 <= a < |lists| ensures Lowered(duration, seen[u := un[u]], a, lowest[a]) {
        LoweredMore(duration, seen, u, un[u], a, before[a], lowest[a]);
      }
      seen := seen[u := un[u]];
      todo := todo - {u};
    }
    assert seen == un;
    var values := [];
    for a := 0 to |lists|
      invariant |values| == a
      invariant forall b | 0 <= b < a :: InitialValue(duration, timeNow, lists, un, b, values[b])
    {
      assert Lowered(duration, un, a, lowest[a]);
      var x := if lowest[a].Some? then lowest[a].value
               else if lists[a] == [] then Seconds(timeNow)
               else Seconds(Last(lists[a]).assignment.finish.time);
      ValueFound(duration, timeNow, lists, un, a, lowest[a], x);
      values := values + [x];
    }
    h := Queue.Estimate(values, QueueTasks(inv));
    assert InitialValues(duration, timeNow, lists, un, values);
  }

  lemma LoweredMore(duration: Request -> int, seen: map<nat, Pending>, u: nat, t: Pending, a: nat,
                    x: Option<real>, y: Option<real>)
    requires Lowered(duration, seen, a, x) && u !in seen
    requires y == if IsBest(t.candidates, a) && (x.None? || DeploymentOf(duration, t, a) < x.value)
                  then Some(DeploymentOf(duration, t, a)) else x
    ensures Lowered(duration, seen[u := t], a, y)
  {
    hide DeploymentOf;
    var more := seen[u := t];
    if y.Some? {
      if y == x {
        var v :| v in seen && IsBest(seen[v].candidates, a) && DeploymentOf(duration, seen[v], a) == y.value;
        assert v in more && more[v] == seen[v];
      } else {
        assert u in more && more[u] == t;
      }
    }
  }

  lemma ValueFound(duration: Request -> int, timeNow: Time, lists: Assigned, un: map<nat, Pending>, a: nat,
                   lowest: Option<real>, x: real)
    requires a < |lists| && Lowered(duration, un, a, lowest)
    requires x == if lowest.Some? then lowest.value
                  else if lists[a] == [] then Seconds(timeNow)
                  else Seconds(Last(lists[a]).assignment.finish.time)
    ensures InitialValue(duration, timeNow, lists, un, a, x)
  {
  }

  /** The estimate does not depend on the order in which the unassigned tasks are visited. */
  lemma HeuristicUnique(duration: Request -> int, timeNow: Time, lists: Assigned, un: map<nat, Pending>,
                        inv: seq<Invariant>, x: real, y: real)
    requires Heuristic(duration, timeNow, lists, un, inv, x) && Heuristic(duration, timeNow, lists, un, inv, y)
    ensures x == y
  {
    hide InitialValues, Queue.QueueCost, Queue.Ascending;
    var v, e :| InitialValues(duration, timeNow, lists, un, v) && Queue.Ascending(e) && multiset(e) == multiset(v)
                && e != [] && x == Queue.QueueCost(e, QueueTasks(inv));
    var w, f :| InitialValues(duration, timeNow, lists, un, w) && Queue.Ascending(f) && multiset(f) == multiset(w)
                && f != [] && y == Queue.QueueCost(f, QueueTasks(inv));
    ValuesUnique(duration, timeNow, lists, un, v, w);
    Queue.SortedUnique(e, f);
  }

  lemma ValuesUnique(duration: Request -> int, timeNow: Time, lists: Assigned, un: map<nat, Pending>,
                     v: seq<real>, w: seq<real>)
    requires InitialValues(duration, timeNow, lists, un, v) && InitialValues(duration, timeNow, lists, un, w)
    ensures v == w
  {
  }

  /** If all unassigned tasks are booked for the same time and no agent enters the queue before it, the
      estimate is at most the cost of any way of giving the tasks to agents that are free from
      those values on. */
  lemma HeuristicIsLowerBound(duration: Request -> int, timeNow: Time, lists: Assigned, un: map<nat, Pending>,
                              inv: seq<Invariant>, h: real, values: seq<real>, start: real, lines: seq<Queue.Line>)
    requires Heuristic(duration, timeNow, lists, un, inv, h) && InitialValues(duration, timeNow, lists, un, values)
    requires Sorted(inv) && forall i | 0 <= i < |inv| :: inv[i].start == start <= inv[i].finish
    requires forall x | x in values :: start <= x
    requires Queue.Readies(lines) == multiset(values) && Queue.Tasks(lines) == multiset(QueueTasks(inv))
    ensures h <= Queue.ScheduleCost(lines)
  {
    hide InitialValues, Queue.QueueCost, Queue.ScheduleCost, Queue.Readies, Queue.Tasks;
    var v, ends :| InitialValues(duration, timeNow, lists, un, v) && Queue.Ascending(ends)
                   && multiset(ends) == multiset(v) && ends != [] && h == Queue.QueueCost(ends, QueueTasks(inv));
    ValuesUnique(duration, timeNow, lists, un, v, values);
    CommonStart(inv, start, ends, values);
    Queue.QueueIsLowerBound(ends, QueueTasks(inv), lines);
  }

  lemma CommonStart(inv: seq<Invariant>, start: real, ends: seq<real>, values: seq<real>)
    requires Sorted(inv) && forall i | 0 <= i < |inv| :: inv[i].start == start <= inv[i].finish
    requires multiset(ends) == multiset(values) && forall x | x in values :: start <= x
    ensures Queue.AscendingDurations(QueueTasks(inv)) && Queue.Booked(ends, QueueTasks(inv))
  {
    forall e | e in ends ensures start <= e {
      assert e in multiset(ends);
      assert e in values;
    }
  }

  /** The cost of a node: what its assignments cost and the estimate for the rest, raised if priorities
      are not respected. */
  ghost predicate CostOf(duration: Request -> int, timeNow: Time, checkPriority: bool, penalty: real,
                         lists: Assigned, un: map<nat, Pending>, inv: seq<Invariant>, cost: real) {
    exists h :: Heuristic(duration, timeNow, lists, un, inv, h)
                && cost == Penalized(checkPriority, penalty, lists, AssignedCost(lists) + h)
  }

  ghost function Penalized(checkPriority: bool, penalty: real, lists: Assigned, cost: real): real {
    if checkPriority && !(Balanced(lists) && OrderedUpToIdle(lists)) then penalty * cost else cost
  }

  /** `compute_cost` */
  method ComputeCost(duration: Request -> int, timeNow: Time, checkPriority: bool, penalty: real,
                     lists: Assigned, un: map<nat, Pending>, inv: seq<Invariant>)
    returns (cost: real)
    requires lists != []
    requires forall u, a: nat | u in un && IsBest(un[u].candidates, a) :: a < |lists|
    ensures CostOf(duration, timeNow, checkPriority, penalty, lists, un, inv, cost)
  {
    hide Heuristic, Balanced, OrderedUpToIdle, IsBest;
    var g := ComputeG(lists);
    var h := ComputeH(duration, timeNow, lists, un, inv);
    if checkPriority {
      var ok := ValidPriority(lists);
      if !ok {
        return penalty * (g + h);
      }
    }
    cost := g + h;
  }

  /** The cost of a node is a function of its assignments, its unassigned tasks and their invariants. */
  lemma CostUnique(duration: Request -> int, timeNow: Time, checkPriority: bool, penalty: real,
                   lists: Assigned, un: map<nat, Pending>, inv: seq<Invariant>, x: real, y: real)
    requires CostOf(duration, timeNow, checkPriority, penalty, lists, un, inv, x)
    requires CostOf(duration, timeNow, checkPriority, penalty, lists, un, inv, y)
    ensures x == y
  {
    hide Heuristic, Penalized, AssignedCost;
    var g :| Heuristic(duration, timeNow, lists, un, inv, g)
             && x == Penalized(checkPriority, penalty, lists, AssignedCost(lists) + g);
    var h :| Heuristic(duration, timeNow, lists, un, inv, h)
             && y == Penalized(checkPriority, penalty, lists, AssignedCost(lists) + h);
    HeuristicUnique(duration, timeNow, lists, un, inv, g, h);
  }

  /** Once every task is assigned, nothing is estimated: a node costs what its assignments cost, times the
      penalty if priorities are not respected. */
  lemma CompleteCost(duration: Request -> int, timeNow: Time, checkPriority: bool, penalty: real, lists: Assigned,
                     cost: real)
    requires CostOf(duration, timeNow, checkPriority, penalty, lists, map[], [], cost)
    ensures cost == Penalized(checkPriority, penalty, lists, AssignedCost(lists))
  {
    hide Balanced, OrderedUpToIdle, InitialValues;
    assert QueueTasks([]) == [];
  }

  // ---- there is such a cost ----

  lemma {:induction false} LoweredExists(duration: Request -> int, un: map<nat, Pending>, a: nat)
    returns (x: Option<real>)
    ensures Lowered(duration, un, a, x)
    decreases |un|
  {
    if un == map[] {
      x := None;
    } else {
      hide Lowered, IsBest;
      var u :| u in un;
      var rest := un - {u};
      assert rest.Keys == un.Keys - {u} && |rest| == |rest.Keys| && |un| == |un.Keys|;
      var y := LoweredExists(duration, rest, a);
      x := if IsBest(un[u].candidates, a) && (y.None? || DeploymentOf(duration, un[u], a) < y.value)
           then Some(DeploymentOf(duration, un[u], a)) else y;
      LoweredMore(duration, rest, u, un[u], a, y, x);
      assert rest[u := un[u]] == un;
    }
  }

  lemma {:induction false} ValuesExist(duration: Request -> int, timeNow: Time, lists: Assigned,
                                       un: map<nat, Pending>, k: nat) returns (values: seq<real>)
    requires k <= |lists|
    ensures |values| == k
    ensures forall a | 0 <= a < k :: InitialValue(duration, timeNow, lists, un, a, values[a])
  {
    if k == 0 {
      values := [];
    } else {
      hide InitialValue, Lowered;
      var some := ValuesExist(duration, timeNow, lists, un, k - 1);
      var lowest := LoweredExists(duration, un, k - 1);
      var x := if lowest.Some? then lowest.value
               else if lists[k - 1] == [] then Seconds(timeNow)
               else Seconds(Last(lists[k - 1]).assignment.finish.time);
      ValueFound(duration, timeNow, lists, un, k - 1, lowest, x);
      values := some + [x];
    }
  }

  lemma {:induction false} EndsExist(values: seq<real>) returns (ends: seq<real>)
    ensures Queue.Ascending(ends) && multiset(ends) == multiset(values) && |ends| == |values|
  {
    if values == [] {
      ends := [];
    } else {
      var rest := EndsExist(values[1..]);
      Queue.InsertAscending(rest, values[0]);
      Queue.InsertElements(rest, values[0]);
      ends := Queue.Insert(rest, values[0]);
      assert values == [values[0]] + values[1..];
    }
  }

  /** Every node with agents has a cost. */
  lemma CostExists(duration: Request -> int, timeNow: Time, checkPriority: bool, penalty: real,
                   lists: Assigned, un: map<nat, Pending>, inv: seq<Invariant>) returns (cost: real)
    requires lists != []
    ensures CostOf(duration, timeNow, checkPriority, penalty, lists, un, inv, cost)
  {
    hide InitialValue, Penalized, AssignedCost, Queue.QueueCost, Queue.Ascending;
    var values := ValuesExist(duration, timeNow, lists, un, |lists|);
    var ends := EndsExist(values);
    var h := Queue.QueueCost(ends, QueueTasks(inv));
    assert InitialValues(duration, timeNow, lists, un, values);
    assert Heuristic(duration, timeNow, lists, un, inv, h);
    cost := Penalized(checkPriority, penalty, lists, AssignedCost(lists) + h);
  }

  /** It is unique by `CostUnique`. */
  ghost function CostFunction(duration: Request -> int, timeNow: Time, checkPriority: bool, penalty: real,
                              lists: Assigned, un: map<nat, Pending>, inv: seq<Invariant>): (cost: real)
    ensures lists != [] ==> CostOf(duration, timeNow, checkPriority, penalty, lists, un, inv, cost)
  {
    if lists == [] then 0.0
    else
      assert exists cost :: CostOf(duration, timeNow, checkPriority, penalty, lists, un, inv, cost) by {
        var c := CostExists(duration, timeNow, checkPriority, penalty, lists, un, inv);
      }
      var cost :| CostOf(duration, timeNow, checkPriority, penalty, lists, un, inv, cost);
      cost
  }
}
