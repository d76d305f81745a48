/** Why the search is not optimal for more than one agent: the estimate of the built-in calculator can exceed the
    cost of a plan. */
module PlannerTeams {
  import opened Domain
  import opened PlannerNode
  import opened PlannerInvariant
  import opened PlannerTheorems
  import opened PlannerFresh
  import opened PlannerSearch
  import opened PlannerSolvable
  import opened CostCalculator
  import opened PlannerOptimal
  import Queue = HeuristicQueue

  // ---- a team and its tasks ----

  const HALF_SECOND: int := SECOND / 2

  /** When robot `a` can begin task `u` at the earliest. All robots but number 1 are alike. */
  function Opening(a: nat, u: nat): Time {
    if a == 1 then
      if u == 1 then 4 * SECOND else if u == 4 then 99 * SECOND else 9 * SECOND
    else
      if u == 1 then 999 * SECOND else if u == 4 then 11 * SECOND else 19 * HALF_SECOND
  }

  /** When it is done if it is free from `t` on. Every task takes a second. */
  function Done(a: nat, u: nat, t: Time): Time {
    Max(t, Opening(a, u)) + SECOND
  }

  function Job(u: nat): Request {
    Request(u, 0, false, Composed(u))
  }

  /** Robot number `a`; its charger tells which one it is. */
  function Robot(a: nat): State {
    State(0, 0.0, 0, a, 1.0)
  }

  function Robots(k: nat): (r: seq<State>)
    ensures |r| == k && forall a | 0 <= a < k :: r[a] == Robot(a)
  {
    seq(k, a requires a >= 0 => Robot(a))
  }

  const JOBS: seq<Request> := [Job(1), Job(2), Job(3), Job(4)]

  const ALL: set<nat> := {1, 2, 3, 4}

  /** A planner for such robots, which are never charged, with the built-in calculator. */
  ghost predicate ForTeam(p: Planner) {
    && (forall r: Request, t, s :: p.estimate(r, t, s)
          == Some(Estimate(s.(time := Done(s.charger, r.id, s.time)), s.time)))
    && (forall s :: p.charge(s).None?)
    && (forall r :: p.duration(r) == SECOND) && p.timeNow == 0 && Rates(p)
  }

  lemma TeamExists() returns (p: Planner)
    ensures ForTeam(p) && Steady(p, RequestSet(JOBS), 0) && NoShortcut(p, RequestSet(JOBS))
  {
    hide Rates;
    p := SomeRates(Planner(
      (r: Request, t: Time, s: State) => Some(Estimate(s.(time := Done(s.charger, r.id, s.time)), s.time)),
      (s: State) => None, r => SECOND, (lists, un, inv) => 0.0, 1.0, 0));
    forall r | r in RequestSet(JOBS) ensures r.earliestStart == 0 {
      var i :| 0 <= i < |JOBS| && JOBS[i] == r;
      assert JOBS[i] == Job(i + 1);
    }
  }

  // ---- where a run is ----

  /** Robot `a` may do task `u` when it is free, which is at `t`. */
  predicate Offers(c: Candidates, u: nat, a: nat, t: Time) {
    && a in c && c[a].state.charger == a && c[a].state.time == Done(a, u, t)
    && c[a].waitUntil == t && !c[a].requireCharge
  }

  ghost predicate AllOffer(c: Candidates, u: nat, times: seq<Time>) {
    c.Keys == Agents(|times|) && forall a | 0 <= a < |times| :: Offers(c, u, a, times[a])
  }

  /** A robot with assignments `l` is free from `t` on. */
  predicate Free(l: seq<Wrapped>, t: Time) {
    t == if l == [] then 0 else Last(l).assignment.finish.time
  }

  ghost predicate AllFree(lists: Assigned, times: seq<Time>) {
    |lists| == |times| && forall a | 0 <= a < |times| :: Free(lists[a], times[a])
  }

  ghost predicate AllBy(times: seq<Time>, latest: Time) {
    forall a | 0 <= a < |times| :: 0 <= times[a] <= latest
  }

  /** The tasks `ids` are left, the robots are free from `times` on, and the assignments cost `g`. */
  ghost predicate At(n: Node, ids: set<nat>, times: seq<Time>, g: real) {
    && n.unassigned.Keys == ids && AssignedCost(n.lists) == g && AllFree(n.lists, times)
    && (forall u | u in ids ::
          n.unassigned[u].request == Job(u) && AllOffer(n.unassigned[u].candidates, u, times))
    && AllBy(times, n.latest)
  }

  /** Robot `a` is not later done with task `u` than any other. */
  ghost predicate Soonest(u: nat, a: nat, times: seq<Time>)
    requires a < |times|
  {
    forall b | 0 <= b < |times| :: Done(a, u, times[a]) <= Done(b, u, times[b])
  }

  lemma BestIsSoonest(c: Candidates, u: nat, a: nat, times: seq<Time>)
    requires AllOffer(c, u, times) && a < |times|
    ensures IsBest(c, a) <==> Soonest(u, a, times)
  {
    hide Done;
    assert forall b | 0 <= b < |times| :: b in c && c[b].state.time == Done(b, u, times[b]);
  }

  /** What an entry becomes when robot `a` ends a task at `t`. */
  lemma Reoffered(p: Planner, c: Candidates, w: nat, a: nat, times: seq<Time>, s: State)
    requires ForTeam(p) && AllOffer(c, w, times) && a < |times| && s.charger == a
    ensures Finish(p, Job(w), s).Some?
    ensures AllOffer(WithEntry(Pending(Job(w), c), a, Finish(p, Job(w), s).value, s).candidates, w, times[a := s.time])
  {
    hide Rates, Done, Agents;
    var c' := WithEntry(Pending(Job(w), c), a, Finish(p, Job(w), s).value, s).candidates;
    assert c'.Keys == c.Keys;
  }

  lemma Reoffers(p: Planner, un: map<nat, Pending>, a: nat, times: seq<Time>, s: State)
    requires ForTeam(p) && a < |times| && s.charger == a
    requires forall w | w in un :: un[w].request == Job(w) && AllOffer(un[w].candidates, w, times)
    ensures var un' := Reestimate(p, un, a, s, s);
            && un'.Some? && un'.value.Keys == un.Keys
            && forall w | w in un :: un'.value[w].request == Job(w)
                                     && AllOffer(un'.value[w].candidates, w, times[a := s.time])
  {
    hide ForTeam, AllOffer, Finish;
    forall w | w in un
      ensures Finish(p, un[w].request, s).Some?
      ensures AllOffer(WithEntry(un[w], a, Finish(p, un[w].request, s).value, s).candidates, w, times[a := s.time])
    {
      Reoffered(p, un[w].candidates, w, a, times, s);
      assert un[w] == Pending(Job(w), un[w].candidates);
    }
  }

  lemma {:induction false} CostUpdate(lists: Assigned, a: nat, l: seq<Wrapped>)
    requires a < |lists|
    ensures AssignedCost(lists[a := l]) == AssignedCost(lists) - ListCost(lists[a]) + ListCost(l)
  {
    hide ListCost;
    if a == 0 {
      assert lists[a := l][1..] == lists[1..];
    } else {
      assert lists[a := l][1..] == lists[1..][a - 1 := l];
      CostUpdate(lists[1..], a - 1, l);
    }
  }

  lemma {:induction false} LatestAtLeast(lists: Assigned, a: nat)
    requires a < |lists| && lists[a] != []
    ensures Last(lists[a]).assignment.finish.time <= LatestFinish(lists)
  {
    if a > 0 {
      LatestAtLeast(lists[1..], a - 1);
    }
  }

  /** The assignments after robot `a` gets the list `l`, which ends at `t`. */
  lemma TakesList(lists: Assigned, a: nat, l: seq<Wrapped>, times: seq<Time>, latest: Time, t: Time, g: real)
    requires AllFree(lists, times) && a < |lists| && AssignedCost(lists) == g
    requires AllBy(times, latest)
    requires l != [] && Last(l).assignment.finish.time == t && 0 <= t
    requires ListCost(l) == ListCost(lists[a]) + Seconds(t)
    ensures AllFree(lists[a := l], times[a := t]) && AssignedCost(lists[a := l]) == g + Seconds(t)
    ensures AllBy(times[a := t], LatestFinish(lists[a := l]))
  {
    hide ListCost, AssignedCost, LatestFinish;
    var lists', times' := lists[a := l], times[a := t];
    CostUpdate(lists, a, l);
    LatestAtLeast(lists', a);
    forall b | 0 <= b < |times'| ensures 0 <= times'[b] <= LatestFinish(lists') {
      assert Free(lists[b], times[b]);
      if lists'[b] != [] {
        LatestAtLeast(lists', b);
      }
    }
  }

  /** Robot `a` takes task `u`. */
  lemma Takes(p: Planner, n: Node, ids: set<nat>, times: seq<Time>, g: real, u: nat, a: nat) returns (m: Node)
    requires ForTeam(p) && At(n, ids, times, g) && u in ids && a < |times| && Soonest(u, a, times)
    ensures Apply(p, n, Assign(u, a)) == Some(m)
    ensures var t := Done(a, u, times[a]);
            At(m, ids - {u}, times[a := t], g + Seconds(t))
    ensures m.cost == p.cost(m.lists, m.unassigned, m.invariants)
  {
    hide ForTeam, Reestimate, ListCost, AssignedCost, WithoutInvariant, LatestFinish, Appended, AllFree, Opening,
         IsBest, Soonest, AllOffer, AllBy;
    var c := n.unassigned[u].candidates;
    SameLength(n.lists, times);
    BestIsSoonest(c, u, a, times);
    OfferOf(c, u, a, times);
    DueNow(times, n.latest, a);
    var s := c[a].state;
    Reoffers(p, n.unassigned - {u}, a, times, s);
    AppendedCost(p, n.lists[a], u, Job(u), c[a]);
    TakesList(n.lists, a, Appended(p, n.lists[a], u, Job(u), c[a]), times, n.latest, s.time, g);
    m := Apply(p, n, Assign(u, a)).value;
  }

  lemma OfferOf(c: Candidates, u: nat, a: nat, times: seq<Time>)
    requires AllOffer(c, u, times) && a < |times|
    ensures Offers(c, u, a, times[a])
  {
  }

  lemma DueNow(times: seq<Time>, latest: Time, a: nat)
    requires AllBy(times, latest) && a < |times|
    ensures 0 <= times[a] <= latest
  {
  }

  lemma SameLength(lists: Assigned, times: seq<Time>)
    requires AllFree(lists, times)
    ensures |lists| == |times|
  {
  }

  // ---- the fresh node ----

  lemma TeamEstimates(p: Planner, a: nat, u: nat)
    requires ForTeam(p)
    ensures InitialEntry(p, Job(u), Robot(a))
            == Some(Entry(Robot(a).(time := Done(a, u, 0)), 0, Robot(a), false))
  {
    hide Rates, Done;
  }

  function Zeros(k: nat): (r: seq<Time>)
    ensures |r| == k && forall a | 0 <= a < k :: r[a] == 0
  {
    seq(k, _ => 0)
  }

  lemma TeamCapable(p: Planner, k: nat)
    requires ForTeam(p)
    ensures AllCapable(p, Robots(k), JOBS) && NoCharging(JOBS)
  {
    hide ForTeam, InitialEntry, Done;
    forall i, a | 0 <= i < |JOBS| && 0 <= a < k ensures InitialEntry(p, JOBS[i], Robots(k)[a]).Some? {
      TeamEstimates(p, a, i + 1);
      assert JOBS[i] == Job(i + 1);
    }
  }

  lemma TeamCandidates(p: Planner, k: nat, u: nat)
    requires ForTeam(p)
    ensures AllOffer(InitialCandidates(p, Job(u), Robots(k)), u, Zeros(k))
  {
    hide ForTeam, InitialEntry, Done;
    forall a | 0 <= a < k ensures Offers(InitialCandidates(p, Job(u), Robots(k)), u, a, 0) {
      TeamEstimates(p, a, u);
    }
    forall a | a in Agents(k) ensures a in InitialCandidates(p, Job(u), Robots(k)) {
      assert Offers(InitialCandidates(p, Job(u), Robots(k)), u, a, 0);
    }
  }

  lemma {:induction false} IdleCost(lists: Assigned)
    requires forall a | 0 <= a < |lists| :: lists[a] == []
    ensures AssignedCost(lists) == 0.0
  {
    if lists != [] {
      IdleCost(lists[1..]);
    }
  }

  lemma TeamRoot(p: Planner, k: nat, root: Node)
    requires ForTeam(p) && k >= 2 && Fresh(p, Robots(k), JOBS, root)
    ensures Root(p, Robots(k), root) && At(root, ALL, Zeros(k), 0.0)
  {
    hide ForTeam, InvariantsFor, Root, AllCapable, IsLatestStart, InitialCandidates, AllOffer, AssignedCost;
    TeamCapable(p, k);
    FreshIsRoot(p, Robots(k), JOBS, root);
    assert root.unassigned.Keys == ALL;
    forall u | u in root.unassigned
      ensures root.unassigned[u].request == Job(u) && AllOffer(root.unassigned[u].candidates, u, Zeros(k))
    {
      assert JOBS[u - 1] == Job(u);
      TeamCandidates(p, k, u);
    }
    IdleCost(root.lists);
    assert 1 in root.unassigned;
    StartsAtZero(Robots(k), root.unassigned, root.latest);
  }

  lemma StartsAtZero(states: seq<State>, un: map<nat, Pending>, latest: Time)
    requires IsLatestStart(states, un, latest) && |states| > 0 && states[0].time == 0 && un != map[]
    ensures latest >= 0
  {
    hide IsEarliestWait;
    var t, w :| IsLatestTime(states, t) && IsEarliestWait(un, w) && latest == Max(t, w);
    assert states[0].time <= t;
  }

  lemma {:induction false} MatchCount(inv: seq<Invariant>, ids: set<nat>)
    requires InvariantsMatch(inv, ids)
    ensures |inv| == |ids|
  {
    if inv == [] {
      SomeInvariant(inv, ids);
    } else {
      MatchRest(inv, ids);
      MatchCount(inv[1..], ids - {inv[0].id});
    }
  }

  lemma MatchRest(inv: seq<Invariant>, ids: set<nat>)
    requires InvariantsMatch(inv, ids) && inv != []
    ensures inv[0].id in ids && InvariantsMatch(inv[1..], ids - {inv[0].id})
  {
    var rest := inv[1..];
    forall i | 0 <= i < |rest| ensures rest[i].id in ids - {inv[0].id} {
      assert inv[i + 1].id != inv[0].id;
    }
    forall id | id in ids - {inv[0].id} ensures exists i :: 0 <= i < |rest| && rest[i].id == id {
      var i :| 0 <= i < |inv| && inv[i].id == id;
      assert rest[i - 1].id == id;
    }
  }

  lemma TeamInvariants(p: Planner, k: nat, root: Node)
    requires ForTeam(p) && Fresh(p, Robots(k), JOBS, root)
    ensures forall v | v in root.invariants :: v.start == 0.0 && v.finish == 1.0
  {
    hide IsLatestStart, InitialCandidates, InvariantsMatch, Sorted, Rates;
    forall i | 0 <= i < |root.invariants| ensures root.invariants[i].start == 0.0 && root.invariants[i].finish == 1.0 {
      var id := root.invariants[i].id;
      assert id in root.unassigned.Keys by { InvariantId(root.invariants, root.unassigned.Keys, i); }
      assert root.unassigned[id].request == JOBS[id - 1];
      assert Seconds(0) == 0.0 && Seconds(SECOND) == 1.0;
    }
  }

  lemma InvariantId(inv: seq<Invariant>, ids: set<nat>, i: nat)
    requires InvariantsMatch(inv, ids) && i < |inv|
    ensures inv[i].id in ids
  {
  }

  /** Whatever is left, all invariants are those of tasks of one second that are due now. */
  lemma TeamQueue(p: Planner, k: nat, root: Node, n: Node, ids: set<nat>)
    requires ForTeam(p) && k >= 2 && Fresh(p, Robots(k), JOBS, root)
    requires Reachable(p, root, n) && n.unassigned.Keys == ids
    ensures |QueueTasks(n.invariants)| == |ids|
    ensures forall t | t in QueueTasks(n.invariants) :: t == Queue.Task(0.0, 1.0)
  {
    hide Root, Reachable, At, Fresh, ForTeam, Inv, InvariantsMatch;
    TeamRoot(p, k, root);
    TeamInvariants(p, k, root);
    InvariantsConserved(p, Robots(k), root, n);
    MatchCount(n.invariants, ids);
    InvariantsKept(p, Robots(k), root, n);
    forall i | 0 <= i < |n.invariants| ensures QueueTasks(n.invariants)[i] == Queue.Task(0.0, 1.0) {
      assert n.invariants[i] in root.invariants;
    }
  }

  lemma InvariantsKept(p: Planner, states: seq<State>, root: Node, n: Node)
    requires Root(p, states, root) && Reachable(p, root, n)
    ensures forall v | v in n.invariants :: v in root.invariants
  {
    ReachableInv(p, states, root, n);
    hide Root, Reachable, ListsOk, TasksAgree, Conserved;
    KeptFrom(root.invariants, n.unassigned.Keys);
  }

  lemma {:induction false} KeptFrom(s: seq<Invariant>, ids: set<nat>)
    ensures forall v | v in InvariantsOf(s, ids) :: v in s
  {
    if s != [] {
      KeptFrom(s[1..], ids);
    }
  }

  // ---- the estimate after the first task ----

  function Elevens(k: nat): (r: seq<real>)
    ensures |r| == k && forall i | 0 <= i < k :: r[i] == 11.0
  {
    seq(k, _ => 11.0)
  }

  lemma ThreeTasks(tasks: seq<Queue.Task>, k: nat)
    requires |tasks| == 3 && (forall t | t in tasks :: t == Queue.Task(0.0, 1.0)) && k >= 1
    ensures Queue.QueueCost([9.0] + Elevens(k), tasks) == 33.0
  {
    assert tasks[0] in tasks && tasks[1] in tasks && tasks[2] in tasks;
    var e := Elevens(k);
    assert ([9.0] + e)[1..] == e && Queue.Insert(e, 10.0) == [10.0] + e;
    assert ([10.0] + e)[1..] == e && Queue.Insert(e, 11.0) == [11.0] + e;
    assert ([11.0] + e)[1..] == e;
    assert tasks[1..][0] == tasks[1] && tasks[1..][1..] == tasks[2..] && tasks[2..][0] == tasks[2];
    assert tasks[2..][1..] == [];
    assert Queue.QueueCost([11.0] + e, tasks[2..]) == 12.0;
    assert Queue.QueueCost([10.0] + e, tasks[1..]) == 23.0;
  }

  /** The robots after the first task. */
  function AfterFirst(k: nat): (r: seq<Time>)
    requires k >= 2
    ensures |r| == k && r[1] == 5 * SECOND && forall a | 0 <= a < k && a != 1 :: r[a] == 0
  {
    Zeros(k)[1 := 5 * SECOND]
  }

  lemma SoonestAfterFirst(k: nat, u: nat, a: nat)
    requires k >= 2 && a < k && u in {2, 3, 4}
    ensures Soonest(u, a, AfterFirst(k)) <==> (a == 1 <==> u != 4)
  {
    var times := AfterFirst(k);
    assert Done(1, u, times[1]) == if u == 4 then 100 * SECOND else 10 * SECOND;
    assert Done(0, u, times[0]) == if u == 4 then 12 * SECOND else 21 * HALF_SECOND;
    assert forall b | 0 <= b < k && b != 1 :: Done(b, u, times[b]) == Done(0, u, times[0]);
  }

  lemma ValueAfterFirst(p: Planner, k: nat, n: Node, g: real, a: nat, x: real)
    requires ForTeam(p) && k >= 2 && At(n, {2, 3, 4}, AfterFirst(k), g) && a < k && |n.lists| == k
    requires InitialValue(p.duration, 0, n.lists, n.unassigned, a, x)
    ensures x == if a == 1 then 9.0 else 11.0
  {
    hide IsBest, Rates, AllFree, AssignedCost, Soonest;
    forall u | u in {2, 3, 4} ensures IsBest(n.unassigned[u].candidates, a) <==> (a == 1 <==> u != 4) {
      BestIsSoonest(n.unassigned[u].candidates, u, a, AfterFirst(k));
      SoonestAfterFirst(k, u, a);
    }
    forall u | u in {2, 3, 4} && (a == 1 <==> u != 4)
      ensures DeploymentOf(p.duration, n.unassigned[u], a) == if a == 1 then 9.0 else 11.0
    {
      assert Offers(n.unassigned[u].candidates, u, a, AfterFirst(k)[a]);
      assert Seconds(9 * SECOND) == 9.0 && Seconds(11 * SECOND) == 11.0;
    }
    assert IsBest(n.unassigned[if a == 1 then 2 else 4].candidates, a);
  }

  lemma SortedAfterFirst(values: seq<real>, ends: seq<real>)
    requires |values| >= 2 && forall a | 0 <= a < |values| :: values[a] == if a == 1 then 9.0 else 11.0
    requires Queue.Ascending(ends) && multiset(ends) == multiset(values)
    ensures ends == [9.0] + Elevens(|values| - 1)
  {
    var rest := Elevens(|values| - 2);
    assert values == [11.0] + ([9.0] + rest);
    assert Elevens(|values| - 1) == [11.0] + rest;
    assert multiset([11.0] + ([9.0] + rest)) == multiset([9.0] + ([11.0] + rest));
    Queue.SortedUnique(ends, [9.0] + Elevens(|values| - 1));
  }

  /** The calculator's cost of a node is what its assignments cost and an estimate from the initial values. */
  lemma TeamCost(p: Planner, n: Node, ids: set<nat>, times: seq<Time>, g: real)
    returns (values: seq<real>, ends: seq<real>)
    requires ForTeam(p) && At(n, ids, times, g) && |times| > 0
    requires n.cost == p.cost(n.lists, n.unassigned, n.invariants)
    ensures InitialValues(p.duration, 0, n.lists, n.unassigned, values) && |values| == |n.lists| == |times|
    ensures Queue.Ascending(ends) && multiset(ends) == multiset(values) && ends != []
    ensures n.cost == g + Queue.QueueCost(ends, QueueTasks(n.invariants))
  {
    hide InitialValue, Queue.QueueCost, QueueTasks, AssignedCost, Offers, Free, Agents, IsBest;
    forall u, a: nat | u in n.unassigned && IsBest(n.unassigned[u].candidates, a) ensures a < |n.lists| {
      BestIsAgent(n.unassigned[u].candidates, a, |times|);
    }
    assert CostOf(p.duration, p.timeNow, false, 1.0, n.lists, n.unassigned, n.invariants, n.cost);
    var h :| Heuristic(p.duration, p.timeNow, n.lists, n.unassigned, n.invariants, h)
             && n.cost == Penalized(false, 1.0, n.lists, AssignedCost(n.lists) + h);
    values, ends :| InitialValues(p.duration, p.timeNow, n.lists, n.unassigned, values) && Queue.Ascending(ends)
                    && multiset(ends) == multiset(values) && ends != []
                    && h == Queue.QueueCost(ends, QueueTasks(n.invariants));
  }

  lemma BestIsAgent(c: Candidates, a: nat, k: nat)
    requires c.Keys == Agents(k) && IsBest(c, a)
    ensures a < k
  {
  }

  /** After the first task, 33 seconds are estimated for the other three. */
  lemma CostAfterFirst(p: Planner, k: nat, root: Node, n: Node, g: real)
    requires ForTeam(p) && k >= 2 && Fresh(p, Robots(k), JOBS, root) && Reachable(p, root, n)
    requires At(n, {2, 3, 4}, AfterFirst(k), g) && n.cost == p.cost(n.lists, n.unassigned, n.invariants)
    ensures n.cost == g + 33.0
  {
    hide ForTeam, At, Fresh, Reachable, InitialValue, Queue.QueueCost, Queue.Ascending, QueueTasks;
    var values, ends := TeamCost(p, n, {2, 3, 4}, AfterFirst(k), g);
    forall a | 0 <= a < k ensures values[a] == if a == 1 then 9.0 else 11.0 {
      ValueAfterFirst(p, k, n, g, a, values[a]);
    }
    SortedAfterFirst(values, ends);
    AtIds(n, {2, 3, 4}, AfterFirst(k), g);
    TeamQueue(p, k, root, n, {2, 3, 4});
    ThreeTasks(QueueTasks(n.invariants), k - 1);
  }

  lemma AtIds(n: Node, ids: set<nat>, times: seq<Time>, g: real)
    requires At(n, ids, times, g)
    ensures n.unassigned.Keys == ids
  {
    hide AllOffer, AllFree, AllBy;
  }

  lemma CostAfterLast(p: Planner, k: nat, root: Node, n: Node, times: seq<Time>, g: real)
    requires ForTeam(p) && k >= 2 && Fresh(p, Robots(k), JOBS, root) && Reachable(p, root, n)
    requires At(n, {}, times, g) && |times| > 0 && n.cost == p.cost(n.lists, n.unassigned, n.invariants)
    ensures n.cost == g && Finished(n)
  {
    hide ForTeam, Fresh, Reachable, InitialValues, AllOffer, AllFree, AllBy;
    var values, ends := TeamCost(p, n, {}, times, g);
    TeamQueue(p, k, root, n, {});
    assert QueueTasks(n.invariants) == [];
  }

  // ---- the overestimate ----

  /** Robot 1 does the first task, and then robots 0 and 1 share the rest. The cost of the node after the first task
      exceeds that of the finished node by half a second. */
  lemma TeamOverestimates(p: Planner, k: nat, root: Node) returns (n: Node, m: Node)
    requires ForTeam(p) && k >= 2 && Fresh(p, Robots(k), JOBS, root)
    ensures Reachable(p, root, n) && Reachable(p, n, m) && Finished(m)
    ensures n.cost == 38.0 && m.cost == 37.5
  {
    hide ForTeam, Fresh, Reachable, At, Apply, Finished, Soonest;
    TeamRoot(p, k, root);
    ReachesItself(p, root);
    SoonestSteps(k);
    var t1 := AfterFirst(k);
    n := Takes(p, root, ALL, Zeros(k), 0.0, 1, 1);
    assert ALL - {1} == {2, 3, 4};
    assert Zeros(k)[1 := Done(1, 1, 0)] == t1 && Seconds(5 * SECOND) == 5.0;
    StepReachable(p, root, root, Assign(1, 1));
    CostAfterFirst(p, k, root, n, 5.0);
    ReachesItself(p, n);
    m := LastThree(p, k, root, n);
  }

  lemma SoonestSteps(k: nat)
    requires k >= 2
    ensures Soonest(1, 1, Zeros(k)) && Soonest(2, 1, AfterFirst(k))
    ensures var t2 := AfterFirst(k)[1 := 10 * SECOND];
            && Soonest(3, 0, t2) && Soonest(4, 0, t2[0 := 21 * HALF_SECOND])
  {
  }

  lemma LastThree(p: Planner, k: nat, root: Node, n: Node) returns (m: Node)
    requires ForTeam(p) && k >= 2 && Fresh(p, Robots(k), JOBS, root)
    requires Reachable(p, root, n) && Reachable(p, n, n) && At(n, {2, 3, 4}, AfterFirst(k), 5.0)
    ensures Reachable(p, n, m) && Finished(m) && m.cost == 37.5
  {
    hide ForTeam, Fresh, Reachable, At, Apply, Finished, Soonest;
    SoonestSteps(k);
    var t1 := AfterFirst(k);
    var t2 := t1[1 := 10 * SECOND];
    var t3 := t2[0 := 21 * HALF_SECOND];
    var n2 := Takes(p, n, {2, 3, 4}, t1, 5.0, 2, 1);
    assert {2, 3, 4} - {2} == {3, 4} && Seconds(10 * SECOND) == 10.0;
    StepReachable(p, n, n, Assign(2, 1));
    StepReachable(p, root, n, Assign(2, 1));
    var n3 := Takes(p, n2, {3, 4}, t2, 15.0, 3, 0);
    assert {3, 4} - {3} == {4} && Seconds(21 * HALF_SECOND) == 10.5;
    StepReachable(p, n, n2, Assign(3, 0));
    StepReachable(p, root, n2, Assign(3, 0));
    m := Takes(p, n3, {4}, t3, 25.5, 4, 0);
    assert {4} - {4} == {} && Seconds(12 * SECOND) == 12.0;
    StepReachable(p, n, n3, Assign(4, 0));
    StepReachable(p, root, n3, Assign(4, 0));
    CostAfterLast(p, k, root, m, t3[0 := 12 * SECOND], 37.5);
  }

  function TeamTasks(p: Planner, k: nat): map<nat, Pending> {
    map u: nat | u in ALL :: Pending(Job(u), InitialCandidates(p, Job(u), Robots(k)))
  }

  lemma TeamTasksOf(p: Planner, k: nat)
    ensures TasksOf(p, Robots(k), JOBS, TeamTasks(p, k))
  {
    hide InitialCandidates;
    var un := TeamTasks(p, k);
    forall u | u in un ensures un[u] == Pending(JOBS[u - 1], InitialCandidates(p, JOBS[u - 1], Robots(k))) {
      assert JOBS[u - 1] == Job(u);
    }
  }

  lemma TeamTasksOffered(p: Planner, k: nat, u: nat)
    requires ForTeam(p) && k >= 2 && u in ALL
    ensures var c := TeamTasks(p, k)[u].candidates; c != map[] && AllOffer(c, u, Zeros(k))
  {
    hide ForTeam, InitialCandidates, AllOffer;
    TeamCandidates(p, k, u);
    OfferOf(TeamTasks(p, k)[u].candidates, u, 0, Zeros(k));
  }

  /** There is a fresh node for the team. */
  lemma TeamFresh(p: Planner, k: nat) returns (root: Node)
    requires ForTeam(p) && k >= 2
    ensures Fresh(p, Robots(k), JOBS, root)
  {
    var un := TeamTasks(p, k);
    assert un.Keys == ALL && forall u | u in un :: un[u].request == Job(u);
    hide ForTeam, AllOffer, TasksOf, InvariantsFor, IsLatestStart, TeamTasks, InvariantOf;
    TeamTasksOf(p, k);
    forall u | u in un ensures un[u].candidates != map[] && AllOffer(un[u].candidates, u, Zeros(k)) {
      TeamTasksOffered(p, k, u);
    }
    var inv := [InvariantOf(p, 1, Job(1)), InvariantOf(p, 2, Job(2)), InvariantOf(p, 3, Job(3)),
                InvariantOf(p, 4, Job(4))];
    FourInvariants(p, un, inv);
    StartOfTeam(k, un);
    root := Node(seq(k, i => []), un, inv, 0, p.cost(seq(k, i => []), un, []));
    assert root.lists == seq(|Robots(k)|, i => []);
  }

  lemma FourInvariants(p: Planner, un: map<nat, Pending>, inv: seq<Invariant>)
    requires ForTeam(p) && un.Keys == ALL && forall u | u in un :: un[u].request == Job(u)
    requires inv == [InvariantOf(p, 1, Job(1)), InvariantOf(p, 2, Job(2)), InvariantOf(p, 3, Job(3)),
                     InvariantOf(p, 4, Job(4))]
    ensures InvariantsFor(p, un, inv)
  {
    assert inv[0].id == 1 && inv[1].id == 2 && inv[2].id == 3 && inv[3].id == 4;
  }

  lemma StartOfTeam(k: nat, un: map<nat, Pending>)
    requires k >= 2 && un.Keys == ALL && forall u | u in un :: AllOffer(un[u].candidates, u, Zeros(k))
    ensures IsLatestStart(Robots(k), un, 0)
  {
    hide IsBest, Soonest, Agents, IsEarliestWait;
    SoonestSteps(k);
    BestIsSoonest(un[1].candidates, 1, 1, Zeros(k));
    forall u, a | u in un && a in un[u].candidates ensures un[u].candidates[a].waitUntil == 0 {
      assert a in Agents(k);
      OfferOf(un[u].candidates, u, a, Zeros(k));
    }
    WaitIsZero(un, 1, 1);
    assert Robots(k)[0].time == 0;
    assert IsLatestTime(Robots(k), 0);
  }

  lemma WaitIsZero(un: map<nat, Pending>, u: nat, a: nat)
    requires u in un && IsBest(un[u].candidates, a)
    requires forall v, b | v in un && b in un[v].candidates :: un[v].candidates[b].waitUntil == 0
    ensures IsEarliestWait(un, 0)
  {
  }

  // ---- how many agents ----

  /** What is asked of a planner and its requests besides the number of agents: one booked start, models that run
      forward, no shortcut by a charger, and the built-in calculator. */
  ghost predicate WellPosed(p: Planner, states: seq<State>, requests: seq<Request>, root: Node, start: Time) {
    && Fresh(p, states, requests, root) && AllCapable(p, states, requests) && NoCharging(requests)
    && Rates(p) && Steady(p, RequestSet(requests), start) && NoShortcut(p, RequestSet(requests))
  }

  /** No estimate is ever too high for `k` agents. */
  ghost predicate SafeFor(k: nat) {
    forall p, states, requests, root, start | |states| == k && WellPosed(p, states, requests, root, start) ::
      Admissible(p, root)
  }

  /** The estimate is never too high, so that every search is optimal, exactly for one agent. */
  lemma OptimalIff(k: nat)
    requires k >= 1
    ensures SafeFor(k) <==> k == 1
  {
    hide WellPosed, Admissible;
    if k == 1 {
      forall p, states, requests, root, start | |states| == k && WellPosed(p, states, requests, root, start)
        ensures Admissible(p, root)
      {
        OneIsSafe(p, states[0], requests, root, start);
        assert states == [states[0]];
      }
    } else {
      var p, root := TeamIsUnsafe(k);
      assert |Robots(k)| == k;
    }
  }

  lemma OneIsSafe(p: Planner, s0: State, requests: seq<Request>, root: Node, start: Time)
    ensures WellPosed(p, [s0], requests, root, start) ==> Admissible(p, root)
  {
    hide Fresh, AllCapable, NoCharging, Rates, Steady, NoShortcut, Admissible;
    if WellPosed(p, [s0], requests, root, start) {
      OneAgentOptimal(p, s0, requests, root, start);
    }
  }

  lemma TeamIsUnsafe(k: nat) returns (p: Planner, root: Node)
    requires k >= 2
    ensures WellPosed(p, Robots(k), JOBS, root, 0) && !Admissible(p, root)
  {
    p := TeamExists();
    hide Fresh, AllCapable, NoCharging, Steady, NoShortcut, Reachable, Finished;
    root := TeamFresh(p, k);
    TeamCapable(p, k);
    var n, m := TeamOverestimates(p, k, root);
  }
}
