/** With the built-in models, agents with enough charge are never stranded; without, the planner may find no plan. */
module PlannerReserves {
  import opened Domain
  import opened Requests
  import opened TravelCache
  import opened PlannerNode
  import opened PlannerInvariant
  import opened PlannerTheorems
  import opened PlannerFresh
  import opened PlannerSegments
  import opened PlannerSearch
  import opened PlannerComplete
  import opened PlannerModels
  import opened PlannerSolvable

  // ---- a condition on the requests and the chargers ----

  predicate IsTrip(d: Description) {
    d.Delivery? || d.Loop? || d.Clean?
  }

  /** A robot with a battery charged to the usual level can go from charger `c` to the task and back above the
      threshold, and what it spends on the task and the way back is worth charging. */
  ghost predicate RoundTrip(env: Environment, d: Description, t: Time, c: nat)
    requires IsTrip(d)
  {
    && Way(env, c, StartOf(d)).Some? && Way(env, EndOf(d), c).Some?
    && (env.drainBattery ==>
          var spent := EffortOf(env, d, t).drain + Way(env, EndOf(d), c).value.drain;
          spent > 0.001 && env.rechargeSoc - Way(env, c, StartOf(d)).value.drain - spent > env.thresholdSoc)
  }

  /** The requests are trips that can be done from every one of the chargers. Without draining batteries robots do
      not return to them, and have to get from one trip to the next. */
  ghost predicate Ample(env: Environment, timeNow: Time, requests: set<Request>, chargers: set<nat>) {
    && (forall r, c | r in requests && c in chargers ::
          IsTrip(r.description) && RoundTrip(env, r.description, Max(timeNow, r.earliestStart), c))
    && (forall r, q | r in requests && q in requests ::
          && IsTrip(r.description) && IsTrip(q.description)
          && (!env.drainBattery ==> Way(env, EndOf(r.description), StartOf(q.description)).Some?))
    && (env.thresholdSoc < env.rechargeSoc)
  }

  /** A robot that has one of the chargers and has not been charged above the usual level. Without draining batteries
      its charge has to be above the threshold. */
  predicate InReserve(env: Environment, chargers: set<nat>, s: State) {
    s.charger in chargers && if env.drainBattery then s.soc <= env.rechargeSoc else env.thresholdSoc < s.soc
  }

  /** What a robot that has just been charged can do. */
  lemma ChargedAffords(env: Environment, d: Description, t: Time, s: State)
    requires IsTrip(d) && RoundTrip(env, d, t, s.charger) && env.drainBattery
    requires s.waypoint == s.charger && s.soc == env.rechargeSoc
    ensures TaskEstimate(env, s, StartOf(d), EndOf(d), t, EffortOf(env, d, t)).Some?
  {
    hide EffortOf;
  }

  /** A robot that has done a trip can be charged. */
  lemma TripCanCharge(env: Environment, d: Description, t: Time, s: State)
    requires Physical(env) && IsTrip(d) && env.drainBattery && RoundTrip(env, d, t, s.charger)
    requires s.soc <= env.rechargeSoc
    requires TaskEstimate(env, s, StartOf(d), EndOf(d), t, EffortOf(env, d, t)).Some?
    ensures var s' := TaskEstimate(env, s, StartOf(d), EndOf(d), t, EffortOf(env, d, t)).value.finish;
            && s'.charger == s.charger && s'.soc <= env.rechargeSoc
            && ChargeEstimate(env, s').Some?
  {
    hide EffortOf, Physical;
    DrainsNonNegative(env, s, d, t);
    TaskCanCharge(env, s, d, t);
  }

  lemma ChargeRestores(env: Environment, s: State)
    requires Physical(env) && ChargeEstimate(env, s).Some?
    ensures var s' := ChargeEstimate(env, s).value.finish;
            s'.charger == s.charger == s'.waypoint && s'.soc == env.rechargeSoc
  {
  }

  lemma TripEstimate(p: Planner, env: Environment, composed: (nat, Time, State) -> Option<Estimate>, r: Request,
                     s: State)
    requires Uses(p, env, composed) && IsTrip(r.description)
    ensures var t := Max(p.timeNow, r.earliestStart);
            Finish(p, r, s)
            == TaskEstimate(env, s, StartOf(r.description), EndOf(r.description), t, EffortOf(env, r.description, t))
  {
    hide TaskEstimate, EffortOf, Physical;
  }

  lemma ChargeIs(p: Planner, env: Environment, composed: (nat, Time, State) -> Option<Estimate>, s: State)
    requires Uses(p, env, composed)
    ensures Physical(env) && p.charge(s) == ChargeEstimate(env, s)
  {
    hide ChargeEstimate, RequestEstimate, Physical;
  }

  lemma TripRecovers(p: Planner, env: Environment, composed: (nat, Time, State) -> Option<Estimate>,
                     requests: set<Request>, chargers: set<nat>, r: Request, s: State)
    requires Uses(p, env, composed) && Ample(env, p.timeNow, requests, chargers) && env.drainBattery
    requires r in requests && InReserve(env, chargers, s) && Finish(p, r, s).Some?
    ensures var s' := Finish(p, r, s).value.finish;
            InReserve(env, chargers, s') && Recovers(p, requests, s')
  {
    hide Uses, TaskEstimate, ChargeEstimate, EffortOf, RoundTrip, StartOf, EndOf, Physical, Finish;
    ChargeIs(p, env, composed, s);
    TripEstimate(p, env, composed, r, s);
    TripCanCharge(env, r.description, Max(p.timeNow, r.earliestStart), s);
    var s' := Finish(p, r, s).value.finish;
    ChargeIs(p, env, composed, s');
    ChargeRestores(env, s');
    var full := p.charge(s').value.finish;
    forall q | q in requests ensures Finish(p, q, full).Some? {
      TripEstimate(p, env, composed, q, full);
      ChargedAffords(env, q.description, Max(p.timeNow, q.earliestStart), full);
    }
  }

  /** Without draining batteries a robot can always go on. */
  lemma TripGoesOn(p: Planner, env: Environment, composed: (nat, Time, State) -> Option<Estimate>,
                   requests: set<Request>, chargers: set<nat>, r: Request, s: State)
    requires Uses(p, env, composed) && Ample(env, p.timeNow, requests, chargers) && !env.drainBattery
    requires r in requests && InReserve(env, chargers, s) && Finish(p, r, s).Some?
    ensures var s' := Finish(p, r, s).value.finish;
            InReserve(env, chargers, s') && Recovers(p, requests, s')
  {
    hide Uses, ChargeEstimate, EffortOf, StartOf, EndOf, Physical, Finish;
    TripEstimate(p, env, composed, r, s);
    var s' := Finish(p, r, s).value.finish;
    forall q | q in requests ensures Finish(p, q, s').Some? {
      TripEstimate(p, env, composed, q, s');
    }
  }

  lemma AmpleNeverStranded(p: Planner, env: Environment, composed: (nat, Time, State) -> Option<Estimate>,
                           requests: set<Request>, chargers: set<nat>)
    requires Uses(p, env, composed) && Ample(env, p.timeNow, requests, chargers)
    ensures NeverStranded(p, requests, s => InReserve(env, chargers, s))
  {
    hide Uses, Recovers, Finish, ChargeEstimate, RoundTrip, Physical;
    forall s | InReserve(env, chargers, s) && p.charge(s).Some?
      ensures InReserve(env, chargers, p.charge(s).value.finish)
    {
      ChargeIs(p, env, composed, s);
      ChargeRestores(env, s);
    }
    forall r, s | r in requests && InReserve(env, chargers, s) && Finish(p, r, s).Some?
      ensures InReserve(env, chargers, Finish(p, r, s).value.finish)
              && Recovers(p, requests, Finish(p, r, s).value.finish)
    {
      if env.drainBattery {
        TripRecovers(p, env, composed, requests, chargers, r, s);
      } else {
        TripGoesOn(p, env, composed, requests, chargers, r, s);
      }
    }
  }

  /** With the built-in models and requests that can be done from the chargers of the agents, no search of any segment
      comes to a dead end. */
  lemma AmpleIsSolvable(p: Planner, env: Environment, composed: (nat, Time, State) -> Option<Estimate>,
                        states0: seq<State>, requests0: seq<Request>, chargers: set<nat>,
                        segments: seq<Segment>, s: Segment)
    requires Uses(p, env, composed) && Ample(env, p.timeNow, RequestSet(requests0), chargers)
    requires forall a | 0 <= a < |states0| :: InReserve(env, chargers, states0[a])
    ensures !DeadEnd(p, states0, requests0, segments, s)
  {
    hide Uses, Ample, InReserve, DeadEnd, NeverStranded;
    AmpleNeverStranded(p, env, composed, RequestSet(requests0), chargers);
    NoDeadEnd(p, states0, requests0, s => InReserve(env, chargers, s), segments, s);
  }

  // ---- when a task may not be assigned ----

  /** An agent ends a trip with a way to its charger. */
  lemma EntryCanCharge(p: Planner, env: Environment, composed: (nat, Time, State) -> Option<Estimate>, r: Request,
                       s0: State, l: seq<Wrapped>, e: Entry)
    requires Uses(p, env, composed) && env.drainBattery && IsTrip(r.description) && UpToDate(p, r, s0, l, e)
    ensures ArrivalSoc(env, e.state).Some?
    ensures p.charge(e.state).None? <==> env.rechargeSoc - ArrivalSoc(env, e.state).value <= 0.001
  {
    hide Uses, Finish, EffortOf, TaskEstimate, ChargeEstimate, ArrivalSoc, Physical;
    var s := LastState(l, s0);
    var from := if e.requireCharge then p.charge(s).value.finish else s;
    ChargeIs(p, env, composed, e.state);
    TripEstimate(p, env, composed, r, from);
    TaskCanCharge(env, from, r.description, Max(p.timeNow, r.earliestStart));
  }

  /** After task `u`, agent `a` could not perform some other task and, moreover, not after a charge, which is refused to
      an agent that would arrive at its charger within a thousandth of the usual level. */
  ghost predicate Stranded(p: Planner, env: Environment, n: Node, u: nat, a: nat)
    requires u in n.unassigned && a in n.unassigned[u].candidates
  {
    var s := n.unassigned[u].candidates[a].state;
    var rest := PendingRequests(n.unassigned - {u});
    && !Affords(p, rest, s) && ArrivalSoc(env, s).Some?
    && (env.rechargeSoc - ArrivalSoc(env, s).value > 0.001 ==>
          p.charge(s).Some? && !Affords(p, rest, p.charge(s).value.finish))
  }

  /** In every node of a search with draining batteries, a task that is due may not be assigned to an agent exactly if
      that would strand it. */
  lemma StrandedIff(p: Planner, env: Environment, composed: (nat, Time, State) -> Option<Estimate>,
                    states: seq<State>, root: Node, n: Node, u: nat, a: nat)
    requires Uses(p, env, composed) && env.drainBattery && Root(p, states, root) && Reachable(p, root, n)
    requires u in n.unassigned && IsTrip(n.unassigned[u].request.description)
    requires a in n.unassigned[u].candidates && a < |n.lists| == |states|
    requires n.latest + SEGMENTATION_THRESHOLD >= n.unassigned[u].candidates[a].waitUntil
    ensures AssignTask(p, n, u, a).None? <==> Stranded(p, env, n, u, a)
  {
    hide Uses, Root, Reachable, Finish, ArrivalSoc, UpToDate, Appended, Rated, WithoutInvariant;
    EntriesUpToDate(p, states, root, n, u, a);
    EntryCanCharge(p, env, composed, n.unassigned[u].request, states[a], n.lists[a], n.unassigned[u].candidates[a]);
  }

  /** Every dead end of a search for trips has a node in which a task is due and every agent that a due task
      might be assigned to would be stranded by it. */
  lemma DeadEndStrands(p: Planner, env: Environment, composed: (nat, Time, State) -> Option<Estimate>,
                       states: seq<State>, root: Node) returns (m: Node, u: nat, a: nat)
    requires Uses(p, env, composed) && env.drainBattery && Root(p, states, root) && NoneFinished(p, root)
    requires forall v | v in root.unassigned :: IsTrip(root.unassigned[v].request.description)
    ensures Reachable(p, root, m) && Due(m, u, a)
    ensures forall v, b | Due(m, v, b) :: Stranded(p, env, m, v, b)
  {
    hide Uses, Root, Reachable, NoneFinished, IsBest, Stranded;
    ReachesItself(p, root);
    m, u, a := DeadEndStops(p, root, root);
    forall v, b | Due(m, v, b) ensures b in m.unassigned[v].candidates && Stranded(p, env, m, v, b) {
      DueParts(p, states, root, m, v, b);
      assert Apply(p, m, Assign(v, b)).None?;
      StrandedIff(p, env, composed, states, root, m, v, b);
    }
  }

  lemma DueParts(p: Planner, states: seq<State>, root: Node, n: Node, u: nat, a: nat)
    requires Root(p, states, root) && Reachable(p, root, n) && Due(n, u, a)
    ensures u in root.unassigned && n.unassigned[u].request == root.unassigned[u].request
    ensures a in n.unassigned[u].candidates && a < |n.lists| == |states|
  {
    hide Reachable, UpToDate;
    EntriesUpToDate(p, states, root, n, u, 0);
    ReachableInv(p, states, root, n);
    assert TaskAgrees(p, root.unassigned[u], n.lists, n.unassigned[u]);
  }

  /** With the built-in models an agent lacks charge, rather than capacity, exactly if it is away from its charger, not
      charged to the usual level, and cannot get to its charger above the threshold. */
  lemma LowBatteryIff(p: Planner, env: Environment, composed: (nat, Time, State) -> Option<Estimate>, s: State)
    requires Uses(p, env, composed) && p.rechargeSoc == env.rechargeSoc
    ensures ErrorOf(p, s) == LowBattery <==>
            && s.soc < env.rechargeSoc - 0.001 && s.waypoint != s.charger
            && (env.travel(s.waypoint, s.charger).Some? ==>
                  var drain := if env.drainBattery then env.travel(s.waypoint, s.charger).value.drain else 0.0;
                  s.soc - drain <= env.thresholdSoc)
  {
    hide Uses, TimeToCharge;
    ChargeIs(p, env, composed, s);
    if env.travel(s.waypoint, s.charger).Some? && s.waypoint != s.charger {
      WayNonNegative(env, s.waypoint, s.charger);
    }
  }

  // ---- a dead end ----

  /** Two places a second apart, and a battery that lasts ten thousand seconds. */
  function Yard(): Environment {
    Environment((x, y) => Some(Travel(SECOND, 0.0001)), (x, y, t) => [Leg(t + SECOND, 0.0)],
                x => if x < 0.0 then 0.0 else 0.0001 * x, x => 0.0, 1.0, 1.0, 0.1, 1.0, true)
  }

  /** A delivery at place 1 that is due soon, and one that is due much later. */
  const SOON: Request := Request(1, SECOND, false, Delivery(1, 0, 1, 0))
  const LATER: Request := Request(2, 10_000 * SECOND, false, Delivery(1, 0, 1, 0))

  /** A fully charged robot at its charger. */
  const PARKED: State := State(0, 0.0, 0, 0, 1.0)

  /** The same robot after the first delivery. */
  const DONE: State := State(1, 0.0, SECOND, 0, 0.9999)

  function NoneComposed(tag: nat, t: Time, s: State): Option<Estimate> {
    None
  }

  /** A planner with the built-in models there. */
  function YardPlanner(): Planner {
    Planner((r: Request, t: Time, s: State) => RequestEstimate(Yard(), NoneComposed, r.description, t, s),
            (s: State) => ChargeEstimate(Yard(), s), r => 0, (lists, un, inv) => 0.0, 1.0, 0)
  }

  lemma YardIsPhysical()
    ensures Physical(Yard()) && Routed(Yard())
    ensures Uses(YardPlanner(), Yard(), NoneComposed) && YardPlanner().timeNow == 0
  {
    hide RequestEstimate, ChargeEstimate;
    forall x, y, t ensures LegsForward(Yard().route(x, y, t), t) && IsRoute(Yard(), x, y, t) {
      YardRoute(x, y, t);
    }
  }

  /** The way between the two places drains what their route does. */
  lemma YardRoute(x: nat, y: nat, t: Time)
    ensures LegsForward(Yard().route(x, y, t), t) && IsRoute(Yard(), x, y, t)
  {
    var legs := Yard().route(x, y, t);
    assert legs == [Leg(t + SECOND, 0.0)] && legs[1..] == [];
    assert Seconds(SECOND) == 1.0 && Yard().ambient(1.0) == 0.0001;
    assert legs[0].finish - t == SECOND && TravelDrain(Yard(), [], t) == 0.0;
    assert TravelDrain(Yard(), legs, t) == legs[0].motionDrain + Yard().ambient(Seconds(legs[0].finish - t)) + 0.0;
  }

  lemma YardEffort(t: Time)
    ensures EffortOf(Yard(), Delivery(1, 0, 1, 0), t) == Effort(0, 0.0)
  {
  }

  lemma YardFromCharger()
    ensures TaskEstimate(Yard(), PARKED, 1, 1, SECOND, Effort(0, 0.0)) == Some(Estimate(DONE, 0))
    ensures var e := TaskEstimate(Yard(), PARKED, 1, 1, 10_000 * SECOND, Effort(0, 0.0));
            e == Some(Estimate(State(1, 0.0, 10_000 * SECOND, 0, 0.9999), 9_999 * SECOND))
  {
  }

  lemma YardFromPlace()
    ensures TaskEstimate(Yard(), DONE, 1, 1, 10_000 * SECOND, Effort(0, 0.0)).None?
    ensures TaskEstimate(Yard(), State(1, 0.0, 10_000 * SECOND, 0, 0.9999), 1, 1, SECOND, Effort(0, 0.0)).Some?
    ensures ChargeEstimate(Yard(), DONE).None?
  {
    assert Seconds(9_999 * SECOND) == 9_999.0;
  }

  /** The robot can perform both deliveries from its charger, but not the second one after the first: it has hardly
      lost any charge, so that it may not go back to its charger, and would lose all of it while it waits. */
  lemma YardEstimates(p: Planner, composed: (nat, Time, State) -> Option<Estimate>)
    requires Uses(p, Yard(), composed) && p.timeNow == 0
    ensures Finish(p, SOON, PARKED) == Some(Estimate(DONE, 0))
    ensures Finish(p, LATER, PARKED).Some? && Finish(p, LATER, PARKED).value.waitUntil == 9_999 * SECOND
    ensures Finish(p, LATER, DONE).None? && p.charge(DONE).None?
    ensures Finish(p, SOON, Finish(p, LATER, PARKED).value.finish).Some?
  {
    hide Uses, Finish, EffortOf, Physical, TaskEstimate, ChargeEstimate, Yard;
    YardEffort(SECOND);
    YardEffort(10_000 * SECOND);
    YardFromCharger();
    YardFromPlace();
    TripEstimate(p, Yard(), composed, SOON, PARKED);
    TripEstimate(p, Yard(), composed, LATER, PARKED);
    TripEstimate(p, Yard(), composed, LATER, DONE);
    TripEstimate(p, Yard(), composed, SOON, State(1, 0.0, 10_000 * SECOND, 0, 0.9999));
    ChargeIs(p, Yard(), composed, DONE);
  }

  /** The fresh node for the two deliveries. */
  lemma YardRoot(p: Planner, composed: (nat, Time, State) -> Option<Estimate>, root: Node)
    requires Uses(p, Yard(), composed) && p.timeNow == 0 && Fresh(p, [PARKED], [SOON, LATER], root)
    ensures root.lists == [[]] && root.unassigned.Keys == {1, 2} && root.latest == 0
    ensures root.unassigned[1] == Pending(SOON, map[0 := Entry(DONE, 0, PARKED, false)])
    ensures root.unassigned[2].request == LATER && root.unassigned[2].candidates.Keys == {0}
    ensures root.unassigned[2].candidates[0].waitUntil == 9_999 * SECOND
  {
    hide Uses, Finish, InvariantsFor, IsBest;
    YardEstimates(p, composed);
    assert root.lists == [[]];
    assert [SOON, LATER][1 - 1] == SOON && [SOON, LATER][2 - 1] == LATER;
    assert InitialCandidates(p, SOON, [PARKED]) == map[0 := Entry(DONE, 0, PARKED, false)];
    assert InitialCandidates(p, LATER, [PARKED]).Keys == {0};
    YardLatest(root);
  }

  lemma YardLatest(root: Node)
    requires root.unassigned.Keys == {1, 2}
    requires root.unassigned[1] == Pending(SOON, map[0 := Entry(DONE, 0, PARKED, false)])
    requires root.unassigned[2].candidates.Keys == {0}
    requires root.unassigned[2].candidates[0].waitUntil == 9_999 * SECOND
    requires exists t, w :: IsLatestTime([PARKED], t) && IsEarliestWait(root.unassigned, w) && root.latest == Max(t, w)
    ensures root.latest == 0
  {
    assert IsBest(root.unassigned[1].candidates, 0);
    var t, w :| IsLatestTime([PARKED], t) && IsEarliestWait(root.unassigned, w) && root.latest == Max(t, w);
    assert t == 0;
    assert w <= root.unassigned[1].candidates[0].waitUntil;
  }

  /** No action expands it. */
  lemma YardStops(p: Planner, composed: (nat, Time, State) -> Option<Estimate>, root: Node, act: Action)
    requires Uses(p, Yard(), composed) && p.timeNow == 0 && Fresh(p, [PARKED], [SOON, LATER], root)
    ensures Apply(p, root, act).None?
  {
    hide *;
    YardRoot(p, composed, root);
    YardEstimates(p, composed);
    NoWayOn(p, root, act);
  }

  lemma NoWayOn(p: Planner, root: Node, act: Action)
    requires root.lists == [[]] && root.unassigned.Keys == {1, 2} && root.latest == 0
    requires root.unassigned[1] == Pending(SOON, map[0 := Entry(DONE, 0, PARKED, false)])
    requires root.unassigned[2].request == LATER && root.unassigned[2].candidates.Keys == {0}
    requires root.unassigned[2].candidates[0].waitUntil == 9_999 * SECOND
    requires Finish(p, LATER, DONE).None? && p.charge(DONE).None?
    ensures Apply(p, root, act).None?
  {
    hide Finish, Appended, Rated, WithoutInvariant;
    if act == Assign(1, 0) {
      var rest := root.unassigned - {1};
      assert 2 in rest && rest[2].request == LATER;
      assert Reestimate(p, rest, 0, DONE, DONE).None?;
    }
  }

  lemma {:induction false} YardRuns(p: Planner, composed: (nat, Time, State) -> Option<Estimate>, root: Node,
                                    acts: seq<Action>)
    requires Uses(p, Yard(), composed) && p.timeNow == 0 && Fresh(p, [PARKED], [SOON, LATER], root)
    ensures Run(p, root, acts).Some? ==> Run(p, root, acts).value == root
  {
    hide Uses, Fresh, Apply;
    if acts != [] {
      YardRuns(p, composed, root, acts[..|acts| - 1]);
      YardStops(p, composed, root, Last(acts));
    }
  }

  lemma YardCapable(p: Planner, composed: (nat, Time, State) -> Option<Estimate>)
    requires Uses(p, Yard(), composed) && p.timeNow == 0
    ensures AllCapable(p, [PARKED], [SOON, LATER])
  {
    hide Uses, Finish, Yard;
    YardEstimates(p, composed);
  }

  lemma YardUnfinished(root: Node)
    requires root.unassigned.Keys == {1, 2} && root.latest == 0
    requires root.unassigned[1] == Pending(SOON, map[0 := Entry(DONE, 0, PARKED, false)])
    ensures !Finished(root)
  {
    assert IsBest(root.unassigned[1].candidates, 0);
  }

  lemma PairConsistent(p: Planner, s: State, x: Assignment, y: Assignment)
    requires Predicted(p, s, x) && Predicted(p, x.finish, y)
    ensures Consistent(p, s, [x] + [y])
  {
    hide Predicted;
    assert ([x] + [y])[..0] == [] && ([x] + [y])[..1] == [x];
  }

  lemma PairBag(x: Assignment, y: Assignment)
    requires !IsCharge(x) && !IsCharge(y)
    ensures PlanBag([[x] + [y]]) == multiset([y.request, x.request])
  {
    RequestBagSnoc([x], y);
    assert [x][..0] == [];
    assert RequestBag([x]) == multiset{x.request};
    assert [[x] + [y]][1..] == [];
  }

  /** The second delivery followed by the first is a plan. */
  lemma YardHasPlan(p: Planner, composed: (nat, Time, State) -> Option<Estimate>) returns (plan: seq<seq<Assignment>>)
    requires Uses(p, Yard(), composed) && p.timeNow == 0
    ensures GoodPlan(p, [PARKED], [SOON, LATER], plan)
  {
    hide Uses, Finish, Yard, Consistent, PlanBag;
    YardEstimates(p, composed);
    var e := Finish(p, LATER, PARKED).value;
    var f := Finish(p, SOON, e.finish).value;
    var x, y := Assignment(LATER, e.finish, e.waitUntil), Assignment(SOON, f.finish, f.waitUntil);
    plan := [[x] + [y]];
    PairConsistent(p, PARKED, x, y);
    PairBag(x, y);
  }

  /** The robot is capable of both deliveries, and there is a plan, but the search finds none: the first
      delivery is due alone, and may not be assigned. */
  lemma YardIsDeadEnd(p: Planner, composed: (nat, Time, State) -> Option<Estimate>, root: Node)
    requires Uses(p, Yard(), composed) && p.timeNow == 0 && Fresh(p, [PARKED], [SOON, LATER], root)
    ensures AllCapable(p, [PARKED], [SOON, LATER]) && NoneFinished(p, root)
    ensures exists plan :: GoodPlan(p, [PARKED], [SOON, LATER], plan)
  {
    hide Uses, Finish, Fresh, Yard, Finished, AllCapable, Run, GoodPlan;
    var plan := YardHasPlan(p, composed);
    YardRoot(p, composed, root);
    YardCapable(p, composed);
    YardUnfinished(root);
    forall m | Reachable(p, root, m) ensures !Finished(m) {
      var acts :| Run(p, root, acts) == Some(m);
      YardRuns(p, composed, root, acts);
    }
  }
}
