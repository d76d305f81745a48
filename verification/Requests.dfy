/** The models of the built-in requests: how long a delivery, a loop, a cleaning or a
    charging task takes from a given state, and whether the battery allows it. */
module Requests {
  import opened Domain

  datatype Travel = Travel(duration: int, drain: real)

  /** One trajectory of a route: when it ends and what moving along it drains. */
  datatype Leg = Leg(finish: Time, motionDrain: real)

  /** The planner, the power sinks, the battery and the constraints. `travel` is the travel
      estimator, whose results depend on the two waypoints only (see `TravelCache`); `route` is a
      route of the planner from one waypoint to another, starting at the given time. */
  datatype Environment = Environment(
    travel: (nat, nat) -> Option<Travel>,
    route: (nat, nat, Time) -> seq<Leg>,
    ambient: real -> real,
    tool: real -> real,
    capacity: real,
    chargingCurrent: real,
    thresholdSoc: real,
    rechargeSoc: real,
    drainBattery: bool)

  /** `rmf_traffic::time::from_seconds` of a non-negative number. */
  function FromSeconds(x: real): int {
    (x * 1000000000.0).Floor
  }

  /** Nothing takes negative time, nothing but charging adds charge, and the constraints are within
      the bounds that their constructor checks. */
  ghost predicate Physical(env: Environment) {
    && (forall x, y :: env.travel(x, y).Some? ==>
          env.travel(x, y).value.duration >= 0 && env.travel(x, y).value.drain >= 0.0)
    && (forall x, y, t :: LegsForward(env.route(x, y, t), t))
    && (forall x: real | x >= 0.0 :: env.ambient(x) >= 0.0 && env.tool(x) >= 0.0)
    && env.capacity >= 0.0 && env.chargingCurrent > 0.0
    && 0.0 <= env.thresholdSoc <= 1.0 && 0.0 <= env.rechargeSoc <= 1.0
  }

  ghost predicate LegsForward(legs: seq<Leg>, t: Time) {
    legs != [] ==> t <= legs[0].finish && legs[0].motionDrain >= 0.0 && LegsForward(legs[1..], legs[0].finish)
  }

  /** What a request asks of the battery and the clock whatever the robot does before it. */
  datatype Effort = Effort(duration: int, drain: real)

  // ---- the invariant part of a task ----

  function RouteDuration(legs: seq<Leg>, t: Time): int {
    if legs == [] then 0 else Last(legs).finish - t
  }

  function RouteDrain(env: Environment, legs: seq<Leg>, t: Time): real {
    if legs == [] then 0.0
    else legs[0].motionDrain + env.ambient(Seconds(legs[0].finish - t)) + RouteDrain(env, legs[1..], legs[0].finish)
  }

  /** The effort of a delivery, a loop or a cleaning that is booked for time `t`. */
  function EffortOf(env: Environment, d: Description, t: Time): Effort
    requires d.Delivery? || d.Loop? || d.Clean?
  {
    match d
    case Delivery(pickup, pickupWait, dropoff, dropoffWait) =>
      var wait := pickupWait + dropoffWait;
      var legs := if pickup == dropoff then [] else env.route(pickup, dropoff, t);
      Effort(wait + RouteDuration(legs, t), env.ambient(Seconds(wait)) + RouteDrain(env, legs, t))
    case Loop(start, finish, loops) =>
      var legs := if start == finish then [] else env.route(start, finish, t);
      Effort((2 * loops - 1) * RouteDuration(legs, t), (2 * loops - 1) as real * RouteDrain(env, legs, t))
    case Clean(start, end, duration, drain) =>
      Effort(duration, drain + env.ambient(Seconds(duration)) + env.tool(Seconds(duration)))
  }

  /** The loop that the constructors of `Delivery::Model` and `Loop::Model` run over a route. */
  method RouteEffort(env: Environment, legs: seq<Leg>, t: Time) returns (duration: int, drain: real)
    ensures duration == RouteDuration(legs, t)
    ensures drain == RouteDrain(env, legs, t)
  {
    duration, drain := 0, 0.0;
    var start := t;
    for i := 0 to |legs|
      invariant start == if i == 0 then t else legs[i - 1].finish
      invariant duration == start - t
      invariant drain + RouteDrain(env, legs[i..], start) == RouteDrain(env, legs, t)
    {
      var legDuration := legs[i].finish - start;
      assert legs[i..][0] == legs[i] && legs[i..][1..] == legs[i + 1..];
      drain := drain + legs[i].motionDrain + env.ambient(Seconds(legDuration));
      duration := duration + legDuration;
      start := legs[i].finish;
    }
  }

  /** The constructors of the three models. */
  method ModelEffort(env: Environment, d: Description, t: Time) returns (effort: Effort)
    requires d.Delivery? || d.Loop? || d.Clean?
    ensures effort == EffortOf(env, d, t)
  {
    match d
    case Delivery(pickup, pickupWait, dropoff, dropoffWait) =>
      effort := Effort(pickupWait + dropoffWait, env.ambient(Seconds(pickupWait + dropoffWait)));
      if pickup != dropoff {
        var duration, drain := RouteEffort(env, env.route(pickup, dropoff, t), t);
        effort := Effort(effort.duration + duration, effort.drain + drain);
      }
    case Loop(start, finish, loops) =>
      effort := Effort(0, 0.0);
      if start != finish {
        var duration, drain := RouteEffort(env, env.route(start, finish, t), t);
        effort := Effort((2 * loops - 1) * duration, (2 * loops - 1) as real * drain);
      }
    case Clean(start, end, pathDuration, pathDrain) =>
      var ambient, cleaning := env.ambient(Seconds(pathDuration)), env.tool(Seconds(pathDuration));
      effort := Effort(pathDuration, pathDrain + ambient + cleaning);
  }

  lemma {:induction false} RouteNonNegative(env: Environment, legs: seq<Leg>, t: Time)
    requires Physical(env) && LegsForward(legs, t)
    ensures RouteDuration(legs, t) >= 0 && RouteDrain(env, legs, t) >= 0.0
  {
    if legs != [] {
      RouteNonNegative(env, legs[1..], legs[0].finish);
      assert Seconds(legs[0].finish - t) >= 0.0;
    }
  }

  lemma EffortNonNegative(env: Environment, d: Description, t: Time)
    requires Physical(env) && (d.Delivery? || d.Loop? || d.Clean?)
    ensures EffortOf(env, d, t).duration >= 0 && EffortOf(env, d, t).drain >= 0.0
  {
    match d
    case Delivery(pickup, pickupWait, dropoff, dropoffWait) =>
      assert Seconds(pickupWait + dropoffWait) >= 0.0;
      RouteNonNegative(env, if pickup == dropoff then [] else env.route(pickup, dropoff, t), t);
    case Loop(start, finish, loops) =>
      var legs := if start == finish then [] else env.route(start, finish, t);
      RouteNonNegative(env, legs, t);
      TimesNonNegative(2 * loops - 1, RouteDuration(legs, t), RouteDrain(env, legs, t));
    case Clean(start, end, duration, drain) =>
      assert Seconds(duration) >= 0.0;
  }

  lemma TimesNonNegative(k: int, x: int, y: real)
    requires k >= 0 && x >= 0 && y >= 0.0
    ensures k * x >= 0 && k as real * y >= 0.0
  {
  }

  // ---- tasks that start at one waypoint and end at another ----

  function StartOf(d: Description): nat
    requires d.Delivery? || d.Loop? || d.Clean?
  {
    match d
    case Delivery(pickup, _, _, _) => pickup
    case Loop(start, _, _) => start
    case Clean(start, _, _, _) => start
  }

  function EndOf(d: Description): nat
    requires d.Delivery? || d.Loop? || d.Clean?
  {
    match d
    case Delivery(_, _, dropoff, _) => dropoff
    case Loop(_, finish, _) => finish
    case Clean(_, end, _, _) => end
  }

  /** The way between two waypoints; there is none to go if they are the same. */
  function Way(env: Environment, x: nat, y: nat): Option<Travel> {
    if x == y then Some(Travel(0, 0.0)) else env.travel(x, y)
  }

  /** When a robot in state `s`, which needs `travel` to reach the start, has to be deployed for a task
      booked for time `t`. */
  function WaitUntil(s: State, travel: Travel, t: Time): Time {
    Max(s.time, t - travel.duration)
  }

  /** The charge that a robot loses while it waits away from its charger. */
  function WaitDrain(env: Environment, s: State, travel: Travel, t: Time): real {
    if WaitUntil(s, travel, t) > s.time && s.waypoint != s.charger
    then env.ambient(Seconds(WaitUntil(s, travel, t) - s.time)) else 0.0
  }

  /** The charge at the end of a task. */
  function SocAfter(env: Environment, s: State, travel: Travel, t: Time, effort: Effort): real {
    if env.drainBattery then s.soc - travel.drain - WaitDrain(env, s, travel, t) - effort.drain else s.soc
  }

  function StateAfter(env: Environment, s: State, end: nat, travel: Travel, t: Time, effort: Effort): State {
    State(end, s.orientation, WaitUntil(s, travel, t) + travel.duration + effort.duration, s.charger,
          SocAfter(env, s, travel, t, effort))
  }

  /** A robot may do a task if it can get to its start and, when batteries drain, if what is
      left at the end takes it back to its charger above the threshold. Without draining, only a
      robot that has to travel is held to the threshold. */
  predicate Feasible(env: Environment, s: State, start: nat, end: nat, t: Time, effort: Effort) {
    && Way(env, s.waypoint, start).Some?
    && if env.drainBattery then
         && Way(env, end, s.charger).Some?
         && SocAfter(env, s, Way(env, s.waypoint, start).value, t, effort) - Way(env, end, s.charger).value.drain
            > env.thresholdSoc
       else
         s.waypoint == start || s.soc > env.thresholdSoc
  }

  function TaskEstimate(env: Environment, s: State, start: nat, end: nat, t: Time, effort: Effort): Option<Estimate> {
    if Feasible(env, s, start, end, t, effort) then
      var travel := Way(env, s.waypoint, start).value;
      Some(Estimate(StateAfter(env, s, end, travel, t, effort), WaitUntil(s, travel, t)))
    else
      None
  }

  lemma WaitDrainNonNegative(env: Environment, s: State, travel: Travel, t: Time)
    requires Physical(env)
    ensures WaitDrain(env, s, travel, t) >= 0.0
  {
  }

  lemma WayNonNegative(env: Environment, x: nat, y: nat)
    requires Physical(env) && Way(env, x, y).Some?
    ensures Way(env, x, y).value.duration >= 0 && Way(env, x, y).value.drain >= 0.0
  {
  }

  /** None of the parts of a task adds charge. */
  lemma DrainsNonNegative(env: Environment, s: State, d: Description, t: Time)
    requires Physical(env) && (d.Delivery? || d.Loop? || d.Clean?)
    ensures Way(env, s.waypoint, StartOf(d)).Some? ==>
              && Way(env, s.waypoint, StartOf(d)).value.drain >= 0.0
              && WaitDrain(env, s, Way(env, s.waypoint, StartOf(d)).value, t) >= 0.0
    ensures Way(env, EndOf(d), s.charger).Some? ==> Way(env, EndOf(d), s.charger).value.drain >= 0.0
    ensures EffortOf(env, d, t).drain >= 0.0
  {
    EffortNonNegative(env, d, t);
    if Way(env, s.waypoint, StartOf(d)).Some? {
      WayNonNegative(env, s.waypoint, StartOf(d));
      WaitDrainNonNegative(env, s, Way(env, s.waypoint, StartOf(d)).value, t);
    }
    if Way(env, EndOf(d), s.charger).Some? {
      WayNonNegative(env, EndOf(d), s.charger);
    }
  }

  /** What `estimate_finish` does for all three kinds of task. Because no drain is negative, its checks along the way
      follow from the one at the end. */
  method EstimateTask(env: Environment, s: State, d: Description, t: Time) returns (r: Option<Estimate>)
    requires Physical(env) && (d.Delivery? || d.Loop? || d.Clean?)
    ensures r == TaskEstimate(env, s, StartOf(d), EndOf(d), t, EffortOf(env, d, t))
  {
    hide Physical, EffortOf, StartOf, EndOf;
    DrainsNonNegative(env, s, d, t);
    var start, end, effort := StartOf(d), EndOf(d), EffortOf(env, d, t);
    var variant, soc := 0, s.soc;
    if s.waypoint != start {
      var travel := env.travel(s.waypoint, start);
      if travel.None? {
        return None;
      }
      variant := travel.value.duration;
      if env.drainBattery {
        soc := soc - travel.value.drain;
      }
      if soc <= env.thresholdSoc {
        return None;
      }
    }
    var idealStart := t - variant;
    var waitUntil := if s.time > idealStart then s.time else idealStart;
    if env.drainBattery && waitUntil > s.time && s.waypoint != s.charger {
      soc := soc - env.ambient(Seconds(waitUntil - s.time));
      if soc <= env.thresholdSoc {
        return None;
      }
    }
    var finish := waitUntil + variant + effort.duration;
    if env.drainBattery {
      soc := soc - effort.drain;
      if soc <= env.thresholdSoc {
        return None;
      }
      if end != s.charger {
        var retreat := env.travel(end, s.charger);
        if retreat.None? {
          return None;
        }
        if soc - retreat.value.drain <= env.thresholdSoc {
          return None;
        }
      }
    }
    r := Some(Estimate(State(end, s.orientation, finish, s.charger, soc), waitUntil));
  }

  /** `Delivery::Model::estimate_finish` */
  method DeliveryEstimate(env: Environment, s: State, d: Description, t: Time) returns (r: Option<Estimate>)
    requires Physical(env) && d.Delivery?
    ensures r == TaskEstimate(env, s, d.pickup, d.dropoff, t, EffortOf(env, d, t))
  {
    r := EstimateTask(env, s, d, t);
  }

  /** `Loop::Model::estimate_finish` */
  method LoopEstimate(env: Environment, s: State, d: Description, t: Time) returns (r: Option<Estimate>)
    requires Physical(env) && d.Loop?
    ensures r == TaskEstimate(env, s, d.start, d.finish, t, EffortOf(env, d, t))
  {
    r := EstimateTask(env, s, d, t);
  }

  /** `Clean::Model::estimate_finish` */
  method CleanEstimate(env: Environment, s: State, d: Description, t: Time) returns (r: Option<Estimate>)
    requires Physical(env) && d.Clean?
    ensures r == TaskEstimate(env, s, d.start, d.end, t, EffortOf(env, d, t))
  {
    r := EstimateTask(env, s, d, t);
  }

  // ---- charging ----

  /** The charge with which a robot in state `s` would arrive at its charger, if it can get there. */
  function ArrivalSoc(env: Environment, s: State): Option<real> {
    match Way(env, s.waypoint, s.charger)
    case None => None
    case Some(way) => Some(if env.drainBattery then s.soc - way.drain else s.soc)
  }

  /** The seconds that it takes to gain `delta`. */
  function TimeToCharge(env: Environment, delta: real): real
    requires env.chargingCurrent != 0.0
  {
    3600.0 * delta * env.capacity / env.chargingCurrent
  }

  /** A charging task makes sense if the robot can get to its charger above the threshold, unless it is
      there, and has more than a thousandth to gain. */
  function ChargeEstimate(env: Environment, s: State): Option<Estimate>
    requires env.chargingCurrent != 0.0
  {
    match ArrivalSoc(env, s)
    case None => None
    case Some(soc) =>
      if (s.waypoint != s.charger && soc <= env.thresholdSoc) || env.rechargeSoc - soc <= 0.001 then None
      else
        var arrival := s.time + Way(env, s.waypoint, s.charger).value.duration;
        var finish := arrival + FromSeconds(TimeToCharge(env, env.rechargeSoc - soc));
        Some(Estimate(State(s.charger, s.orientation, finish, s.charger, env.rechargeSoc), s.time))
  }

  /** `ChargeBattery::Model::estimate_finish` */
  method EstimateCharge(env: Environment, s: State) returns (r: Option<Estimate>)
    requires Physical(env)
    ensures r == ChargeEstimate(env, s)
  {
    if s.soc >= env.rechargeSoc - 0.001 && s.waypoint == s.charger {
      return None;
    }
    var soc, variant := s.soc, 0;
    if s.waypoint != s.charger {
      var travel := env.travel(s.waypoint, s.charger);
      if travel.None? {
        return None;
      }
      variant := travel.value.duration;
      if env.drainBattery {
        soc := soc - travel.value.drain;
      }
      if soc <= env.thresholdSoc {
        return None;
      }
    }
    var delta := env.rechargeSoc - soc;
    if delta <= 0.001 {
      return None;
    }
    var timeToCharge := TimeToCharge(env, delta);
    var waitUntil := s.time;
    r := Some(Estimate(State(s.charger, s.orientation, waitUntil + variant + FromSeconds(timeToCharge),
                             s.charger, env.rechargeSoc), waitUntil));
  }

  // ---- what the models promise ----

  /** Every task is deployed when the robot is free or later, and ends after that; and the
      task itself starts no earlier than it is booked for. */
  lemma TaskForward(env: Environment, s: State, d: Description, t: Time)
    requires Physical(env) && (d.Delivery? || d.Loop? || d.Clean?)
    requires TaskEstimate(env, s, StartOf(d), EndOf(d), t, EffortOf(env, d, t)).Some?
    ensures var e := TaskEstimate(env, s, StartOf(d), EndOf(d), t, EffortOf(env, d, t)).value;
            && s.time <= e.waitUntil <= e.finish.time
            && t + EffortOf(env, d, t).duration <= e.finish.time
  {
    hide Physical, EffortOf;
    EffortNonNegative(env, d, t);
    WayNonNegative(env, s.waypoint, StartOf(d));
  }

  /** With draining batteries, a robot ends every accepted task above the threshold and with no
      more charge than it had. */
  lemma TaskAboveThreshold(env: Environment, s: State, d: Description, t: Time)
    requires Physical(env) && (d.Delivery? || d.Loop? || d.Clean?) && env.drainBattery
    requires TaskEstimate(env, s, StartOf(d), EndOf(d), t, EffortOf(env, d, t)).Some?
    ensures var s' := TaskEstimate(env, s, StartOf(d), EndOf(d), t, EffortOf(env, d, t)).value.finish;
            env.thresholdSoc < s'.soc <= s.soc
  {
    hide Physical, EffortOf;
    DrainsNonNegative(env, s, d, t);
  }

  /** With draining batteries, a robot that ends an accepted task can charge, unless it would arrive at
      its charger within a thousandth of the level up to which it is charged: it never lacks the
      route or the charge to get there. */
  lemma TaskCanCharge(env: Environment, s: State, d: Description, t: Time)
    requires Physical(env) && (d.Delivery? || d.Loop? || d.Clean?) && env.drainBattery
    requires TaskEstimate(env, s, StartOf(d), EndOf(d), t, EffortOf(env, d, t)).Some?
    ensures var s' := TaskEstimate(env, s, StartOf(d), EndOf(d), t, EffortOf(env, d, t)).value.finish;
            && ArrivalSoc(env, s').Some?
            && (ChargeEstimate(env, s').None? <==> env.rechargeSoc - ArrivalSoc(env, s').value <= 0.001)
  {
  }

  lemma ChargeForward(env: Environment, s: State)
    requires Physical(env) && ChargeEstimate(env, s).Some?
    ensures var e := ChargeEstimate(env, s).value;
            s.time == e.waitUntil <= e.finish.time && e.finish.soc == env.rechargeSoc
  {
  }

  /** Charging once is enough: after a charging task none is accepted. */
  lemma NoChargeAfterCharge(env: Environment, s: State)
    requires Physical(env) && ChargeEstimate(env, s).Some?
    ensures ChargeEstimate(env, ChargeEstimate(env, s).value.finish).None?
  {
  }
}
