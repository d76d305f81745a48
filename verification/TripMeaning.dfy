/** What the numbers of the request models mean: walks, time lines and accounts of charge. */
module TripMeaning {
  import opened Domain
  import opened Requests
  import opened TravelCache

  // ---- routes ----

  /** The time at which a route that starts at `t` ends. */
  function RouteEnd(legs: seq<Leg>, t: Time): Time {
    if legs == [] then t else Last(legs).finish
  }

  /** A route takes and drains what its parts do, the second one from the end of the first on. */
  lemma {:induction false} RouteParts(env: Environment, x: seq<Leg>, y: seq<Leg>, t: Time)
    ensures RouteDuration(x + y, t) == RouteDuration(x, t) + RouteDuration(y, RouteEnd(x, t))
    ensures RouteDrain(env, x + y, t) == RouteDrain(env, x, t) + RouteDrain(env, y, RouteEnd(x, t))
  {
    if x == [] {
      assert x + y == y;
    } else {
      assert (x + y)[1..] == x[1..] + y;
      RouteParts(env, x[1..], y, x[0].finish);
      assert RouteEnd(x[1..], x[0].finish) == RouteEnd(x, t);
    }
  }

  lemma RouteOfOne(env: Environment, leg: Leg, t: Time)
    ensures RouteDuration([leg], t) == leg.finish - t
    ensures RouteDrain(env, [leg], t) == leg.motionDrain + env.ambient((leg.finish - t) as real / 1000000000.0)
  {
    assert [leg][1..] == [];
  }

  /** The estimator counts the ambient drain of every leg from the start of the route. */
  lemma {:induction false} TravelParts(env: Environment, x: seq<Leg>, y: seq<Leg>, t: Time)
    ensures TravelDrain(env, x + y, t) == TravelDrain(env, x, t) + TravelDrain(env, y, t)
  {
    if x == [] {
      assert x + y == y;
    } else {
      assert (x + y)[1..] == x[1..] + y;
      TravelParts(env, x[1..], y, t);
    }
  }

  lemma TravelOfOne(env: Environment, leg: Leg, t: Time)
    ensures TravelDrain(env, [leg], t) == leg.motionDrain + env.ambient((leg.finish - t) as real / 1000000000.0)
  {
    assert [leg][1..] == [];
  }

  // ---- loops as walks ----

  /** The places that a robot visits when it goes `loops` times from `start` to `finish` and back, but the last time
      only to `finish`. */
  function Walk(start: nat, finish: nat, loops: nat): (r: seq<nat>)
    ensures |r| == 2 * loops
    ensures forall i | 0 <= i < 2 * loops :: r[i] == if i % 2 == 0 then start else finish
  {
    seq(2 * loops, i => if i % 2 == 0 then start else finish)
  }

  lemma WalkMore(start: nat, finish: nat, loops: nat)
    requires loops >= 1
    ensures Walk(start, finish, loops) == [start, finish] + Walk(start, finish, loops - 1)
  {
    var walk, rest := Walk(start, finish, loops), [start, finish] + Walk(start, finish, loops - 1);
    forall i | 0 <= i < 2 * loops ensures walk[i] == rest[i] {
      assert i >= 2 ==> (i - 2) % 2 == i % 2;
    }
  }

  /** A step between two places takes `leg`, and none if they are the same. */
  function WalkDuration(walk: seq<nat>, leg: int): int {
    if |walk| < 2 then 0 else (if walk[0] == walk[1] then 0 else leg) + WalkDuration(walk[1..], leg)
  }

  function WalkDrain(walk: seq<nat>, leg: real): real {
    if |walk| < 2 then 0.0 else (if walk[0] == walk[1] then 0.0 else leg) + WalkDrain(walk[1..], leg)
  }

  /** Going there and back, and then on from the start. */
  lemma ThereAndBack(start: nat, finish: nat, rest: seq<nat>, d: int, x: real)
    requires rest == [] || rest[0] == start
    ensures var n := if start == finish then 0 else if rest == [] then 1 else 2;
            && WalkDuration([start, finish] + rest, d) == n * d + WalkDuration(rest, d)
            && WalkDrain([start, finish] + rest, x) == n as real * x + WalkDrain(rest, x)
  {
    var walk := [start, finish] + rest;
    assert walk[1..] == [finish] + rest && ([finish] + rest)[1..] == rest;
  }

  lemma {:induction false} WalkSums(start: nat, finish: nat, loops: nat, d: int, x: real)
    requires loops >= 1
    ensures var n := if start == finish then 0 else 2 * loops - 1;
            && WalkDuration(Walk(start, finish, loops), d) == n * d
            && WalkDrain(Walk(start, finish, loops), x) == n as real * x
  {
    hide WalkDuration, WalkDrain;
    WalkMore(start, finish, loops);
    var rest := Walk(start, finish, loops - 1);
    ThereAndBack(start, finish, rest, d, x);
    if loops == 1 {
      NoWalk(d, x);
    } else {
      WalkSums(start, finish, loops - 1, d, x);
      TwoMore(2 * loops - 3, d, x);
    }
  }

  lemma NoWalk(d: int, x: real)
    ensures WalkDuration([], d) == 0 && WalkDrain([], x) == 0.0
  {
  }

  lemma TwoMore(k: int, d: int, x: real)
    ensures (k + 2) * d == k * d + 2 * d && (k + 2) as real * x == k as real * x + 2.0 * x
    ensures 0 * d == 0 && 0.0 * x == 0.0 && 1 * d == d && 1.0 * x == x
  {
  }

  /** A loop request takes and drains what its walk does, which ends where the task ends; every step, also the way back,
      counts as the route from start to finish. */
  lemma LoopIsWalk(env: Environment, d: Description, t: Time)
    requires d.Loop?
    ensures var walk := Walk(d.start, d.finish, d.loops);
            && walk[0] == StartOf(d) && Last(walk) == EndOf(d)
            && EffortOf(env, d, t).duration == WalkDuration(walk, RouteDuration(env.route(d.start, d.finish, t), t))
            && EffortOf(env, d, t).drain == WalkDrain(walk, RouteDrain(env, env.route(d.start, d.finish, t), t))
  {
    hide RouteDuration, RouteDrain;
    var legs := env.route(d.start, d.finish, t);
    var walk := Walk(d.start, d.finish, d.loops);
    assert (2 * d.loops - 1) % 2 == 1 && Last(walk) == d.finish;
    WalkSums(d.start, d.finish, d.loops, RouteDuration(legs, t), RouteDrain(env, legs, t));
    if d.start == d.finish {
      NoRoute(env, t);
      TimesNothing(2 * d.loops - 1, RouteDuration(legs, t), RouteDrain(env, legs, t));
    }
  }

  lemma NoRoute(env: Environment, t: Time)
    ensures RouteDuration([], t) == 0 && RouteDrain(env, [], t) == 0.0
  {
  }

  lemma TimesNothing(k: int, d: int, x: real)
    ensures k * 0 == 0 == 0 * d && k as real * 0.0 == 0.0 == 0.0 * x
  {
  }

  /** A delivery takes both waits and the way between the places; it drains for the waits and for the way. */
  lemma DeliveryEffort(env: Environment, d: Description, t: Time)
    requires d.Delivery?
    ensures StartOf(d) == d.pickup && EndOf(d) == d.dropoff
    ensures var legs := if d.pickup == d.dropoff then [] else env.route(d.pickup, d.dropoff, t);
            var wait := d.pickupWait + d.dropoffWait;
            && t + EffortOf(env, d, t).duration == RouteEnd(legs, t) + wait
            && EffortOf(env, d, t).drain == env.ambient(wait as real / 1000000000.0) + RouteDrain(env, legs, t)
  {
  }

  /** Cleaning takes its path, and drains for the motion, the ambient and the tool all along it. */
  lemma CleanEffort(env: Environment, d: Description, t: Time)
    requires d.Clean?
    ensures StartOf(d) == d.start && EndOf(d) == d.end && EffortOf(env, d, t).duration == d.pathDuration
    ensures var seconds := d.pathDuration as real / 1000000000.0;
            EffortOf(env, d, t).drain == d.pathDrain + env.ambient(seconds) + env.tool(seconds)
  {
  }

  // ---- accounts ----

  /** What the way from `x` to `y` takes and drains, if there is one. Staying takes and drains nothing. */
  ghost predicate IsWay(env: Environment, x: nat, y: nat, duration: int, drain: real) {
    if x == y then duration == 0 && drain == 0.0 else env.travel(x, y) == Some(Travel(duration, drain))
  }

  /** The robot, in state `s`, is deployed for a task at `deployed`: at once, or as late as it takes to be there
      when the task is booked. */
  predicate DeployedInTime(s: State, booked: Time, way: int, deployed: Time) {
    s.time <= deployed && booked <= deployed + way && (deployed == s.time || booked == deployed + way)
  }

  /** An accepted trip: its time line from the state of the robot to its end, and, with draining batteries, what it
      spends on the way, on waiting away from its charger, and on the task. */
  lemma TripAccount(env: Environment, s: State, d: Description, t: Time) returns (way: int, drain: real)
    requires (d.Delivery? || d.Loop? || d.Clean?)
    requires TaskEstimate(env, s, StartOf(d), EndOf(d), t, EffortOf(env, d, t)).Some?
    ensures IsWay(env, s.waypoint, StartOf(d), way, drain)
    ensures var e := TaskEstimate(env, s, StartOf(d), EndOf(d), t, EffortOf(env, d, t)).value;
            && DeployedInTime(s, t, way, e.waitUntil)
            && e.finish.time == e.waitUntil + way + EffortOf(env, d, t).duration
            && e.finish.waypoint == EndOf(d) && e.finish.charger == s.charger && e.finish.orientation == s.orientation
            && var waiting := if s.waypoint == s.charger || e.waitUntil == s.time then 0.0
                              else env.ambient((e.waitUntil - s.time) as real / 1000000000.0);
               s.soc == e.finish.soc
                        + if env.drainBattery then drain + waiting + EffortOf(env, d, t).drain else 0.0
  {
    hide EffortOf;
    var travel := Way(env, s.waypoint, StartOf(d)).value;
    way, drain := travel.duration, travel.drain;
  }

  /** A trip is accepted exactly if the robot can get to its start and, with draining batteries, if what the account
      leaves at the end takes it back to its charger above the threshold. */
  lemma TripAccepted(env: Environment, s: State, d: Description, t: Time)
    requires (d.Delivery? || d.Loop? || d.Clean?) && env.drainBattery
    ensures TaskEstimate(env, s, StartOf(d), EndOf(d), t, EffortOf(env, d, t)).Some? <==>
            exists way, drain, back, retreat ::
              && IsWay(env, s.waypoint, StartOf(d), way, drain) && IsWay(env, EndOf(d), s.charger, back, retreat)
              && var waiting := if s.waypoint == s.charger || t - way <= s.time then 0.0
                                else env.ambient((t - way - s.time) as real / 1000000000.0);
                 s.soc > env.thresholdSoc + drain + waiting + EffortOf(env, d, t).drain + retreat
  {
    hide EffortOf;
    if TaskEstimate(env, s, StartOf(d), EndOf(d), t, EffortOf(env, d, t)).Some? {
      var travel, back := Way(env, s.waypoint, StartOf(d)).value, Way(env, EndOf(d), s.charger).value;
      assert IsWay(env, s.waypoint, StartOf(d), travel.duration, travel.drain);
      assert IsWay(env, EndOf(d), s.charger, back.duration, back.drain);
    }
  }

  /** Without draining batteries, it is accepted exactly if the robot is there, or can get there and is charged
      above the threshold. */
  lemma TripAcceptedIdly(env: Environment, s: State, d: Description, t: Time)
    requires (d.Delivery? || d.Loop? || d.Clean?) && !env.drainBattery
    ensures TaskEstimate(env, s, StartOf(d), EndOf(d), t, EffortOf(env, d, t)).Some? <==>
            s.waypoint == StartOf(d) || (env.travel(s.waypoint, StartOf(d)).Some? && s.soc > env.thresholdSoc)
  {
    hide EffortOf;
  }

  /** An accepted charge: the robot goes to its charger at once, and is charged for as long as its current takes to
      supply what it lacks there, in ampere seconds; less than a nanosecond is lost. */
  lemma ChargeAccount(env: Environment, s: State) returns (way: int, drain: real, charging: int)
    requires Physical(env) && ChargeEstimate(env, s).Some?
    ensures IsWay(env, s.waypoint, s.charger, way, drain) && charging >= 0
    ensures var e := ChargeEstimate(env, s).value;
            && e.waitUntil == s.time && e.finish.time == s.time + way + charging
            && e.finish.waypoint == e.finish.charger == s.charger && e.finish.soc == env.rechargeSoc
    ensures var lacking := env.rechargeSoc - (if env.drainBattery then s.soc - drain else s.soc);
            && lacking > 0.001
            && charging as real <= 1000000000.0 * TimeToCharge(env, lacking) < charging as real + 1.0
            && TimeToCharge(env, lacking) * env.chargingCurrent == 3600.0 * lacking * env.capacity
  {
    var travel := Way(env, s.waypoint, s.charger).value;
    way, drain := travel.duration, travel.drain;
    var lacking := env.rechargeSoc - (if env.drainBattery then s.soc - drain else s.soc);
    charging := FromSeconds(TimeToCharge(env, lacking));
    FromSecondsMeaning(TimeToCharge(env, lacking));
    SupplyMeaning(env, lacking);
    TimeToChargeNonNegative(env, lacking);
  }

  lemma FromSecondsMeaning(x: real)
    ensures FromSeconds(x) as real <= 1000000000.0 * x < FromSeconds(x) as real + 1.0
    ensures x >= 0.0 ==> FromSeconds(x) >= 0
  {
  }

  lemma SupplyMeaning(env: Environment, lacking: real)
    requires env.chargingCurrent > 0.0
    ensures TimeToCharge(env, lacking) * env.chargingCurrent == 3600.0 * lacking * env.capacity
  {
  }

  lemma TimeToChargeNonNegative(env: Environment, lacking: real)
    requires env.chargingCurrent > 0.0 && env.capacity >= 0.0 && lacking >= 0.0
    ensures TimeToCharge(env, lacking) >= 0.0
  {
  }

  /** A charge is accepted exactly if the robot is at its charger or can get there above the threshold, and lacks
      more than a thousandth then. */
  lemma ChargeAccepted(env: Environment, s: State)
    requires env.chargingCurrent != 0.0
    ensures ChargeEstimate(env, s).Some? <==>
            exists way, drain ::
              && IsWay(env, s.waypoint, s.charger, way, drain)
              && var arrival := if env.drainBattery then s.soc - drain else s.soc;
                 (s.waypoint == s.charger || arrival > env.thresholdSoc) && arrival < env.rechargeSoc - 0.001
  {
    if ChargeEstimate(env, s).Some? {
      var travel := Way(env, s.waypoint, s.charger).value;
      assert IsWay(env, s.waypoint, s.charger, travel.duration, travel.drain);
    }
  }
}
