/** `TravelEstimator`: travel estimates that are remembered by their two waypoints. */
module TravelCache {
  import opened Domain
  import opened Requests

  datatype Start = Start(time: Time, waypoint: nat, orientation: real)

  datatype Goal = Goal(waypoint: nat, orientation: Option<real>)

  datatype Call = Call(start: Start, goal: Goal)

  type Calculation = Call -> Option<Travel>

  type Cache = map<(nat, nat), Option<Travel>>

  function Key(c: Call): (nat, nat) {
    (c.start.waypoint, c.goal.waypoint)
  }

  /** The cache after a call. */
  function Remember(f: Calculation, cache: Cache, c: Call): Cache {
    if Key(c) in cache then cache else cache[Key(c) := f(c)]
  }

  class TravelEstimator {
    var cache: Cache

    constructor ()
      ensures cache == map[]
    {
      cache := map[];
    }

    /** `estimate`, called by one thread at a time. */
    method Estimate(f: Calculation, c: Call) returns (r: Option<Travel>)
      modifies this
      ensures cache == Remember(f, old(cache), c) && Key(c) in cache && r == cache[Key(c)]
    {
      var inserted := Key(c) !in cache;
      if inserted {
        cache := cache[Key(c) := None];
      }
      if !inserted {
        return cache[Key(c)];
      }
      r := f(c);
      cache := cache[Key(c) := r];
    }
  }

  // ---- runs of calls ----

  function CacheAfter(f: Calculation, cache: Cache, calls: seq<Call>): Cache
    decreases |calls|
  {
    if calls == [] then cache else CacheAfter(f, Remember(f, cache, calls[0]), calls[1..])
  }

  function Answers(f: Calculation, cache: Cache, calls: seq<Call>): (r: seq<Option<Travel>>)
    ensures |r| == |calls|
    decreases |calls|
  {
    if calls == [] then []
    else
      var cache' := Remember(f, cache, calls[0]);
      [cache'[Key(calls[0])]] + Answers(f, cache', calls[1..])
  }

  lemma {:induction false} CacheKeeps(f: Calculation, cache: Cache, calls: seq<Call>, k: (nat, nat))
    requires k in cache
    ensures k in CacheAfter(f, cache, calls) && CacheAfter(f, cache, calls)[k] == cache[k]
    decreases |calls|
  {
    if calls != [] {
      CacheKeeps(f, Remember(f, cache, calls[0]), calls[1..], k);
    }
  }

  /** All answers of a run agree with one function of the two waypoints, whatever was asked
      and in whatever order. This is why the request models may take travel to be such a function. */
  lemma {:induction false} AnswersAreAFunction(f: Calculation, cache: Cache, calls: seq<Call>, i: nat)
    requires i < |calls|
    ensures Key(calls[i]) in CacheAfter(f, cache, calls)
    ensures Answers(f, cache, calls)[i] == CacheAfter(f, cache, calls)[Key(calls[i])]
    decreases |calls|
  {
    var cache' := Remember(f, cache, calls[0]);
    if i == 0 {
      CacheKeeps(f, cache', calls[1..], Key(calls[0]));
    } else {
      AnswersAreAFunction(f, cache', calls[1..], i - 1);
    }
  }

  /** The calculation does not depend on the time and the orientations. */
  ghost predicate WaypointsDecide(f: Calculation) {
    forall c: Call, d: Call | c.start.waypoint == d.start.waypoint && c.goal.waypoint == d.goal.waypoint ::
      f(c) == f(d)
  }

  /** The cache cannot be noticed: every call gets what calculating it anew would give. */
  ghost predicate Transparent(f: Calculation) {
    forall calls, i | 0 <= i < |calls| :: Answers(f, map[], calls)[i] == f(calls[i])
  }

  ghost predicate Accurate(f: Calculation, cache: Cache) {
    forall c | Key(c) in cache :: cache[Key(c)] == f(c)
  }

  lemma {:induction false} AccurateAnswers(f: Calculation, cache: Cache, calls: seq<Call>, i: nat)
    requires WaypointsDecide(f) && Accurate(f, cache) && i < |calls|
    ensures Answers(f, cache, calls)[i] == f(calls[i])
    decreases |calls|
  {
    var cache' := Remember(f, cache, calls[0]);
    assert Accurate(f, cache');
    if i > 0 {
      AccurateAnswers(f, cache', calls[1..], i - 1);
    }
  }

  /** The cache is transparent exactly if the waypoints alone decide the calculation. */
  lemma TransparentIff(f: Calculation)
    ensures Transparent(f) <==> WaypointsDecide(f)
  {
    if WaypointsDecide(f) {
      forall calls, i | 0 <= i < |calls| ensures Answers(f, map[], calls)[i] == f(calls[i]) {
        AccurateAnswers(f, map[], calls, i);
      }
    }
    if Transparent(f) {
      forall c, d | Key(c) == Key(d) ensures f(c) == f(d) {
        AskTwice(f, c, d);
        assert Answers(f, map[], [c, d])[1] == f([c, d][1]);
      }
    }
  }

  lemma AskTwice(f: Calculation, c: Call, d: Call)
    requires Key(c) == Key(d)
    ensures Answers(f, map[], [c, d])[1] == f(c)
  {
  }

  // ---- several threads ----

  /** The estimator when several threads use it. A thread that finds nothing for its waypoints leaves an empty entry
      behind, releases the lock and calculates; `busy` holds what such threads were asked. */
  datatype Shared = Shared(cache: Cache, busy: map<nat, Call>, answers: seq<(Call, Option<Travel>)>)

  datatype Move = Ask(thread: nat, call: Call) | Store(thread: nat)

  predicate Possible(s: Shared, m: Move) {
    match m
    case Ask(thread, _) => thread !in s.busy
    case Store(thread) => thread in s.busy
  }

  function Moved(f: Calculation, s: Shared, m: Move): Shared
    requires Possible(s, m)
  {
    match m
    case Ask(thread, c) =>
      if Key(c) in s.cache then s.(answers := s.answers + [(c, s.cache[Key(c)])])
      else s.(cache := s.cache[Key(c) := None], busy := s.busy[thread := c])
    case Store(thread) =>
      var c := s.busy[thread];
      Shared(s.cache[Key(c) := f(c)], s.busy - {thread}, s.answers + [(c, f(c))])
  }

  /** The estimator after `moves`. What is not possible does not happen. */
  function SharedAfter(f: Calculation, moves: seq<Move>): Shared {
    if moves == [] then Shared(map[], map[], [])
    else
      var s := SharedAfter(f, moves[..|moves| - 1]);
      if Possible(s, Last(moves)) then Moved(f, s, Last(moves)) else s
  }

  /** Some thread is calculating the way between two waypoints. */
  predicate Calculating(s: Shared, k: (nat, nat)) {
    exists t | t in s.busy :: Key(s.busy[t]) == k
  }

  /** Each way is calculated by one thread at most, and its entry is empty meanwhile and right otherwise. */
  ghost predicate SharedOk(f: Calculation, s: Shared) {
    && (forall t | t in s.busy :: Key(s.busy[t]) in s.cache)
    && (forall t, u | t in s.busy && u in s.busy && Key(s.busy[t]) == Key(s.busy[u]) :: t == u)
    && (forall c: Call | Key(c) in s.cache :: s.cache[Key(c)] == if Calculating(s, Key(c)) then None else f(c))
  }

  ghost predicate AnswersRight(f: Calculation, s: Shared) {
    forall i | 0 <= i < |s.answers| :: s.answers[i].1 == f(s.answers[i].0)
  }

  /** A thread asks for a way that there is while another one is calculating it. */
  predicate TooEarly(f: Calculation, s: Shared, m: Move) {
    m.Ask? && Possible(s, m) && Calculating(s, Key(m.call)) && f(m.call).Some?
  }

  predicate NeverTooEarly(f: Calculation, moves: seq<Move>) {
    moves == [] ||
    var pre := moves[..|moves| - 1];
    NeverTooEarly(f, pre) && !TooEarly(f, SharedAfter(f, pre), Last(moves))
  }

  lemma AskedOk(f: Calculation, s: Shared, thread: nat, d: Call)
    requires SharedOk(f, s) && thread !in s.busy && Key(d) !in s.cache
    ensures SharedOk(f, Moved(f, s, Ask(thread, d)))
  {
    var s' := Moved(f, s, Ask(thread, d));
    assert s'.busy[thread] == d && forall t | t in s.busy :: t in s'.busy && s'.busy[t] == s.busy[t];
    forall c: Call | Key(c) in s'.cache && Key(c) != Key(d) ensures Calculating(s', Key(c)) == Calculating(s, Key(c)) {
    }
  }

  lemma StoredOk(f: Calculation, s: Shared, thread: nat)
    requires WaypointsDecide(f) && SharedOk(f, s) && thread in s.busy
    ensures SharedOk(f, Moved(f, s, Store(thread)))
  {
    var s', d := Moved(f, s, Store(thread)), s.busy[thread];
    assert forall t | t in s'.busy :: t in s.busy && s'.busy[t] == s.busy[t] && t != thread;
    assert forall t | t in s.busy && t != thread :: t in s'.busy;
    assert !Calculating(s', Key(d));
    forall c: Call | Key(c) in s'.cache && Key(c) != Key(d) ensures Calculating(s', Key(c)) == Calculating(s, Key(c)) {
    }
  }

  lemma MovedOk(f: Calculation, s: Shared, m: Move)
    requires WaypointsDecide(f) && SharedOk(f, s) && Possible(s, m)
    ensures SharedOk(f, Moved(f, s, m))
  {
    match m
    case Ask(thread, d) =>
      if Key(d) !in s.cache {
        AskedOk(f, s, thread, d);
      } else {
        assert forall k :: Calculating(Moved(f, s, m), k) == Calculating(s, k);
      }
    case Store(thread) => StoredOk(f, s, thread);
  }

  lemma MovedRight(f: Calculation, s: Shared, m: Move)
    requires SharedOk(f, s) && Possible(s, m)
    ensures AnswersRight(f, Moved(f, s, m)) <==> AnswersRight(f, s) && !TooEarly(f, s, m)
  {
    var s' := Moved(f, s, m);
    assert forall i | 0 <= i < |s.answers| :: s'.answers[i] == s.answers[i];
    if m.Ask? && Key(m.call) in s.cache {
      assert s'.answers[|s.answers|] == (m.call, s.cache[Key(m.call)]);
    }
  }

  /** Whatever the threads do, all of them get the right answers exactly if none asks for a way while another one is
      calculating it: such a thread is told that there is no way. */
  lemma {:induction false} ThreadsAreRightIff(f: Calculation, moves: seq<Move>)
    requires WaypointsDecide(f)
    ensures SharedOk(f, SharedAfter(f, moves))
    ensures AnswersRight(f, SharedAfter(f, moves)) <==> NeverTooEarly(f, moves)
  {
    if moves != [] {
      hide SharedOk, AnswersRight, Moved, WaypointsDecide;
      var s := SharedAfter(f, moves[..|moves| - 1]);
      ThreadsAreRightIff(f, moves[..|moves| - 1]);
      if Possible(s, Last(moves)) {
        MovedOk(f, s, Last(moves));
        MovedRight(f, s, Last(moves));
      }
    }
  }

  /** The second of two threads that ask for the same way is told that there is none. */
  lemma ToldNoWay(f: Calculation, c: Call)
    ensures SharedAfter(f, [Ask(0, c)] + [Ask(1, c)]).answers == [(c, None)]
  {
    assert ([Ask(0, c)] + [Ask(1, c)])[..1] == [Ask(0, c)] && [Ask(0, c)][..0] == [];
    assert SharedAfter(f, []) == Shared(map[], map[], []);
    assert SharedAfter(f, [Ask(0, c)]) == Shared(map[Key(c) := None], map[0 := c], []);
  }

  // ---- the calculation ----

  /** What `calculate_result` drains for the legs of a route that starts at time `t`: it counts the ambient
      drain of every leg from the start of the whole route. */
  function TravelDrain(env: Environment, legs: seq<Leg>, t: Time): real {
    if legs == [] then 0.0
    else legs[0].motionDrain + env.ambient(Seconds(legs[0].finish - t)) + TravelDrain(env, legs[1..], t)
  }

  /** `calculate_result`. `plan` is the route that the planner found, if it found one. */
  method CalculateResult(env: Environment, plan: Option<seq<Leg>>, t: Time) returns (r: Option<Travel>)
    ensures r.None? <==> plan.None?
    ensures plan.Some? ==> r == Some(Travel(RouteDuration(plan.value, t), TravelDrain(env, plan.value, t)))
  {
    if plan.None? {
      return None;
    }
    var legs := plan.value;
    var drain := 0.0;
    for i := 0 to |legs|
      invariant drain + TravelDrain(env, legs[i..], t) == TravelDrain(env, legs, t)
    {
      assert legs[i..][0] == legs[i] && legs[i..][1..] == legs[i + 1..];
      drain := drain + legs[i].motionDrain + env.ambient(Seconds(legs[i].finish - t));
    }
    assert legs[|legs|..] == [];
    r := Some(Travel(if legs == [] then 0 else Last(legs).finish - t, drain));
  }

  /** The way from `x` to `y` is what `calculate_result` makes of the route for a robot that starts at time `t`. */
  ghost predicate IsRoute(env: Environment, x: nat, y: nat, t: Time) {
    var legs := env.route(x, y, t);
    env.travel(x, y) == Some(Travel(RouteDuration(legs, t), TravelDrain(env, legs, t)))
  }

  /** Travel takes and drains what the routes do, whenever it starts. */
  ghost predicate Routed(env: Environment) {
    forall x, y, t :: IsRoute(env, x, y, t)
  }

  /** The estimator never drains less for a route than the request models do for the same route. */
  lemma {:induction false} TravelDrainIsCautious(env: Environment, legs: seq<Leg>, t: Time, t': Time)
    requires forall x, y | 0.0 <= x <= y :: env.ambient(x) <= env.ambient(y)
    requires LegsForward(legs, t') && t <= t'
    ensures RouteDrain(env, legs, t') <= TravelDrain(env, legs, t)
  {
    if legs != [] {
      TravelDrainIsCautious(env, legs[1..], t, legs[0].finish);
      assert 0.0 <= Seconds(legs[0].finish - t') <= Seconds(legs[0].finish - t);
    }
  }
}
