/** `make_initial_node`: the fresh node from which a segment is searched. */
module PlannerFresh {
  import opened Domain
  import opened PlannerNode

  datatype PlannerError = LowBattery | LimitedCapacity

  datatype FreshResult = Ready(node: Node) | Rejected(error: PlannerError)

  /** The candidates of a request: the agents that can perform it, possibly after a charge. */
  function InitialCandidates(p: Planner, r: Request, states: seq<State>): Candidates {
    map a: nat | a in Agents(|states|) && InitialEntry(p, r, states[a]).Some? :: InitialEntry(p, r, states[a]).value
  }

  /** Why an agent in state `s` is no candidate for a request: charging does not help it, or it
      cannot reach its charger. */
  function ErrorOf(p: Planner, s: State): PlannerError {
    if p.charge(s).Some? || s.soc >= p.rechargeSoc - 0.001 then LimitedCapacity else LowBattery
  }

  function InvariantOf(p: Planner, id: nat, r: Request): Invariant {
    Invariant(id, Seconds(r.earliestStart), Seconds(r.earliestStart) + Seconds(p.duration(r)))
  }

  ghost predicate Sorted(s: seq<Invariant>) {
    forall i, j | 0 <= i < j < |s| :: s[i].finish <= s[j].finish
  }

  /** The unassigned tasks of a fresh node: ids count from one, in the order of the requests. */
  ghost predicate TasksOf(p: Planner, states: seq<State>, requests: seq<Request>, un: map<nat, Pending>) {
    && (forall u :: u in un <==> 1 <= u <= |requests|)
    && (forall u | u in un :: un[u] == Pending(requests[u - 1], InitialCandidates(p, requests[u - 1], states)))
  }

  ghost predicate InvariantsFor(p: Planner, un: map<nat, Pending>, s: seq<Invariant>) {
    && Sorted(s) && InvariantsMatch(s, un.Keys)
    && forall i | 0 <= i < |s| :: s[i] == InvariantOf(p, s[i].id, un[s[i].id].request)
  }

  /** A node that `make_initial_node` may return. Its cost is computed before the invariants of
      its tasks are collected. */
  ghost predicate Fresh(p: Planner, states: seq<State>, requests: seq<Request>, n: Node) {
    && n.lists == seq(|states|, i => [])
    && TasksOf(p, states, requests, n.unassigned)
    && (forall u | u in n.unassigned :: n.unassigned[u].candidates != map[])
    && n.cost == p.cost(n.lists, n.unassigned, [])
    && InvariantsFor(p, n.unassigned, n.invariants)
    && IsLatestStart(states, n.unassigned, n.latest)
  }

  /** Every agent is a candidate for every request. */
  ghost predicate AllCapable(p: Planner, states: seq<State>, requests: seq<Request>) {
    forall i, a | 0 <= i < |requests| && 0 <= a < |states| :: InitialEntry(p, requests[i], states[a]).Some?
  }

  ghost predicate NoCharging(requests: seq<Request>) {
    forall i | 0 <= i < |requests| :: !requests[i].description.ChargeBattery?
  }

  /** The error after all agents have been asked: that of the last one that is no candidate. */
  function ErrorAfter(p: Planner, r: Request, states: seq<State>, error: PlannerError): PlannerError {
    if states == [] then error
    else if InitialEntry(p, r, Last(states)).None? then ErrorOf(p, Last(states))
    else ErrorAfter(p, r, states[..|states| - 1], error)
  }

  /** A task is estimated for the present, or for its booked start if that is later. */
  lemma FinishMeaning(p: Planner, r: Request, s: State)
    ensures Finish(p, r, s) == p.estimate(r, if p.timeNow < r.earliestStart then r.earliestStart else p.timeNow, s)
  {
  }

  /** An agent is a candidate exactly if it can perform the request now or after a charge; its entry is the
      estimate, and asks for the charge exactly if there is no way without. */
  lemma CandidateIff(p: Planner, r: Request, states: seq<State>, a: nat)
    ensures var c := InitialCandidates(p, r, states);
            && (a in c <==>
                && a < |states|
                && (|| Finish(p, r, states[a]).Some?
                    || (p.charge(states[a]).Some? && Finish(p, r, p.charge(states[a]).value.finish).Some?)))
            && (a in c ==>
                && c[a].previous == states[a] && (c[a].requireCharge <==> Finish(p, r, states[a]).None?)
                && (c[a].requireCharge ==> p.charge(states[a]).Some?)
                && var from := if c[a].requireCharge then p.charge(states[a]).value.finish else states[a];
                   Finish(p, r, from) == Some(Estimate(c[a].state, c[a].waitUntil)))
  {
    hide Finish;
  }

  /** The error is that of the last agent that is no candidate: the capacity is too small if it could be charged or is
      charged already, and its charge is too low otherwise. */
  lemma {:induction false} ErrorIs(p: Planner, r: Request, states: seq<State>, given: PlannerError, a: nat)
    requires a <= |states|
    requires forall b | a <= b < |states| :: b in InitialCandidates(p, r, states)
    requires a > 0 ==> a - 1 !in InitialCandidates(p, r, states)
    ensures ErrorAfter(p, r, states, given)
            == if a == 0 then given
               else if p.charge(states[a - 1]).Some? || states[a - 1].soc >= p.rechargeSoc - 0.001 then LimitedCapacity
               else LowBattery
    decreases |states|
  {
    hide InitialEntry;
    if states != [] {
      var k := |states| - 1;
      if a <= k {
        assert k in InitialCandidates(p, r, states);
        var pre := states[..k];
        assert forall b | 0 <= b < k :: b in InitialCandidates(p, r, states) <==> b in InitialCandidates(p, r, pre);
        ErrorIs(p, r, pre, given, a);
      }
    }
  }

  /** `Candidates::make`. It overwrites the error that it is given only if some agent is no candidate. */
  method MakeCandidates(p: Planner, r: Request, states: seq<State>, given: PlannerError)
    returns (c: Candidates, error: PlannerError)
    ensures c == InitialCandidates(p, r, states)
    ensures error == ErrorAfter(p, r, states, given)
  {
    c := map[];
    error := given;
    for i := 0 to |states|
      invariant forall a: nat :: a in c <==> a < i && InitialEntry(p, r, states[a]).Some?
      invariant forall a | a in c :: c[a] == InitialEntry(p, r, states[a]).value
      invariant error == ErrorAfter(p, r, states[..i], given)
    {
      var s := states[i];
      assert states[..i + 1][..i] == states[..i];
      var finish := Finish(p, r, s);
      if finish.Some? {
        c := c[i := Entry(finish.value.finish, finish.value.waitUntil, s, false)];
      } else {
        var battery := p.charge(s);
        if battery.Some? {
          finish := Finish(p, r, battery.value.finish);
          if finish.Some? {
            c := c[i := Entry(finish.value.finish, finish.value.waitUntil, s, true)];
          } else {
            error := LimitedCapacity;
          }
        } else if s.soc >= p.rechargeSoc - 0.001 {
          error := LimitedCapacity;
        } else {
          error := LowBattery;
        }
      }
    }
    assert states[..|states|] == states;
    assert c == InitialCandidates(p, r, states);
  }

  /** Insertion into the sorted set of invariants, behind equal elements. */
  method InsertInvariant(s: seq<Invariant>, v: Invariant) returns (t: seq<Invariant>)
    requires Sorted(s)
    ensures Sorted(t) && exists k :: 0 <= k <= |s| && t == s[..k] + [v] + s[k..]
  {
    var k := 0;
    while k < |s| && s[k].finish <= v.finish
      invariant 0 <= k <= |s|
      invariant forall i | 0 <= i < k :: s[i].finish <= v.finish
    {
      k := k + 1;
    }
    t := s[..k] + [v] + s[k..];
    assert forall i | 0 <= i < |t| :: t[i] == if i < k then s[i] else if i == k then v else s[i - 1];
  }

  /** `sort_invariants` */
  method SortInvariants(p: Planner, un: map<nat, Pending>) returns (s: seq<Invariant>)
    ensures InvariantsFor(p, un, s)
  {
    s := [];
    var todo := un.Keys;
    assert un.Keys - todo == {};
    while todo != {}
      invariant todo <= un.Keys
      invariant Sorted(s) && InvariantsMatch(s, un.Keys - todo)
      invariant forall i | 0 <= i < |s| :: s[i] == InvariantOf(p, s[i].id, un[s[i].id].request)
      decreases todo
    {
      var u :| u in todo;
      ghost var s0 := s;
      s := InsertInvariant(s, InvariantOf(p, u, un[u].request));
      MatchInserted(s0, s, InvariantOf(p, u, un[u].request), un.Keys - todo);
      assert un.Keys - (todo - {u}) == un.Keys - todo + {u};
      todo := todo - {u};
    }
    assert un.Keys - todo == un.Keys;
  }

  lemma MatchInserted(s: seq<Invariant>, t: seq<Invariant>, v: Invariant, ids: set<nat>)
    requires InvariantsMatch(s, ids) && v.id !in ids
    requires exists k :: 0 <= k <= |s| && t == s[..k] + [v] + s[k..]
    ensures InvariantsMatch(t, ids + {v.id})
    ensures forall i | 0 <= i < |t| :: t[i] == v || t[i] in s
  {
    hide InvariantsMatch;
    var k :| 0 <= k <= |s| && t == s[..k] + [v] + s[k..];
    MatchAt(s, t, v, ids, k);
  }

  lemma MatchAt(s: seq<Invariant>, t: seq<Invariant>, v: Invariant, ids: set<nat>, k: nat)
    requires InvariantsMatch(s, ids) && v.id !in ids
    requires k <= |s| && |t| == |s| + 1
    requires forall i {:trigger t[i]} | 0 <= i < |t| :: t[i] == if i < k then s[i] else if i == k then v else s[i - 1]
    ensures InvariantsMatch(t, ids + {v.id})
  {
    forall id | id in ids + {v.id} ensures exists i :: 0 <= i < |t| && t[i].id == id {
      if id == v.id {
        assert t[k].id == id;
      } else {
        var j :| 0 <= j < |s| && s[j].id == id;
        assert t[if j < k then j else j + 1].id == id;
      }
    }
  }

  /** The latest of the states and the earliest deployment of a best candidate, or the end of time if there is none. */
  ghost predicate IsLatestStart(states: seq<State>, un: map<nat, Pending>, latest: Time) {
    if un == map[] then exists t :: IsLatestTime(states, t) && latest == Max(t, TIME_MAX)
    else exists t, w :: IsLatestTime(states, t) && IsEarliestWait(un, w) && latest == Max(t, w)
  }

  method LatestStart(states: seq<State>, un: map<nat, Pending>) returns (latest: Time)
    requires |states| > 0
    requires forall u | u in un :: un[u].candidates != map[]
    ensures IsLatestStart(states, un, latest)
  {
    latest := states[0].time;
    for i := 1 to |states|
      invariant exists a :: 0 <= a < i && states[a].time == latest
      invariant forall a | 0 <= a < i :: states[a].time <= latest
    {
      if latest < states[i].time {
        latest := states[i].time;
      }
    }
    ghost var t := latest;
    assert IsLatestTime(states, t);
    var wait := EarliestWait(un);
    var waitUntil := if wait.Some? then wait.value else TIME_MAX;
    if latest < waitUntil {
      latest := waitUntil;
    }
    assert latest == Max(t, waitUntil);
  }

  method EarliestWait(un: map<nat, Pending>) returns (wait: Option<Time>)
    requires forall u | u in un :: un[u].candidates != map[]
    ensures wait.None? <==> un == map[]
    ensures wait.Some? ==> IsEarliestWait(un, wait.value)
  {
    wait := None;
    var todo := un.Keys;
    while todo != {}
      invariant todo <= un.Keys
      invariant todo != un.Keys ==> wait.Some?
      invariant wait.Some? ==> exists u, a :: u in un && IsBest(un[u].candidates, a)
                                              && un[u].candidates[a].waitUntil == wait.value
      invariant forall u, a | u in un && u !in todo && IsBest(un[u].candidates, a) ::
                  wait.Some? && wait.value <= un[u].candidates[a].waitUntil
      decreases todo
    {
      var u :| u in todo;
      var w := EarliestBest(un[u].candidates);
      assert exists a :: IsBest(un[u].candidates, a) && un[u].candidates[a].waitUntil == w;
      if wait.None? || w < wait.value {
        wait := Some(w);
      }
      todo := todo - {u};
    }
  }

  /** The least deployment time among the candidates that finish soonest. */
  method EarliestBest(c: Candidates) returns (w: Time)
    requires c != map[]
    ensures exists a :: IsBest(c, a) && c[a].waitUntil == w
    ensures forall a | IsBest(c, a) :: w <= c[a].waitUntil
  {
    ghost var someBest := SomeBest(c, c.Keys);
    var best := set a | a in c && IsBest(c, a);
    assert someBest in best;
    var a :| a in best;
    w := c[a].waitUntil;
    var todo := best - {a};
    while todo != {}
      invariant todo <= best
      invariant exists a :: IsBest(c, a) && c[a].waitUntil == w
      invariant forall a | a in best && a !in todo :: w <= c[a].waitUntil
      decreases todo
    {
      var b :| b in todo;
      if c[b].waitUntil < w {
        w := c[b].waitUntil;
      }
      todo := todo - {b};
    }
    assert forall a | IsBest(c, a) :: a in best;
  }

  lemma {:induction false} SomeBest(c: Candidates, agents: set<nat>) returns (a: nat)
    requires agents <= c.Keys && agents != {}
    ensures a in agents && forall b | b in agents :: c[a].state.time <= c[b].state.time
    decreases agents
  {
    var b :| b in agents;
    if agents == {b} {
      a := b;
    } else {
      var a' := SomeBest(c, agents - {b});
      a := if c[b].state.time <= c[a'].state.time then b else a';
    }
  }

  /** `make_initial_node`. The error is that of the last agent for the first request that no
      agent can perform. */
  method MakeInitialNode(p: Planner, states: seq<State>, requests: seq<Request>) returns (r: FreshResult)
    requires |states| > 0
    ensures r.Ready? ==> Fresh(p, states, requests, r.node)
    ensures r.Rejected? ==>
              && r.error == ErrorOf(p, Last(states))
              && exists i :: 0 <= i < |requests| && InitialCandidates(p, requests[i], states) == map[]
  {
    hide IsBest, InitialEntry;
    var un: map<nat, Pending> := map[];
    var error := LowBattery;
    for i := 0 to |requests|
      invariant TasksOf(p, states, requests[..i], un)
      invariant forall u | u in un :: un[u].candidates != map[]
    {
      var c;
      c, error := MakeCandidates(p, requests[i], states, error);
      if c == map[] {
        NoCandidate(p, requests[i], states);
        return Rejected(error);
      }
      un := un[i + 1 := Pending(requests[i], c)];
    }
    assert requests[..|requests|] == requests;
    var lists := seq(|states|, i => []);
    var cost := p.cost(lists, un, []);
    var inv := SortInvariants(p, un);
    var latest := LatestStart(states, un);
    r := Ready(Node(lists, un, inv, latest, cost));
  }

  lemma NoCandidate(p: Planner, r: Request, states: seq<State>)
    requires |states| > 0 && InitialCandidates(p, r, states) == map[]
    ensures InitialEntry(p, r, Last(states)).None?
  {
    assert InitialEntry(p, r, states[|states| - 1]).Some? ==> |states| - 1 in InitialCandidates(p, r, states);
  }

  lemma CapableCandidates(p: Planner, r: Request, states: seq<State>)
    requires forall a | 0 <= a < |states| :: InitialEntry(p, r, states[a]).Some?
    ensures InitialCandidates(p, r, states).Keys == Agents(|states|)
  {
  }

  /** A fresh node is one from which the search may start, if every agent is a candidate for
      every request. */
  lemma FreshIsRoot(p: Planner, states: seq<State>, requests: seq<Request>, n: Node)
    requires |states| > 0 && Fresh(p, states, requests, n)
    requires AllCapable(p, states, requests) && NoCharging(requests)
    ensures Root(p, states, n)
  {
    hide InitialEntry, IsEarliestWait, IsLatestTime, Max;
    forall u | u in n.unassigned ensures n.unassigned[u].candidates.Keys == Agents(|states|) {
      CapableCandidates(p, requests[u - 1], states);
    }
  }

  /** A request that every agent can perform is never rejected. */
  lemma CapableNotRejected(p: Planner, states: seq<State>, requests: seq<Request>, i: nat)
    requires |states| > 0 && i < |requests| && AllCapable(p, states, requests)
    ensures InitialCandidates(p, requests[i], states) != map[]
  {
    hide InitialEntry;
    CapableCandidates(p, requests[i], states);
    assert 0 in Agents(|states|);
  }
}
