/** `expand_candidate`, `expand_charger` and `finished` as loops, in the order in which the
    planner does things. Hash tables are traversed in an arbitrary order. */
module PlannerExpand {
  import opened Domain
  import opened PlannerNode

  function Ids(l: seq<Wrapped>): seq<nat> {
    seq(|l|, k requires 0 <= k < |l| => l[k].id)
  }

  /** What the duplicate filter remembers of a node. */
  function Signature(lists: Assigned): seq<seq<nat>> {
    seq(|lists|, a requires 0 <= a < |lists| => Ids(lists[a]))
  }

  /** The duplicate filter, which is a set of assignments compared by their ids. */
  class Filter {
    var seen: set<seq<seq<nat>>>

    constructor ()
      ensures seen == {}
    {
      seen := {};
    }

    method Ignore(lists: Assigned) returns (ignore: bool)
      modifies this
      ensures ignore <==> Signature(lists) in old(seen)
      ensures seen == old(seen) + {Signature(lists)}
    {
      ignore := Signature(lists) in seen;
      seen := seen + {Signature(lists)};
    }
  }

  /** `get_latest_time` */
  method LatestTime(lists: Assigned) returns (latest: Time)
    ensures latest == LatestFinish(lists)
  {
    latest := TIME_MIN;
    LatestFinishMin(lists);
    for i := 0 to |lists|
      invariant TIME_MIN <= latest && Max(latest, LatestFinish(lists[i..])) == LatestFinish(lists)
    {
      if lists[i] != [] {
        var finish := Last(lists[i]).assignment.finish.time;
        if latest < finish {
          latest := finish;
        }
      }
      assert lists[i..][1..] == lists[i + 1..];
    }
  }

  lemma {:induction false} LatestFinishMin(lists: Assigned)
    ensures TIME_MIN <= LatestFinish(lists)
  {
    if lists != [] {
      LatestFinishMin(lists[1..]);
    }
  }

  /** The part of `pop_unassigned` that erases the invariant of a task. */
  method PopInvariant(s: seq<Invariant>, id: nat) returns (t: seq<Invariant>)
    requires exists i :: 0 <= i < |s| && s[i].id == id
    ensures t == WithoutInvariant(s, id)
  {
    var i := 0;
    while s[i].id != id
      invariant 0 <= i < |s| && forall k | 0 <= k < i :: s[k].id != id
      invariant exists j :: i <= j < |s| && s[j].id == id
      decreases |s| - i
    {
      i := i + 1;
    }
    WithoutAt(s, id, i);
    t := s[..i] + s[i + 1..];
  }

  lemma {:induction false} WithoutAt(s: seq<Invariant>, id: nat, i: nat)
    requires i < |s| && s[i].id == id && forall k | 0 <= k < i :: s[k].id != id
    ensures WithoutInvariant(s, id) == s[..i] + s[i + 1..]
  {
    if i > 0 {
      WithoutAt(s[1..], id, i - 1);
      assert s[1..][..i - 1] == s[1..i] && s[1..][i..] == s[i + 1..];
    }
  }

  /** Updates the entries of agent `a` one task at a time and stops at the first task that
      cannot be performed from `from`. */
  method UpdateCandidates(p: Planner, un: map<nat, Pending>, a: nat, from: State, previous: State)
    returns (ok: bool, un': map<nat, Pending>)
    ensures ok == Reestimate(p, un, a, from, previous).Some?
    ensures ok ==> Reestimate(p, un, a, from, previous) == Some(un')
    ensures OnlyEntriesOf(un, un', a)
  {
    un' := un;
    var todo := un.Keys;
    while todo != {}
      invariant todo <= un.Keys
      invariant un'.Keys == un.Keys
      invariant forall u | u in todo :: un'[u] == un[u]
      invariant forall u | u in un && u !in todo ::
                  && Finish(p, un[u].request, from).Some?
                  && un'[u] == WithEntry(un[u], a, Finish(p, un[u].request, from).value, previous)
      decreases todo
    {
      var u :| u in todo;
      var finish := Finish(p, un'[u].request, from);
      if finish.None? {
        return false, un';
      }
      un' := un'[u := WithEntry(un'[u], a, finish.value, previous)];
      todo := todo - {u};
    }
    ok := true;
    assert un' == Reestimate(p, un, a, from, previous).value;
  }

  /** `un'` differs from `un` in the entries of agent `a` at most. */
  ghost predicate OnlyEntriesOf(un: map<nat, Pending>, un': map<nat, Pending>, a: nat) {
    && un'.Keys == un.Keys
    && forall u | u in un :: un'[u].request == un[u].request
                             && un'[u].candidates - {a} == un[u].candidates - {a}
  }

  /** What an interrupted update leaves behind does not matter to the next one. */
  lemma ReestimateOverwrites(p: Planner, un: map<nat, Pending>, un': map<nat, Pending>, a: nat,
                             from: State, previous: State)
    requires OnlyEntriesOf(un, un', a)
    ensures Reestimate(p, un, a, from, previous) == Reestimate(p, un', a, from, previous)
  {
    if Reestimate(p, un, a, from, previous).Some? {
      var x := Reestimate(p, un, a, from, previous).value;
      var y := Reestimate(p, un', a, from, previous).value;
      assert x.Keys == y.Keys;
      forall u | u in x ensures x[u] == y[u] {
        Overwrite(un[u].candidates, un'[u].candidates, a, x[u].candidates[a]);
      }
      assert x == y;
    }
  }

  lemma Overwrite(c: Candidates, c': Candidates, a: nat, e: Entry)
    requires c - {a} == c' - {a}
    ensures c[a := e] == c'[a := e]
  {
    var d, d' := c[a := e], c'[a := e];
    forall b | b in d ensures b in d' && d[b] == d'[b] {
      assert b == a || b in c - {a};
    }
    forall b | b in d' ensures b in d {
      assert b == a || b in c' - {a};
    }
  }

  /** The charging part that `expand_candidate` and `expand_charger` share. */
  method TryCharge(p: Planner, lists: Assigned, un: map<nat, Pending>, inv: seq<Invariant>, a: nat, s: State)
    returns (r: Option<Node>)
    requires a < |lists|
    ensures r == AssignCharge(p, lists, un, inv, a, s)
  {
    var battery := p.charge(s);
    if battery.None? {
      return None;
    }
    var lists' := lists[a := lists[a] + [ChargingTask(CHARGING_ID, s, battery.value)]];
    var ok, un' := UpdateCandidates(p, un, a, battery.value.finish, s);
    if !ok {
      return None;
    }
    var latest := LatestTime(lists');
    return Some(Node(lists', un', inv, latest, p.cost(lists', un', inv)));
  }

  /** `expand_candidate` without the duplicate filter. */
  method Candidate(p: Planner, parent: Node, u: nat, a: nat) returns (r: Option<Node>)
    requires u in parent.unassigned && a in parent.unassigned[u].candidates && a < |parent.lists|
    requires exists i :: 0 <= i < |parent.invariants| && parent.invariants[i].id == u
    ensures r == AssignTask(p, parent, u, a)
  {
    var entry := parent.unassigned[u].candidates[a];
    if parent.latest + SEGMENTATION_THRESHOLD < entry.waitUntil {
      return None;
    }
    var l := parent.lists[a];
    if entry.requireCharge && (l == [] || !IsChargeTask(Last(l))) {
      var battery := p.charge(entry.previous);
      if battery.Some? {
        l := l + [ChargingTask(u, entry.previous, battery.value)];
      }
    }
    l := l + [Wrapped(u, Assignment(parent.unassigned[u].request, entry.state, entry.waitUntil))];
    assert l == Appended(p, parent.lists[a], u, parent.unassigned[u].request, entry);
    var lists := parent.lists[a := l];
    var rest := parent.unassigned - {u};
    var inv := PopInvariant(parent.invariants, u);
    var ok, un := UpdateCandidates(p, rest, a, entry.state, entry.state);
    if ok {
      var latest := LatestTime(lists);
      r := Some(Node(lists, un, inv, latest, p.cost(lists, un, inv)));
    } else {
      r := TryCharge(p, lists, un, inv, a, entry.state);
      assert r == AssignCharge(p, lists, rest, inv, a, entry.state) by {
        if p.charge(entry.state).Some? {
          ReestimateOverwrites(p, rest, un, a, p.charge(entry.state).value.finish, entry.state);
        }
      }
    }
  }

  /** `expand_candidate` */
  method ExpandCandidate(p: Planner, parent: Node, u: nat, a: nat, filter: Filter) returns (r: Option<Node>)
    requires u in parent.unassigned && a in parent.unassigned[u].candidates && a < |parent.lists|
    requires exists i :: 0 <= i < |parent.invariants| && parent.invariants[i].id == u
    modifies filter
    ensures match AssignTask(p, parent, u, a)
            case None => r == None && filter.seen == old(filter.seen)
            case Some(m) =>
              && filter.seen == old(filter.seen) + {Signature(m.lists)}
              && r == if Signature(m.lists) in old(filter.seen) then None else Some(m)
  {
    r := Candidate(p, parent, u, a);
    if r.Some? {
      var ignore := filter.Ignore(r.value.lists);
      if ignore {
        r := None;
      }
    }
  }

  /** `expand_charger` */
  method ExpandCharger(p: Planner, parent: Node, a: nat) returns (r: Option<Node>)
    requires a < |parent.lists|
    ensures r == SendToCharger(p, parent, a)
  {
    if parent.lists[a] == [] {
      return None;
    }
    if IsChargeTask(Last(parent.lists[a])) {
      return None;
    }
    r := TryCharge(p, parent.lists, parent.unassigned, parent.invariants, a, Last(parent.lists[a]).assignment.finish);
  }

  /** The agents that finish a task soonest. */
  function Best(c: Candidates): set<nat> {
    set a | a in c && IsBest(c, a)
  }

  /** `finished` */
  method CheckFinished(n: Node) returns (finished: bool)
    ensures finished == Finished(n)
  {
    var todo := n.unassigned.Keys;
    while todo != {}
      invariant todo <= n.unassigned.Keys
      invariant forall u, a | u in n.unassigned && u !in todo && a in n.unassigned[u].candidates
                              && IsBest(n.unassigned[u].candidates, a) ::
                  n.latest + SEGMENTATION_THRESHOLD < n.unassigned[u].candidates[a].waitUntil
      decreases todo
    {
      var u :| u in todo;
      var c := n.unassigned[u].candidates;
      var best := Best(c);
      while best != {}
        invariant best <= Best(c)
        invariant forall a | a in Best(c) && a !in best :: n.latest + SEGMENTATION_THRESHOLD < c[a].waitUntil
        decreases best
      {
        var a :| a in best;
        if c[a].waitUntil <= n.latest + SEGMENTATION_THRESHOLD {
          return false;
        }
        best := best - {a};
      }
      assert forall a | a in c && IsBest(c, a) :: a in Best(c);
      todo := todo - {u};
    }
    return true;
  }
}
