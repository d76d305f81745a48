/** Search nodes of the task planner and the two ways of expanding them.

    A node is a value: the planner copies a node before it edits the copy. The hash
    table of unassigned tasks is a map from the internal id of a task. A multimap of
    candidate entries is a map from the index of the agent, because every entry belongs
    to one agent; `CandidateIndex` is the multimap itself. */
module PlannerNode {
  import opened Domain

  /** Tasks whose deployment lies further ahead than this are left to the next segment. */
  const SEGMENTATION_THRESHOLD: int := SECOND

  /** The least and the greatest value of the 64-bit clock. */
  const TIME_MIN: Time := -0x8000_0000_0000_0000
  const TIME_MAX: Time := 0x7FFF_FFFF_FFFF_FFFF

  /** The id that an added charging task carries. */
  const CHARGING_ID: nat := 0

  /** How one agent would perform one unassigned task. */
  datatype Entry = Entry(state: State, waitUntil: Time, previous: State, requireCharge: bool)

  type Candidates = map<nat, Entry>

  datatype Pending = Pending(request: Request, candidates: Candidates)

  datatype Wrapped = Wrapped(id: nat, assignment: Assignment)

  /** Booked start and earliest finish, in seconds, of an unassigned task. */
  datatype Invariant = Invariant(id: nat, start: real, finish: real)

  type Assigned = seq<seq<Wrapped>>

  datatype Node = Node(
    lists: Assigned,
    unassigned: map<nat, Pending>,
    invariants: seq<Invariant>,
    latest: Time,
    cost: real)

  /** Everything that is fixed while one plan is made. `estimate(r, t, s)` is
      what the model of request `r`, made for earliest start `t`, predicts from state
      `s`; `charge` is the model of a charging task; `duration` is the invariant duration of the
      model of a request; `cost` is the cost calculator. */
  datatype Planner = Planner(
    estimate: (Request, Time, State) -> Option<Estimate>,
    charge: State -> Option<Estimate>,
    duration: Request -> int,
    cost: (Assigned, map<nat, Pending>, seq<Invariant>) -> real,
    rechargeSoc: real,
    timeNow: Time)

  /** The model of a pending task starts no earlier than the present. */
  function Finish(p: Planner, r: Request, s: State): Option<Estimate> {
    p.estimate(r, Max(p.timeNow, r.earliestStart), s)
  }

  function ChargingRequest(start: Time): Request {
    Request(0, start, false, ChargeBattery)
  }

  function ChargingTask(id: nat, s: State, e: Estimate): Wrapped {
    Wrapped(id, Assignment(ChargingRequest(s.time), e.finish, e.waitUntil))
  }

  predicate IsChargeTask(w: Wrapped) {
    IsCharge(w.assignment)
  }

  function LastState(l: seq<Wrapped>, s: State): State {
    if l == [] then s else Last(l).assignment.finish
  }

  // ---- candidates ----

  /** The entry that an agent in state `s` gets for request `r` in a fresh node:
      directly, or after a charging task when the charge does not suffice. */
  function InitialEntry(p: Planner, r: Request, s: State): Option<Entry> {
    match Finish(p, r, s)
    case Some(e) => Some(Entry(e.finish, e.waitUntil, s, false))
    case None =>
      match p.charge(s)
      case None => None
      case Some(b) =>
        match Finish(p, r, b.finish)
        case None => None
        case Some(e) => Some(Entry(e.finish, e.waitUntil, s, true))
  }

  /** Agent `a` is one of the candidates with the least finish time. */
  predicate IsBest(c: Candidates, a: nat) {
    a in c && forall b | b in c :: c[a].state.time <= c[b].state.time
  }

  // ---- expansion ----

  /** Recomputes the entry of agent `a` for every unassigned task, from state `from`.
      Fails if one of the tasks cannot be performed from there. */
  function Reestimate(p: Planner, un: map<nat, Pending>, a: nat, from: State, previous: State)
    : Option<map<nat, Pending>>
  {
    if forall u | u in un :: Finish(p, un[u].request, from).Some? then
      Some(map u | u in un :: WithEntry(un[u], a, Finish(p, un[u].request, from).value, previous))
    else
      None
  }

  function WithEntry(t: Pending, a: nat, e: Estimate, previous: State): Pending {
    t.(candidates := t.candidates[a := Entry(e.finish, e.waitUntil, previous, false)])
  }

  function WithoutInvariant(s: seq<Invariant>, id: nat): seq<Invariant> {
    if s == [] then []
    else if s[0].id == id then s[1..]
    else [s[0]] + WithoutInvariant(s[1..], id)
  }

  /** The latest finish time of the last assignments. */
  function LatestFinish(lists: Assigned): Time {
    if lists == [] then TIME_MIN
    else if lists[0] == [] then LatestFinish(lists[1..])
    else Max(Last(lists[0]).assignment.finish.time, LatestFinish(lists[1..]))
  }

  function Rated(p: Planner, lists: Assigned, un: map<nat, Pending>, inv: seq<Invariant>): Node {
    Node(lists, un, inv, LatestFinish(lists), p.cost(lists, un, inv))
  }

  /** The list of agent `a` once the task of `entry` is appended, with the charging task
      that has to precede it when the agent cannot start without one. */
  function Appended(p: Planner, l: seq<Wrapped>, id: nat, r: Request, entry: Entry): seq<Wrapped> {
    var task := Wrapped(id, Assignment(r, entry.state, entry.waitUntil));
    if entry.requireCharge && (l == [] || !IsChargeTask(Last(l))) && p.charge(entry.previous).Some? then
      l + [ChargingTask(id, entry.previous, p.charge(entry.previous).value), task]
    else
      l + [task]
  }

  /** `expand_candidate`: assigns task `u` to agent `a`. */
  function AssignTask(p: Planner, n: Node, u: nat, a: nat): Option<Node>
    requires u in n.unassigned && a in n.unassigned[u].candidates && a < |n.lists|
  {
    var entry := n.unassigned[u].candidates[a];
    if n.latest + SEGMENTATION_THRESHOLD < entry.waitUntil then None
    else
      var l := Appended(p, n.lists[a], u, n.unassigned[u].request, entry);
      var rest := n.unassigned - {u};
      var inv := WithoutInvariant(n.invariants, u);
      match Reestimate(p, rest, a, entry.state, entry.state)
      case Some(un) => Some(Rated(p, n.lists[a := l], un, inv))
      case None => AssignCharge(p, n.lists[a := l], rest, inv, a, entry.state)
  }

  /** Appends a charging task to the list of agent `a`, which ends in state `s`. */
  function AssignCharge(p: Planner, lists: Assigned, un: map<nat, Pending>, inv: seq<Invariant>,
                        a: nat, s: State): Option<Node>
    requires a < |lists|
  {
    match p.charge(s)
    case None => None
    case Some(b) =>
      match Reestimate(p, un, a, b.finish, s)
      case None => None
      case Some(un') =>
        Some(Rated(p, lists[a := lists[a] + [ChargingTask(CHARGING_ID, s, b)]], un', inv))
  }

  /** `expand_charger`: sends agent `a` to its charger. */
  function SendToCharger(p: Planner, n: Node, a: nat): Option<Node>
    requires a < |n.lists|
  {
    if n.lists[a] == [] || IsChargeTask(Last(n.lists[a])) then None
    else AssignCharge(p, n.lists, n.unassigned, n.invariants, a, Last(n.lists[a]).assignment.finish)
  }

  datatype Action = Assign(task: nat, agent: nat) | Recharge(agent: nat)

  /** The node that one action leads to, if `expand` produces it. */
  function Apply(p: Planner, n: Node, act: Action): Option<Node> {
    match act
    case Assign(u, a) =>
      if u in n.unassigned && IsBest(n.unassigned[u].candidates, a) && a < |n.lists|
      then AssignTask(p, n, u, a)
      else None
    case Recharge(a) =>
      if a < |n.lists| then SendToCharger(p, n, a) else None
  }

  /** The node that a run of actions leads to. */
  function Run(p: Planner, n: Node, acts: seq<Action>): Option<Node> {
    if acts == [] then Some(n)
    else
      match Run(p, n, acts[..|acts| - 1])
      case None => None
      case Some(m) => Apply(p, m, Last(acts))
  }

  ghost predicate Reachable(p: Planner, root: Node, n: Node) {
    exists acts :: Run(p, root, acts) == Some(n)
  }

  /** No unassigned task has a best candidate that is due within this segment. */
  predicate Finished(n: Node) {
    forall u, a | u in n.unassigned && a in n.unassigned[u].candidates
                  && IsBest(n.unassigned[u].candidates, a) ::
      n.latest + SEGMENTATION_THRESHOLD < n.unassigned[u].candidates[a].waitUntil
  }

  // ---- fresh nodes ----

  ghost predicate IsLatestTime(states: seq<State>, t: Time) {
    && (exists a :: 0 <= a < |states| && states[a].time == t)
    && (forall a | 0 <= a < |states| :: states[a].time <= t)
  }

  /** `w` is the earliest deployment among the best candidates. */
  ghost predicate IsEarliestWait(un: map<nat, Pending>, w: Time) {
    && (exists u, a :: u in un && IsBest(un[u].candidates, a) && un[u].candidates[a].waitUntil == w)
    && (forall u, a | u in un && IsBest(un[u].candidates, a) :: w <= un[u].candidates[a].waitUntil)
  }

  /** A fresh node over `states`: nothing is assigned, and every agent has the entry that
      the models give it for every task. */
  ghost predicate Root(p: Planner, states: seq<State>, n: Node) {
    && |states| > 0
    && n.lists == seq(|states|, i => [])
    && CHARGING_ID !in n.unassigned
    && (forall u | u in n.unassigned ::
          && !n.unassigned[u].request.description.ChargeBattery?
          && n.unassigned[u].candidates.Keys == Agents(|states|))
    && (forall u, a | u in n.unassigned && 0 <= a < |states| ::
          Some(n.unassigned[u].candidates[a]) == InitialEntry(p, n.unassigned[u].request, states[a]))
    && InvariantsMatch(n.invariants, n.unassigned.Keys)
    && (n.unassigned != map[] ==>
          exists t, w :: IsLatestTime(states, t) && IsEarliestWait(n.unassigned, w) && n.latest == Max(t, w))
  }

  /** The indices of `n` agents. */
  function Agents(n: nat): (r: set<nat>)
    ensures forall a: nat :: a in r <==> a < n
  {
    if n == 0 then {} else Agents(n - 1) + {n - 1}
  }

  /** Exactly one entry for every id. */
  ghost predicate InvariantsMatch(s: seq<Invariant>, ids: set<nat>) {
    && (forall i | 0 <= i < |s| :: s[i].id in ids)
    && (forall i, j | 0 <= i < j < |s| :: s[i].id != s[j].id)
    && (forall id | id in ids :: exists i :: 0 <= i < |s| && s[i].id == id)
  }
}
