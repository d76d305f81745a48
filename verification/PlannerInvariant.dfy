/** What every node keeps that the search can reach from a fresh node. */
module PlannerInvariant {
  import opened Domain
  import opened PlannerNode
  import Bags

  // ---- the shape of the assignment lists ----

  /** What may follow `pre` in the list of agent `a`: every assignment is determined by
      its id and by what precedes it. */
  ghost predicate Link(p: Planner, root: Node, a: nat, pre: seq<Wrapped>, w: Wrapped) {
    if w.id == CHARGING_ID then
      ChargeLink(p, pre, w)
    else
      && w.id in root.unassigned && a in root.unassigned[w.id].candidates
      && TaskLink(p, root.unassigned[w.id].request, root.unassigned[w.id].candidates[a], pre, w)
  }

  ghost predicate ChargeLink(p: Planner, pre: seq<Wrapped>, w: Wrapped) {
    && pre != [] && !IsChargeTask(Last(pre))
    && var s := Last(pre).assignment.finish;
       p.charge(s).Some? && w == ChargingTask(CHARGING_ID, s, p.charge(s).value)
  }

  /** `e` is the entry of the agent in the fresh node. */
  ghost predicate TaskLink(p: Planner, r: Request, e: Entry, pre: seq<Wrapped>, w: Wrapped) {
    if pre == [] && e.requireCharge then
      p.charge(e.previous).Some? && w == ChargingTask(w.id, e.previous, p.charge(e.previous).value)
    else if pre == [] || (|pre| == 1 && IsChargeTask(pre[0])) then
      && w == Wrapped(w.id, Assignment(r, e.state, e.waitUntil))
      && (pre != [] ==> pre[0].id == w.id && e.requireCharge)
    else
      var f := Finish(p, r, Last(pre).assignment.finish);
      f.Some? && w == Wrapped(w.id, Assignment(r, f.value.finish, f.value.waitUntil))
  }

  ghost predicate Chain(p: Planner, root: Node, a: nat, l: seq<Wrapped>) {
    forall k | 0 <= k < |l| :: Link(p, root, a, l[..k], l[k])
  }

  /** A list does not consist of a charging task alone. */
  predicate Proper(l: seq<Wrapped>) {
    |l| == 1 ==> !IsChargeTask(l[0])
  }

  /** The entry that an agent with assignments `l` must have for request `r`, when `e0` is
      the one it had in the fresh node. */
  ghost predicate EntryAgrees(p: Planner, r: Request, e0: Entry, l: seq<Wrapped>, e: Entry) {
    if l == [] then
      e == e0
    else
      var f := Finish(p, r, Last(l).assignment.finish);
      f.Some? && e == Entry(f.value.finish, f.value.waitUntil, StateBeforeCharge(l), false)
  }

  /** The state in which an agent is before the charging task that ends its list, if any. */
  function StateBeforeCharge(l: seq<Wrapped>): State
    requires l != []
  {
    if IsChargeTask(Last(l)) && |l| > 1 then l[|l| - 2].assignment.finish else Last(l).assignment.finish
  }

  // ---- counting ----

  /** The ids of the tasks in a list that are not charging tasks. */
  function TaskIds(l: seq<Wrapped>): multiset<nat> {
    if l == [] then multiset{}
    else TaskIds(l[..|l| - 1]) + (if IsChargeTask(Last(l)) then multiset{} else multiset{Last(l).id})
  }

  function AllTaskIds(lists: Assigned): multiset<nat> {
    if lists == [] then multiset{} else TaskIds(lists[0]) + AllTaskIds(lists[1..])
  }

  function InvariantsOf(s: seq<Invariant>, ids: set<nat>): seq<Invariant> {
    if s == [] then []
    else if s[0].id in ids then [s[0]] + InvariantsOf(s[1..], ids)
    else InvariantsOf(s[1..], ids)
  }

  ghost predicate AllEmpty(lists: Assigned) {
    forall a | 0 <= a < |lists| :: lists[a] == []
  }

  // ---- the invariant ----

  ghost predicate ListsOk(p: Planner, root: Node, lists: Assigned) {
    forall a | 0 <= a < |lists| :: Chain(p, root, a, lists[a]) && Proper(lists[a])
  }

  /** Every task of the fresh node is either unassigned or assigned once. */
  ghost predicate Conserved(root: Node, n: Node) {
    && n.unassigned.Keys <= root.unassigned.Keys
    && AllTaskIds(n.lists) + multiset(n.unassigned.Keys) == multiset(root.unassigned.Keys)
  }

  ghost predicate TaskAgrees(p: Planner, t0: Pending, lists: Assigned, t: Pending) {
    && t.request == t0.request
    && t.candidates.Keys == t0.candidates.Keys == Agents(|lists|)
    && forall a | 0 <= a < |lists| :: EntryAgrees(p, t0.request, t0.candidates[a], lists[a], t.candidates[a])
  }

  ghost predicate TasksAgree(p: Planner, root: Node, lists: Assigned, un: map<nat, Pending>) {
    forall u | u in un :: u in root.unassigned && TaskAgrees(p, root.unassigned[u], lists, un[u])
  }

  ghost predicate Inv(p: Planner, root: Node, n: Node) {
    && |n.lists| == |root.lists|
    && ListsOk(p, root, n.lists)
    && Conserved(root, n)
    && TasksAgree(p, root, n.lists, n.unassigned)
    && n.invariants == InvariantsOf(root.invariants, n.unassigned.Keys)
    && (if AllEmpty(n.lists) then n == root else n == Rated(p, n.lists, n.unassigned, n.invariants))
  }

  lemma RootInv(p: Planner, states: seq<State>, root: Node)
    requires Root(p, states, root)
    ensures Inv(p, root, root)
  {
    RootLists(p, states, root);
    RootTasks(p, states, root);
    KeepAll(root.invariants, root.unassigned.Keys);
  }

  lemma RootLists(p: Planner, states: seq<State>, root: Node)
    requires root.lists == seq(|states|, i => [])
    ensures ListsOk(p, root, root.lists) && Conserved(root, root) && AllEmpty(root.lists)
  {
    AllEmptyIds(root.lists);
  }

  lemma RootTasks(p: Planner, states: seq<State>, root: Node)
    requires root.lists == seq(|states|, i => [])
    requires forall u | u in root.unassigned :: root.unassigned[u].candidates.Keys == Agents(|states|)
    ensures TasksAgree(p, root, root.lists, root.unassigned)
  {
  }

  lemma {:induction false} AllEmptyIds(lists: Assigned)
    requires AllEmpty(lists)
    ensures AllTaskIds(lists) == multiset{}
  {
    if lists != [] {
      assert AllEmpty(lists[1..]);
      AllEmptyIds(lists[1..]);
    }
  }

  lemma {:induction false} KeepAll(s: seq<Invariant>, ids: set<nat>)
    requires forall i | 0 <= i < |s| :: s[i].id in ids
    ensures InvariantsOf(s, ids) == s
  {
    if s != [] {
      KeepAll(s[1..], ids);
    }
  }

  lemma AllTaskIdsFirst(lists: Assigned)
    requires lists != []
    ensures AllTaskIds(lists) == TaskIds(lists[0]) + AllTaskIds(lists[1..])
  {
  }

  lemma {:induction false} UpdateIds(lists: Assigned, a: nat, l: seq<Wrapped>)
    requires a < |lists|
    ensures AllTaskIds(lists[a := l]) + TaskIds(lists[a]) == AllTaskIds(lists) + TaskIds(l)
  {
    hide TaskIds;
    var lists' := lists[a := l];
    AllTaskIdsFirst(lists);
    AllTaskIdsFirst(lists');
    hide AllTaskIds;
    if a == 0 {
      assert lists'[1..] == lists[1..];
      Bags.Rotate(TaskIds(l), AllTaskIds(lists[1..]), TaskIds(lists[0]));
    } else {
      assert lists'[1..] == lists[1..][a - 1 := l];
      UpdateIds(lists[1..], a - 1, l);
      Bags.Behind(TaskIds(lists[0]), AllTaskIds(lists[1..][a - 1 := l]), TaskIds(lists[a]),
                  AllTaskIds(lists[1..]), TaskIds(l));
    }
  }

  lemma TaskIdsSnoc(l: seq<Wrapped>, w: Wrapped)
    ensures TaskIds(l + [w]) == TaskIds(l) + (if IsChargeTask(w) then multiset{} else multiset{w.id})
  {
  }

  /** Popping the invariant of a task leaves those of the others, in order. */
  lemma {:induction false} PopInvariant(s: seq<Invariant>, ids: set<nat>, id: nat)
    requires forall i, j | 0 <= i < j < |s| :: s[i].id != s[j].id
    ensures WithoutInvariant(InvariantsOf(s, ids), id) == InvariantsOf(s, ids - {id})
  {
    if s != [] {
      var t := InvariantsOf(s[1..], ids);
      assert ([s[0]] + t)[1..] == t;
      if s[0].id == id && id in ids {
        SameInvariants(s[1..], ids, ids - {id});
      } else {
        PopInvariant(s[1..], ids, id);
      }
    }
  }

  lemma {:induction false} SameInvariants(s: seq<Invariant>, ids: set<nat>, ids': set<nat>)
    requires forall i | 0 <= i < |s| :: s[i].id in ids <==> s[i].id in ids'
    ensures InvariantsOf(s, ids) == InvariantsOf(s, ids')
  {
    if s != [] {
      SameInvariants(s[1..], ids, ids');
    }
  }

  // ---- one step ----

  lemma ChainSnoc(p: Planner, root: Node, a: nat, l: seq<Wrapped>, w: Wrapped)
    requires Chain(p, root, a, l) && Link(p, root, a, l, w)
    ensures Chain(p, root, a, l + [w])
  {
  }

  /** Appending a task that can start without a charge. */
  lemma AppendTask(p: Planner, root: Node, u: nat, a: nat, l: seq<Wrapped>, e: Entry)
    requires Chain(p, root, a, l) && Proper(l)
    requires u != CHARGING_ID && u in root.unassigned && a in root.unassigned[u].candidates
    requires !root.unassigned[u].request.description.ChargeBattery?
    requires EntryAgrees(p, root.unassigned[u].request, root.unassigned[u].candidates[a], l, e)
    requires !e.requireCharge
    ensures var r := root.unassigned[u].request;
            var l' := Appended(p, l, u, r, e);
            && l' == l + [Wrapped(u, Assignment(r, e.state, e.waitUntil))]
            && Chain(p, root, a, l') && Proper(l')
            && TaskIds(l') == TaskIds(l) + multiset{u}
  {
    var r := root.unassigned[u].request;
    var task := Wrapped(u, Assignment(r, e.state, e.waitUntil));
    assert TaskLink(p, r, root.unassigned[u].candidates[a], l, task);
    ChainSnoc(p, root, a, l, task);
    TaskIdsSnoc(l, task);
  }

  /** Appending a task that needs a charge first, which happens to idle agents only. */
  lemma AppendChargedTask(p: Planner, root: Node, u: nat, a: nat, s: State)
    requires u != CHARGING_ID && u in root.unassigned && a in root.unassigned[u].candidates
    requires !root.unassigned[u].request.description.ChargeBattery?
    requires Some(root.unassigned[u].candidates[a]) == InitialEntry(p, root.unassigned[u].request, s)
    requires root.unassigned[u].candidates[a].requireCharge
    ensures var r := root.unassigned[u].request;
            var e := root.unassigned[u].candidates[a];
            var l' := Appended(p, [], u, r, e);
            && p.charge(s).Some?
            && l' == [ChargingTask(u, s, p.charge(s).value)] + [Wrapped(u, Assignment(r, e.state, e.waitUntil))]
            && Chain(p, root, a, l') && Proper(l')
            && TaskIds(l') == multiset{u}
  {
    var r := root.unassigned[u].request;
    var e := root.unassigned[u].candidates[a];
    var charge := ChargingTask(u, s, p.charge(s).value);
    var task := Wrapped(u, Assignment(r, e.state, e.waitUntil));
    assert TaskLink(p, r, e, [], charge) && TaskLink(p, r, e, [charge], task);
    hide TaskLink, Chain, TaskIds, InitialEntry;
    ChargedChain(p, root, a, charge, task);
    ChargedIds(charge, task);
  }

  lemma ChargedChain(p: Planner, root: Node, a: nat, charge: Wrapped, task: Wrapped)
    requires Link(p, root, a, [], charge) && Link(p, root, a, [charge], task)
    ensures Chain(p, root, a, [charge] + [task])
  {
    hide Link;
    assert ([charge] + [task])[..0] == [] && ([charge] + [task])[..1] == [charge];
  }

  lemma ChargedIds(charge: Wrapped, task: Wrapped)
    requires IsChargeTask(charge) && !IsChargeTask(task)
    ensures TaskIds([charge] + [task]) == multiset{task.id}
  {
    TaskIdsSnoc([charge], task);
    assert [charge][..0] == [];
  }

  /** Appending a charging task to a list that ends with another task. */
  lemma AppendCharge(p: Planner, root: Node, a: nat, l: seq<Wrapped>)
    requires Chain(p, root, a, l) && l != [] && !IsChargeTask(Last(l))
    requires p.charge(Last(l).assignment.finish).Some?
    ensures var s := Last(l).assignment.finish;
            var l' := l + [ChargingTask(CHARGING_ID, s, p.charge(s).value)];
            && Chain(p, root, a, l') && Proper(l')
            && TaskIds(l') == TaskIds(l)
            && StateBeforeCharge(l') == s
  {
    var s := Last(l).assignment.finish;
    var charge := ChargingTask(CHARGING_ID, s, p.charge(s).value);
    assert ChargeLink(p, l, charge);
    ChainSnoc(p, root, a, l, charge);
    TaskIdsSnoc(l, charge);
  }

  lemma ReestimateAgrees(p: Planner, root: Node, lists: Assigned, a: nat, l: seq<Wrapped>,
                         un: map<nat, Pending>)
    requires TasksAgree(p, root, lists, un)
    requires a < |lists| && l != []
    requires Reestimate(p, un, a, Last(l).assignment.finish, StateBeforeCharge(l)).Some?
    ensures var un' := Reestimate(p, un, a, Last(l).assignment.finish, StateBeforeCharge(l)).value;
            un'.Keys == un.Keys && TasksAgree(p, root, lists[a := l], un')
  {
    var un' := Reestimate(p, un, a, Last(l).assignment.finish, StateBeforeCharge(l)).value;
    forall u | u in un' ensures u in root.unassigned && TaskAgrees(p, root.unassigned[u], lists[a := l], un'[u]) {
      assert TaskAgrees(p, root.unassigned[u], lists, un[u]);
      EntryUpdate(p, root.unassigned[u], lists, a, l, un[u], Finish(p, un[u].request, Last(l).assignment.finish).value);
    }
  }

  lemma EntryUpdate(p: Planner, t0: Pending, lists: Assigned, a: nat, l: seq<Wrapped>, t: Pending, e: Estimate)
    requires TaskAgrees(p, t0, lists, t)
    requires a < |lists| && l != []
    requires Finish(p, t.request, Last(l).assignment.finish) == Some(e)
    ensures TaskAgrees(p, t0, lists[a := l], WithEntry(t, a, e, StateBeforeCharge(l)))
  {
  }

  /** The parts of the invariant that do not depend on the candidates. */
  ghost predicate Skeleton(p: Planner, root: Node, lists: Assigned, ids: set<nat>, inv: seq<Invariant>) {
    && |lists| == |root.lists|
    && ListsOk(p, root, lists)
    && ids <= root.unassigned.Keys
    && AllTaskIds(lists) + multiset(ids) == multiset(root.unassigned.Keys)
    && inv == InvariantsOf(root.invariants, ids)
  }

  lemma SkeletonChain(p: Planner, root: Node, lists: Assigned, ids: set<nat>, inv: seq<Invariant>, a: nat)
    requires Skeleton(p, root, lists, ids, inv) && a < |lists|
    ensures Chain(p, root, a, lists[a])
  {
  }

  lemma InvSkeleton(p: Planner, root: Node, n: Node)
    requires Inv(p, root, n)
    ensures Skeleton(p, root, n.lists, n.unassigned.Keys, n.invariants)
  {
  }

  lemma Assemble(p: Planner, root: Node, lists: Assigned, un: map<nat, Pending>, inv: seq<Invariant>, a: nat)
    requires Skeleton(p, root, lists, un.Keys, inv) && TasksAgree(p, root, lists, un)
    requires a < |lists| && lists[a] != []
    ensures Inv(p, root, Rated(p, lists, un, inv))
  {
  }

  lemma ListsUpdate(p: Planner, root: Node, lists: Assigned, a: nat, l: seq<Wrapped>)
    requires ListsOk(p, root, lists) && a < |lists| && Chain(p, root, a, l) && Proper(l)
    ensures ListsOk(p, root, lists[a := l])
  {
  }

  lemma IdsAssign(lists: Assigned, a: nat, l: seq<Wrapped>, ids: set<nat>, u: nat)
    requires a < |lists| && u in ids
    requires TaskIds(l) == TaskIds(lists[a]) + multiset{u}
    ensures AllTaskIds(lists[a := l]) + multiset(ids - {u}) == AllTaskIds(lists) + multiset(ids)
  {
    hide TaskIds, AllTaskIds;
    UpdateIds(lists, a, l);
    Bags.Cancel(AllTaskIds(lists[a := l]), TaskIds(lists[a]), AllTaskIds(lists), multiset{u});
    assert multiset(ids) == multiset(ids - {u}) + multiset{u};
    Bags.Move(AllTaskIds(lists), multiset(ids), multiset{u}, AllTaskIds(lists[a := l]), multiset(ids - {u}));
  }

  lemma IdsCharge(lists: Assigned, a: nat, l: seq<Wrapped>)
    requires a < |lists| && TaskIds(l) == TaskIds(lists[a])
    ensures AllTaskIds(lists[a := l]) == AllTaskIds(lists)
  {
    hide TaskIds, AllTaskIds;
    UpdateIds(lists, a, l);
    Bags.CancelSame(AllTaskIds(lists[a := l]), TaskIds(l), AllTaskIds(lists));
  }

  lemma SkeletonAssign(p: Planner, root: Node, n: Node, u: nat, a: nat, l: seq<Wrapped>)
    requires Skeleton(p, root, n.lists, n.unassigned.Keys, n.invariants)
    requires InvariantsMatch(root.invariants, root.unassigned.Keys)
    requires u in n.unassigned && a < |n.lists|
    requires Chain(p, root, a, l) && Proper(l) && TaskIds(l) == TaskIds(n.lists[a]) + multiset{u}
    ensures Skeleton(p, root, n.lists[a := l], n.unassigned.Keys - {u}, WithoutInvariant(n.invariants, u))
  {
    PopInvariant(root.invariants, n.unassigned.Keys, u);
    IdsAssign(n.lists, a, l, n.unassigned.Keys, u);
    ListsUpdate(p, root, n.lists, a, l);
  }

  lemma SkeletonCharge(p: Planner, root: Node, lists: Assigned, ids: set<nat>, inv: seq<Invariant>,
                       a: nat, l: seq<Wrapped>)
    requires Skeleton(p, root, lists, ids, inv)
    requires a < |lists|
    requires Chain(p, root, a, l) && Proper(l) && TaskIds(l) == TaskIds(lists[a])
    ensures Skeleton(p, root, lists[a := l], ids, inv)
  {
    IdsCharge(lists, a, l);
    ListsUpdate(p, root, lists, a, l);
  }

  /** `AssignCharge` keeps the invariant, whatever the entries of agent `a` were. */
  lemma AssignChargeInv(p: Planner, root: Node, lists: Assigned, lists0: Assigned, un: map<nat, Pending>,
                        inv: seq<Invariant>, a: nat)
    requires Skeleton(p, root, lists, un.Keys, inv)
    requires a < |lists| && lists[a] != [] && !IsChargeTask(Last(lists[a]))
    requires |lists0| == |lists| && lists0[a := lists[a]] == lists && TasksAgree(p, root, lists0, un)
    requires AssignCharge(p, lists, un, inv, a, Last(lists[a]).assignment.finish).Some?
    ensures var m := AssignCharge(p, lists, un, inv, a, Last(lists[a]).assignment.finish).value;
            Inv(p, root, m) && m.unassigned.Keys == un.Keys
  {
    hide Skeleton, Inv, Chain, TasksAgree, Reestimate, TaskIds;
    var s := Last(lists[a]).assignment.finish;
    var b := p.charge(s).value;
    var l := lists[a] + [ChargingTask(CHARGING_ID, s, b)];
    assert Chain(p, root, a, lists[a]) by { SkeletonChain(p, root, lists, un.Keys, inv, a); }
    AppendCharge(p, root, a, lists[a]);
    SkeletonCharge(p, root, lists, un.Keys, inv, a, l);
    ReestimateAgrees(p, root, lists0, a, l, un);
    assert lists0[a := l] == lists[a := l];
    Assemble(p, root, lists[a := l], Reestimate(p, un, a, b.finish, s).value, inv, a);
  }

  /** Sending an agent to its charger keeps the invariant. */
  lemma RechargeInv(p: Planner, root: Node, n: Node, a: nat)
    requires Inv(p, root, n)
    requires Apply(p, n, Recharge(a)).Some?
    ensures var m := Apply(p, n, Recharge(a)).value;
            Inv(p, root, m) && m.unassigned.Keys == n.unassigned.Keys
  {
    assert n.lists[a := n.lists[a]] == n.lists;
    AssignChargeInv(p, root, n.lists, n.lists, n.unassigned, n.invariants, a);
  }

  lemma RestAgrees(p: Planner, root: Node, lists: Assigned, un: map<nat, Pending>, u: nat)
    requires TasksAgree(p, root, lists, un)
    ensures TasksAgree(p, root, lists, un - {u})
  {
  }

  /** The list of an agent after a task is appended to it. */
  lemma AppendedList(p: Planner, root: Node, u: nat, a: nat, s: State, l: seq<Wrapped>, e: Entry)
    requires Chain(p, root, a, l) && Proper(l)
    requires u != CHARGING_ID && u in root.unassigned && a in root.unassigned[u].candidates
    requires !root.unassigned[u].request.description.ChargeBattery?
    requires Some(root.unassigned[u].candidates[a]) == InitialEntry(p, root.unassigned[u].request, s)
    requires EntryAgrees(p, root.unassigned[u].request, root.unassigned[u].candidates[a], l, e)
    ensures var l' := Appended(p, l, u, root.unassigned[u].request, e);
            && Chain(p, root, a, l') && Proper(l') && Grown(l, l', u, e)
  {
    if e.requireCharge {
      AppendChargedTask(p, root, u, a, s);
      assert TaskIds(l) == multiset{};
    } else {
      AppendTask(p, root, u, a, l, e);
    }
  }

  /** `l'` is `l` with task `u` added to it, performed as entry `e` says. */
  ghost predicate Grown(l: seq<Wrapped>, l': seq<Wrapped>, u: nat, e: Entry) {
    && l' != [] && !IsChargeTask(Last(l'))
    && Last(l').assignment.finish == e.state
    && TaskIds(l') == TaskIds(l) + multiset{u}
  }

  /** Assigning a task keeps the invariant. */
  lemma AssignInv(p: Planner, states: seq<State>, root: Node, n: Node, u: nat, a: nat)
    requires Root(p, states, root) && Inv(p, root, n)
    requires Apply(p, n, Assign(u, a)).Some?
    ensures var m := Apply(p, n, Assign(u, a)).value;
            Inv(p, root, m) && m.unassigned.Keys == n.unassigned.Keys - {u}
  {
    assert TaskAgrees(p, root.unassigned[u], n.lists, n.unassigned[u]);
    AppendedList(p, root, u, a, states[a], n.lists[a], n.unassigned[u].candidates[a]);
    AssignListInv(p, root, n, u, a, Appended(p, n.lists[a], u, n.unassigned[u].request, n.unassigned[u].candidates[a]));
  }

  lemma AssignListInv(p: Planner, root: Node, n: Node, u: nat, a: nat, l: seq<Wrapped>)
    requires Inv(p, root, n) && InvariantsMatch(root.invariants, root.unassigned.Keys)
    requires Apply(p, n, Assign(u, a)).Some?
    requires l == Appended(p, n.lists[a], u, n.unassigned[u].request, n.unassigned[u].candidates[a])
    requires Chain(p, root, a, l) && Proper(l) && Grown(n.lists[a], l, u, n.unassigned[u].candidates[a])
    ensures var m := Apply(p, n, Assign(u, a)).value;
            Inv(p, root, m) && m.unassigned.Keys == n.unassigned.Keys - {u}
  {
    hide Skeleton, TasksAgree, Chain, Proper, Conserved, ListsOk, InvariantsMatch, TaskIds, Reestimate, AssignCharge;
    var s := n.unassigned[u].candidates[a].state;
    var rest := n.unassigned - {u};
    var inv := WithoutInvariant(n.invariants, u);
    InvSkeleton(p, root, n);
    SkeletonAssign(p, root, n, u, a, l);
    RestAgrees(p, root, n.lists, n.unassigned, u);
    assert rest.Keys == n.unassigned.Keys - {u};
    if Reestimate(p, rest, a, s, s).Some? {
      AssignDirectly(p, root, n.lists, rest, inv, a, l);
    } else {
      assert n.lists[a := n.lists[a := l][a]] == n.lists[a := l];
      AssignChargeInv(p, root, n.lists[a := l], n.lists, rest, inv, a);
    }
  }

  lemma AssignDirectly(p: Planner, root: Node, lists: Assigned, rest: map<nat, Pending>, inv: seq<Invariant>,
                       a: nat, l: seq<Wrapped>)
    requires a < |lists| && l != [] && !IsChargeTask(Last(l))
    requires Skeleton(p, root, lists[a := l], rest.Keys, inv) && TasksAgree(p, root, lists, rest)
    requires Reestimate(p, rest, a, Last(l).assignment.finish, Last(l).assignment.finish).Some?
    ensures var un := Reestimate(p, rest, a, Last(l).assignment.finish, Last(l).assignment.finish).value;
            Inv(p, root, Rated(p, lists[a := l], un, inv)) && un.Keys == rest.Keys
  {
    ReestimateAgrees(p, root, lists, a, l, rest);
    Assemble(p, root, lists[a := l], Reestimate(p, rest, a, Last(l).assignment.finish, Last(l).assignment.finish).value,
             inv, a);
  }

  /** Every node that a run of actions reaches from a fresh node keeps the invariant. */
  lemma {:induction false} RunInv(p: Planner, states: seq<State>, root: Node, acts: seq<Action>)
    requires Root(p, states, root)
    ensures Run(p, root, acts).Some? ==> Inv(p, root, Run(p, root, acts).value)
  {
    if acts == [] {
      RootInv(p, states, root);
    } else if Run(p, root, acts).Some? {
      RunInv(p, states, root, acts[..|acts| - 1]);
      StepInv(p, states, root, Run(p, root, acts[..|acts| - 1]).value, Last(acts));
    }
  }

  lemma StepInv(p: Planner, states: seq<State>, root: Node, n: Node, act: Action)
    requires Root(p, states, root) && Inv(p, root, n)
    requires Apply(p, n, act).Some?
    ensures Inv(p, root, Apply(p, n, act).value)
  {
    match act
    case Assign(u, a) => AssignInv(p, states, root, n, u, a);
    case Recharge(a) => RechargeInv(p, root, n, a);
  }

  lemma ReachableInv(p: Planner, states: seq<State>, root: Node, n: Node)
    requires Root(p, states, root) && Reachable(p, root, n)
    ensures Inv(p, root, n)
  {
    var acts :| Run(p, root, acts) == Some(n);
    RunInv(p, states, root, acts);
  }
}
