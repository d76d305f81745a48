/** The best-first search: `expand` and `solve`. */
module PlannerSearch {
  import opened Domain
  import opened PlannerNode
  import opened PlannerTheorems
  import opened PlannerProgress
  import opened PlannerExpand

  /** Multiplication, kept apart from the reasoning about nodes. */
  function Times(x: nat, y: nat): nat {
    x * y
  }

  lemma TimesSucc(x: nat, y: nat)
    ensures Times(x + 1, y) == Times(x, y) + y && Times(0, y) == 0
  {
  }

  lemma TimesMono(x: nat, y: nat, z: nat)
    requires x <= y
    ensures Times(x, z) <= Times(y, z)
  {
  }

  // ---- what the search relies on and what it promises ----

  /** No estimate exceeds the cost of a finished node that can still be reached. */
  ghost predicate Admissible(p: Planner, root: Node) {
    forall n, m | Reachable(p, root, n) && Reachable(p, n, m) && Finished(m) :: n.cost <= m.cost
  }

  ghost predicate Cheapest(p: Planner, root: Node, n: Node) {
    forall m | Reachable(p, root, m) && Finished(m) :: n.cost <= m.cost
  }

  ghost predicate NoneFinished(p: Planner, root: Node) {
    forall m | Reachable(p, root, m) :: !Finished(m)
  }

  function NodeSet(s: seq<Node>): set<Node> {
    set n | n in s
  }

  /** Every node of the search whose signature the filter has seen is among `nodes`. */
  ghost predicate Covers(p: Planner, root: Node, seen: set<seq<seq<nat>>>, nodes: set<Node>) {
    forall m: Node | Signature(m.lists) in seen && Reachable(p, root, m) :: m in nodes
  }

  lemma SignatureSame(x: Assigned, y: Assigned)
    requires Signature(x) == Signature(y)
    ensures SameIds(x, y)
  {
    assert |x| == |Signature(x)| == |Signature(y)| == |y|;
    forall a | 0 <= a < |x| ensures SameListIds(x[a], y[a]) {
      assert Signature(x)[a] == Ids(x[a]) && Signature(y)[a] == Ids(y[a]);
      assert |x[a]| == |Ids(x[a])| == |y[a]|;
      forall k | 0 <= k < |x[a]| ensures x[a][k].id == y[a][k].id {
        assert Ids(x[a])[k] == Ids(y[a])[k];
      }
    }
  }

  lemma CoversMore(p: Planner, states: seq<State>, root: Node, seen: set<seq<seq<nat>>>, nodes: set<Node>, n: Node)
    requires Root(p, states, root) && Covers(p, root, seen, nodes) && Reachable(p, root, n)
    ensures Covers(p, root, seen + {Signature(n.lists)}, nodes + {n})
  {
    forall m: Node | Signature(m.lists) in seen + {Signature(n.lists)} && Reachable(p, root, m)
      ensures m in nodes + {n}
    {
      if Signature(m.lists) !in seen {
        SignatureSame(m.lists, n.lists);
        FilterSound(p, states, root, m, n);
      }
    }
  }

  lemma StepReachable(p: Planner, root: Node, n: Node, act: Action)
    requires Reachable(p, root, n) && Apply(p, n, act).Some?
    ensures Reachable(p, root, Apply(p, n, act).value)
  {
    var acts :| Run(p, root, acts) == Some(n);
    assert (acts + [act])[..|acts|] == acts;
    assert Run(p, root, acts + [act]) == Apply(p, n, act);
  }

  /** No expansion lowers the cost. */
  ghost predicate CostsRise(p: Planner, root: Node) {
    forall n, act | Reachable(p, root, n) && Apply(p, n, act).Some? :: n.cost <= Apply(p, n, act).value.cost
  }

  lemma {:induction false} RunRises(p: Planner, root: Node, n: Node, acts: seq<Action>)
    requires CostsRise(p, root) && Reachable(p, root, n) && Run(p, n, acts).Some?
    ensures Reachable(p, root, Run(p, n, acts).value) && n.cost <= Run(p, n, acts).value.cost
  {
    hide Reachable, Apply;
    if acts != [] {
      var pre := acts[..|acts| - 1];
      RunRises(p, root, n, pre);
      StepReachable(p, root, Run(p, n, pre).value, Last(acts));
    }
  }

  /** A cost that no expansion lowers makes the search optimal. */
  lemma RisingIsAdmissible(p: Planner, root: Node)
    requires CostsRise(p, root)
    ensures Admissible(p, root)
  {
    forall n, m | Reachable(p, root, n) && Reachable(p, n, m) && Finished(m) ensures n.cost <= m.cost {
      var acts :| Run(p, n, acts) == Some(m);
      RunRises(p, root, n, acts);
    }
  }

  // ---- expansion ----

  /** What holds of the nodes that an expansion of `parent` adds. */
  ghost predicate NewNodes(p: Planner, root: Node, parent: Node, nodes: seq<Node>) {
    forall m | m in nodes ::
      && Reachable(p, root, m) && Rank(m) < Rank(parent)
      && |m.unassigned| <= |parent.unassigned| && |m.lists| == |parent.lists|
  }

  /** The children of `parent` by assigning task `u` to one of `agents` are among `nodes`. */
  ghost predicate HasAssigned(p: Planner, parent: Node, u: nat, agents: set<nat>, nodes: set<Node>) {
    forall a | a in agents :: Apply(p, parent, Assign(u, a)).Some? ==> Apply(p, parent, Assign(u, a)).value in nodes
  }

  ghost predicate HasAllAssigned(p: Planner, parent: Node, tasks: set<nat>, nodes: set<Node>) {
    forall u | u in tasks && u in parent.unassigned ::
      HasAssigned(p, parent, u, Best(parent.unassigned[u].candidates), nodes)
  }

  ghost predicate HasRecharged(p: Planner, parent: Node, k: nat, nodes: set<Node>) {
    forall a: nat | a < k :: Apply(p, parent, Recharge(a)).Some? ==> Apply(p, parent, Recharge(a)).value in nodes
  }

  ghost predicate HasChildren(p: Planner, parent: Node, nodes: set<Node>) {
    forall act :: Apply(p, parent, act).Some? ==> Apply(p, parent, act).value in nodes
  }

  lemma ChildrenComplete(p: Planner, parent: Node, nodes: set<Node>)
    requires HasAllAssigned(p, parent, parent.unassigned.Keys, nodes)
    requires HasRecharged(p, parent, |parent.lists|, nodes)
    ensures HasChildren(p, parent, nodes)
  {
  }

  /** Adding the child of one action. */
  method AddCandidate(p: Planner, ghost states: seq<State>, ghost root: Node, parent: Node, u: nat, a: nat,
                      filter: Filter, ghost known: set<Node>, nodes: seq<Node>)
    returns (nodes': seq<Node>)
    requires Root(p, states, root) && Reachable(p, root, parent)
    requires u in parent.unassigned && a in Best(parent.unassigned[u].candidates) && a < |parent.lists|
    requires Covers(p, root, filter.seen, known + NodeSet(nodes)) && NewNodes(p, root, parent, nodes)
    modifies filter
    ensures Covers(p, root, filter.seen, known + NodeSet(nodes')) && NewNodes(p, root, parent, nodes')
    ensures NodeSet(nodes) <= NodeSet(nodes') && |nodes'| <= |nodes| + 1
    ensures HasAssigned(p, parent, u, {a}, known + NodeSet(nodes'))
  {
    hide Root, Reachable, AssignTask;
    InvariantsConserved(p, states, root, parent);
    var child := ExpandCandidate(p, parent, u, a, filter);
    if AssignTask(p, parent, u, a).Some? {
      ghost var m := AssignTask(p, parent, u, a).value;
      assert Apply(p, parent, Assign(u, a)) == Some(m);
      StepReachable(p, root, parent, Assign(u, a));
      StepRank(p, parent, Assign(u, a));
      CoversMore(p, states, root, old(filter.seen), known + NodeSet(nodes), m);
      assert old(Signature(m.lists) in filter.seen) ==> m in known + NodeSet(nodes);
    }
    if child.Some? {
      nodes' := nodes + [child.value];
      NodeSetSnoc(nodes, child.value);
      assert known + NodeSet(nodes) + {child.value} == known + NodeSet(nodes');
    } else {
      nodes' := nodes;
      assert AssignTask(p, parent, u, a).Some? ==>
        known + NodeSet(nodes) + {AssignTask(p, parent, u, a).value} == known + NodeSet(nodes');
    }
  }

  lemma NodeSetSnoc(s: seq<Node>, n: Node)
    ensures NodeSet(s + [n]) == NodeSet(s) + {n}
  {
  }

  method ExpandTask(p: Planner, ghost states: seq<State>, ghost root: Node, parent: Node, u: nat,
                    filter: Filter, ghost known: set<Node>, nodes: seq<Node>)
    returns (nodes': seq<Node>)
    requires Root(p, states, root) && Reachable(p, root, parent)
    requires u in parent.unassigned
    requires Covers(p, root, filter.seen, known + NodeSet(nodes)) && NewNodes(p, root, parent, nodes)
    modifies filter
    ensures Covers(p, root, filter.seen, known + NodeSet(nodes')) && NewNodes(p, root, parent, nodes')
    ensures NodeSet(nodes) <= NodeSet(nodes') && |nodes'| <= |nodes| + |parent.lists|
    ensures HasAssigned(p, parent, u, Best(parent.unassigned[u].candidates), known + NodeSet(nodes'))
  {
    hide Root, Reachable, HasAssigned, Covers, NewNodes;
    nodes' := nodes;
    var best := Best(parent.unassigned[u].candidates);
    BestBound(p, states, root, parent, u);
    var todo := best;
    assert HasAssigned(p, parent, u, best - todo, known + NodeSet(nodes')) by {
      NoAgents(p, parent, u, known + NodeSet(nodes'));
      assert best - todo == {};
    }
    while todo != {}
      invariant todo <= best
      invariant Covers(p, root, filter.seen, known + NodeSet(nodes')) && NewNodes(p, root, parent, nodes')
      invariant NodeSet(nodes) <= NodeSet(nodes') && |nodes'| + |todo| <= |nodes| + |best|
      invariant HasAssigned(p, parent, u, best - todo, known + NodeSet(nodes'))
      decreases todo
    {
      var a :| a in todo;
      ghost var before := NodeSet(nodes');
      nodes' := AddCandidate(p, states, root, parent, u, a, filter, known, nodes');
      HasAssignedMore(p, parent, u, best - todo, a, known + before, known + NodeSet(nodes'));
      assert best - (todo - {a}) == best - todo + {a};
      todo := todo - {a};
    }
    assert best - todo == best;
  }

  lemma NoAgents(p: Planner, parent: Node, u: nat, nodes: set<Node>)
    ensures HasAssigned(p, parent, u, {}, nodes)
  {
  }

  lemma HasAssignedMore(p: Planner, parent: Node, u: nat, agents: set<nat>, a: nat, x: set<Node>, y: set<Node>)
    requires HasAssigned(p, parent, u, agents, x) && x <= y && HasAssigned(p, parent, u, {a}, y)
    ensures HasAssigned(p, parent, u, agents + {a}, y)
  {
  }

  lemma BestBound(p: Planner, states: seq<State>, root: Node, n: Node, u: nat)
    requires Root(p, states, root) && Reachable(p, root, n) && u in n.unassigned
    ensures forall a | a in Best(n.unassigned[u].candidates) :: a < |n.lists|
    ensures |Best(n.unassigned[u].candidates)| <= |n.lists|
  {
    EntriesUpToDate(p, states, root, n, u, 0);
    var best := Best(n.unassigned[u].candidates);
    assert best <= Agents(|n.lists|);
    SubsetBound(best, Agents(|n.lists|));
    AgentsCard(|n.lists|);
  }

  lemma SubsetBound<T>(x: set<T>, y: set<T>)
    requires x <= y
    ensures |x| <= |y|
  {
    assert y == x + (y - x);
  }

  lemma {:induction false} AgentsCard(n: nat)
    ensures |Agents(n)| == n
  {
    if n > 0 {
      AgentsCard(n - 1);
    }
  }

  method ExpandTasks(p: Planner, ghost states: seq<State>, ghost root: Node, parent: Node,
                     filter: Filter, ghost known: set<Node>)
    returns (nodes: seq<Node>)
    requires Root(p, states, root) && Reachable(p, root, parent)
    requires Covers(p, root, filter.seen, known)
    modifies filter
    ensures Covers(p, root, filter.seen, known + NodeSet(nodes)) && NewNodes(p, root, parent, nodes)
    ensures |nodes| <= Times(|parent.unassigned|, |parent.lists|)
    ensures HasAllAssigned(p, parent, parent.unassigned.Keys, known + NodeSet(nodes))
  {
    hide Root, Reachable, HasAssigned, HasAllAssigned, Covers, NewNodes, Times;
    TimesSucc(0, |parent.lists|);
    assert NewNodes(p, root, parent, []) by { NoNodes(p, root, parent); }
    assert HasAllAssigned(p, parent, {}, known) by { NoTasks(p, parent, known); }
    nodes := [];
    assert known + NodeSet(nodes) == known;
    var all := parent.unassigned.Keys;
    var todo := all;
    assert all - todo == {};
    ghost var done := 0;
    while todo != {}
      invariant todo <= all && done + |todo| == |all|
      invariant Covers(p, root, filter.seen, known + NodeSet(nodes)) && NewNodes(p, root, parent, nodes)
      invariant |nodes| <= Times(done, |parent.lists|)
      invariant HasAllAssigned(p, parent, all - todo, known + NodeSet(nodes))
      decreases todo
    {
      var u :| u in todo;
      ghost var before := NodeSet(nodes);
      nodes := ExpandTask(p, states, root, parent, u, filter, known, nodes);
      HasAllAssignedMore(p, parent, all - todo, u, known + before, known + NodeSet(nodes));
      assert all - (todo - {u}) == all - todo + {u};
      todo := todo - {u};
      TimesSucc(done, |parent.lists|);
      done := done + 1;
    }
    assert all - todo == all;
    assert |all| == |parent.unassigned|;
  }

  lemma NoNodes(p: Planner, root: Node, parent: Node)
    ensures NewNodes(p, root, parent, [])
  {
  }

  lemma NoTasks(p: Planner, parent: Node, nodes: set<Node>)
    ensures HasAllAssigned(p, parent, {}, nodes)
  {
  }

  lemma HasAllAssignedMore(p: Planner, parent: Node, tasks: set<nat>, u: nat, x: set<Node>, y: set<Node>)
    requires tasks <= parent.unassigned.Keys && u in parent.unassigned
    requires HasAllAssigned(p, parent, tasks, x) && x <= y
    requires HasAssigned(p, parent, u, Best(parent.unassigned[u].candidates), y)
    ensures HasAllAssigned(p, parent, tasks + {u}, y)
  {
  }

  /** `expand`: all children of a node that the filter does not drop. */
  method Expand(p: Planner, ghost states: seq<State>, ghost root: Node, parent: Node,
                filter: Filter, ghost known: set<Node>)
    returns (nodes: seq<Node>)
    requires Root(p, states, root) && Reachable(p, root, parent)
    requires Covers(p, root, filter.seen, known)
    modifies filter
    ensures Covers(p, root, filter.seen, known + NodeSet(nodes)) && NewNodes(p, root, parent, nodes)
    ensures |nodes| <= Times(|parent.unassigned| + 1, |parent.lists|)
    ensures HasChildren(p, parent, known + NodeSet(nodes))
  {
    hide Root, Reachable, HasAssigned, HasAllAssigned, Rank, SendToCharger, AssignTask, Times;
    TimesSucc(|parent.unassigned|, |parent.lists|);
    nodes := ExpandTasks(p, states, root, parent, filter, known);
    ghost var first := nodes;
    for i := 0 to |parent.lists|
      invariant Covers(p, root, filter.seen, known + NodeSet(nodes)) && NewNodes(p, root, parent, nodes)
      invariant NodeSet(first) <= NodeSet(nodes) && |nodes| <= |first| + i
      invariant HasRecharged(p, parent, i, known + NodeSet(nodes))
    {
      var child := ExpandCharger(p, parent, i);
      if child.Some? {
        assert Apply(p, parent, Recharge(i)) == child;
        StepReachable(p, root, parent, Recharge(i));
        StepRank(p, parent, Recharge(i));
        NodeSetSnoc(nodes, child.value);
        nodes := nodes + [child.value];
      }
    }
    HasAllAssignedMono(p, parent, parent.unassigned.Keys, known + NodeSet(first), known + NodeSet(nodes));
    ChildrenComplete(p, parent, known + NodeSet(nodes));
  }

  lemma HasAllAssignedMono(p: Planner, parent: Node, tasks: set<nat>, x: set<Node>, y: set<Node>)
    requires tasks <= parent.unassigned.Keys
    requires HasAllAssigned(p, parent, tasks, x) && x <= y
    ensures HasAllAssigned(p, parent, tasks, y)
  {
  }

  // ---- the weight of the queue ----

  function Pow(b: nat, e: nat): nat {
    if e == 0 then 1 else b * Pow(b, e - 1)
  }

  function Weight(b: nat, queue: seq<Node>): nat {
    if queue == [] then 0 else Pow(b, Rank(queue[0])) + Weight(b, queue[1..])
  }

  lemma {:induction false} PowMono(b: nat, e: nat, f: nat)
    requires b >= 1 && e <= f
    ensures 1 <= Pow(b, e) <= Pow(b, f)
    decreases f
  {
    if e < f {
      PowMono(b, e, f - 1);
      Growing(b, Pow(b, f - 1));
    } else if e > 0 {
      PowMono(b, e - 1, e - 1);
      Growing(b, Pow(b, e - 1));
    }
  }

  lemma Growing(b: nat, x: nat)
    requires b >= 1
    ensures b * x >= x
  {
  }

  lemma {:induction false} WeightSplit(b: nat, x: seq<Node>, y: seq<Node>)
    ensures Weight(b, x + y) == Weight(b, x) + Weight(b, y)
  {
    if x == [] {
      assert x + y == y;
    } else {
      assert (x + y)[1..] == x[1..] + y;
      WeightSplit(b, x[1..], y);
    }
  }

  lemma {:induction false} WeightBound(b: nat, nodes: seq<Node>, r: nat)
    requires b >= 1 && forall n | n in nodes :: Rank(n) < r
    ensures Weight(b, nodes) <= Times(|nodes|, if r == 0 then 0 else Pow(b, r - 1))
  {
    hide Rank, Pow, Times;
    if nodes != [] {
      assert nodes[0] in nodes;
      PowMono(b, Rank(nodes[0]), r - 1);
      WeightBound(b, nodes[1..], r);
      TimesSucc(|nodes| - 1, Pow(b, r - 1));
    }
  }

  lemma WeightAt(b: nat, queue: seq<Node>, i: nat)
    requires i < |queue|
    ensures Weight(b, queue) == Weight(b, queue[..i] + queue[i + 1..]) + Pow(b, Rank(queue[i]))
  {
    hide Rank, Pow;
    WeightSplit(b, queue[..i], queue[i + 1..]);
    WeightSplit(b, queue[..i], queue[i..]);
    assert queue == queue[..i] + queue[i..];
    assert queue[i..][1..] == queue[i + 1..];
  }

  lemma NodesBelow(b: nat, nodes: seq<Node>, r: nat)
    requires |nodes| < b && forall n | n in nodes :: Rank(n) < r
    ensures Weight(b, nodes) < Pow(b, r)
  {
    hide Rank, Weight;
    WeightBound(b, nodes, r);
    PowMono(b, 0, r);
    if r > 0 {
      PowMono(b, 0, r - 1);
      BelowPow(|nodes|, b, Pow(b, r - 1));
    }
  }

  /** Replacing a node by fewer than `b` nodes of lower rank makes the queue lighter. */
  lemma WeightDrops(b: nat, queue: seq<Node>, i: nat, nodes: seq<Node>)
    requires i < |queue| && |nodes| < b
    requires forall n | n in nodes :: Rank(n) < Rank(queue[i])
    ensures Weight(b, queue[..i] + queue[i + 1..] + nodes) < Weight(b, queue)
  {
    hide Rank, Weight, Pow;
    WeightAt(b, queue, i);
    WeightSplit(b, queue[..i] + queue[i + 1..], nodes);
    NodesBelow(b, nodes, Rank(queue[i]));
  }

  lemma BelowPow(k: nat, b: nat, x: nat)
    requires k < b && x >= 1
    ensures k * x < b * x
  {
  }

  // ---- ancestors on the queue ----

  /** `expanded` is closed under expansion up to the nodes that wait in the queue. */
  ghost predicate Frontier(p: Planner, root: Node, queue: set<Node>, expanded: set<Node>) {
    && root in queue + expanded
    && forall n | n in expanded :: HasChildren(p, n, queue + expanded)
  }

  /** Every node of the search that has not been expanded has an ancestor in the queue. */
  lemma {:induction false} AncestorWaits(p: Planner, root: Node, queue: set<Node>, expanded: set<Node>,
                                         acts: seq<Action>) returns (n: Node)
    requires Frontier(p, root, queue, expanded)
    requires Run(p, root, acts).Some? && Run(p, root, acts).value !in expanded
    ensures n in queue && Reachable(p, n, Run(p, root, acts).value)
  {
    var m := Run(p, root, acts).value;
    if m in queue {
      n := m;
      assert Run(p, m, []) == Some(m);
    } else {
      var pre := acts[..|acts| - 1];
      var m' := Run(p, root, pre).value;
      assert m' in expanded ==> HasChildren(p, m', queue + expanded);
      n := AncestorWaits(p, root, queue, expanded, pre);
      StepReachable(p, n, m', Last(acts));
    }
  }

  /** At every turn of the search, every finished node that can be reached has an ancestor in
      the queue. */
  lemma FinishedWaits(p: Planner, root: Node, queue: set<Node>, expanded: set<Node>, m: Node) returns (n: Node)
    requires Frontier(p, root, queue, expanded)
    requires forall e | e in expanded :: !Finished(e)
    requires Reachable(p, root, m) && Finished(m)
    ensures n in queue && Reachable(p, n, m)
  {
    var acts :| Run(p, root, acts) == Some(m);
    n := AncestorWaits(p, root, queue, expanded, acts);
  }

  // ---- the search ----

  lemma {:induction false} CheapestExists(queue: seq<Node>) returns (i: nat)
    requires queue != []
    ensures i < |queue| && LeastCost(queue, i)
  {
    if |queue| == 1 {
      i := 0;
    } else {
      var k := CheapestExists(queue[1..]);
      i := if queue[0].cost <= queue[k + 1].cost then 0 else k + 1;
      forall j | 0 <= j < |queue| ensures queue[i].cost <= queue[j].cost {
        assert j > 0 ==> queue[1..][k].cost <= queue[1..][j - 1].cost;
      }
    }
  }

  /** Among nodes with the same cost, any one may be the top of the queue. */
  method Top(queue: seq<Node>) returns (i: nat)
    requires queue != []
    ensures i < |queue| && LeastCost(queue, i)
  {
    ghost var k := CheapestExists(queue);
    i :| 0 <= i < |queue| && LeastCost(queue, i);
  }

  predicate LeastCost(queue: seq<Node>, i: nat)
    requires i < |queue|
  {
    forall j | 0 <= j < |queue| :: queue[i].cost <= queue[j].cost
  }

  ghost predicate QueueOk(p: Planner, root: Node, queue: seq<Node>) {
    forall n | n in queue :: Reachable(p, root, n) && |n.unassigned| <= |root.unassigned| && |n.lists| == |root.lists|
  }

  /** What every turn of the search keeps of the queue, the nodes that were expanded and the filter. */
  ghost predicate SearchOk(p: Planner, root: Node, queue: seq<Node>, expanded: set<Node>, seen: set<seq<seq<nat>>>) {
    && QueueOk(p, root, queue) && Frontier(p, root, NodeSet(queue), expanded)
    && (forall n | n in expanded :: !Finished(n))
    && Covers(p, root, seen, NodeSet(queue) + expanded)
  }

  /** More than the number of nodes by which an expansion can replace one. */
  function Branching(root: Node): nat {
    Times(|root.unassigned| + 1, |root.lists|) + 1
  }

  /** The queue with its `i`-th node replaced by `nodes`. */
  function Replaced(queue: seq<Node>, i: nat, nodes: seq<Node>): seq<Node>
    requires i < |queue|
  {
    queue[..i] + queue[i + 1..] + nodes
  }

  /** `solve`. `interrupter(k)` is what the interrupter answers when asked for the `k`-th time; it is asked until it
      interrupts the search, at least once, and says no `turns` times. */
  method Solve(p: Planner, ghost states: seq<State>, root: Node, interrupter: nat -> bool)
    returns (r: Option<Node>, interrupted: bool, ghost turns: nat)
    requires Root(p, states, root)
    ensures r.Some? ==> Reachable(p, root, r.value) && Finished(r.value)
    ensures r.Some? && Admissible(p, root) ==> Cheapest(p, root, r.value)
    ensures r.None? && !interrupted ==> NoneFinished(p, root)
    ensures forall k: nat | k < turns :: !interrupter(k)
    ensures if interrupted then r.None? && interrupter(turns) else turns > 0
  {
    hide *;
    var queue := [root];
    var filter := new Filter();
    var asked: nat := 0;
    ghost var expanded: set<Node> := {};
    SearchStarts(p, states, root);
    while queue != []
      invariant fresh(filter) && SearchOk(p, root, queue, expanded, filter.seen)
      invariant forall k: nat | k < asked :: !interrupter(k)
      invariant asked == 0 ==> queue == [root]
      decreases Weight(Branching(root), queue)
    {
      if interrupter(asked) {
        return None, true, asked;
      }
      asked := asked + 1;
      var i := Top(queue);
      var top := queue[i];
      TopReachable(p, root, queue, expanded, filter.seen, i);
      var finished := CheckFinished(top);
      if finished {
        if Admissible(p, root) {
          TopCheapest(p, root, queue, expanded, filter.seen, i);
        }
        return Some(top), false, asked;
      }
      ghost var seen := filter.seen;
      var nodes := Expand(p, states, root, top, filter, NodeSet(queue) + expanded);
      SearchAdvances(p, root, queue, i, expanded, seen, filter.seen, nodes);
      queue := Replaced(queue, i, nodes);
      expanded := expanded + {top};
    }
    SearchExhausted(p, root, expanded, filter.seen);
    return None, false, asked;
  }

  lemma SearchStarts(p: Planner, states: seq<State>, root: Node)
    requires Root(p, states, root)
    ensures SearchOk(p, root, [root], {}, {})
  {
    assert Run(p, root, []) == Some(root);
    assert root in [root];
  }

  lemma TopReachable(p: Planner, root: Node, queue: seq<Node>, expanded: set<Node>, seen: set<seq<seq<nat>>>, i: nat)
    requires SearchOk(p, root, queue, expanded, seen) && i < |queue|
    ensures Reachable(p, root, queue[i]) && Covers(p, root, seen, NodeSet(queue) + expanded)
  {
    hide Reachable, Covers, Frontier, Finished;
  }

  lemma TopCheapest(p: Planner, root: Node, queue: seq<Node>, expanded: set<Node>, seen: set<seq<seq<nat>>>, i: nat)
    requires SearchOk(p, root, queue, expanded, seen) && i < |queue| && LeastCost(queue, i)
    requires Admissible(p, root)
    ensures Cheapest(p, root, queue[i])
  {
    hide Reachable, Finished, Frontier, Covers;
    forall m | Reachable(p, root, m) && Finished(m) ensures queue[i].cost <= m.cost {
      var n := FinishedWaits(p, root, NodeSet(queue), expanded, m);
      assert Reachable(p, root, n);
    }
  }

  lemma SearchExhausted(p: Planner, root: Node, expanded: set<Node>, seen: set<seq<seq<nat>>>)
    requires SearchOk(p, root, [], expanded, seen)
    ensures NoneFinished(p, root)
  {
    hide Reachable, Finished, Frontier, Covers;
    forall m | Reachable(p, root, m) ensures !Finished(m) {
      if Finished(m) {
        var n := FinishedWaits(p, root, NodeSet([]), expanded, m);
      }
    }
  }

  lemma ReplacedSet(queue: seq<Node>, i: nat, nodes: seq<Node>, expanded: set<Node>)
    requires i < |queue|
    ensures NodeSet(Replaced(queue, i, nodes)) + (expanded + {queue[i]}) == NodeSet(queue) + expanded + NodeSet(nodes)
  {
    var replaced := Replaced(queue, i, nodes);
    forall n | n in NodeSet(queue) + expanded + NodeSet(nodes)
      ensures n in NodeSet(replaced) + (expanded + {queue[i]})
    {
      if n in queue {
        var k :| 0 <= k < |queue| && queue[k] == n;
        assert k < i ==> replaced[k] == n;
        assert k > i ==> replaced[k - 1] == n;
      }
    }
  }

  lemma FrontierAdvances(p: Planner, root: Node, queue: seq<Node>, i: nat, expanded: set<Node>, nodes: seq<Node>)
    requires i < |queue| && Frontier(p, root, NodeSet(queue), expanded)
    requires HasChildren(p, queue[i], NodeSet(queue) + expanded + NodeSet(nodes))
    ensures Frontier(p, root, NodeSet(Replaced(queue, i, nodes)), expanded + {queue[i]})
  {
    hide Replaced, HasChildren;
    ReplacedSet(queue, i, nodes, expanded);
    var known := NodeSet(queue) + expanded;
    forall n | n in expanded ensures HasChildren(p, n, known + NodeSet(nodes)) {
      MoreChildren(p, n, known, known + NodeSet(nodes));
    }
  }

  lemma MoreChildren(p: Planner, n: Node, x: set<Node>, y: set<Node>)
    requires HasChildren(p, n, x) && x <= y
    ensures HasChildren(p, n, y)
  {
  }

  lemma QueueAdvances(p: Planner, root: Node, queue: seq<Node>, i: nat, nodes: seq<Node>)
    requires i < |queue| && QueueOk(p, root, queue) && NewNodes(p, root, queue[i], nodes)
    requires |nodes| <= Times(|queue[i].unassigned| + 1, |queue[i].lists|)
    ensures QueueOk(p, root, Replaced(queue, i, nodes))
    ensures Weight(Branching(root), Replaced(queue, i, nodes)) < Weight(Branching(root), queue)
  {
    hide Reachable, Rank, Weight, Times;
    assert queue[i] in queue;
    TimesMono(|queue[i].unassigned| + 1, |root.unassigned| + 1, |root.lists|);
    WeightDrops(Branching(root), queue, i, nodes);
  }

  /** One turn of the search: the `i`-th node of the queue is not finished and gives way to `nodes`. */
  lemma SearchAdvances(p: Planner, root: Node, queue: seq<Node>, i: nat, expanded: set<Node>,
                       seen: set<seq<seq<nat>>>, seen': set<seq<seq<nat>>>, nodes: seq<Node>)
    requires SearchOk(p, root, queue, expanded, seen) && i < |queue| && !Finished(queue[i])
    requires NewNodes(p, root, queue[i], nodes) && |nodes| <= Times(|queue[i].unassigned| + 1, |queue[i].lists|)
    requires HasChildren(p, queue[i], NodeSet(queue) + expanded + NodeSet(nodes))
    requires Covers(p, root, seen', NodeSet(queue) + expanded + NodeSet(nodes))
    ensures SearchOk(p, root, Replaced(queue, i, nodes), expanded + {queue[i]}, seen')
    ensures Weight(Branching(root), Replaced(queue, i, nodes)) < Weight(Branching(root), queue)
  {
    hide QueueOk, Frontier, Covers, HasChildren, NewNodes, Finished, Weight, Replaced, NodeSet, Branching, Times;
    FrontierAdvances(p, root, queue, i, expanded, nodes);
    QueueAdvances(p, root, queue, i, nodes);
    ReplacedSet(queue, i, nodes, expanded);
  }
}
