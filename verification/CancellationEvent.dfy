/** `CancellationPhase::final_event`: finds an id for the cancellation event that no event below it has. */
module CancellationEvent {
  import opened Domain

  const ID_LIMIT: nat := 0x1_0000_0000_0000_0000

  type Id = x: nat | x < ID_LIMIT

  /** An event with its 64-bit id and the events it depends on, some of which may be missing. Events may be
      shared and may depend on each other in cycles. */
  datatype Event = Event(id: Id, dependencies: seq<Option<nat>>)

  type Graph = map<nat, Event>

  ghost predicate Closed(g: Graph) {
    forall e, i | e in g && 0 <= i < |g[e].dependencies| && g[e].dependencies[i].Some? ::
      g[e].dependencies[i].value in g
  }

  ghost predicate DependsOn(g: Graph, e: nat, d: nat) {
    e in g && Some(d) in g[e].dependencies
  }

  /** A path of dependencies from `from` to `to`. */
  ghost predicate Path(g: Graph, from: nat, path: seq<nat>, to: nat) {
    if path == [] then from == to
    else Path(g, from, path[..|path| - 1], Last(path)) && DependsOn(g, Last(path), to)
  }

  ghost predicate Reaches(g: Graph, from: nat, to: nat) {
    exists path :: Path(g, from, path, to)
  }

  ghost predicate FreshId(g: Graph, child: nat, id: nat) {
    forall e | e in g && Reaches(g, child, e) :: g[e].id < id
  }

  /** Everything that was visited or waits can be reached, and whatever a visited event depends on
      was visited or waits. */
  ghost predicate Visiting(g: Graph, child: nat, queue: seq<Option<nat>>, visited: set<nat>) {
    && visited <= g.Keys
    && (forall q | q in queue && q.Some? :: q.value in g && Reaches(g, child, q.value))
    && (forall e | e in visited :: Reaches(g, child, e))
    && (child in visited || Some(child) in queue)
    && (forall e, d | e in visited && DependsOn(g, e, d) :: d in visited || Some(d) in queue)
  }

  /** The greatest id of the visited events. */
  ghost predicate Highest(g: Graph, visited: set<nat>, highest: Id) {
    && (forall e | e in visited && e in g :: g[e].id <= highest)
    && (highest == 0 || exists e :: e in visited && e in g && g[e].id == highest)
  }

  lemma StepReaches(g: Graph, child: nat, e: nat, d: nat)
    requires Reaches(g, child, e) && DependsOn(g, e, d)
    ensures Reaches(g, child, d)
  {
    var path :| Path(g, child, path, e);
    assert (path + [e])[..|path|] == path;
    assert Path(g, child, path + [e], d);
  }

  lemma {:induction false} AllVisited(g: Graph, child: nat, visited: set<nat>, path: seq<nat>, e: nat)
    requires Visiting(g, child, [], visited) && Path(g, child, path, e)
    ensures e in visited
  {
    if path != [] {
      AllVisited(g, child, visited, path[..|path| - 1], Last(path));
    }
  }

  /** Taking an event off the queue that is missing or was visited before. */
  lemma Dropped(g: Graph, child: nat, queue: seq<Option<nat>>, visited: set<nat>)
    requires queue != [] && Visiting(g, child, queue, visited)
    requires Last(queue).None? || Last(queue).value in visited
    ensures Visiting(g, child, queue[..|queue| - 1], visited)
  {
  }

  /** Visiting an event for the first time. */
  lemma Visited(g: Graph, child: nat, queue: seq<Option<nat>>, visited: set<nat>, e: nat)
    requires queue != [] && Visiting(g, child, queue, visited) && Last(queue) == Some(e) && Closed(g)
    ensures e in g
    ensures Visiting(g, child, queue[..|queue| - 1] + g[e].dependencies, visited + {e})
  {
    hide Reaches;
    var rest := queue[..|queue| - 1];
    assert queue == rest + [Last(queue)];
    assert Some(e) in queue;
    forall q | q in g[e].dependencies && q.Some? ensures q.value in g && Reaches(g, child, q.value) {
      assert DependsOn(g, e, q.value);
      StepReaches(g, child, e, q.value);
    }
  }

  /** The traversal that picks the id. It ends on every finite graph, and the id is above that of every
      event that can be reached, exactly unless one of them has the greatest 64-bit number. */
  method FinalEventId(g: Graph, child: nat) returns (id: Id)
    requires child in g && Closed(g)
    ensures FreshId(g, child, id) <==> forall e | e in g && Reaches(g, child, e) :: g[e].id != 0xFFFF_FFFF_FFFF_FFFF
  {
    hide Reaches, DependsOn;
    var queue: seq<Option<nat>> := [Some(child)];
    var visited: set<nat> := {};
    var highest: Id := 0;
    assert Visiting(g, child, queue, visited) by { Starts(g, child); }
    while queue != []
      invariant Visiting(g, child, queue, visited) && Highest(g, visited, highest)
      decreases g.Keys - visited, |queue|
    {
      var e := queue[|queue| - 1];
      if e.None? {
        Dropped(g, child, queue, visited);
        queue := queue[..|queue| - 1];
        continue;
      }
      if e.value in visited {
        Dropped(g, child, queue, visited);
        queue := queue[..|queue| - 1];
        continue;
      }
      Visited(g, child, queue, visited, e.value);
      HighestMore(g, visited, highest, e.value);
      queue := queue[..|queue| - 1];
      visited := visited + {e.value};
      ghost var rest := queue;
      for i := 0 to |g[e.value].dependencies|
        invariant queue == rest + g[e.value].dependencies[..i]
      {
        assert g[e.value].dependencies[..i + 1] == g[e.value].dependencies[..i] + [g[e.value].dependencies[i]];
        queue := queue + [g[e.value].dependencies[i]];
      }
      assert g[e.value].dependencies[..|g[e.value].dependencies|] == g[e.value].dependencies;
      highest := if highest < g[e.value].id then g[e.value].id else highest;
    }
    id := (highest + 1) % ID_LIMIT;
    Picked(g, child, visited, highest, id);
  }

  lemma Starts(g: Graph, child: nat)
    requires child in g
    ensures Visiting(g, child, [Some(child)], {})
  {
    assert Path(g, child, [], child);
    assert Some(child) in [Some(child)];
  }

  lemma HighestMore(g: Graph, visited: set<nat>, highest: Id, e: nat)
    requires Highest(g, visited, highest) && e in g
    ensures Highest(g, visited + {e}, if highest < g[e].id then g[e].id else highest)
  {
  }

  lemma Picked(g: Graph, child: nat, visited: set<nat>, highest: Id, id: Id)
    requires child in g && Visiting(g, child, [], visited) && Highest(g, visited, highest)
    requires id == (highest + 1) % ID_LIMIT
    ensures FreshId(g, child, id) <==> forall e | e in g && Reaches(g, child, e) :: g[e].id != 0xFFFF_FFFF_FFFF_FFFF
  {
    forall e | e in g && Reaches(g, child, e) ensures e in visited {
      var path :| Path(g, child, path, e);
      AllVisited(g, child, visited, path, e);
    }
    hide Reaches;
    assert child in visited;
    assert Reaches(g, child, child);
    if highest == ID_LIMIT - 1 {
      var e :| e in visited && e in g && g[e].id == highest;
      assert Reaches(g, child, e);
    } else {
      assert id == highest + 1;
    }
  }
}
