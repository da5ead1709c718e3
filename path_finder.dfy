/** The fault-tolerant navigation path finder (`PathFinder`): a directed
    shortest path; failing that, pruning of the edges whose action is
    INEFFECTIVE and a search that ignores edge directions; at most
    `maxRetry` rounds. */
module PathFinder {
  import opened Outcomes
  import opened Walks
  import opened Knowledge

  /** The `max_retry` default of the constructor. */
  const DefaultMaxRetry: int := 3

  /** The edges whose action is INEFFECTIVE: the `to_remove` list. */
  function Ineffectives(es: seq<Edge>, actions: map<ActionId, AbstractAction>): (r: seq<Edge>)
    requires forall e :: e in es ==> e.action in actions
    ensures forall e :: e in r <==> e in es && actions[e.action].flag == Ineffective
  {
    if es == [] then []
    else
      var last := es[|es| - 1];
      assert forall e :: e in es <==> e in es[..|es| - 1] || e == last;
      Ineffectives(es[..|es| - 1], actions) + (if actions[last.action].flag == Ineffective then [last] else [])
  }

  /** The graph's edges after `_prune_ineffective_edges`. */
  function Pruned(es: seq<Edge>, actions: map<ActionId, AbstractAction>): (r: seq<Edge>)
    requires forall e :: e in es ==> e.action in actions
    ensures forall e :: e in r <==> e in es && actions[e.action].flag != Ineffective
  {
    Without(es, set e | e in Ineffectives(es, actions))
  }

  /** Pruning a pruned graph removes nothing more. */
  lemma PrunedIdempotent(es: seq<Edge>, actions: map<ActionId, AbstractAction>)
    requires forall e :: e in es ==> e.action in actions
    ensures Pruned(Pruned(es, actions), actions) == Pruned(es, actions)
  {
    var once := Pruned(es, actions);
    WithoutNothing(once, set e | e in Ineffectives(once, actions));
  }

  /** The first loop of `_prune_ineffective_edges`: the INEFFECTIVE edges
      in the graph's edge order. */
  method CollectIneffective(es: seq<Edge>, actions: map<ActionId, AbstractAction>) returns (toRemove: seq<Edge>)
    requires forall e :: e in es ==> e.action in actions
    ensures toRemove == Ineffectives(es, actions)
  {
    toRemove := [];
    for i := 0 to |es|
      invariant toRemove == Ineffectives(es[..i], actions)
    {
      assert es[..i + 1][..i] == es[..i];
      if actions[es[i].action].flag == Ineffective {
        toRemove := toRemove + [es[i]];
      }
    }
    assert es[..|es|] == es;
  }

  lemma PrefixStep(s: seq<Edge>, i: nat)
    requires i < |s|
    ensures forall e :: e in s[..i + 1] <==> e in s[..i] || e == s[i]
  {
    assert s[..i + 1] == s[..i] + [s[i]];
  }

  /** `_prune_ineffective_edges`: collect the INEFFECTIVE edges, then remove
      them one by one; exactly those edges go, the rest keep their order. */
  method PruneIneffective(k: AppKnowledge)
    requires k.Valid()
    modifies k.aig
    ensures k.Valid() && (old(k.IndexExact()) ==> k.IndexExact())
    ensures k.aig.edges == Pruned(old(k.aig.edges), k.actions) && k.aig.nodes == old(k.aig.nodes)
  {
    var es := k.aig.edges;
    var toRemove := CollectIneffective(es, k.actions);
    ghost var gone: set<Edge> := {};
    WithoutNothing(es, {});
    for i := 0 to |toRemove|
      invariant k.Valid() && (old(k.IndexExact()) ==> k.IndexExact())
      invariant k.aig.nodes == old(k.aig.nodes) && k.aig.edges == Without(es, gone)
      invariant forall e :: e in gone <==> e in toRemove[..i]
    {
      DropOne(k, es, gone, toRemove[i]);
      PrefixStep(toRemove, i);
      gone := gone + {toRemove[i]};
    }
    assert toRemove[..|toRemove|] == toRemove;
    RemovedArePruned(es, k.actions, toRemove, gone);
  }

  /** One `remove_edge` of the pruning loop: the edges removed so far grow by `e`. */
  method DropOne(k: AppKnowledge, es: seq<Edge>, ghost gone: set<Edge>, e: Edge)
    requires k.Valid() && k.aig.edges == Without(es, gone)
    modifies k.aig
    ensures k.Valid() && (old(k.IndexExact()) ==> k.IndexExact())
    ensures k.aig.nodes == old(k.aig.nodes) && k.aig.edges == Without(es, gone + {e})
  {
    var _ := k.DropEdge(e);
    WithoutTwice(es, gone, {e});
  }

  /** Removing the collected edges is pruning. */
  lemma RemovedArePruned(es: seq<Edge>, actions: map<ActionId, AbstractAction>, toRemove: seq<Edge>, gone: set<Edge>)
    requires forall e :: e in es ==> e.action in actions
    requires toRemove == Ineffectives(es, actions) && forall e :: e in gone <==> e in toRemove
    ensures Without(es, gone) == Pruned(es, actions)
  {
    assert gone == set e | e in Ineffectives(es, actions);
  }

  /** The undirected view of the graph: every edge in both orientations. */
  function Undirected(es: seq<Edge>): seq<Edge> {
    es + Reversed(es)
  }

  /** `acts` follows an undirected walk from `from` to `to`: each action is
      the key of an edge between consecutive nodes, in one direction or the
      other. */
  ghost predicate Follows(es: seq<Edge>, from: StateId, to: StateId, acts: seq<ActionId>, w: seq<Edge>) {
    && IsWalk(Undirected(es), from, to, w) && |w| == |acts|
    && forall i :: 0 <= i < |w| ==> Between(es, w[i], acts[i])
  }

  /** Action `a` labels an edge joining the endpoints of hop `h`, in either direction. */
  predicate Between(es: seq<Edge>, h: Edge, a: ActionId) {
    Edge(h.src, h.dst, a) in es || Edge(h.dst, h.src, a) in es
  }

  /** A directed walk is an undirected one. */
  lemma DirectedFollows(es: seq<Edge>, from: StateId, to: StateId, w: seq<Edge>)
    requires IsWalk(es, from, to, w)
    ensures Follows(es, from, to, ActionsOf(w), w)
  {
    assert forall i :: 0 <= i < |w| ==> w[i] in Undirected(es);
    forall i | 0 <= i < |w|
      ensures Between(es, w[i], ActionsOf(w)[i])
    {
      assert Edge(w[i].src, w[i].dst, ActionsOf(w)[i]) == w[i];
    }
  }

  /** A hop of the undirected view comes from an edge in one direction or the other. */
  lemma UndirectedHop(es: seq<Edge>, h: Edge)
    requires h in Undirected(es)
    ensures h in es || Edge(h.dst, h.src, h.action) in es
  {
    if h !in es {
      var j :| 0 <= j < |Reversed(es)| && Reversed(es)[j] == h;
      assert es[j] == Edge(h.dst, h.src, h.action);
    }
  }

  /** The translation loop of `_bfs_any_path`: for each hop of the node
      path, the first edge between its ends in the hop's direction, else the
      first one the other way. */
  method HopActions(es: seq<Edge>, hops: seq<Edge>) returns (r: seq<ActionId>)
    requires forall i :: 0 <= i < |hops| ==> hops[i] in Undirected(es)
    ensures |r| == |hops| && forall i :: 0 <= i < |hops| ==> Between(es, hops[i], r[i])
  {
    r := [];
    for i := 0 to |hops|
      invariant |r| == i && forall j :: 0 <= j < i ==> Between(es, hops[j], r[j])
    {
      var e := FirstEdgeBetween(es, hops[i].src, hops[i].dst);
      if e.None? {
        e := FirstEdgeBetween(es, hops[i].dst, hops[i].src);
      }
      // the hop is an edge in one of the two directions, so one lookup succeeds
      assert e.Some? by {
        UndirectedHop(es, hops[i]);
      }
      r := r + [e.value.action];
    }
  }

  /** `_bfs_any_path`: a shortest walk of the undirected view, translated
      into one action per hop. Any exception, such as a missing node or no
      path, gives []. */
  method BfsAnyPath(k: AppKnowledge, src: StateId, dst: StateId) returns (r: seq<ActionId>, ghost walk: seq<Edge>)
    requires k.aig.Valid()
    ensures src !in k.aig.nodes || dst !in k.aig.nodes ==> r == []
    ensures src in k.aig.nodes && dst in k.aig.nodes && !Connected(Undirected(k.aig.edges), src, dst) ==> r == []
    ensures src in k.aig.nodes && dst in k.aig.nodes && Connected(Undirected(k.aig.edges), src, dst) ==>
      IsShortestWalk(Undirected(k.aig.edges), src, dst, walk) && Follows(k.aig.edges, src, dst, r, walk)
  {
    walk := [];
    r := [];
    if src !in k.aig.nodes || dst !in k.aig.nodes {
      return;
    }
    var found := ShortestWalk(Undirected(k.aig.edges), k.aig.nodes, src, dst);
    if found.None? {
      return;
    }
    walk := found.value;
    r := HopActions(k.aig.edges, found.value);
  }

  /** One round of `find_path`: the directed search, and when it gives
      nothing, pruning and the undirected search. */
  method Round(k: AppKnowledge, current: StateId, goal: StateId) returns (r: Result<seq<ActionId>, GraphError>)
    requires k.Valid()
    modifies k.aig
    ensures k.Valid() && (old(k.IndexExact()) ==> k.IndexExact())
    ensures k.aig.nodes == old(k.aig.nodes)
    ensures r.Err? <==> current !in k.aig.nodes || goal !in k.aig.nodes
    ensures r.Err? ==> k.aig.edges == old(k.aig.edges)
    ensures r.Ok? && r.value != [] ==> exists w :: Follows(k.aig.edges, current, goal, r.value, w)
    ensures r.Ok? && current != goal && Connected(old(k.aig.edges), current, goal) ==>
      && k.aig.edges == old(k.aig.edges) && r.value != []
      && exists w :: IsShortestWalk(old(k.aig.edges), current, goal, w) && r.value == ActionsOf(w)
    ensures r.Ok? && !(current != goal && Connected(old(k.aig.edges), current, goal)) ==>
      k.aig.edges == Pruned(old(k.aig.edges), k.actions)
    ensures r.Ok? && current == goal ==> r.value == []
    ensures r.Ok? && current != goal && r.value == [] ==> !Connected(Undirected(k.aig.edges), current, goal)
  {
    ghost var w;
    r, w := k.aig.ShortestPath(current, goal);
    if r.Err? {
      return;
    }
    if r.value != [] {
      DirectedFollows(k.aig.edges, current, goal, w);
      return;
    }
    assert Connected(k.aig.edges, current, goal) ==> w == [];
    assert !(current != goal && Connected(old(k.aig.edges), current, goal));
    var bfs := Fallback(k, current, goal);
    r := Ok(bfs);
  }

  /** The second half of a round: prune, then search the undirected view. */
  method Fallback(k: AppKnowledge, current: StateId, goal: StateId) returns (r: seq<ActionId>)
    requires k.Valid() && current in k.aig.nodes && goal in k.aig.nodes
    modifies k.aig
    ensures k.Valid() && (old(k.IndexExact()) ==> k.IndexExact())
    ensures k.aig.nodes == old(k.aig.nodes) && k.aig.edges == Pruned(old(k.aig.edges), k.actions)
    ensures r != [] ==> exists w :: Follows(k.aig.edges, current, goal, r, w)
    ensures current == goal ==> r == []
    ensures current != goal && r == [] ==> !Connected(Undirected(k.aig.edges), current, goal)
  {
    PruneIneffective(k);
    ghost var bw;
    r, bw := BfsAnyPath(k, current, goal);
    assert IsWalk(Undirected(k.aig.edges), current, current, []);
  }

  class PathFinder {
    const maxRetry: int

    constructor(maxRetry: int)
      ensures this.maxRetry == maxRetry
    {
      this.maxRetry := maxRetry;
    }

    /** `find_path`. With no source state for the target, or no round to
        run, []. A non-empty directed shortest path found first is returned
        and the graph is left alone; otherwise the graph ends pruned, and
        any path returned follows its edges in either direction. A missing
        node makes the directed search raise `NodeNotFound`. */
    method FindPath(k: AppKnowledge, current: StateId, target: ActionId) returns (r: Result<seq<ActionId>, GraphError>)
      requires k.Valid() && target in k.actions
      modifies k.aig
      ensures k.Valid() && (old(k.IndexExact()) ==> k.IndexExact())
      ensures k.aig.nodes == old(k.aig.nodes)
      ensures k.actions[target].source.None? || maxRetry <= 0 ==> r == Ok([]) && k.aig.edges == old(k.aig.edges)
      ensures k.actions[target].source.Some? && maxRetry > 0 ==>
        var goal := k.actions[target].source.value;
        && (r.Err? <==> current !in k.aig.nodes || goal !in k.aig.nodes)
        && (r.Err? ==> k.aig.edges == old(k.aig.edges))
        && (r.Ok? && current != goal && Connected(old(k.aig.edges), current, goal) ==>
              && k.aig.edges == old(k.aig.edges)
              && exists w :: IsShortestWalk(old(k.aig.edges), current, goal, w) && r.value == ActionsOf(w))
        && (r.Ok? && !(current != goal && Connected(old(k.aig.edges), current, goal)) ==>
              && k.aig.edges == Pruned(old(k.aig.edges), k.actions)
              && (r.value != [] ==> exists w :: Follows(k.aig.edges, current, goal, r.value, w)))
      ensures k.actions[target].source.Some? && current == k.actions[target].source.value && r.Ok? ==> r.value == []
      ensures k.actions[target].source.Some? && maxRetry > 0 && current != k.actions[target].source.value
              && r.Ok? && r.value == [] ==>
        !Connected(Undirected(k.aig.edges), current, k.actions[target].source.value)
    {
      var source := k.actions[target].source;
      if source.None? {
        return Ok([]);
      }
      var goal := source.value;
      ghost var es0 := k.aig.edges;
      var rounds := if maxRetry < 0 then 0 else maxRetry;
      for attempt := 0 to rounds
        invariant k.Valid() && (old(k.IndexExact()) ==> k.IndexExact())
        invariant k.aig.nodes == old(k.aig.nodes)
        invariant attempt == 0 ==> k.aig.edges == es0
        invariant attempt > 0 ==> k.aig.edges == Pruned(es0, k.actions)
        invariant attempt > 0 ==> !(current != goal && Connected(es0, current, goal))
        invariant attempt > 0 ==> current in k.aig.nodes && goal in k.aig.nodes
        invariant attempt > 0 && current != goal ==> !Connected(Undirected(k.aig.edges), current, goal)
      {
        if attempt > 0 {
          PrunedIdempotent(es0, k.actions);
        }
        r := Round(k, current, goal);
        if r.Err? || r.value != [] {
          return;
        }
      }
      r := Ok([]);
    }

    /** `path_to_state`: [] when the states are the same, otherwise the
        graph's directed shortest path. */
    method PathToState(k: AppKnowledge, src: StateId, dst: StateId) returns (r: Result<seq<ActionId>, GraphError>)
      requires k.aig.Valid()
      ensures src == dst ==> r == Ok([])
      ensures src != dst ==> (r.Err? <==> src !in k.aig.nodes || dst !in k.aig.nodes)
      ensures src != dst && r.Ok? && !Connected(k.aig.edges, src, dst) ==> r.value == []
      ensures src != dst && r.Ok? && Connected(k.aig.edges, src, dst) ==>
        r.value != [] && exists w :: IsShortestWalk(k.aig.edges, src, dst, w) && r.value == ActionsOf(w)
    {
      if src == dst {
        return Ok([]);
      }
      ghost var w;
      r, w := k.aig.ShortestPath(src, dst);
      if r.Ok? && Connected(k.aig.edges, src, dst) {
        assert w != [];
      }
    }
  }
}
