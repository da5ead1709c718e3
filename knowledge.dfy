/** The knowledge the explorer accumulates about one web application: abstract
    states (clusters of equivalent pages), abstract actions (clusters of
    concrete interactions that behave alike) with their three-valued
    exploration flag, the abstract interaction graph (AIG) between them, and
    the index of action ids still to be explored.

    Objects that the explorer shares and updates in place (a state's action
    table, an action's flag and back-pointers) live in id-keyed tables of
    `AppKnowledge`; a reference to an object is its id. */
module Knowledge {
  import opened Outcomes
  import opened JsonValues
  import opened Walks

  datatype ExplorationFlag = Unexplored | Explored | Ineffective

  function FlagValue(f: ExplorationFlag): string {
    match f
    case Unexplored => "unexplored"
    case Explored => "explored"
    case Ineffective => "ineffective"
  }

  /** `ExplorationFlag(v)`: `None` where Python raises `ValueError`. */
  function ParseFlag(v: string): (r: Option<ExplorationFlag>)
    ensures r.Some? ==> FlagValue(r.value) == v
  {
    if v == "unexplored" then Some(Unexplored)
    else if v == "explored" then Some(Explored)
    else if v == "ineffective" then Some(Ineffective)
    else None
  }

  lemma FlagRoundTrip(f: ExplorationFlag)
    ensures ParseFlag(FlagValue(f)) == Some(f)
  {
  }

  datatype ActionType = Click | LongClick | Scroll | Input

  function TypeValue(t: ActionType): string {
    match t
    case Click => "click"
    case LongClick => "long_click"
    case Scroll => "scroll"
    case Input => "input"
  }

  /** `ActionType(v)`: `None` where Python raises `ValueError`. */
  function ParseType(v: string): (r: Option<ActionType>)
    ensures r.Some? ==> TypeValue(r.value) == v
  {
    if v == "click" then Some(Click)
    else if v == "long_click" then Some(LongClick)
    else if v == "scroll" then Some(Scroll)
    else if v == "input" then Some(Input)
    else None
  }

  lemma TypeRoundTrip(t: ActionType)
    ensures ParseType(TypeValue(t)) == Some(t)
  {
  }

  /** A concrete DOM element: the id the page script resolves, and a locator
      (the xpath) or "" */
  datatype UIElement = UIElement(nodeId: string, description: string)

  datatype AbstractAction = AbstractAction(
    id: ActionId,
    actionType: ActionType,
    elements: seq<UIElement>,
    flag: ExplorationFlag,
    functionDesc: string,
    source: Option<StateId>,
    target: Option<StateId>)

  /** `actions` lists the keys of the state's action table in insertion order;
      the actions themselves are those of `AppKnowledge.actions`. */
  datatype AbstractState = AbstractState(
    id: StateId,
    signature: string,
    concrete: seq<Json>,
    actions: seq<ActionId>,
    pageDescription: string,
    elementGroups: seq<Json>)

  /** One step of the raw trace: previous snapshot, concrete action, new snapshot. */
  datatype TraceItem = TraceItem(start: Option<Json>, action: Option<Json>, end: Json)

  datatype GraphError = NodeNotFound

  predicate Distinct<T(==)>(s: seq<T>) {
    forall i, j :: 0 <= i < j < |s| ==> s[i] != s[j]
  }

  /** The edges of `es` not in `drop`, in their order. */
  function Without(es: seq<Edge>, drop: set<Edge>): (r: seq<Edge>)
    ensures forall e :: e in r <==> e in es && e !in drop
    ensures |r| <= |es|
    ensures Distinct(es) ==> Distinct(r)
  {
    if es == [] then []
    else if es[0] in drop then Without(es[1..], drop)
    else
      [es[0]] + Without(es[1..], drop)
  }

  lemma {:induction false} WithoutTwice(es: seq<Edge>, d1: set<Edge>, d2: set<Edge>)
    ensures Without(Without(es, d1), d2) == Without(es, d1 + d2)
  {
    if es != [] {
      WithoutTwice(es[1..], d1, d2);
    }
  }

  lemma {:induction false} WithoutNothing(es: seq<Edge>, drop: set<Edge>)
    requires forall e :: e in es ==> e !in drop
    ensures Without(es, drop) == es
  {
    if es != [] {
      WithoutNothing(es[1..], drop);
    }
  }

  /** The first edge from `u` to `v` in insertion order: the edge whose key
      networkx lists first for the pair. */
  function FirstEdgeBetween(es: seq<Edge>, u: StateId, v: StateId): (r: Option<Edge>)
    ensures r.Some? ==> r.value in es && r.value.src == u && r.value.dst == v
    ensures r.None? ==> forall e :: e in es ==> !(e.src == u && e.dst == v)
  {
    if es == [] then None
    else if es[0].src == u && es[0].dst == v then Some(es[0])
    else FirstEdgeBetween(es[1..], u, v)
  }

  /** `s` with `x` appended unless it is already there: how a dict gains a key. */
  function Appended<T(==,!new)>(s: seq<T>, x: T): (r: seq<T>)
    ensures forall y :: y in r <==> y in s || y == x
    ensures Distinct(s) ==> Distinct(r)
  {
    if x in s then s else s + [x]
  }

  /** `s` without `x`: how a dict loses a key. */
  function Omit<T(==,!new)>(s: seq<T>, x: T): (r: seq<T>)
    ensures forall y :: y in r <==> y in s && y != x
    ensures Distinct(s) ==> Distinct(r)
  {
    if s == [] then []
    else if s[0] == x then Omit(s[1..], x)
    else
      var rest := Omit(s[1..], x);
      DistinctTail(s);
      DistinctJoin([s[0]], rest);
      [s[0]] + rest
  }

  /** Two sequences without repeats and without common elements join
      into one without repeats. */
  lemma DistinctJoin<T>(a: seq<T>, b: seq<T>)
    ensures Distinct(a) && Distinct(b) && (forall x :: x in a ==> x !in b) ==> Distinct(a + b)
  {
    if Distinct(a) && Distinct(b) && (forall x :: x in a ==> x !in b) {
      DistinctConcat(a, b);
    }
  }

  lemma DistinctTail<T>(s: seq<T>)
    ensures Distinct(s) && s != [] ==> s[0] !in s[1..] && Distinct(s[1..])
  {
    if Distinct(s) && s != [] {
      forall j | 0 <= j < |s[1..]|
        ensures s[1..][j] != s[0]
      {
        assert s[1..][j] == s[j + 1];
      }
      forall i, j | 0 <= i < j < |s[1..]|
        ensures s[1..][i] != s[1..][j]
      {
        assert s[1..][i] == s[i + 1] && s[1..][j] == s[j + 1];
      }
    }
  }

  lemma DistinctConcat<T>(a: seq<T>, b: seq<T>)
    requires Distinct(a) && Distinct(b) && forall x :: x in a ==> x !in b
    ensures Distinct(a + b)
  {
    forall i, j | 0 <= i < j < |a + b|
      ensures (a + b)[i] != (a + b)[j]
    {
      if j < |a| {
        assert (a + b)[i] == a[i] && (a + b)[j] == a[j];
      } else if i >= |a| {
        assert (a + b)[i] == b[i - |a|] && (a + b)[j] == b[j - |a|];
      } else {
        assert (a + b)[i] in a && (a + b)[j] in b;
      }
    }
  }

  /** The edges from `u` to `v`, in the order their keys were added: the key table of the pair. */
  function EdgesBetween(es: seq<Edge>, u: StateId, v: StateId): (r: seq<Edge>)
    ensures forall e :: e in r <==> e in es && e.src == u && e.dst == v
    ensures Distinct(es) ==> Distinct(r)
  {
    if es == [] then []
    else if es[0].src == u && es[0].dst == v then [es[0]] + EdgesBetween(es[1..], u, v)
    else EdgesBetween(es[1..], u, v)
  }

  /** The edges of each pair of `pairs` in turn. */
  function EdgesAlong(es: seq<Edge>, pairs: seq<(StateId, StateId)>): (r: seq<Edge>)
    ensures forall e :: e in r <==> e in es && (e.src, e.dst) in pairs
    ensures Distinct(es) && Distinct(pairs) ==> Distinct(r)
  {
    if pairs == [] then []
    else
      var here := EdgesBetween(es, pairs[0].0, pairs[0].1);
      var rest := EdgesAlong(es, pairs[1..]);
      assert forall e :: e in rest ==> (e.src, e.dst) in pairs[1..];
      DistinctTail(pairs);
      DistinctJoin(here, rest);
      here + rest
  }

  /** The pairs whose source is `u`, in their order. */
  function PairsFrom(pairs: seq<(StateId, StateId)>, u: StateId): (r: seq<(StateId, StateId)>)
    ensures forall p :: p in r <==> p in pairs && p.0 == u
    ensures Distinct(pairs) ==> Distinct(r)
  {
    if pairs == [] then []
    else if pairs[0].0 == u then [pairs[0]] + PairsFrom(pairs[1..], u)
    else PairsFrom(pairs[1..], u)
  }

  /** networkx's `edges(keys=True)` on the graph: sources in node order,
      then the targets of a source in the order their pair got its key
      table, then keys in the order they were added. */
  function AdjacencyEdges(es: seq<Edge>, nodeOrder: seq<StateId>, pairs: seq<(StateId, StateId)>): (r: seq<Edge>)
    ensures forall e :: e in r <==> e in es && e.src in nodeOrder && (e.src, e.dst) in pairs
    ensures Distinct(es) && Distinct(nodeOrder) && Distinct(pairs) ==> Distinct(r)
  {
    if nodeOrder == [] then []
    else
      var here := EdgesAlong(es, PairsFrom(pairs, nodeOrder[0]));
      var rest := AdjacencyEdges(es, nodeOrder[1..], pairs);
      DistinctTail(nodeOrder);
      DistinctJoin(here, rest);
      here + rest
  }

  /** The (target, action) pairs of the edges `es` in their order. */
  function Targets(es: seq<Edge>): (r: seq<(StateId, ActionId)>)
    ensures |r| == |es| && forall i :: 0 <= i < |es| ==> r[i] == (es[i].dst, es[i].action)
  {
    seq(|es|, i requires 0 <= i < |es| => (es[i].dst, es[i].action))
  }

  /** The shape invariant of the graph: distinct edges between nodes, the
      node order listing each node once, and the pair order listing each
      pair that has an edge once. */
  ghost predicate GraphShape(nodes: set<StateId>, nodeOrder: seq<StateId>, edges: seq<Edge>, pairs: seq<(StateId, StateId)>) {
    && Distinct(edges)
    && (forall e :: e in edges ==> e.src in nodes && e.dst in nodes)
    && Distinct(nodeOrder) && (forall n :: n in nodeOrder <==> n in nodes)
    && Distinct(pairs)
    && (forall e :: e in edges ==> (e.src, e.dst) in pairs)
    && (forall p :: p in pairs ==> FirstEdgeBetween(edges, p.0, p.1).Some?)
  }

  /** Under the shape invariant the adjacency listing holds every edge once. */
  lemma AdjacencyPermutes(nodes: set<StateId>, nodeOrder: seq<StateId>, edges: seq<Edge>, pairs: seq<(StateId, StateId)>)
    requires GraphShape(nodes, nodeOrder, edges, pairs)
    ensures var r := AdjacencyEdges(edges, nodeOrder, pairs);
      Distinct(r) && forall e :: e in r <==> e in edges
  {
  }

  /** `add_edge` on the shape: both endpoints join the node order, the pair
      the pair order, and the triple the edges. */
  lemma AddEdgeShape(nodes: set<StateId>, nodeOrder: seq<StateId>, edges: seq<Edge>, pairs: seq<(StateId, StateId)>, e: Edge)
    requires GraphShape(nodes, nodeOrder, edges, pairs)
    ensures GraphShape(nodes + {e.src, e.dst}, Appended(Appended(nodeOrder, e.src), e.dst),
                       Appended(edges, e), Appended(pairs, (e.src, e.dst)))
  {
    var es := Appended(edges, e);
    forall p | p in Appended(pairs, (e.src, e.dst))
      ensures FirstEdgeBetween(es, p.0, p.1).Some?
    {
      if p == (e.src, e.dst) {
        assert e in es;
      } else {
        var x := FirstEdgeBetween(edges, p.0, p.1).value;
        assert x in es;
      }
    }
  }

  /** `remove_edge` on the shape: the triple goes, and its pair goes with the
      last key of the pair. */
  lemma RemoveEdgeShape(nodes: set<StateId>, nodeOrder: seq<StateId>, edges: seq<Edge>, pairs: seq<(StateId, StateId)>, e: Edge)
    requires GraphShape(nodes, nodeOrder, edges, pairs)
    ensures var es := Without(edges, {e});
      GraphShape(nodes, nodeOrder, es,
                 if FirstEdgeBetween(es, e.src, e.dst).Some? then pairs else Omit(pairs, (e.src, e.dst)))
  {
    var es := Without(edges, {e});
    var ps := if FirstEdgeBetween(es, e.src, e.dst).Some? then pairs else Omit(pairs, (e.src, e.dst));
    forall p | p in ps
      ensures FirstEdgeBetween(es, p.0, p.1).Some?
    {
      if p != (e.src, e.dst) {
        var x := FirstEdgeBetween(edges, p.0, p.1).value;
        assert x in es;
      }
    }
  }

  /** The directed multigraph: nodes are state ids, edges are
      `(src, dst, action id)` triples, each present at most once. Beside
      them the graph keeps the orders networkx walks its dicts in: nodes in
      insertion order, and the (src, dst) pairs in the order their key
      table was created (a pair's table is dropped with its last key). The
      order of the keys of one pair is their order in `edges`. */
  class Aig {
    var nodes: set<StateId>
    var nodeOrder: seq<StateId>
    var edges: seq<Edge>
    var pairs: seq<(StateId, StateId)>

    ghost predicate Valid()
      reads this
    {
      GraphShape(nodes, nodeOrder, edges, pairs)
    }

    constructor()
      ensures Valid() && nodes == {} && nodeOrder == [] && edges == [] && pairs == []
    {
      nodes := {};
      nodeOrder := [];
      edges := [];
      pairs := [];
    }

    /** `add_state`: adds the node if absent; an existing node stays as it is. */
    method AddState(id: StateId)
      requires Valid()
      modifies this
      ensures Valid()
      ensures nodes == old(nodes) + {id} && nodeOrder == Appended(old(nodeOrder), id)
      ensures edges == old(edges) && pairs == old(pairs)
    {
      if id !in nodes {
        nodes := nodes + {id};
        nodeOrder := nodeOrder + [id];
      }
    }

    /** The graph half of `add_edge`: both endpoints become nodes, the pair
        gets a key table if it has none, and the triple is recorded; adding
        a present triple changes nothing. */
    method AddEdge(e: Edge)
      requires Valid()
      modifies this
      ensures Valid()
      ensures nodes == old(nodes) + {e.src, e.dst}
      ensures nodeOrder == Appended(Appended(old(nodeOrder), e.src), e.dst)
      ensures pairs == Appended(old(pairs), (e.src, e.dst))
      ensures e in edges && forall x :: x in edges <==> x in old(edges) || x == e
      ensures edges == if e in old(edges) then old(edges) else old(edges) + [e]
    {
      AddEdgeShape(nodes, nodeOrder, edges, pairs, e);
      AddState(e.src);
      AddState(e.dst);
      pairs := Appended(pairs, (e.src, e.dst));
      edges := Appended(edges, e);
    }

    /** `remove_edge(u, v, key=k)`; `removed` is false where networkx raises.
        The pair loses its key table with its last key. */
    method RemoveEdge(e: Edge) returns (removed: bool)
      requires Valid()
      modifies this
      ensures Valid()
      ensures removed == (e in old(edges))
      ensures nodes == old(nodes) && nodeOrder == old(nodeOrder) && edges == Without(old(edges), {e})
      ensures pairs == if FirstEdgeBetween(edges, e.src, e.dst).Some? then old(pairs) else Omit(old(pairs), (e.src, e.dst))
    {
      RemoveEdgeShape(nodes, nodeOrder, edges, pairs, e);
      removed := e in edges;
      edges := Without(edges, {e});
      if FirstEdgeBetween(edges, e.src, e.dst).None? {
        pairs := Omit(pairs, (e.src, e.dst));
      }
    }

    /** `successors`: the (target, action) pairs of the out-edges of `u`, in
        the order networkx's `out_edges` lists them. */
    function Successors(u: StateId): (r: seq<(StateId, ActionId)>)
      reads this
      requires Valid()
      ensures forall p :: p in r <==> Edge(u, p.0, p.1) in edges
      ensures r == Targets(EdgesAlong(edges, PairsFrom(pairs, u)))
    {
      var out := EdgesAlong(edges, PairsFrom(pairs, u));
      assert forall p: (StateId, ActionId) :: Edge(u, p.0, p.1) in edges ==> Edge(u, p.0, p.1) in out;
      Targets(out)
    }

    /** `edges(keys=True)`: every edge once, in adjacency order. */
    function EdgeList(): (r: seq<Edge>)
      reads this
      requires Valid()
      ensures Distinct(r) && forall e :: e in r <==> e in edges
      ensures r == AdjacencyEdges(edges, nodeOrder, pairs)
    {
      AdjacencyPermutes(nodes, nodeOrder, edges, pairs);
      AdjacencyEdges(edges, nodeOrder, pairs)
    }

    /** `shortest_path`: `NodeNotFound` when an endpoint is not a node (it is
        not caught); otherwise the actions along a shortest directed walk,
        and [] when there is none or the endpoints coincide. */
    method ShortestPath(src: StateId, dst: StateId) returns (r: Result<seq<ActionId>, GraphError>, ghost walk: seq<Edge>)
      requires Valid()
      ensures r.Err? <==> src !in nodes || dst !in nodes
      ensures r.Ok? && !Connected(edges, src, dst) ==> r.value == []
      ensures r.Ok? && Connected(edges, src, dst) ==>
        IsShortestWalk(edges, src, dst, walk) && r.value == ActionsOf(walk)
    {
      walk := [];
      if src !in nodes || dst !in nodes {
        return Err(NodeNotFound), walk;
      }
      var found := ShortestWalk(edges, nodes, src, dst);
      if found.None? {
        return Ok([]), walk;
      }
      var acts;
      acts, walk := FirstKeys(edges, src, found.value);
      ShortestRekeyed(edges, src, dst, found.value, walk);
      r := Ok(acts);
    }
  }

  /** The node path of `w`, translated back into actions by taking for each
      consecutive pair of nodes the first edge between them. */
  method FirstKeys(es: seq<Edge>, src: StateId, w: seq<Edge>) returns (acts: seq<ActionId>, ghost walk: seq<Edge>)
    requires forall j :: 0 <= j < |w| ==> w[j] in es
    requires forall j :: 0 <= j < |w| - 1 ==> w[j].dst == w[j + 1].src
    requires w != [] ==> w[0].src == src
    ensures |walk| == |w| && acts == ActionsOf(walk)
    ensures forall j :: 0 <= j < |w| ==> walk[j] in es && walk[j].src == w[j].src && walk[j].dst == w[j].dst
  {
    var path := NodesOf(src, w);
    acts, walk := [], [];
    var i := 0;
    while i < |path| - 1
      invariant 0 <= i <= |w|
      invariant |walk| == i && acts == ActionsOf(walk)
      invariant forall j :: 0 <= j < i ==> walk[j] in es && walk[j].src == w[j].src && walk[j].dst == w[j].dst
    {
      assert path[i] == w[i].src by {
        if i > 0 {
          assert w[i - 1].dst == w[i].src;
        }
      }
      var e := FirstEdgeBetween(es, path[i], path[i + 1]);
      ActionsOfAppend(walk, e.value);
      walk := walk + [e.value];
      acts := acts + [e.value.action];
      i := i + 1;
    }
  }

  /** Choosing, hop by hop, another edge between the same two states keeps a
      shortest walk shortest. */
  lemma ShortestRekeyed(es: seq<Edge>, src: StateId, dst: StateId, w: seq<Edge>, w': seq<Edge>)
    requires IsShortestWalk(es, src, dst, w)
    requires |w'| == |w| && forall j :: 0 <= j < |w| ==> w'[j] in es && w'[j].src == w[j].src && w'[j].dst == w[j].dst
    ensures IsShortestWalk(es, src, dst, w')
  {
  }

  /** The ids whose flag is UNEXPLORED: what the index is meant to hold. */
  ghost function UnexploredIds(actions: map<ActionId, AbstractAction>): set<ActionId> {
    set id | id in actions && actions[id].flag == Unexplored
  }

  /** How `update_action_flag` changes the index for action `id`. */
  function FlagIndex(index: set<ActionId>, id: ActionId, prev: ExplorationFlag, next: ExplorationFlag): (r: set<ActionId>)
    ensures forall x :: x != id ==> (x in r <==> x in index)
    ensures (prev == Unexplored) != (next == Unexplored) ==> (id in r <==> next == Unexplored)
    ensures (prev == Unexplored) == (next == Unexplored) ==> (id in r <==> id in index)
  {
    if prev == Unexplored && next != Unexplored then index - {id}
    else if prev != Unexplored && next == Unexplored then index + {id}
    else index
  }

  /** `register_action` keeps the index exact for a fresh id. */
  lemma RegisterKeepsIndex(actions: map<ActionId, AbstractAction>, index: set<ActionId>, a: AbstractAction)
    requires index == UnexploredIds(actions) && a.id !in actions
    ensures (if a.flag == Unexplored then index + {a.id} else index) == UnexploredIds(actions[a.id := a])
  {
    var after := actions[a.id := a];
    forall x
      ensures x in UnexploredIds(after) <==> x in (if a.flag == Unexplored then index + {a.id} else index)
    {
      if x in after && x != a.id {
        assert after[x] == actions[x];
      }
    }
  }

  /** `update_action_flag` keeps the index exact, whatever the old and new flags. */
  lemma FlagChangeKeepsIndex(actions: map<ActionId, AbstractAction>, index: set<ActionId>, id: ActionId, next: ExplorationFlag)
    requires index == UnexploredIds(actions) && id in actions
    ensures FlagIndex(index, id, actions[id].flag, next) == UnexploredIds(actions[id := actions[id].(flag := next)])
  {
    var after := actions[id := actions[id].(flag := next)];
    var r := FlagIndex(index, id, actions[id].flag, next);
    forall x
      ensures x in UnexploredIds(after) <==> x in r
    {
      if x in after && x != id {
        assert after[x] == actions[x];
      }
    }
  }

  /** The first state, in table order, carrying `sig`; `FirstWithSignatureMeaning`
      says that no earlier state carries it. */
  function FirstWithSignature(order: seq<StateId>, states: map<StateId, AbstractState>, sig: string): (r: Option<StateId>)
    requires forall id :: id in order ==> id in states
    ensures r.Some? ==> r.value in order && states[r.value].signature == sig
  {
    if order == [] then None
    else if states[order[0]].signature == sig then Some(order[0])
    else FirstWithSignature(order[1..], states, sig)
  }

  /** A state returned is the first in the order to carry `sig`; None means
      no state carries it. */
  lemma {:induction false} FirstWithSignatureMeaning(order: seq<StateId>, states: map<StateId, AbstractState>, sig: string)
    requires forall id :: id in order ==> id in states
    ensures var r := FirstWithSignature(order, states, sig);
      && (r.Some? ==> exists i :: 0 <= i < |order| && order[i] == r.value
                                  && forall j :: 0 <= j < i ==> states[order[j]].signature != sig)
      && (r.None? ==> forall id :: id in order ==> states[id].signature != sig)
  {
    if order != [] && states[order[0]].signature != sig {
      var rest := order[1..];
      FirstWithSignatureMeaning(rest, states, sig);
      var r := FirstWithSignature(rest, states, sig);
      if r.Some? {
        var i :| 0 <= i < |rest| && rest[i] == r.value && forall j :: 0 <= j < i ==> states[rest[j]].signature != sig;
        assert order[i + 1] == r.value;
        assert forall j :: 0 <= j < i + 1 ==> states[order[j]].signature != sig by {
          forall j | 0 <= j < i + 1 ensures states[order[j]].signature != sig {
            if j > 0 { assert order[j] == rest[j - 1]; }
          }
        }
      } else {
        assert forall id :: id in order ==> id == order[0] || id in rest;
      }
    }
  }

  lemma {:induction false} FirstWithSignatureAt(order: seq<StateId>, states: map<StateId, AbstractState>, sig: string, i: nat)
    requires forall id :: id in order ==> id in states
    requires i < |order| && states[order[i]].signature == sig
    requires forall j :: 0 <= j < i ==> states[order[j]].signature != sig
    ensures FirstWithSignature(order, states, sig) == Some(order[i])
  {
    if i > 0 {
      FirstWithSignatureAt(order[1..], states, sig, i - 1);
    }
  }

  /** A string not in `used`: the model's supply of fresh ids where Python draws a uuid4. */
  method FreshId(used: seq<string>) returns (r: string)
    ensures r !in used
  {
    var longest: nat := 0;
    for i := 0 to |used|
      invariant forall j :: 0 <= j < i ==> |used[j]| <= longest
    {
      if |used[i]| > longest {
        longest := |used[i]|;
      }
    }
    r := seq(longest + 1, _ => 'u');
  }

  /** The action's back-pointers name known states. */
  ghost predicate Linked(a: AbstractAction, states: map<StateId, AbstractState>) {
    (a.source.Some? ==> a.source.value in states) && (a.target.Some? ==> a.target.value in states)
  }

  /** The state's action table lists known actions, each once. */
  ghost predicate Lists(s: AbstractState, actions: map<ActionId, AbstractAction>) {
    Distinct(s.actions) && forall a :: a in s.actions ==> a in actions
  }

  /** The id tables agree with their insertion orders and every reference
      between states and actions names a known object. */
  ghost predicate Tables(states: map<StateId, AbstractState>, stateOrder: seq<StateId>,
                         actions: map<ActionId, AbstractAction>, actionOrder: seq<ActionId>)
  {
    && Distinct(stateOrder) && (forall id :: id in stateOrder <==> id in states)
    && Distinct(actionOrder) && (forall id :: id in actionOrder <==> id in actions)
    && (forall id :: id in states ==> states[id].id == id && Lists(states[id], actions))
    && (forall id :: id in actions ==> actions[id].id == id && Linked(actions[id], states))
  }

  lemma ReplaceAction(states: map<StateId, AbstractState>, stateOrder: seq<StateId>,
                      actions: map<ActionId, AbstractAction>, actionOrder: seq<ActionId>, a: AbstractAction)
    requires Tables(states, stateOrder, actions, actionOrder)
    requires a.id in actions && Linked(a, states)
    ensures Tables(states, stateOrder, actions[a.id := a], actionOrder)
    ensures UnexploredIds(actions) == UnexploredIds(actions[a.id := a]) <== a.flag == actions[a.id].flag
  {
    var after := actions[a.id := a];
    forall id | id in states
      ensures Lists(states[id], after)
    {
    }
    if a.flag == actions[a.id].flag {
      forall x
        ensures x in UnexploredIds(actions) <==> x in UnexploredIds(after)
      {
        if x in actions && x != a.id {
          assert after[x] == actions[x];
        }
      }
    }
  }

  lemma InsertAction(states: map<StateId, AbstractState>, stateOrder: seq<StateId>,
                     actions: map<ActionId, AbstractAction>, actionOrder: seq<ActionId>, a: AbstractAction)
    requires Tables(states, stateOrder, actions, actionOrder)
    requires a.id !in actions && Linked(a, states)
    ensures Tables(states, stateOrder, actions[a.id := a], actionOrder + [a.id])
  {
    var after := actions[a.id := a];
    forall id | id in states
      ensures Lists(states[id], after)
    {
    }
    assert a.id !in actionOrder;
  }

  lemma InsertState(states: map<StateId, AbstractState>, stateOrder: seq<StateId>,
                    actions: map<ActionId, AbstractAction>, actionOrder: seq<ActionId>, s: AbstractState)
    requires Tables(states, stateOrder, actions, actionOrder)
    requires s.id !in states && Lists(s, actions)
    ensures Tables(states[s.id := s], stateOrder + [s.id], actions, actionOrder)
  {
    var after := states[s.id := s];
    forall id | id in actions
      ensures Linked(actions[id], after)
    {
    }
    assert s.id !in stateOrder;
  }

  lemma ReplaceState(states: map<StateId, AbstractState>, stateOrder: seq<StateId>,
                     actions: map<ActionId, AbstractAction>, actionOrder: seq<ActionId>, s: AbstractState)
    requires Tables(states, stateOrder, actions, actionOrder)
    requires s.id in states && Lists(s, actions)
    ensures Tables(states[s.id := s], stateOrder, actions, actionOrder)
  {
  }

  class AppKnowledge {
    var rawTrace: seq<TraceItem>
    var states: map<StateId, AbstractState>
    var stateOrder: seq<StateId>
    var actions: map<ActionId, AbstractAction>
    var actionOrder: seq<ActionId>
    const aig: Aig
    var unexplored: set<ActionId>

    /** The tables agree with their insertion orders, every reference names a
        known object, and the graph's nodes and edge keys are known. */
    ghost predicate Valid()
      reads this, aig
    {
      && aig.Valid()
      && Tables(states, stateOrder, actions, actionOrder)
      && aig.nodes <= states.Keys
      && (forall e :: e in aig.edges ==> e.action in actions)
    }

    /** The index holds exactly the ids whose flag is UNEXPLORED. */
    ghost predicate IndexExact()
      reads this
    {
      unexplored == UnexploredIds(actions)
    }

    constructor()
      ensures Valid() && IndexExact() && fresh(aig)
      ensures rawTrace == [] && states == map[] && stateOrder == [] && actions == map[] && actionOrder == []
      ensures aig.nodes == {} && aig.nodeOrder == [] && aig.edges == [] && aig.pairs == [] && unexplored == {}
    {
      rawTrace := [];
      states := map[];
      stateOrder := [];
      actions := map[];
      actionOrder := [];
      aig := new Aig();
      unexplored := {};
    }

    /** `get_state`: the node's state object, or None when it is not a node. */
    function GraphState(id: StateId): (r: Option<AbstractState>)
      reads this, aig
      requires Valid()
      ensures r.Some? <==> id in aig.nodes
      ensures r.Some? ==> r.value.id == id && r.value == states[id]
    {
      if id in aig.nodes then Some(states[id]) else None
    }

    /** `get_or_create_state`: the first state carrying `sig`, with nothing
        changed; otherwise a new state with that signature, added to the
        table and to the graph. */
    method GetOrCreateState(sig: string) returns (id: StateId)
      requires Valid()
      modifies this, aig
      ensures Valid() && (old(IndexExact()) ==> IndexExact())
      ensures id in states && states[id].signature == sig
      ensures old(FirstWithSignature(stateOrder, states, sig)).Some? ==>
        id == old(FirstWithSignature(stateOrder, states, sig)).value
        && states == old(states) && stateOrder == old(stateOrder) && aig.nodes == old(aig.nodes)
        && aig.nodeOrder == old(aig.nodeOrder)
      ensures old(FirstWithSignature(stateOrder, states, sig)).None? ==>
        id !in old(states) && states == old(states)[id := AbstractState(id, sig, [], [], "", [])]
        && stateOrder == old(stateOrder) + [id] && aig.nodes == old(aig.nodes) + {id}
        && aig.nodeOrder == Appended(old(aig.nodeOrder), id)
      ensures aig.edges == old(aig.edges) && aig.pairs == old(aig.pairs) && actions == old(actions) && actionOrder == old(actionOrder)
      ensures unexplored == old(unexplored) && rawTrace == old(rawTrace)
    {
      var i := 0;
      while i < |stateOrder|
        invariant 0 <= i <= |stateOrder|
        invariant FirstWithSignature(stateOrder[i..], states, sig) == FirstWithSignature(stateOrder, states, sig)
      {
        if states[stateOrder[i]].signature == sig {
          assert stateOrder[i..][0] == stateOrder[i];
          return stateOrder[i];
        }
        assert stateOrder[i..][1..] == stateOrder[i + 1..];
        i := i + 1;
      }
      id := AddNewState(sig);
    }

    /** The creating branch of `get_or_create_state`: a state with a fresh
        id and the signature, in the table and in the graph. */
    method AddNewState(sig: string) returns (id: StateId)
      requires Valid()
      modifies this, aig
      ensures Valid() && (old(IndexExact()) ==> IndexExact())
      ensures id !in old(states) && states == old(states)[id := AbstractState(id, sig, [], [], "", [])]
      ensures stateOrder == old(stateOrder) + [id] && aig.nodes == old(aig.nodes) + {id}
      ensures aig.nodeOrder == Appended(old(aig.nodeOrder), id) && aig.pairs == old(aig.pairs)
      ensures aig.edges == old(aig.edges) && actions == old(actions) && actionOrder == old(actionOrder)
      ensures unexplored == old(unexplored) && rawTrace == old(rawTrace)
    {
      id := FreshId(stateOrder);
      InsertState(states, stateOrder, actions, actionOrder, AbstractState(id, sig, [], [], "", []));
      states := states[id := AbstractState(id, sig, [], [], "", [])];
      stateOrder := stateOrder + [id];
      aig.AddState(id);
    }

    /** `add_raw_trace_item` */
    method AddRawTraceItem(item: TraceItem)
      modifies this
      ensures rawTrace == old(rawTrace) + [item]
      ensures states == old(states) && stateOrder == old(stateOrder) && actions == old(actions)
      ensures actionOrder == old(actionOrder) && unexplored == old(unexplored)
    {
      rawTrace := rawTrace + [item];
    }

    /** `register_action`: stores the action under its id and indexes the id
        when the flag is UNEXPLORED. */
    method RegisterAction(a: AbstractAction)
      requires Valid() && Linked(a, states)
      modifies this
      ensures Valid()
      ensures a.id !in old(actions) && old(IndexExact()) ==> IndexExact()
      ensures actions == old(actions)[a.id := a]
      ensures actionOrder == if a.id in old(actions) then old(actionOrder) else old(actionOrder) + [a.id]
      ensures unexplored == if a.flag == Unexplored then old(unexplored) + {a.id} else old(unexplored)
      ensures states == old(states) && stateOrder == old(stateOrder) && rawTrace == old(rawTrace)
    {
      if a.id !in actions {
        InsertAction(states, stateOrder, actions, actionOrder, a);
        actionOrder := actionOrder + [a.id];
        if unexplored == UnexploredIds(actions) {
          RegisterKeepsIndex(actions, unexplored, a);
        }
      } else {
        ReplaceAction(states, stateOrder, actions, actionOrder, a);
      }
      actions := actions[a.id := a];
      if a.flag == Unexplored {
        unexplored := unexplored + {a.id};
      }
    }

    /** `update_action_flag`: only this action's flag and this id's index
        membership change, and an exact index stays exact. */
    method UpdateActionFlag(id: ActionId, next: ExplorationFlag)
      requires Valid() && id in actions
      modifies this
      ensures Valid() && (old(IndexExact()) ==> IndexExact())
      ensures actions == old(actions)[id := old(actions[id]).(flag := next)]
      ensures unexplored == FlagIndex(old(unexplored), id, old(actions[id].flag), next)
      ensures states == old(states) && stateOrder == old(stateOrder) && actionOrder == old(actionOrder)
      ensures rawTrace == old(rawTrace)
    {
      var prev := actions[id].flag;
      if unexplored == UnexploredIds(actions) {
        FlagChangeKeepsIndex(actions, unexplored, id, next);
      }
      ReplaceAction(states, stateOrder, actions, actionOrder, actions[id].(flag := next));
      actions := actions[id := actions[id].(flag := next)];
      if prev == Unexplored && next != Unexplored {
        unexplored := unexplored - {id};
      }
      if prev != Unexplored && next == Unexplored {
        unexplored := unexplored + {id};
      }
    }

    /** `add_edge` on the knowledge's graph: the edge is recorded and the
        action's back-pointers now name `src` and `dst`. */
    method LinkEdge(src: StateId, aid: ActionId, dst: StateId)
      requires Valid() && src in states && dst in states && aid in actions
      modifies this, aig
      ensures Valid() && (old(IndexExact()) ==> IndexExact())
      ensures aig.nodes == old(aig.nodes) + {src, dst}
      ensures Edge(src, dst, aid) in aig.edges
      ensures aig.edges == if Edge(src, dst, aid) in old(aig.edges) then old(aig.edges) else old(aig.edges) + [Edge(src, dst, aid)]
      ensures aig.nodeOrder == Appended(Appended(old(aig.nodeOrder), src), dst)
      ensures aig.pairs == Appended(old(aig.pairs), (src, dst))
      ensures actions == old(actions)[aid := old(actions[aid]).(source := Some(src), target := Some(dst))]
      ensures states == old(states) && stateOrder == old(stateOrder) && actionOrder == old(actionOrder)
      ensures unexplored == old(unexplored) && rawTrace == old(rawTrace)
    {
      aig.AddEdge(Edge(src, dst, aid));
      ReplaceAction(states, stateOrder, actions, actionOrder, actions[aid].(source := Some(src), target := Some(dst)));
      actions := actions[aid := actions[aid].(source := Some(src), target := Some(dst))];
    }

    /** `remove_edge(u, v, key=k)` on the knowledge's graph; `removed` is
        false where networkx raises. */
    method DropEdge(e: Edge) returns (removed: bool)
      requires Valid()
      modifies aig
      ensures Valid() && (old(IndexExact()) ==> IndexExact())
      ensures removed == (e in old(aig.edges))
      ensures aig.edges == Without(old(aig.edges), {e}) && aig.nodes == old(aig.nodes)
      ensures aig.nodeOrder == old(aig.nodeOrder)
      ensures aig.pairs == if FirstEdgeBetween(aig.edges, e.src, e.dst).Some? then old(aig.pairs) else Omit(old(aig.pairs), (e.src, e.dst))
    {
      removed := aig.RemoveEdge(e);
    }

    /** Replaces the fields of a known state, keeping its id. */
    method SetState(s: AbstractState)
      requires Valid() && s.id in states && Lists(s, actions)
      modifies this
      ensures Valid() && (old(IndexExact()) ==> IndexExact())
      ensures states == old(states)[s.id := s]
      ensures stateOrder == old(stateOrder) && actions == old(actions) && actionOrder == old(actionOrder)
      ensures unexplored == old(unexplored) && rawTrace == old(rawTrace)
    {
      ReplaceState(states, stateOrder, actions, actionOrder, s);
      states := states[s.id := s];
    }

    /** Replaces the element list of a known action. */
    method SetElements(id: ActionId, elements: seq<UIElement>)
      requires Valid() && id in actions
      modifies this
      ensures Valid() && (old(IndexExact()) ==> IndexExact())
      ensures actions == old(actions)[id := old(actions[id]).(elements := elements)]
      ensures states == old(states) && stateOrder == old(stateOrder) && actionOrder == old(actionOrder)
      ensures unexplored == old(unexplored) && rawTrace == old(rawTrace)
    {
      ReplaceAction(states, stateOrder, actions, actionOrder, actions[id].(elements := elements));
      actions := actions[id := actions[id].(elements := elements)];
    }
  }
}
