/** Walks in the abstract interaction graph and the breadth-first search that
    stands in for networkx's unweighted `shortest_path`. An edge is a
    `(source state id, target state id, action id)` triple, the action id being
    the networkx edge key. */
module Walks {
  import opened Outcomes

  type StateId = string
  type ActionId = string

  datatype Edge = Edge(src: StateId, dst: StateId, action: ActionId)

  /** `w` is a sequence of hops drawn from `hops` that leads from `from` to `to`. */
  ghost predicate IsWalk(hops: seq<Edge>, from: StateId, to: StateId, w: seq<Edge>) {
    && (forall i :: 0 <= i < |w| ==> w[i] in hops)
    && (if w == [] then from == to
        else w[0].src == from && w[|w| - 1].dst == to
             && forall i :: 0 <= i < |w| - 1 ==> w[i].dst == w[i + 1].src)
  }

  /** `w` is a walk from `from` to `to` and no walk between them is shorter. */
  ghost predicate IsShortestWalk(hops: seq<Edge>, from: StateId, to: StateId, w: seq<Edge>) {
    IsWalk(hops, from, to, w) && forall w' :: IsWalk(hops, from, to, w') ==> |w| <= |w'|
  }

  ghost predicate Connected(hops: seq<Edge>, from: StateId, to: StateId) {
    exists w :: IsWalk(hops, from, to, w)
  }

  /** The states one hop away from `s`, through the first `n` hops. */
  ghost function Reached(hops: seq<Edge>, s: set<StateId>, n: nat): set<StateId>
    requires n <= |hops|
  {
    set i | 0 <= i < n && hops[i].src in s :: hops[i].dst
  }

  /** The states reachable from `from` in at most `k` hops. */
  ghost function Ball(hops: seq<Edge>, from: StateId, k: nat): set<StateId> {
    if k == 0 then {from} else Ball(hops, from, k - 1) + Reached(hops, Ball(hops, from, k - 1), |hops|)
  }

  /** Each hop of `w`, reversed: the undirected view of the graph uses both orientations. */
  function Reversed(w: seq<Edge>): (r: seq<Edge>)
    ensures |r| == |w|
    ensures forall i :: 0 <= i < |w| ==> r[i] == Edge(w[i].dst, w[i].src, w[i].action)
  {
    seq(|w|, i requires 0 <= i < |w| => Edge(w[i].dst, w[i].src, w[i].action))
  }

  /** The state sequence a walk visits, starting state included. */
  function NodesOf(from: StateId, w: seq<Edge>): (r: seq<StateId>)
    ensures |r| == |w| + 1 && r[0] == from
    ensures forall i :: 0 <= i < |w| ==> r[i + 1] == w[i].dst
  {
    [from] + seq(|w|, i requires 0 <= i < |w| => w[i].dst)
  }

  /** The action keys along a walk. */
  function ActionsOf(w: seq<Edge>): (r: seq<ActionId>)
    ensures |r| == |w|
    ensures forall i :: 0 <= i < |w| ==> r[i] == w[i].action
  {
    seq(|w|, i requires 0 <= i < |w| => w[i].action)
  }

  lemma ActionsOfAppend(w: seq<Edge>, e: Edge)
    ensures ActionsOf(w + [e]) == ActionsOf(w) + [e.action]
  {
    assert forall i :: 0 <= i < |w| ==> (w + [e])[i] == w[i];
  }

  lemma {:induction false} BallGrows(hops: seq<Edge>, from: StateId, i: nat, j: nat)
    requires i <= j
    ensures Ball(hops, from, i) <= Ball(hops, from, j)
    decreases j - i
  {
    if i < j {
      BallGrows(hops, from, i, j - 1);
    }
  }

  /** Once a round adds no state, no later round does. */
  lemma {:induction false} BallStable(hops: seq<Edge>, from: StateId, k: nat, m: nat)
    requires Ball(hops, from, k + 1) == Ball(hops, from, k)
    ensures Ball(hops, from, m) <= Ball(hops, from, k)
  {
    if m <= k {
      BallGrows(hops, from, m, k);
    } else {
      BallStable(hops, from, k, m - 1);
      var b := Ball(hops, from, m - 1);
      assert Reached(hops, b, |hops|) <= Reached(hops, Ball(hops, from, k), |hops|);
    }
  }

  lemma {:induction false} WalkEndsInBall(hops: seq<Edge>, from: StateId, to: StateId, w: seq<Edge>)
    requires IsWalk(hops, from, to, w)
    ensures to in Ball(hops, from, |w|)
    decreases |w|
  {
    if w != [] {
      var n := |w| - 1;
      var last := w[n];
      var mid := if n == 0 then from else w[n - 1].dst;
      assert IsWalk(hops, from, mid, w[..n]);
      WalkEndsInBall(hops, from, mid, w[..n]);
      assert last in hops;
      var i :| 0 <= i < |hops| && hops[i] == last;
      assert to in Reached(hops, Ball(hops, from, n), |hops|);
    }
  }

  lemma ExtendWalk(hops: seq<Edge>, from: StateId, p: seq<Edge>, h: Edge)
    requires IsWalk(hops, from, h.src, p) && h in hops
    ensures IsWalk(hops, from, h.dst, p + [h])
  {
  }

  /** `layers[i]` is the set of states within `i` hops of `from`, written
      without recursion so that the search's invariants stay cheap. */
  ghost predicate IsLayers(hops: seq<Edge>, from: StateId, layers: seq<set<StateId>>) {
    && |layers| > 0 && layers[0] == {from}
    && forall i :: 0 < i < |layers| ==> layers[i] == layers[i - 1] + Reached(hops, layers[i - 1], |hops|)
  }

  lemma {:induction false} LayersAreBalls(hops: seq<Edge>, from: StateId, layers: seq<set<StateId>>, i: nat)
    requires IsLayers(hops, from, layers) && i < |layers|
    ensures layers[i] == Ball(hops, from, i)
  {
    if i > 0 {
      LayersAreBalls(hops, from, layers, i - 1);
    }
  }

  lemma LayersGrow(hops: seq<Edge>, from: StateId, layers: seq<set<StateId>>, i: nat, j: nat)
    requires IsLayers(hops, from, layers) && i <= j < |layers|
    ensures layers[i] <= layers[j]
  {
    LayersAreBalls(hops, from, layers, i);
    LayersAreBalls(hops, from, layers, j);
    BallGrows(hops, from, i, j);
  }

  /** What the search keeps about the states visited so far: each has a walk
      of at most `bound` hops that reaches it, and none of its hops could be spared. */
  ghost predicate PathsOk(hops: seq<Edge>, from: StateId, paths: map<StateId, seq<Edge>>,
                          layers: seq<set<StateId>>, bound: nat)
  {
    forall v :: v in paths ==>
      && IsWalk(hops, from, v, paths[v]) && |paths[v]| <= bound && |paths[v]| <= |layers|
      && (paths[v] == [] || v !in layers[|paths[v]| - 1])
  }

  lemma ExtendPaths(hops: seq<Edge>, from: StateId, paths: map<StateId, seq<Edge>>,
                    layers: seq<set<StateId>>, h: Edge)
    requires IsLayers(hops, from, layers)
    requires PathsOk(hops, from, paths, layers, |layers|) && h in hops
    requires h.src in paths && |paths[h.src]| < |layers| && h.dst !in layers[|layers| - 1]
    ensures PathsOk(hops, from, paths[h.dst := paths[h.src] + [h]], layers, |layers|)
  {
    ExtendWalk(hops, from, paths[h.src], h);
    LayersGrow(hops, from, layers, |paths[h.src]|, |layers| - 1);
  }

  lemma ReachedStep(hops: seq<Edge>, s: set<StateId>, j: nat)
    requires j < |hops|
    ensures Reached(hops, s, j + 1) == Reached(hops, s, j) + (if hops[j].src in s then {hops[j].dst} else {})
  {
  }

  /** One round of the search: every hop out of the last layer's states is followed. */
  method Expand(hops: seq<Edge>, nodes: set<StateId>, from: StateId, visited: set<StateId>,
                paths: map<StateId, seq<Edge>>, ghost layers: seq<set<StateId>>)
    returns (visited': set<StateId>, paths': map<StateId, seq<Edge>>)
    requires forall i :: 0 <= i < |hops| ==> hops[i].dst in nodes
    requires IsLayers(hops, from, layers) && visited == layers[|layers| - 1] && visited <= nodes
    requires paths.Keys == visited && PathsOk(hops, from, paths, layers, |layers| - 1)
    ensures visited' <= nodes && visited' == visited + Reached(hops, visited, |hops|)
    ensures paths'.Keys == visited' && PathsOk(hops, from, paths', layers, |layers|)
  {
    visited', paths' := visited, paths;
    var j := 0;
    while j < |hops|
      invariant 0 <= j <= |hops|
      invariant visited' == visited + Reached(hops, visited, j)
      invariant visited' <= nodes
      invariant paths'.Keys == visited'
      invariant forall v :: v in visited ==> paths'[v] == paths[v]
      invariant PathsOk(hops, from, paths', layers, |layers|)
    {
      var h := hops[j];
      if h.src in visited && h.dst !in visited' {
        ExtendPaths(hops, from, paths', layers, h);
        paths' := paths'[h.dst := paths'[h.src] + [h]];
        visited' := visited' + {h.dst};
      }
      ReachedStep(hops, visited, j);
      j := j + 1;
    }
  }

  lemma NextLayer(hops: seq<Edge>, from: StateId, paths: map<StateId, seq<Edge>>,
                  layers: seq<set<StateId>>, next: set<StateId>)
    requires IsLayers(hops, from, layers)
    requires next == layers[|layers| - 1] + Reached(hops, layers[|layers| - 1], |hops|)
    requires PathsOk(hops, from, paths, layers, |layers|)
    ensures IsLayers(hops, from, layers + [next])
    ensures PathsOk(hops, from, paths, layers + [next], |layers|)
  {
    var layers' := layers + [next];
    forall i | 0 < i < |layers'|
      ensures layers'[i] == layers'[i - 1] + Reached(hops, layers'[i - 1], |hops|)
    {
      if i < |layers| {
        assert layers'[i] == layers[i] && layers'[i - 1] == layers[i - 1];
      }
    }
  }

  lemma FixpointLayer(hops: seq<Edge>, from: StateId, layers: seq<set<StateId>>)
    requires IsLayers(hops, from, layers)
    requires layers[|layers| - 1] + Reached(hops, layers[|layers| - 1], |hops|) == layers[|layers| - 1]
    ensures layers[|layers| - 1] == Ball(hops, from, |layers| - 1)
    ensures Ball(hops, from, |layers|) == Ball(hops, from, |layers| - 1)
  {
    LayersAreBalls(hops, from, layers, |layers| - 1);
  }

  lemma FewerLeft(nodes: set<StateId>, prev: set<StateId>, next: set<StateId>)
    requires prev <= next <= nodes && prev != next
    ensures |nodes - next| < |nodes - prev|
  {
    var x :| x in next && x !in prev;
    SubsetCard(nodes - next, (nodes - prev) - {x});
  }

  lemma {:induction false} SubsetCard<T>(a: set<T>, b: set<T>)
    requires a <= b
    ensures |a| <= |b|
    decreases a
  {
    if a != {} {
      var x :| x in a;
      SubsetCard(a - {x}, b - {x});
    }
  }

  lemma NoWalkAfterFixpoint(hops: seq<Edge>, from: StateId, to: StateId, k: nat)
    requires Ball(hops, from, k + 1) == Ball(hops, from, k) && to !in Ball(hops, from, k)
    ensures !Connected(hops, from, to)
  {
    forall w' | IsWalk(hops, from, to, w')
      ensures false
    {
      WalkEndsInBall(hops, from, to, w');
      BallStable(hops, from, k, |w'|);
    }
  }

  lemma FoundIsShortest(hops: seq<Edge>, from: StateId, to: StateId, p: seq<Edge>)
    requires IsWalk(hops, from, to, p)
    requires p == [] || to !in Ball(hops, from, |p| - 1)
    ensures IsShortestWalk(hops, from, to, p)
  {
    forall w' | IsWalk(hops, from, to, w')
      ensures |p| <= |w'|
    {
      WalkEndsInBall(hops, from, to, w');
      if |w'| < |p| {
        BallGrows(hops, from, |w'|, |p| - 1);
      }
    }
  }

  /** Breadth-first search from `from`, layer by layer: after `k` rounds the
      visited states are exactly those within `k` hops, each with a walk that
      reaches it in the fewest hops. */
  method ShortestWalk(hops: seq<Edge>, nodes: set<StateId>, from: StateId, to: StateId)
    returns (w: Option<seq<Edge>>)
    requires from in nodes
    requires forall i :: 0 <= i < |hops| ==> hops[i].dst in nodes
    ensures w.Some? ==> IsShortestWalk(hops, from, to, w.value)
    ensures w.None? ==> !Connected(hops, from, to)
  {
    var visited: set<StateId> := {from};
    var paths: map<StateId, seq<Edge>> := map[from := []];
    ghost var layers: seq<set<StateId>> := [visited];
    while to !in visited
      invariant IsLayers(hops, from, layers) && visited == layers[|layers| - 1] && visited <= nodes
      invariant paths.Keys == visited && PathsOk(hops, from, paths, layers, |layers| - 1)
      decreases |nodes - visited|
    {
      var prev := visited;
      visited, paths := Expand(hops, nodes, from, visited, paths, layers);
      if visited == prev {
        FixpointLayer(hops, from, layers);
        NoWalkAfterFixpoint(hops, from, to, |layers| - 1);
        return None;
      }
      FewerLeft(nodes, prev, visited);
      NextLayer(hops, from, paths, layers, visited);
      layers := layers + [visited];
    }
    var p := paths[to];
    if p != [] {
      LayersAreBalls(hops, from, layers, |p| - 1);
    }
    FoundIsShortest(hops, from, to, p);
    w := Some(p);
  }
}
