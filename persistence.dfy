/** Saving and reloading the knowledge (`AppKnowledge.to_json` and
    `AppKnowledge.from_json`): the document keeps, per state, its id,
    signature, action keys, page description and element groups; per action,
    its id, type, flag, back-pointer ids, element ids and function text; the
    edge triples; and the unexplored index. The raw trace is not part of
    this model. */
module Persistence {
  import opened Outcomes
  import opened JsonValues
  import opened Walks
  import opened Knowledge

  datatype StateDoc = StateDoc(id: StateId, signature: string, actions: seq<ActionId>, pageDesc: string, elementGroups: seq<Json>)

  datatype ActionDoc = ActionDoc(
    id: ActionId, actionType: string, flag: string,
    src: Option<StateId>, dst: Option<StateId>,
    elements: seq<string>, functionText: string)

  /** The serialised knowledge; `unexplored` is a list in the file, read back into a set. */
  datatype Document = Document(states: seq<StateDoc>, actions: seq<ActionDoc>, edges: seq<Edge>, unexplored: set<ActionId>)

  /** `KeyError` for an edge naming an unknown state or action; `ValueError`
      for an unknown action type or flag value. */
  datatype LoadError = KeyError | ValueError

  /** The tables `from_json` fills, with the graph's nodes and edges and
      the orders the graph keeps them in (see `Aig`). */
  datatype Graph = Graph(states: map<StateId, AbstractState>, actions: map<ActionId, AbstractAction>,
                         nodes: set<StateId>, nodeOrder: seq<StateId>, edges: seq<Edge>, pairs: seq<(StateId, StateId)>)

  datatype Loaded = Loaded(graph: Graph, stateOrder: seq<StateId>, actionOrder: seq<ActionId>, unexplored: set<ActionId>)

  // ---------------------------------------------------------------- saving

  function NodeIds(es: seq<UIElement>): (r: seq<string>)
    ensures |r| == |es| && forall i :: 0 <= i < |es| ==> r[i] == es[i].nodeId
  {
    seq(|es|, i requires 0 <= i < |es| => es[i].nodeId)
  }

  function DumpState(s: AbstractState): StateDoc {
    StateDoc(s.id, s.signature, s.actions, s.pageDescription, s.elementGroups)
  }

  function DumpAction(a: AbstractAction): ActionDoc {
    ActionDoc(a.id, TypeValue(a.actionType), FlagValue(a.flag), a.source, a.target, NodeIds(a.elements), a.functionDesc)
  }

  function DumpStates(order: seq<StateId>, states: map<StateId, AbstractState>): (r: seq<StateDoc>)
    requires forall id :: id in order ==> id in states
    ensures |r| == |order| && forall i :: 0 <= i < |order| ==> r[i] == DumpState(states[order[i]])
  {
    if order == [] then [] else DumpStates(order[..|order| - 1], states) + [DumpState(states[order[|order| - 1]])]
  }

  function DumpActions(order: seq<ActionId>, actions: map<ActionId, AbstractAction>): (r: seq<ActionDoc>)
    requires forall id :: id in order ==> id in actions
    ensures |r| == |order| && forall i :: 0 <= i < |order| ==> r[i] == DumpAction(actions[order[i]])
  {
    if order == [] then [] else DumpActions(order[..|order| - 1], actions) + [DumpAction(actions[order[|order| - 1]])]
  }

  /** `to_json`, on the knowledge's tables, states and actions in table order. */
  function Dump(states: map<StateId, AbstractState>, stateOrder: seq<StateId>,
                actions: map<ActionId, AbstractAction>, actionOrder: seq<ActionId>,
                edges: seq<Edge>, unexplored: set<ActionId>): Document
    requires forall id :: id in stateOrder ==> id in states
    requires forall id :: id in actionOrder ==> id in actions
  {
    Document(DumpStates(stateOrder, states), DumpActions(actionOrder, actions), edges, unexplored)
  }

  /** `to_json` of a knowledge object: states and actions in table order,
      and the edges as `edges(keys=True)` lists them, each once, in
      adjacency order. */
  function ToJson(k: AppKnowledge): (r: Document)
    reads k, k.aig
    requires k.Valid()
    ensures |r.states| == |k.stateOrder| && |r.actions| == |k.actionOrder|
    ensures forall i :: 0 <= i < |r.states| ==> r.states[i].id == k.stateOrder[i]
    ensures forall i :: 0 <= i < |r.actions| ==> r.actions[i].id == k.actionOrder[i]
    ensures r.edges == AdjacencyEdges(k.aig.edges, k.aig.nodeOrder, k.aig.pairs)
    ensures Distinct(r.edges) && (forall e :: e in r.edges <==> e in k.aig.edges)
    ensures r.unexplored == k.unexplored
  {
    Dump(k.states, k.stateOrder, k.actions, k.actionOrder, k.aig.EdgeList(), k.unexplored)
  }

  // --------------------------------------------------------------- loading

  /** The state `from_json` builds from one entry: no snapshots, no actions yet. */
  function StateFrom(d: StateDoc): AbstractState {
    AbstractState(d.id, d.signature, [], [], d.pageDesc, d.elementGroups)
  }

  function BlankElements(ids: seq<string>): (r: seq<UIElement>)
    ensures |r| == |ids| && forall i :: 0 <= i < |ids| ==> r[i] == UIElement(ids[i], "")
  {
    seq(|ids|, i requires 0 <= i < |ids| => UIElement(ids[i], ""))
  }

  /** The action `from_json` builds from one entry: element descriptions are
      "", and the back-pointers are left unset. */
  function ActionFrom(d: ActionDoc): (r: Result<AbstractAction, LoadError>)
    ensures r.Err? <==> ParseType(d.actionType).None? || ParseFlag(d.flag).None?
    ensures r.Ok? ==> r.value.id == d.id && TypeValue(r.value.actionType) == d.actionType
                      && FlagValue(r.value.flag) == d.flag && r.value.functionDesc == d.functionText
                      && NodeIds(r.value.elements) == d.elements
                      && r.value.source.None? && r.value.target.None?
  {
    match ParseType(d.actionType)
    case None => Err(ValueError)
    case Some(t) =>
      match ParseFlag(d.flag)
      case None => Err(ValueError)
      case Some(f) => Ok(AbstractAction(d.id, t, BlankElements(d.elements), f, d.functionText, None, None))
  }

  /** The states loop of `from_json`: dict assignment, the first position of a key kept. */
  function LoadStates(docs: seq<StateDoc>): (map<StateId, AbstractState>, seq<StateId>) {
    if docs == [] then (map[], [])
    else
      var prev := LoadStates(docs[..|docs| - 1]);
      var d := docs[|docs| - 1];
      (prev.0[d.id := StateFrom(d)], if d.id in prev.0 then prev.1 else prev.1 + [d.id])
  }

  /** The actions loop of `from_json`, stopping at the first bad entry. */
  function LoadActions(docs: seq<ActionDoc>): Result<(map<ActionId, AbstractAction>, seq<ActionId>), LoadError> {
    if docs == [] then Ok((map[], []))
    else
      match LoadActions(docs[..|docs| - 1])
      case Err(e) => Err(e)
      case Ok(prev) =>
        var d := docs[|docs| - 1];
        match ActionFrom(d)
        case Err(e) => Err(e)
        case Ok(a) => Ok((prev.0[d.id := a], if d.id in prev.0 then prev.1 else prev.1 + [d.id]))
  }

  /** One pass of the edges loop: `src.actions[k] = act`, then `add_edge`. */
  function LinkOne(g: Graph, e: Edge): Result<Graph, LoadError> {
    if e.src !in g.states || e.dst !in g.states || e.action !in g.actions then Err(KeyError)
    else
      var st := g.states[e.src];
      var st' := st.(actions := if e.action in st.actions then st.actions else st.actions + [e.action]);
      var a := g.actions[e.action];
      Ok(Graph(g.states[e.src := st'], g.actions[e.action := a.(source := Some(e.src), target := Some(e.dst))],
               g.nodes + {e.src, e.dst}, Appended(Appended(g.nodeOrder, e.src), e.dst),
               Appended(g.edges, e), Appended(g.pairs, (e.src, e.dst))))
  }

  function LinkEdges(g: Graph, es: seq<Edge>): Result<Graph, LoadError> {
    if es == [] then Ok(g)
    else
      match LinkEdges(g, es[..|es| - 1])
      case Err(err) => Err(err)
      case Ok(h) => LinkOne(h, es[|es| - 1])
  }

  /** `from_json`, as written: the serialised `src`/`dst` of the actions are
      not read, and states are added to the graph only through edges. It
      raises ValueError exactly when some action entry has an unknown type or
      flag, and otherwise KeyError exactly when some edge names a state or an
      action that has no entry; the unexplored index is taken as it is. */
  function Load(doc: Document): (r: Result<Loaded, LoadError>)
    ensures r.Err? <==> (exists i :: 0 <= i < |doc.actions| && ActionFrom(doc.actions[i]).Err?)
                        || exists i :: 0 <= i < |doc.edges| && !Resolves(doc, doc.edges[i])
    ensures r.Err? ==> r.error == if exists i :: 0 <= i < |doc.actions| && ActionFrom(doc.actions[i]).Err?
                                  then ValueError else KeyError
    ensures r.Ok? ==> r.value.unexplored == doc.unexplored
  {
    var (sm, so) := LoadStates(doc.states);
    LoadStatesKeys(doc.states);
    LoadActionsFails(doc.actions);
    match LoadActions(doc.actions)
    case Err(e) => Err(e)
    case Ok((am, ao)) =>
      var g0 := Graph(sm, am, {}, [], [], []);
      LinkEdgesFails(g0, doc.edges);
      assert forall e :: Fits(g0, e) <==> Resolves(doc, e);
      match LinkEdges(g0, doc.edges)
      case Err(e) => Err(e)
      case Ok(g) => Ok(Loaded(g, so, ao, doc.unexplored))
  }

  /** Some entry of `docs` is for state `id`. */
  ghost predicate HasState(docs: seq<StateDoc>, id: StateId) {
    exists i :: 0 <= i < |docs| && docs[i].id == id
  }

  /** Some entry of `docs` is for action `id`. */
  ghost predicate HasAction(docs: seq<ActionDoc>, id: ActionId) {
    exists i :: 0 <= i < |docs| && docs[i].id == id
  }

  /** Both endpoints and the key of `e` have entries in `doc`. */
  ghost predicate Resolves(doc: Document, e: Edge) {
    HasState(doc.states, e.src) && HasState(doc.states, e.dst) && HasAction(doc.actions, e.action)
  }

  /** Both endpoints and the key of `e` are in the tables of `g`. */
  predicate Fits(g: Graph, e: Edge) {
    e.src in g.states && e.dst in g.states && e.action in g.actions
  }

  /** The states loop keys its table by exactly the ids of the entries. */
  lemma {:induction false} LoadStatesKeys(docs: seq<StateDoc>)
    ensures forall id :: id in LoadStates(docs).0 <==> HasState(docs, id)
  {
    if docs != [] {
      var init := docs[..|docs| - 1];
      LoadStatesKeys(init);
      forall id | HasState(init, id)
        ensures HasState(docs, id)
      {
        var i :| 0 <= i < |init| && init[i].id == id;
        assert docs[i] == init[i];
      }
      forall id | HasState(docs, id) && id != docs[|docs| - 1].id
        ensures HasState(init, id)
      {
        var i :| 0 <= i < |docs| && docs[i].id == id;
        assert init[i] == docs[i];
      }
    }
  }

  /** The actions loop fails, with ValueError, exactly when some entry is
      bad; otherwise its table is keyed by exactly the ids of the entries. */
  lemma {:induction false} LoadActionsFails(docs: seq<ActionDoc>)
    ensures LoadActions(docs).Err? <==> exists i :: 0 <= i < |docs| && ActionFrom(docs[i]).Err?
    ensures LoadActions(docs).Err? ==> LoadActions(docs).error == ValueError
    ensures LoadActions(docs).Ok? ==> forall id :: id in LoadActions(docs).value.0 <==> HasAction(docs, id)
  {
    if docs != [] {
      var init := docs[..|docs| - 1];
      var d := docs[|docs| - 1];
      LoadActionsFails(init);
      match LoadActions(init)
      case Err(_) =>
        var i :| 0 <= i < |init| && ActionFrom(init[i]).Err?;
        assert docs[i] == init[i];
      case Ok(prev) =>
        if ActionFrom(d).Ok? {
          forall i | 0 <= i < |docs|
            ensures ActionFrom(docs[i]).Ok?
          {
            if i < |init| {
              assert docs[i] == init[i];
            }
          }
          ActionsKeyed(docs, prev.0);
        }
    }
  }

  /** The table after the last entry of `docs`, from the table `prev` of the others. */
  lemma ActionsKeyed(docs: seq<ActionDoc>, prev: map<ActionId, AbstractAction>)
    requires docs != [] && forall id :: id in prev <==> HasAction(docs[..|docs| - 1], id)
    requires ActionFrom(docs[|docs| - 1]).Ok?
    ensures forall id :: id in prev[docs[|docs| - 1].id := ActionFrom(docs[|docs| - 1]).value]
                    <==> HasAction(docs, id)
  {
    var init := docs[..|docs| - 1];
    forall id | HasAction(init, id)
      ensures HasAction(docs, id)
    {
      var i :| 0 <= i < |init| && init[i].id == id;
      assert docs[i] == init[i];
    }
    forall id | HasAction(docs, id) && id != docs[|docs| - 1].id
      ensures HasAction(init, id)
    {
      var i :| 0 <= i < |docs| && docs[i].id == id;
      assert init[i] == docs[i];
    }
  }

  /** One pass of the edges loop succeeds exactly when the edge fits, and
      keeps the keys of both tables. */
  lemma LinkOneFits(h: Graph, e: Edge)
    ensures LinkOne(h, e).Ok? <==> Fits(h, e)
    ensures LinkOne(h, e).Err? ==> LinkOne(h, e).error == KeyError
    ensures LinkOne(h, e).Ok? ==> LinkOne(h, e).value.states.Keys == h.states.Keys
                                  && LinkOne(h, e).value.actions.Keys == h.actions.Keys
  {
  }

  /** Linking keeps the keys of both tables, and fails, with KeyError,
      exactly when some edge does not fit them. */
  lemma {:induction false} LinkEdgesFails(g: Graph, es: seq<Edge>)
    ensures LinkEdges(g, es).Err? <==> exists i :: 0 <= i < |es| && !Fits(g, es[i])
    ensures LinkEdges(g, es).Err? ==> LinkEdges(g, es).error == KeyError
    ensures LinkEdges(g, es).Ok? ==> LinkEdges(g, es).value.states.Keys == g.states.Keys
                                     && LinkEdges(g, es).value.actions.Keys == g.actions.Keys
  {
    if es != [] {
      var init := es[..|es| - 1];
      var e := es[|es| - 1];
      LinkEdgesFails(g, init);
      FitsSnoc(g, es, init);
      match LinkEdges(g, init)
      case Err(_) =>
      case Ok(h) =>
        LinkOneFits(h, e);
    }
  }

  /** Some edge of `es` does not fit exactly when one of the first ones or the last one does not. */
  lemma FitsSnoc(g: Graph, es: seq<Edge>, init: seq<Edge>)
    requires es != [] && init == es[..|es| - 1]
    ensures (exists i :: 0 <= i < |es| && !Fits(g, es[i])) <==>
      (exists i :: 0 <= i < |init| && !Fits(g, init[i])) || !Fits(g, es[|es| - 1])
  {
    if exists i :: 0 <= i < |es| && !Fits(g, es[i]) {
      var i :| 0 <= i < |es| && !Fits(g, es[i]);
      if i < |init| {
        assert init[i] == es[i];
      }
    }
  }



  /** `from_json` on a knowledge object: the three loops fill a fresh
      knowledge exactly as `Load` describes, raising where it fails, and the
      result satisfies the knowledge invariant. */
  method FromJson(doc: Document) returns (r: Result<AppKnowledge, LoadError>)
    ensures r.Ok? <==> Load(doc).Ok?
    ensures r.Err? ==> r.error == Load(doc).error
    ensures r.Ok? ==> fresh(r.value) && fresh(r.value.aig) && r.value.Valid()
    ensures r.Ok? ==>
      var k := r.value;
      && Load(doc).value == Loaded(Graph(k.states, k.actions, k.aig.nodes, k.aig.nodeOrder, k.aig.edges, k.aig.pairs), k.stateOrder, k.actionOrder, k.unexplored)
      && k.rawTrace == []
  {
    var k := new AppKnowledge();
    FillStates(k, doc.states);
    var failed := FillActions(k, doc.actions);
    if failed.Some? {
      return Err(failed.value);
    }
    failed := FillEdges(k, doc.edges);
    if failed.Some? {
      return Err(failed.value);
    }
    k.unexplored := doc.unexplored;
    r := Ok(k);
  }

  /** The states loop of `from_json`, on an empty knowledge. */
  method FillStates(k: AppKnowledge, docs: seq<StateDoc>)
    requires k.states == map[] && k.stateOrder == [] && k.actions == map[] && k.actionOrder == []
    modifies k
    ensures (k.states, k.stateOrder) == LoadStates(docs)
    ensures Tables(k.states, k.stateOrder, k.actions, k.actionOrder)
    ensures forall id :: id in k.states ==> k.states[id].actions == []
    ensures k.actions == map[] && k.actionOrder == [] && k.rawTrace == old(k.rawTrace)
  {
    var i := 0;
    while i < |docs|
      invariant 0 <= i <= |docs|
      invariant (k.states, k.stateOrder) == LoadStates(docs[..i])
      invariant k.actions == map[] && k.actionOrder == [] && k.rawTrace == old(k.rawTrace)
      invariant Tables(k.states, k.stateOrder, k.actions, k.actionOrder)
      invariant forall id :: id in k.states ==> k.states[id].actions == []
    {
      LoadStatesStep(docs, i);
      PutState(k, docs[i]);
      i := i + 1;
    }
    assert docs[..i] == docs;
  }

  /** One entry of the states loop: `states[id] = AbstractState(...)`. */
  method PutState(k: AppKnowledge, d: StateDoc)
    requires Tables(k.states, k.stateOrder, k.actions, k.actionOrder)
    requires forall id :: id in k.states ==> k.states[id].actions == []
    modifies k
    ensures k.states == old(k.states)[d.id := StateFrom(d)]
    ensures k.stateOrder == if d.id in old(k.states) then old(k.stateOrder) else old(k.stateOrder) + [d.id]
    ensures k.actions == old(k.actions) && k.actionOrder == old(k.actionOrder) && k.rawTrace == old(k.rawTrace)
    ensures Tables(k.states, k.stateOrder, k.actions, k.actionOrder)
    ensures forall id :: id in k.states ==> k.states[id].actions == []
  {
    assert StateFrom(d).actions == [];
    if d.id !in k.states {
      InsertState(k.states, k.stateOrder, k.actions, k.actionOrder, StateFrom(d));
      k.stateOrder := k.stateOrder + [d.id];
    } else {
      ReplaceState(k.states, k.stateOrder, k.actions, k.actionOrder, StateFrom(d));
    }
    k.states := k.states[d.id := StateFrom(d)];
  }

  /** The actions loop of `from_json`; `failed` is the error it raises. */
  method FillActions(k: AppKnowledge, docs: seq<ActionDoc>) returns (failed: Option<LoadError>)
    requires k.actions == map[] && k.actionOrder == []
    requires Tables(k.states, k.stateOrder, k.actions, k.actionOrder)
    modifies k
    ensures failed.None? <==> LoadActions(docs).Ok?
    ensures failed.Some? ==> failed.value == LoadActions(docs).error
    ensures failed.None? ==> LoadActions(docs).value == (k.actions, k.actionOrder)
    ensures failed.None? ==> Tables(k.states, k.stateOrder, k.actions, k.actionOrder)
    ensures k.states == old(k.states) && k.stateOrder == old(k.stateOrder) && k.rawTrace == old(k.rawTrace)
  {
    var i := 0;
    while i < |docs|
      invariant 0 <= i <= |docs|
      invariant LoadActions(docs[..i]) == Ok((k.actions, k.actionOrder))
      invariant Tables(k.states, k.stateOrder, k.actions, k.actionOrder)
      invariant forall id :: id in k.actions ==> k.actions[id].source.None? && k.actions[id].target.None?
      invariant k.states == old(k.states) && k.stateOrder == old(k.stateOrder) && k.rawTrace == old(k.rawTrace)
    {
      var d := docs[i];
      var a := ActionFrom(d);
      if a.Err? {
        LoadActionsStops(docs, i + 1);
        return Some(a.error);
      }
      LoadActionsStep(docs, i);
      AddUnlinked(k.states, k.stateOrder, k.actions, k.actionOrder, a.value);
      if d.id !in k.actions {
        k.actionOrder := k.actionOrder + [d.id];
      }
      k.actions := k.actions[d.id := a.value];
      i := i + 1;
    }
    assert docs[..i] == docs;
    failed := None;
  }

  /** The edges loop of `from_json`: per edge, the key goes into the source
      state's table and `add_edge` records it; `failed` is the error raised. */
  method FillEdges(k: AppKnowledge, es: seq<Edge>) returns (failed: Option<LoadError>)
    requires k.aig.nodes == {} && k.aig.nodeOrder == [] && k.aig.edges == [] && k.aig.pairs == []
    requires Tables(k.states, k.stateOrder, k.actions, k.actionOrder)
    modifies k, k.aig
    ensures var g := Graph(old(k.states), old(k.actions), {}, [], [], []);
      && (failed.None? <==> LinkEdges(g, es).Ok?)
      && (failed.Some? ==> failed.value == LinkEdges(g, es).error)
      && (failed.None? ==> LinkEdges(g, es).value == Graph(k.states, k.actions, k.aig.nodes, k.aig.nodeOrder, k.aig.edges, k.aig.pairs))
    ensures failed.None? ==> k.Valid()
    ensures k.stateOrder == old(k.stateOrder) && k.actionOrder == old(k.actionOrder)
    ensures k.rawTrace == old(k.rawTrace) && k.unexplored == old(k.unexplored)
  {
    ghost var g := Graph(k.states, k.actions, {}, [], [], []);
    ghost var stateOrder, actionOrder := k.stateOrder, k.actionOrder;
    EmptyGraphOk(k.states, stateOrder, k.actions, actionOrder);
    var i := 0;
    while i < |es|
      invariant 0 <= i <= |es|
      invariant LinkEdges(g, es[..i]) == Ok(Graph(k.states, k.actions, k.aig.nodes, k.aig.nodeOrder, k.aig.edges, k.aig.pairs))
      invariant k.stateOrder == old(k.stateOrder) && k.actionOrder == old(k.actionOrder)
      invariant k.rawTrace == old(k.rawTrace) && k.unexplored == old(k.unexplored)
    {
      var e := es[i];
      ghost var h := Graph(k.states, k.actions, k.aig.nodes, k.aig.nodeOrder, k.aig.edges, k.aig.pairs);
      LinkEdgesStep(g, es, i);
      if e.src !in k.states || e.dst !in k.states || e.action !in k.actions {
        LinkEdgesStops(g, es, i + 1);
        return Some(KeyError);
      }
      LinkEdgesKeepOk(g, es[..i], stateOrder, actionOrder);
      assert k.aig.Valid();
      LinkStep(k, e);
      ghost var h' := Graph(k.states, k.actions, k.aig.nodes, k.aig.nodeOrder, k.aig.edges, k.aig.pairs);
      assert LinkEdges(g, es[..i + 1]) == Ok(h');
      i := i + 1;
      assert LinkEdges(g, es[..i]) == Ok(h');
    }
    assert es[..i] == es;
    LinkEdgesKeepOk(g, es, stateOrder, actionOrder);
    KnowledgeOk(k);
    failed := None;
  }

  /** One pass of the edges loop on the knowledge object, as `LinkOne`. */
  method LinkStep(k: AppKnowledge, e: Edge)
    requires k.aig.Valid() && e.src in k.states && e.dst in k.states && e.action in k.actions
    modifies k, k.aig
    ensures LinkOne(old(Graph(k.states, k.actions, k.aig.nodes, k.aig.nodeOrder, k.aig.edges, k.aig.pairs)), e) == Ok(Graph(k.states, k.actions, k.aig.nodes, k.aig.nodeOrder, k.aig.edges, k.aig.pairs))
    ensures k.stateOrder == old(k.stateOrder) && k.actionOrder == old(k.actionOrder)
    ensures k.rawTrace == old(k.rawTrace) && k.unexplored == old(k.unexplored)
  {
    ghost var g := Graph(k.states, k.actions, k.aig.nodes, k.aig.nodeOrder, k.aig.edges, k.aig.pairs);
    var st := k.states[e.src];
    if e.action !in st.actions {
      st := st.(actions := st.actions + [e.action]);
    }
    k.states := k.states[e.src := st];
    k.actions := k.actions[e.action := k.actions[e.action].(source := Some(e.src), target := Some(e.dst))];
    k.aig.AddEdge(e);
    assert k.aig.edges == Appended(g.edges, e);
    assert LinkOne(g, e).value == Graph(k.states, k.actions, k.aig.nodes, k.aig.nodeOrder, k.aig.edges, k.aig.pairs);
  }

  lemma KnowledgeOk(k: AppKnowledge)
    requires GraphOk(Graph(k.states, k.actions, k.aig.nodes, k.aig.nodeOrder, k.aig.edges, k.aig.pairs), k.stateOrder, k.actionOrder)
    ensures k.Valid()
  {
  }

  // ---------------------------------------------------------------- proofs

  function Endpoints(es: seq<Edge>): set<StateId> {
    (set e | e in es :: e.src) + (set e | e in es :: e.dst)
  }

  /** The last edge keyed by `k`: the `add_edge` whose back-pointers survive. */
  function LastEdgeWith(es: seq<Edge>, k: ActionId): (r: Option<Edge>)
    ensures r.Some? ==> r.value in es && r.value.action == k
    ensures r.None? ==> forall e :: e in es ==> e.action != k
  {
    if es == [] then None
    else if es[|es| - 1].action == k then Some(es[|es| - 1])
    else LastEdgeWith(es[..|es| - 1], k)
  }

  /** Linking changes only state action lists and action back-pointers. */
  ghost predicate SameShape(g: Graph, h: Graph) {
    && h.states.Keys == g.states.Keys && h.actions.Keys == g.actions.Keys
    && (forall id :: id in h.states ==> h.states[id] == g.states[id].(actions := h.states[id].actions))
    && (forall k :: k in h.actions ==> h.actions[k] == g.actions[k].(source := h.actions[k].source, target := h.actions[k].target))
  }

  /** A state's action list gains exactly the keys of its out-edges among `es`, each once. */
  ghost predicate ListsFromEdges(g: Graph, es: seq<Edge>, h: Graph)
    requires h.states.Keys == g.states.Keys
  {
    && (forall id :: id in h.states ==> Distinct(g.states[id].actions) ==> Distinct(h.states[id].actions))
    && (forall id, k :: id in h.states ==>
          (k in h.states[id].actions <==> k in g.states[id].actions || exists d :: Edge(id, d, k) in es))
  }

  /** An action's back-pointers follow the last of `es` keyed by it. */
  ghost predicate PointersFromEdges(g: Graph, es: seq<Edge>, h: Graph)
    requires h.actions.Keys == g.actions.Keys
  {
    forall k :: k in h.actions ==>
      match LastEdgeWith(es, k)
      case Some(e) => h.actions[k].source == Some(e.src) && h.actions[k].target == Some(e.dst)
      case None => h.actions[k].source == g.actions[k].source && h.actions[k].target == g.actions[k].target
  }

  /** `h` is `g` after linking the edges `es`. */
  ghost predicate LinkedAlong(g: Graph, es: seq<Edge>, h: Graph) {
    && SameShape(g, h)
    && h.nodes == g.nodes + Endpoints(es)
    && (Distinct(g.edges + es) ==> h.edges == g.edges + es)
    && ListsFromEdges(g, es, h)
    && PointersFromEdges(g, es, h)
  }

  lemma EndpointsAppend(init: seq<Edge>, e: Edge)
    ensures Endpoints(init + [e]) == Endpoints(init) + {e.src, e.dst}
  {
    var es := init + [e];
    forall x | x in Endpoints(es)
      ensures x in Endpoints(init) + {e.src, e.dst}
    {
      if x in (set y | y in es :: y.src) {
        var y :| y in es && y.src == x;
        if y != e { assert y in init; }
      } else {
        var y :| y in es && y.dst == x;
        if y != e { assert y in init; }
      }
    }
    assert e in es;
    forall x | x in Endpoints(init)
      ensures x in Endpoints(es)
    {
      if x in (set y | y in init :: y.src) {
        var y :| y in init && y.src == x;
        assert y in es;
      } else {
        var y :| y in init && y.dst == x;
        assert y in es;
      }
    }
  }

  lemma ShapeStep(g: Graph, h: Graph, e: Edge, h': Graph)
    requires SameShape(g, h) && LinkOne(h, e) == Ok(h')
    ensures SameShape(g, h') && h'.nodes == h.nodes + {e.src, e.dst}
    ensures h'.edges == if e in h.edges then h.edges else h.edges + [e]
  {
  }

  lemma EdgesStep(g: Graph, init: seq<Edge>, e: Edge, h: Graph)
    requires Distinct(g.edges + init) ==> h.edges == g.edges + init
    requires Distinct(g.edges + (init + [e]))
    ensures e !in h.edges && h.edges + [e] == g.edges + (init + [e])
  {
    var all := g.edges + (init + [e]);
    assert all == (g.edges + init) + [e];
    assert Distinct(g.edges + init) by {
      forall i, j | 0 <= i < j < |g.edges + init|
        ensures (g.edges + init)[i] != (g.edges + init)[j]
      {
        assert (g.edges + init)[i] == all[i] && (g.edges + init)[j] == all[j];
      }
    }
    forall i | 0 <= i < |h.edges|
      ensures h.edges[i] != e
    {
      assert h.edges[i] == all[i] && e == all[|all| - 1];
    }
  }

  lemma ListsStep(g: Graph, init: seq<Edge>, e: Edge, h: Graph, h': Graph)
    requires SameShape(g, h) && ListsFromEdges(g, init, h)
    requires LinkOne(h, e) == Ok(h')
    ensures ListsFromEdges(g, init + [e], h')
  {
    var es := init + [e];
    forall id, k | id in h'.states
      ensures k in h'.states[id].actions <==> k in g.states[id].actions || exists d :: Edge(id, d, k) in es
    {
      if exists d :: Edge(id, d, k) in es {
        var d :| Edge(id, d, k) in es;
        if Edge(id, d, k) != e {
          assert Edge(id, d, k) in init;
        }
      }
      if k in h.states[id].actions && !(k in g.states[id].actions) {
        var d :| Edge(id, d, k) in init;
        assert Edge(id, d, k) in es;
      }
      if id == e.src && k == e.action {
        assert Edge(id, e.dst, k) in es;
      }
    }
  }

  lemma PointersStep(g: Graph, init: seq<Edge>, e: Edge, h: Graph, h': Graph)
    requires SameShape(g, h) && PointersFromEdges(g, init, h)
    requires LinkOne(h, e) == Ok(h')
    ensures PointersFromEdges(g, init + [e], h')
  {
    var es := init + [e];
    assert es[..|es| - 1] == init;
  }

  lemma {:induction false} LinkEdgesOk(g: Graph, es: seq<Edge>)
    requires forall e :: e in es ==> e.src in g.states && e.dst in g.states && e.action in g.actions
    ensures LinkEdges(g, es).Ok? && LinkedAlong(g, es, LinkEdges(g, es).value)
  {
    if es == [] {
      assert Endpoints(es) == {};
      assert g.edges + es == g.edges;
    } else {
      var init := es[..|es| - 1];
      var e := es[|es| - 1];
      assert es == init + [e];
      LinkEdgesOk(g, init);
      var h := LinkEdges(g, init).value;
      var h' := LinkOne(h, e).value;
      assert LinkEdges(g, es) == Ok(h');
      LinkedStep(g, init, e, h, h');
    }
  }

  /** Linking one more edge extends what has been linked so far. */
  lemma LinkedStep(g: Graph, init: seq<Edge>, e: Edge, h: Graph, h': Graph)
    requires LinkedAlong(g, init, h) && LinkOne(h, e) == Ok(h')
    ensures LinkedAlong(g, init + [e], h')
  {
    ShapeStep(g, h, e, h');
    EndpointsAppend(init, e);
    if Distinct(g.edges + (init + [e])) {
      EdgesStep(g, init, e, h);
    }
    ListsStep(g, init, e, h, h');
    PointersStep(g, init, e, h, h');
  }

  lemma LoadActionsStep(docs: seq<ActionDoc>, i: nat)
    requires i < |docs| && LoadActions(docs[..i]).Ok? && ActionFrom(docs[i]).Ok?
    ensures var prev := LoadActions(docs[..i]).value;
      LoadActions(docs[..i + 1])
        == Ok((prev.0[docs[i].id := ActionFrom(docs[i]).value], if docs[i].id in prev.0 then prev.1 else prev.1 + [docs[i].id]))
  {
    assert docs[..i + 1][..i] == docs[..i];
  }

  /** Well-formed tables with an empty graph. */
  lemma EmptyGraphOk(states: map<StateId, AbstractState>, stateOrder: seq<StateId>,
                     actions: map<ActionId, AbstractAction>, actionOrder: seq<ActionId>)
    requires Tables(states, stateOrder, actions, actionOrder)
    ensures GraphOk(Graph(states, actions, {}, [], [], []), stateOrder, actionOrder)
  {
  }

  /** Linking edges into well-formed tables and graph keeps them so. */
  lemma {:induction false} LinkEdgesKeepOk(g: Graph, es: seq<Edge>, stateOrder: seq<StateId>, actionOrder: seq<ActionId>)
    requires GraphOk(g, stateOrder, actionOrder) && LinkEdges(g, es).Ok?
    ensures GraphOk(LinkEdges(g, es).value, stateOrder, actionOrder)
  {
    if es != [] {
      var init := es[..|es| - 1];
      LinkEdgesKeepOk(g, init, stateOrder, actionOrder);
      LinkOneOk(LinkEdges(g, init).value, stateOrder, actionOrder, es[|es| - 1]);
    }
  }

  lemma LoadStatesStep(docs: seq<StateDoc>, i: nat)
    requires i < |docs|
    ensures var prev, d := LoadStates(docs[..i]), docs[i];
      LoadStates(docs[..i + 1]) == (prev.0[d.id := StateFrom(d)], if d.id in prev.0 then prev.1 else prev.1 + [d.id])
  {
    var s := docs[..i + 1];
    assert s[..|s| - 1] == docs[..i] && s[|s| - 1] == docs[i];
  }

  lemma LinkEdgesStep(g: Graph, es: seq<Edge>, i: nat)
    requires i < |es| && LinkEdges(g, es[..i]).Ok?
    ensures LinkEdges(g, es[..i + 1]) == LinkOne(LinkEdges(g, es[..i]).value, es[i])
  {
    var s := es[..i + 1];
    assert s[..|s| - 1] == es[..i] && s[|s| - 1] == es[i];
    LinkEdgesLast(g, s);
  }

  lemma LinkEdgesLast(g: Graph, s: seq<Edge>)
    requires s != [] && LinkEdges(g, s[..|s| - 1]).Ok?
    ensures LinkEdges(g, s) == LinkOne(LinkEdges(g, s[..|s| - 1]).value, s[|s| - 1])
  {
  }

  /** A loaded action, with no back-pointers yet, joins the tables. */
  lemma AddUnlinked(states: map<StateId, AbstractState>, stateOrder: seq<StateId>,
                    actions: map<ActionId, AbstractAction>, actionOrder: seq<ActionId>, a: AbstractAction)
    requires Tables(states, stateOrder, actions, actionOrder)
    requires a.source.None? && a.target.None?
    ensures Tables(states, stateOrder, actions[a.id := a], if a.id in actions then actionOrder else actionOrder + [a.id])
  {
    var after := actions[a.id := a];
    forall id | id in states
      ensures Lists(states[id], after)
    {
    }
  }

  /** The knowledge invariant on a graph value: the tables agree, edges are
      distinct with known endpoints and keys, and nodes are known states. */
  ghost predicate GraphOk(h: Graph, stateOrder: seq<StateId>, actionOrder: seq<ActionId>) {
    && Tables(h.states, stateOrder, h.actions, actionOrder)
    && GraphShape(h.nodes, h.nodeOrder, h.edges, h.pairs) && h.nodes <= h.states.Keys
    && (forall e :: e in h.edges ==> e.action in h.actions)
  }

  lemma LinkOneOk(h: Graph, stateOrder: seq<StateId>, actionOrder: seq<ActionId>, e: Edge)
    requires GraphOk(h, stateOrder, actionOrder)
    requires e.src in h.states && e.dst in h.states && e.action in h.actions
    ensures LinkOne(h, e).Ok? && GraphOk(LinkOne(h, e).value, stateOrder, actionOrder)
  {
    var st := h.states[e.src];
    var st' := st.(actions := if e.action in st.actions then st.actions else st.actions + [e.action]);
    ReplaceState(h.states, stateOrder, h.actions, actionOrder, st');
    var a := h.actions[e.action].(source := Some(e.src), target := Some(e.dst));
    ReplaceAction(h.states[e.src := st'], stateOrder, h.actions, actionOrder, a);
    AddEdgeShape(h.nodes, h.nodeOrder, h.edges, h.pairs, e);
  }

  /** A bad entry at position `n - 1` stops the actions loop with its error. */
  lemma LoadActionsStops(docs: seq<ActionDoc>, n: nat)
    requires 0 < n <= |docs| && LoadActions(docs[..n - 1]).Ok? && ActionFrom(docs[n - 1]).Err?
    ensures LoadActions(docs) == Err(ActionFrom(docs[n - 1]).error)
    decreases |docs|
  {
    if n < |docs| {
      assert docs[..|docs| - 1][..n - 1] == docs[..n - 1];
      LoadActionsStops(docs[..|docs| - 1], n);
    } else {
      assert docs[..|docs| - 1] == docs[..n - 1];
    }
  }

  /** An edge naming an unknown object stops the edges loop with `KeyError`. */
  lemma LinkEdgesStops(g: Graph, es: seq<Edge>, n: nat)
    requires 0 < n <= |es| && LinkEdges(g, es[..n - 1]).Ok? && LinkOne(LinkEdges(g, es[..n - 1]).value, es[n - 1]).Err?
    ensures LinkEdges(g, es) == Err(KeyError)
    decreases |es|
  {
    if n < |es| {
      assert es[..|es| - 1][..n - 1] == es[..n - 1];
      LinkEdgesStops(g, es[..|es| - 1], n);
    } else {
      assert es[..|es| - 1] == es[..n - 1];
    }
  }

  /** The states loop on entries with distinct ids: each id once, in entry
      order, bound to the state built from its entry. */
  lemma {:induction false} LoadStatesDistinct(docs: seq<StateDoc>)
    requires forall i, j :: 0 <= i < j < |docs| ==> docs[i].id != docs[j].id
    ensures |LoadStates(docs).1| == |docs|
    ensures forall i :: 0 <= i < |docs| ==> LoadStates(docs).1[i] == docs[i].id
    ensures forall id :: id in LoadStates(docs).0 <==> id in LoadStates(docs).1
    ensures forall i :: 0 <= i < |docs| ==> LoadStates(docs).0[docs[i].id] == StateFrom(docs[i])
  {
    if docs != [] {
      var init := docs[..|docs| - 1];
      var d := docs[|docs| - 1];
      LoadStatesDistinct(init);
      var prev := LoadStates(init);
      assert d.id !in prev.0;
      var r := (prev.0[d.id := StateFrom(d)], prev.1 + [d.id]);
      assert LoadStates(docs) == r;
      forall i | 0 <= i < |docs|
        ensures r.1[i] == docs[i].id && r.0[docs[i].id] == StateFrom(docs[i])
      {
        if i < |init| {
          assert docs[i] == init[i];
        }
      }
    }
  }

  lemma {:induction false} LoadActionsDistinct(docs: seq<ActionDoc>)
    requires forall i, j :: 0 <= i < j < |docs| ==> docs[i].id != docs[j].id
    requires forall i :: 0 <= i < |docs| ==> ActionFrom(docs[i]).Ok?
    ensures LoadActions(docs).Ok?
    ensures |LoadActions(docs).value.1| == |docs|
    ensures forall i :: 0 <= i < |docs| ==> LoadActions(docs).value.1[i] == docs[i].id
    ensures forall id :: id in LoadActions(docs).value.0 <==> id in LoadActions(docs).value.1
    ensures forall i :: 0 <= i < |docs| ==> LoadActions(docs).value.0[docs[i].id] == ActionFrom(docs[i]).value
  {
    if docs != [] {
      var init := docs[..|docs| - 1];
      var d := docs[|docs| - 1];
      assert forall i :: 0 <= i < |init| ==> init[i] == docs[i];
      LoadActionsDistinct(init);
      var prev := LoadActions(init).value;
      assert d.id !in prev.1 by {
        forall i | 0 <= i < |prev.1|
          ensures prev.1[i] != d.id
        {
          assert prev.1[i] == docs[i].id;
        }
      }
      var a := ActionFrom(d).value;
      var r := (prev.0[d.id := a], prev.1 + [d.id]);
      assert LoadActions(docs) == Ok(r);
      LoadedSnoc(docs, prev.0, prev.1);
    }
  }

  /** The tables loaded from all but the last action, with the last one
      added, satisfy `LoadActionsDistinct` for all of them. */
  lemma LoadedSnoc(docs: seq<ActionDoc>, m: map<ActionId, AbstractAction>, ids: seq<ActionId>)
    requires docs != [] && forall i :: 0 <= i < |docs| ==> ActionFrom(docs[i]).Ok?
    requires forall i, j :: 0 <= i < j < |docs| ==> docs[i].id != docs[j].id
    requires |ids| == |docs| - 1 && forall id :: id in m <==> id in ids
    requires forall i :: 0 <= i < |docs| - 1 ==> ids[i] == docs[i].id && m[docs[i].id] == ActionFrom(docs[i]).value
    ensures var d := docs[|docs| - 1];
      var r := (m[d.id := ActionFrom(d).value], ids + [d.id]);
      && |r.1| == |docs|
      && (forall i :: 0 <= i < |docs| ==> r.1[i] == docs[i].id && r.0[docs[i].id] == ActionFrom(docs[i]).value)
      && (forall id :: id in r.0 <==> id in r.1)
  {
    var d := docs[|docs| - 1];
    var r := (m[d.id := ActionFrom(d).value], ids + [d.id]);
    forall i | 0 <= i < |docs|
      ensures r.1[i] == docs[i].id && r.0[docs[i].id] == ActionFrom(docs[i]).value
    {
      if i < |docs| - 1 {
        assert docs[i].id != d.id;
        assert r.1[i] == ids[i];
      }
    }
  }

  lemma LoadDumpedStates(order: seq<StateId>, states: map<StateId, AbstractState>)
    requires Distinct(order) && forall id :: id in order ==> id in states && states[id].id == id
    ensures LoadStates(DumpStates(order, states)).1 == order
    ensures forall id :: id in LoadStates(DumpStates(order, states)).0 <==> id in order
    ensures forall id :: id in order ==> LoadStates(DumpStates(order, states)).0[id] == StateFrom(DumpState(states[id]))
  {
    var docs := DumpStates(order, states);
    assert forall i :: 0 <= i < |docs| ==> docs[i].id == order[i];
    LoadStatesDistinct(docs);
    assert LoadStates(docs).1 == order;
    forall id | id in order
      ensures LoadStates(docs).0[id] == StateFrom(DumpState(states[id]))
    {
      var i :| 0 <= i < |order| && order[i] == id;
      assert docs[i].id == id;
    }
  }

  /** An action as it comes back from its saved form: element ids without
      locators, and no back-pointers. */
  function Reloaded(a: AbstractAction): AbstractAction {
    a.(elements := BlankElements(NodeIds(a.elements)), source := None, target := None)
  }

  lemma ActionFromDump(a: AbstractAction)
    ensures ActionFrom(DumpAction(a)) == Ok(Reloaded(a))
  {
    FlagRoundTrip(a.flag);
    TypeRoundTrip(a.actionType);
  }

  /** The saved entries of distinct actions have distinct ids, in table
      order, and each loads back as `Reloaded` says. */
  lemma DumpedActionDocs(order: seq<ActionId>, actions: map<ActionId, AbstractAction>)
    requires Distinct(order) && forall id :: id in order ==> id in actions && actions[id].id == id
    ensures var docs := DumpActions(order, actions);
      && (forall i, j :: 0 <= i < j < |docs| ==> docs[i].id != docs[j].id)
      && forall i :: 0 <= i < |docs| ==> docs[i].id == order[i] && ActionFrom(docs[i]) == Ok(Reloaded(actions[order[i]]))
  {
    var docs := DumpActions(order, actions);
    forall i | 0 <= i < |docs|
      ensures docs[i].id == order[i] && ActionFrom(docs[i]) == Ok(Reloaded(actions[order[i]]))
    {
      ActionFromDump(actions[order[i]]);
    }
  }

  lemma LoadDumpedActions(order: seq<ActionId>, actions: map<ActionId, AbstractAction>)
    requires Distinct(order) && forall id :: id in order ==> id in actions && actions[id].id == id
    ensures LoadActions(DumpActions(order, actions)).Ok?
    ensures LoadActions(DumpActions(order, actions)).value.1 == order
    ensures forall id :: id in LoadActions(DumpActions(order, actions)).value.0 <==> id in order
    ensures forall id :: id in order ==>
      LoadActions(DumpActions(order, actions)).value.0[id] == Reloaded(actions[id])
  {
    var docs := DumpActions(order, actions);
    DumpedActionDocs(order, actions);
    LoadActionsDistinct(docs);
    forall id | id in order
      ensures LoadActions(docs).value.0[id] == Reloaded(actions[id])
    {
      var i :| 0 <= i < |order| && order[i] == id;
      assert docs[i].id == id;
    }
  }

  /** What reloading a saved knowledge restores of a state: its signature,
      page description and element groups; its snapshots are gone and its
      action table holds exactly the keys of its out-edges. */
  ghost predicate StateRestored(orig: AbstractState, back: AbstractState, edges: seq<Edge>) {
    && back.id == orig.id && back.signature == orig.signature
    && back.pageDescription == orig.pageDescription && back.elementGroups == orig.elementGroups
    && back.concrete == [] && Distinct(back.actions)
    && forall k :: k in back.actions <==> exists d :: Edge(orig.id, d, k) in edges
  }

  /** What reloading restores of an action: its type, flag, function text and
      element ids; element descriptions come back as "", and the back-pointers
      follow the last edge keyed by the action, or are unset. */
  ghost predicate ActionRestored(orig: AbstractAction, back: AbstractAction, edges: seq<Edge>) {
    && back.id == orig.id && back.actionType == orig.actionType && back.flag == orig.flag
    && back.functionDesc == orig.functionDesc && back.elements == BlankElements(NodeIds(orig.elements))
    && match LastEdgeWith(edges, orig.id)
       case Some(e) => back.source == Some(e.src) && back.target == Some(e.dst)
       case None => back.source.None? && back.target.None?
  }

  /** `from_json(to_json(K))`: ids, signatures, types, flags, function text,
      the edge triples and the unexplored index all come back. */
  lemma RoundTrip(states: map<StateId, AbstractState>, stateOrder: seq<StateId>,
                  actions: map<ActionId, AbstractAction>, actionOrder: seq<ActionId>,
                  edges: seq<Edge>, unexplored: set<ActionId>)
    requires Tables(states, stateOrder, actions, actionOrder)
    requires Distinct(edges) && forall e :: e in edges ==> e.src in states && e.dst in states && e.action in actions
    ensures var r := Load(Dump(states, stateOrder, actions, actionOrder, edges, unexplored));
      && r.Ok?
      && r.value.stateOrder == stateOrder && r.value.actionOrder == actionOrder
      && r.value.graph.edges == edges && r.value.graph.nodes == Endpoints(edges)
      && r.value.unexplored == unexplored
      && (forall id :: id in r.value.graph.states <==> id in states)
      && (forall id :: id in states ==> StateRestored(states[id], r.value.graph.states[id], edges))
      && (forall id :: id in r.value.graph.actions <==> id in actions)
      && (forall id :: id in actions ==> ActionRestored(actions[id], r.value.graph.actions[id], edges))
  {
    var doc := Dump(states, stateOrder, actions, actionOrder, edges, unexplored);
    LoadDumpedStates(stateOrder, states);
    LoadDumpedActions(actionOrder, actions);
    var ls := LoadStates(doc.states);
    var la := LoadActions(doc.actions).value;
    var g := Graph(ls.0, la.0, {}, [], [], []);
    LinkEdgesOk(g, edges);
    var h := LinkEdges(g, edges).value;
    assert [] + edges == edges;
    assert Load(doc) == Ok(Loaded(h, ls.1, la.1, unexplored));
    StatesBack(states, g, edges, h);
    ActionsBack(actions, g, edges, h);
  }

  /** `from_json(to_json(K))` with the edges saved in adjacency order: the
      same triples come back, in that order, and each action's
      back-pointers follow the last edge keyed by it in that order. */
  lemma AdjacencyRoundTrip(states: map<StateId, AbstractState>, stateOrder: seq<StateId>,
                           actions: map<ActionId, AbstractAction>, actionOrder: seq<ActionId>,
                           nodes: set<StateId>, nodeOrder: seq<StateId>, edges: seq<Edge>,
                           pairs: seq<(StateId, StateId)>, unexplored: set<ActionId>)
    requires Tables(states, stateOrder, actions, actionOrder) && GraphShape(nodes, nodeOrder, edges, pairs)
    requires forall e :: e in edges ==> e.src in states && e.dst in states && e.action in actions
    ensures var saved := AdjacencyEdges(edges, nodeOrder, pairs);
      var r := Load(Dump(states, stateOrder, actions, actionOrder, saved, unexplored));
      && r.Ok? && r.value.graph.edges == saved
      && (forall e :: e in r.value.graph.edges <==> e in edges)
      && (forall id :: id in r.value.graph.actions <==> id in actions)
      && (forall id :: id in actions ==> ActionRestored(actions[id], r.value.graph.actions[id], saved))
  {
    AdjacencyPermutes(nodes, nodeOrder, edges, pairs);
    RoundTrip(states, stateOrder, actions, actionOrder, AdjacencyEdges(edges, nodeOrder, pairs), unexplored);
  }

  lemma StatesBack(states: map<StateId, AbstractState>, g: Graph, edges: seq<Edge>, h: Graph)
    requires forall id :: id in states ==> states[id].id == id && id in g.states && g.states[id] == StateFrom(DumpState(states[id]))
    requires LinkedAlong(g, edges, h)
    ensures forall id :: id in states ==> StateRestored(states[id], h.states[id], edges)
  {
  }

  lemma ActionsBack(actions: map<ActionId, AbstractAction>, g: Graph, edges: seq<Edge>, h: Graph)
    requires forall id :: id in actions ==>
               && actions[id].id == id
               && id in g.actions
               && g.actions[id] == actions[id].(elements := BlankElements(NodeIds(actions[id].elements)), source := None, target := None)
    requires LinkedAlong(g, edges, h)
    ensures forall id :: id in actions ==> ActionRestored(actions[id], h.actions[id], edges)
  {
  }

  /** Reloading keeps the index exact when it was exact before saving. */
  lemma RoundTripKeepsIndex(states: map<StateId, AbstractState>, stateOrder: seq<StateId>,
                            actions: map<ActionId, AbstractAction>, actionOrder: seq<ActionId>,
                            edges: seq<Edge>, unexplored: set<ActionId>)
    requires Tables(states, stateOrder, actions, actionOrder) && unexplored == UnexploredIds(actions)
    requires Distinct(edges) && forall e :: e in edges ==> e.src in states && e.dst in states && e.action in actions
    ensures var r := Load(Dump(states, stateOrder, actions, actionOrder, edges, unexplored));
      r.Ok? && r.value.unexplored == UnexploredIds(r.value.graph.actions)
  {
    RoundTrip(states, stateOrder, actions, actionOrder, edges, unexplored);
  }

  // ------------------------------------------------ reloading, as intended

  /** The saved entry of action `id`: the last one carrying that id. */
  function DocFor(docs: seq<ActionDoc>, id: ActionId): (r: Option<ActionDoc>)
    ensures r.Some? ==> r.value in docs && r.value.id == id
    ensures r.None? ==> forall d :: d in docs ==> d.id != id
  {
    if docs == [] then None
    else if docs[|docs| - 1].id == id then Some(docs[|docs| - 1])
    else DocFor(docs[..|docs| - 1], id)
  }

  /** A saved back-pointer, kept when it names a loaded state. */
  function KnownState(p: Option<StateId>, states: map<StateId, AbstractState>): (r: Option<StateId>)
    ensures r.Some? ==> r.value in states
    ensures p.Some? && p.value in states ==> r == p
  {
    if p.Some? && p.value in states then p else None
  }

  /** The loaded graph with every state a node and every action's
      back-pointers read from its saved `src`/`dst`. */
  function Repaired(g: Graph, docs: seq<ActionDoc>): (r: Graph)
    ensures r.states == g.states && r.edges == g.edges && r.actions.Keys == g.actions.Keys
    ensures r.nodes == g.nodes + g.states.Keys
  {
    var actions := map id | id in g.actions ::
      match DocFor(docs, id)
      case None => g.actions[id]
      case Some(d) => g.actions[id].(source := KnownState(d.src, g.states), target := KnownState(d.dst, g.states));
    g.(actions := actions, nodes := g.nodes + g.states.Keys)
  }

  /** `from_json` reading the saved back-pointers and adding every state to
      the graph, as `get_or_create_state` does for a live knowledge. */
  function LoadRepaired(doc: Document): (r: Result<Loaded, LoadError>)
    ensures r.Ok? <==> Load(doc).Ok?
    ensures r.Ok? ==> r.value.stateOrder == Load(doc).value.stateOrder && r.value.actionOrder == Load(doc).value.actionOrder
  {
    match Load(doc)
    case Err(e) => Err(e)
    case Ok(l) => Ok(l.(graph := Repaired(l.graph, doc.actions)))
  }

  lemma {:induction false} DocForDumped(order: seq<ActionId>, actions: map<ActionId, AbstractAction>, id: ActionId)
    requires Distinct(order) && forall x :: x in order ==> x in actions && actions[x].id == x
    requires id in order
    ensures DocFor(DumpActions(order, actions), id) == Some(DumpAction(actions[id]))
  {
    var docs := DumpActions(order, actions);
    var init := order[..|order| - 1];
    var last := order[|order| - 1];
    if last != id {
      assert id in init by {
        var i :| 0 <= i < |order| && order[i] == id;
        assert i < |order| - 1;
        assert init[i] == id;
      }
      assert docs[..|docs| - 1] == DumpActions(init, actions);
      DocForDumped(init, actions, id);
    }
  }

  /** Reloading with the repaired loader restores the back-pointers of every
      action and makes every state a node of the graph. */
  lemma RoundTripRepaired(states: map<StateId, AbstractState>, stateOrder: seq<StateId>,
                          actions: map<ActionId, AbstractAction>, actionOrder: seq<ActionId>,
                          edges: seq<Edge>, unexplored: set<ActionId>)
    requires Tables(states, stateOrder, actions, actionOrder)
    requires Distinct(edges) && forall e :: e in edges ==> e.src in states && e.dst in states && e.action in actions
    ensures var r := LoadRepaired(Dump(states, stateOrder, actions, actionOrder, edges, unexplored));
      && r.Ok?
      && r.value.graph.nodes == states.Keys
      && (forall id :: id in r.value.graph.actions <==> id in actions)
      && (forall id :: id in actions ==>
            r.value.graph.actions[id].source == actions[id].source && r.value.graph.actions[id].target == actions[id].target)
  {
    var doc := Dump(states, stateOrder, actions, actionOrder, edges, unexplored);
    DumpLoads(states, stateOrder, actions, actionOrder, edges, unexplored);
    var h := Load(doc).value.graph;
    forall id | id in actions
      ensures Repaired(h, doc.actions).actions[id].source == actions[id].source
      ensures Repaired(h, doc.actions).actions[id].target == actions[id].target
    {
      DocForDumped(actionOrder, actions, id);
      RepairedAt(h, doc.actions, id, DumpAction(actions[id]));
      assert Linked(actions[id], states);
    }
  }

  /** The saved knowledge loads, with the same state and action ids and
      only known states as nodes. */
  lemma DumpLoads(states: map<StateId, AbstractState>, stateOrder: seq<StateId>,
                  actions: map<ActionId, AbstractAction>, actionOrder: seq<ActionId>,
                  edges: seq<Edge>, unexplored: set<ActionId>)
    requires Distinct(stateOrder) && forall id :: id in stateOrder <==> id in states
    requires Distinct(actionOrder) && forall id :: id in actionOrder <==> id in actions
    requires forall id :: id in states ==> states[id].id == id
    requires forall id :: id in actions ==> actions[id].id == id
    requires forall e :: e in edges ==> e.src in states && e.dst in states && e.action in actions
    ensures var r := Load(Dump(states, stateOrder, actions, actionOrder, edges, unexplored));
      && r.Ok?
      && (forall id :: id in r.value.graph.states <==> id in states)
      && (forall id :: id in r.value.graph.actions <==> id in actions)
      && (forall id :: id in r.value.graph.nodes ==> id in states)
  {
    var doc := Dump(states, stateOrder, actions, actionOrder, edges, unexplored);
    LoadDumpedStates(stateOrder, states);
    LoadDumpedActions(actionOrder, actions);
    var g := Graph(LoadStates(doc.states).0, LoadActions(doc.actions).value.0, {}, [], [], []);
    LinkEdgesOk(g, edges);
    var h := LinkEdges(g, edges).value;
    assert Load(doc) == Ok(Loaded(h, LoadStates(doc.states).1, LoadActions(doc.actions).value.1, unexplored));
    EndpointsKnown(edges, states);
  }

  lemma EndpointsKnown(edges: seq<Edge>, states: map<StateId, AbstractState>)
    requires forall e :: e in edges ==> e.src in states && e.dst in states
    ensures Endpoints(edges) <= states.Keys
  {
    forall x | x in Endpoints(edges)
      ensures x in states
    {
      if x in (set e | e in edges :: e.src) {
        var e :| e in edges && e.src == x;
      } else {
        var e :| e in edges && e.dst == x;
      }
    }
  }

  lemma RepairedAt(g: Graph, docs: seq<ActionDoc>, id: ActionId, d: ActionDoc)
    requires id in g.actions && DocFor(docs, id) == Some(d)
    ensures Repaired(g, docs).actions[id] == g.actions[id].(source := KnownState(d.src, g.states), target := KnownState(d.dst, g.states))
  {
  }

  /** As written, an action saved with a source state but no edge comes
      back without one, and a state with no edge is not a graph node. */
  lemma LoadLosesPointers()
    ensures var s := AbstractState("s", "sig", [], ["a"], "", []);
      var a := AbstractAction("a", Click, [UIElement("n", "")], Unexplored, "", Some("s"), None);
      var r := Load(Dump(map["s" := s], ["s"], map["a" := a], ["a"], [], {"a"}));
      && r.Ok? && r.value.graph.actions["a"].source.None? && "s" !in r.value.graph.nodes
  {
    var s := AbstractState("s", "sig", [], ["a"], "", []);
    var a := AbstractAction("a", Click, [UIElement("n", "")], Unexplored, "", Some("s"), None);
    RoundTrip(map["s" := s], ["s"], map["a" := a], ["a"], [], {"a"});
  }

  /** Three states `A`, `X`, `Y` and two actions `j`, `k`, not yet linked. */
  function ThreeStates(): Graph {
    Graph(map["A" := AbstractState("A", "a", [], [], "", []),
              "X" := AbstractState("X", "x", [], [], "", []),
              "Y" := AbstractState("Y", "y", [], [], "", [])],
          map["j" := AbstractAction("j", Click, [], Explored, "", None, None),
              "k" := AbstractAction("k", Click, [], Explored, "", None, None)],
          {}, [], [], [])
  }

  /** The first of the `add_edge` calls of `LiveLinks`. */
  lemma LiveLinksOne()
    ensures var h := LinkEdges(ThreeStates(), [Edge("A", "Y", "j")]);
      && h.Ok? && h.value.states.Keys == {"A", "X", "Y"} && h.value.actions.Keys == {"j", "k"}
      && h.value.nodeOrder == ["A", "Y"] && h.value.pairs == [("A", "Y")] && h.value.edges == [Edge("A", "Y", "j")]
  {
    var g := ThreeStates();
    assert [Edge("A", "Y", "j")][..0] == [];
    assert LinkEdges(g, []) == Ok(g);
  }

  /** The second `add_edge` call of `LiveLinks`, on a graph shaped as the
      first one leaves it. */
  lemma SecondLink(h: Graph)
    requires h.states.Keys == {"A", "X", "Y"} && h.actions.Keys == {"j", "k"}
    requires h.nodeOrder == ["A", "Y"] && h.pairs == [("A", "Y")] && h.edges == [Edge("A", "Y", "j")]
    ensures var h' := LinkOne(h, Edge("A", "X", "k"));
      && h'.Ok? && h'.value.states.Keys == {"A", "X", "Y"} && h'.value.actions.Keys == {"j", "k"}
      && h'.value.nodeOrder == ["A", "Y", "X"] && h'.value.pairs == [("A", "Y"), ("A", "X")]
      && h'.value.edges == [Edge("A", "Y", "j"), Edge("A", "X", "k")]
  {
    assert "A" in h.states && "X" in h.states && "k" in h.actions;
    assert "A" in ["A", "Y"] && "X" !in ["A", "Y"];
    assert ("A", "X") !in [("A", "Y")] && Edge("A", "X", "k") !in [Edge("A", "Y", "j")];
  }

  /** The first two of the `add_edge` calls of `LiveLinks`. */
  lemma LiveLinksTwo()
    ensures var h := LinkEdges(ThreeStates(), [Edge("A", "Y", "j"), Edge("A", "X", "k")]);
      && h.Ok? && h.value.states.Keys == {"A", "X", "Y"} && h.value.actions.Keys == {"j", "k"}
      && h.value.nodeOrder == ["A", "Y", "X"] && h.value.pairs == [("A", "Y"), ("A", "X")]
      && h.value.edges == [Edge("A", "Y", "j"), Edge("A", "X", "k")]
  {
    var e1, e2 := Edge("A", "Y", "j"), Edge("A", "X", "k");
    LiveLinksOne();
    var h1 := LinkEdges(ThreeStates(), [e1]).value;
    SecondLink(h1);
    assert [e1, e2][..1] == [e1];
    assert LinkEdges(ThreeStates(), [e1, e2]) == LinkOne(h1, e2);
  }

  /** The third `add_edge` call of `LiveLinks`, on a graph shaped as the
      first two leave it. */
  lemma ThirdLink(h: Graph)
    requires h.states.Keys == {"A", "X", "Y"} && h.actions.Keys == {"j", "k"}
    requires h.nodeOrder == ["A", "Y", "X"] && h.pairs == [("A", "Y"), ("A", "X")]
    requires h.edges == [Edge("A", "Y", "j"), Edge("A", "X", "k")]
    ensures var h' := LinkOne(h, Edge("A", "Y", "k"));
      && h'.Ok? && h'.value.actions["k"].target == Some("Y")
      && h'.value.nodeOrder == ["A", "Y", "X"] && h'.value.pairs == [("A", "Y"), ("A", "X")]
      && h'.value.edges == [Edge("A", "Y", "j"), Edge("A", "X", "k"), Edge("A", "Y", "k")]
  {
    assert "A" in h.states && "Y" in h.states && "k" in h.actions;
    assert "A" in ["A", "Y", "X"] && "Y" in ["A", "Y", "X"];
    assert ("A", "Y") in [("A", "Y"), ("A", "X")];
    assert Edge("A", "Y", "k") !in [Edge("A", "Y", "j"), Edge("A", "X", "k")];
  }

  /** `add_edge(A, Y, j)`, `add_edge(A, X, k)`, `add_edge(A, Y, k)` on a live
      graph: `k` points at `Y`, the nodes are in order `A, Y, X` and the
      pairs in order `(A, Y), (A, X)`. */
  lemma LiveLinks()
    ensures var live := LinkEdges(ThreeStates(), [Edge("A", "Y", "j"), Edge("A", "X", "k"), Edge("A", "Y", "k")]);
      && live.Ok? && live.value.actions["k"].target == Some("Y")
      && live.value.nodeOrder == ["A", "Y", "X"] && live.value.pairs == [("A", "Y"), ("A", "X")]
      && live.value.edges == [Edge("A", "Y", "j"), Edge("A", "X", "k"), Edge("A", "Y", "k")]
  {
    var e1, e2, e3 := Edge("A", "Y", "j"), Edge("A", "X", "k"), Edge("A", "Y", "k");
    LiveLinksTwo();
    var h2 := LinkEdges(ThreeStates(), [e1, e2]).value;
    ThirdLink(h2);
    assert [e1, e2, e3][..2] == [e1, e2];
    assert LinkEdges(ThreeStates(), [e1, e2, e3]) == LinkOne(h2, e3);
  }

  /** The edges of that graph between A and Y, then between A and X. */
  lemma AlongFromA()
    ensures EdgesAlong([Edge("A", "Y", "j"), Edge("A", "X", "k"), Edge("A", "Y", "k")], [("A", "Y"), ("A", "X")])
      == [Edge("A", "Y", "j"), Edge("A", "Y", "k"), Edge("A", "X", "k")]
  {
    var e1, e2, e3 := Edge("A", "Y", "j"), Edge("A", "X", "k"), Edge("A", "Y", "k");
    var es := [e1, e2, e3];
    assert es[1..] == [e2, e3] && es[1..][1..] == [e3] && es[1..][1..][1..] == [];
    assert EdgesBetween([e3], "A", "Y") == [e3] && EdgesBetween([e3], "A", "X") == [];
    assert EdgesBetween([e2, e3], "A", "Y") == [e3] && EdgesBetween([e2, e3], "A", "X") == [e2];
    assert EdgesBetween(es, "A", "Y") == [e1, e3];
    assert EdgesBetween(es, "A", "X") == [e2];
    var ps := [("A", "Y"), ("A", "X")];
    assert ps[1..] == [("A", "X")] && ps[1..][1..] == [];
    assert EdgesAlong(es, [("A", "X")]) == [e2];
  }

  /** The adjacency listing of that graph: both keys of `(A, Y)` come first. */
  lemma ListedByAdjacency()
    ensures AdjacencyEdges([Edge("A", "Y", "j"), Edge("A", "X", "k"), Edge("A", "Y", "k")], ["A", "Y", "X"], [("A", "Y"), ("A", "X")])
      == [Edge("A", "Y", "j"), Edge("A", "Y", "k"), Edge("A", "X", "k")]
  {
    var es := [Edge("A", "Y", "j"), Edge("A", "X", "k"), Edge("A", "Y", "k")];
    var ps := [("A", "Y"), ("A", "X")];
    AlongFromA();
    assert ps[1..] == [("A", "X")] && ps[1..][1..] == [];
    assert PairsFrom(ps, "A") == ps;
    var no := ["A", "Y", "X"];
    assert no[1..] == ["Y", "X"];
    assert AdjacencyEdges(es, ["Y", "X"], ps) == [];
  }

  /** As written, adjacency order moves a back-pointer: after the three
      `add_edge` calls of `LiveLinks` action `k` points at `Y`, but
      `to_json` lists `(A, Y, k)` before `(A, X, k)`, so `from_json`, which
      sets the pointers from the last edge carrying the key, points `k` at
      `X`. */
  lemma AdjacencyMovesPointer()
    ensures var live := LinkEdges(ThreeStates(), [Edge("A", "Y", "j"), Edge("A", "X", "k"), Edge("A", "Y", "k")]);
      && live.Ok? && live.value.actions["k"].target == Some("Y")
      && LastEdgeWith(AdjacencyEdges(live.value.edges, live.value.nodeOrder, live.value.pairs), "k")
           == Some(Edge("A", "X", "k"))
  {
    LiveLinks();
    ListedByAdjacency();
    var listed := [Edge("A", "Y", "j"), Edge("A", "Y", "k"), Edge("A", "X", "k")];
    assert LastEdgeWith(listed, "k") == Some(Edge("A", "X", "k"));
  }
}
