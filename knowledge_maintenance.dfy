/** The knowledge update run after every step of the explorer
    (`KnowledgeMaintainer.update_knowledge`): record the step, merge the new
    snapshot into a state, turn the snapshot's candidate actions into
    abstract actions, and update the flag and the graph for the action that
    led here. The hash function, the equivalence oracle and the grouping
    oracle's reply are parameters; the equivalence cache is threaded through. */
module KnowledgeMaintenance {
  import opened Outcomes
  import opened Text
  import opened JsonValues
  import opened Walks
  import opened Knowledge
  import opened StateMatcher
  import opened ElementGrouper

  /** An exception `update_knowledge` lets through: a missing key, a value
      of the wrong type (no `.get`, no `.strip`, not iterable, not
      subscriptable or not sliceable), or a value `ActionType` rejects. */
  datatype Raised = MissingKey | WrongType | BadValue

  /** Python's None: an absent value, or a JSON null. */
  predicate IsNone(o: Option<Json>) {
    o.None? || o.value == JNull
  }

  // ------------------------------------------------------------ states

  /** The serialised forms of a state's groups: the `seen_str` set. */
  function Dumps(groups: seq<Json>): set<string> {
    set g | g in groups :: SortedDump(g)
  }

  /** The groups of `gs`, in order, whose serialised form is not in `seen`
      (duplicates among `gs` themselves are all kept: `seen` is computed once). */
  function NewGroups(seen: set<string>, gs: seq<Json>): seq<Json> {
    if gs == [] then []
    else NewGroups(seen, gs[..|gs| - 1]) + (if SortedDump(gs[|gs| - 1]) in seen then [] else [gs[|gs| - 1]])
  }

  /** Exactly the groups whose serialised form is not yet seen are added. */
  lemma {:induction false} NewGroupsMeaning(seen: set<string>, gs: seq<Json>)
    ensures forall g :: g in NewGroups(seen, gs) <==> g in gs && SortedDump(g) !in seen
  {
    if gs != [] {
      NewGroupsMeaning(seen, gs[..|gs| - 1]);
      assert gs == gs[..|gs| - 1] + [gs[|gs| - 1]];
    }
  }

  /** Nothing is new when every group has been seen. */
  lemma {:induction false} NewGroupsSeen(seen: set<string>, gs: seq<Json>)
    requires forall g :: g in gs ==> SortedDump(g) in seen
    ensures NewGroups(seen, gs) == []
  {
    if gs != [] {
      assert gs[|gs| - 1] in gs;
      NewGroupsSeen(seen, gs[..|gs| - 1]);
    }
  }

  /** Merging the same groups a second time adds nothing. */
  lemma MergeTwice(existing: seq<Json>, gs: seq<Json>)
    ensures NewGroups(Dumps(existing + NewGroups(Dumps(existing), gs)), gs) == []
  {
    var merged := existing + NewGroups(Dumps(existing), gs);
    NewGroupsMeaning(Dumps(existing), gs);
    forall g | g in gs
      ensures SortedDump(g) in Dumps(merged)
    {
      if SortedDump(g) in Dumps(existing) {
        var h :| h in existing && SortedDump(h) == SortedDump(g);
        assert h in merged;
      } else {
        assert g in merged;
      }
    }
    NewGroupsSeen(Dumps(merged), gs);
  }

  /** The merge loop over `element_groups` of a matched state: nothing
      happens for a falsy value; a value that cannot be iterated raises;
      otherwise the new groups are appended and the existing ones kept. */
  method MergeGroups(existing: seq<Json>, egroups: Json) returns (r: Result<seq<Json>, Raised>)
    ensures !Truthy(egroups) ==> r == Ok(existing)
    ensures Truthy(egroups) && Items(egroups).None? ==> r == Err(WrongType)
    ensures Truthy(egroups) && Items(egroups).Some? ==>
      r == Ok(existing + NewGroups(Dumps(existing), Items(egroups).value))
  {
    if !Truthy(egroups) {
      return Ok(existing);
    }
    var items := Items(egroups);
    if items.None? {
      return Err(WrongType);
    }
    var merged := AppendUnseen(existing, Dumps(existing), items.value);
    r := Ok(merged);
  }

  /** The loop of the merge: each group of `gs` whose serialised form is
      not in `seen` is appended to `existing`, in order. */
  method AppendUnseen(existing: seq<Json>, seen: set<string>, gs: seq<Json>) returns (merged: seq<Json>)
    ensures merged == existing + NewGroups(seen, gs)
  {
    merged := existing;
    for i := 0 to |gs|
      invariant merged == existing + NewGroups(seen, gs[..i])
    {
      assert gs[..i + 1][..i] == gs[..i];
      if SortedDump(gs[i]) !in seen {
        merged := merged + [gs[i]];
      }
    }
    assert gs[..|gs|] == gs;
  }

  /** `element_groups` of a snapshot as a new state stores it; a value that
      is no list is read as []. */
  function SnapshotGroups(snap: Json): seq<Json> {
    match GetOr(snap, "element_groups", JList([]))
    case JList(items) => items
    case _ => []
  }

  /** A matched state after the snapshot is appended and an empty page
      description filled in from the snapshot. */
  function Touched(s: AbstractState, snap: Json): AbstractState {
    s.(concrete := s.concrete + [snap],
       pageDescription := if s.pageDescription == "" && snap.JDict? then GetStr(snap, "page_description", "")
                          else s.pageDescription)
  }

  /** The groups a matched state gains from the snapshot. */
  function GainedGroups(existing: seq<Json>, snap: Json): seq<Json> {
    var eg := GetOr(snap, "element_groups", JList([]));
    if snap.JDict? && Truthy(eg) && Items(eg).Some? then NewGroups(Dumps(existing), Items(eg).value) else []
  }

  /** Merging into a matched state raises when its `element_groups` is
      truthy but cannot be iterated. */
  predicate GroupsRaise(snap: Json) {
    var eg := GetOr(snap, "element_groups", JList([]));
    snap.JDict? && Truthy(eg) && Items(eg).None?
  }

  /** A new state as `update_knowledge` fills it in. */
  function NewState(id: StateId, sig: string, snap: Json): AbstractState {
    AbstractState(id, sig, [snap], [],
                  if snap.JDict? then GetStr(snap, "page_description", "") else "",
                  if snap.JDict? then SnapshotGroups(snap) else [])
  }

  /** A state after a matched snapshot is merged into it. */
  function Absorbed(s: AbstractState, snap: Json): AbstractState {
    Touched(s, snap).(elementGroups := s.elementGroups + GainedGroups(s.elementGroups, snap))
  }

  /** Step 2 for an unmatched snapshot: a new state with the snapshot's
      signature, holding the snapshot, its page description and its groups. */
  method AddSnapshotState(k: AppKnowledge, sig: string, snap: Json) returns (id: StateId)
    requires k.Valid() && FirstWithSignature(k.stateOrder, k.states, sig).None?
    modifies k, k.aig
    ensures k.Valid() && (old(k.IndexExact()) ==> k.IndexExact())
    ensures id !in old(k.states) && k.states == old(k.states)[id := NewState(id, sig, snap)]
    ensures k.stateOrder == old(k.stateOrder) + [id] && k.aig.nodes == old(k.aig.nodes) + {id}
    ensures k.actions == old(k.actions) && k.actionOrder == old(k.actionOrder) && k.unexplored == old(k.unexplored)
    ensures k.aig.edges == old(k.aig.edges) && k.rawTrace == old(k.rawTrace) && EndsIn(k.states, id, snap)
  {
    ghost var s0 := k.states;
    id := k.GetOrCreateState(sig);
    ghost var s1 := k.states;
    var s := k.states[id];
    assert s.concrete + [snap] == [snap];
    s := s.(concrete := s.concrete + [snap]);
    if snap.JDict? {
      s := s.(pageDescription := GetStr(snap, "page_description", ""), elementGroups := SnapshotGroups(snap));
    }
    assert s == NewState(id, sig, snap);
    k.SetState(s);
    SetTwice(s0, id, s1, s);
  }

  /** Step 2 for a matched state: the snapshot is appended, an empty page
      description filled in, and the snapshot's unseen groups added. */
  method TouchState(k: AppKnowledge, id: StateId, snap: Json) returns (r: Result<(), Raised>)
    requires k.Valid() && id in k.states
    modifies k
    ensures k.Valid() && (old(k.IndexExact()) ==> k.IndexExact())
    ensures r.Err? <==> GroupsRaise(snap)
    ensures r.Err? ==> r.error == WrongType
    ensures k.states == old(k.states)[id := Absorbed(old(k.states[id]), snap)]
    ensures k.stateOrder == old(k.stateOrder) && k.actions == old(k.actions) && k.actionOrder == old(k.actionOrder)
    ensures k.unexplored == old(k.unexplored) && k.rawTrace == old(k.rawTrace) && EndsIn(k.states, id, snap)
  {
    var s := Touched(k.states[id], snap);
    assert s.elementGroups + [] == s.elementGroups;
    r := Ok(());
    if snap.JDict? {
      var merged := MergeGroups(s.elementGroups, GetOr(snap, "element_groups", JList([])));
      if merged.Err? {
        r := Err(merged.error);
      } else {
        s := s.(elementGroups := merged.value);
      }
    }
    k.SetState(s);
  }

  /** Step 2 taken from tables `x` to `y`: the two-tier match decides; a
      match absorbs the snapshot (raising when its groups cannot be
      iterated, after the snapshot and page description are in), and no
      match makes a new state with a fresh id, carrying the signature.
      The action tables are untouched. */
  ghost predicate StateMerged(x: Before, sha256: string -> string, oracle: Option<(Json, Json) -> bool>, cache: Cache,
                              snap: Json, y: Before, r: Result<(), Raised>, id: StateId, after: Cache) {
    && (forall s :: s in x.stateOrder ==> s in x.states)
    && var m := MatchOutcome(sha256, oracle, x.stateOrder, x.states, snap, cache);
    && after == m.1
    && y.actions == x.actions && y.actionOrder == x.actionOrder
    && y.unexplored == x.unexplored && y.rawTrace == x.rawTrace
    && match m.0
       case Some(s) =>
         && id == s && (r.Err? <==> GroupsRaise(snap)) && (r.Err? ==> r.error == WrongType)
         && y.stateOrder == x.stateOrder && y.states == x.states[id := Absorbed(x.states[id], snap)]
       case None =>
         && r.Ok? && id !in x.states && y.stateOrder == x.stateOrder + [id]
         && y.states == x.states[id := NewState(id, Signature(sha256, snap), snap)]
  }

  /** Step 2 of `update_knowledge`: the snapshot goes to the matched state,
      or to a new state carrying its signature; either way to exactly one
      state, at the end of its snapshots. */
  method MergeState(k: AppKnowledge, sha256: string -> string, oracle: Option<(Json, Json) -> bool>,
                    cache: Cache, snap: Json)
    returns (r: Result<(), Raised>, id: StateId, after: Cache)
    requires k.Valid()
    modifies k, k.aig
    ensures k.Valid() && (old(k.IndexExact()) ==> k.IndexExact())
    ensures EndsIn(k.states, id, snap)
    ensures id in old(k.states) ==> k.aig.nodes == old(k.aig.nodes)
    ensures id !in old(k.states) ==> k.aig.nodes == old(k.aig.nodes) + {id}
    ensures k.aig.edges == old(k.aig.edges)
    ensures StateMerged(old(BeforeOf(k)), sha256, oracle, cache, snap, BeforeOf(k), r, id, after)
  {
    var m;
    m, after := MatchKnown(k, sha256, oracle, cache, snap);
    if m.None? {
      id := AddSnapshotState(k, Signature(sha256, snap), snap);
      return Ok(()), id, after;
    }
    id := m.value;
    r := TouchState(k, id, snap);
  }

  /** What step 2 did, from tables `x` to `y`: the state the snapshot went
      to is the match outcome's when there is one, so the first state with
      the snapshot's signature when there is one; a matched state absorbs
      the snapshot, raising exactly when its groups cannot be iterated; with
      no match a new state carrying the signature is appended; either way
      the snapshot ends that state's snapshots. */
  lemma MergedMeaning(x: Before, sha256: string -> string, oracle: Option<(Json, Json) -> bool>, cache: Cache,
                      snap: Json, y: Before, r: Result<(), Raised>, id: StateId, after: Cache)
    requires StateMerged(x, sha256, oracle, cache, snap, y, r, id, after)
    ensures var m := MatchOutcome(sha256, oracle, x.stateOrder, x.states, snap, cache);
      && after == m.1
      && (m.0.Some? ==> id == m.0.value)
      && (m.0.None? <==> id !in x.states)
    ensures FirstWithSignature(x.stateOrder, x.states, Signature(sha256, snap)).Some? ==>
      id == FirstWithSignature(x.stateOrder, x.states, Signature(sha256, snap)).value
    ensures id in x.states ==>
      && y.stateOrder == x.stateOrder && (r.Err? <==> GroupsRaise(snap))
      && y.states == x.states[id := Absorbed(x.states[id], snap)]
    ensures id !in x.states ==>
      && r.Ok? && y.states == x.states[id := NewState(id, Signature(sha256, snap), snap)]
      && y.stateOrder == x.stateOrder + [id]
    ensures y.actions == x.actions && y.actionOrder == x.actionOrder && y.unexplored == x.unexplored
    ensures y.rawTrace == x.rawTrace && EndsIn(y.states, id, snap)
  {
  }

  /** `match_state` on the knowledge's tables: the two-tier outcome, so an
      exact match is the first state with the signature, and any match is a
      known state. */
  method MatchKnown(k: AppKnowledge, sha256: string -> string, oracle: Option<(Json, Json) -> bool>,
                    cache: Cache, snap: Json)
    returns (m: Option<StateId>, after: Cache)
    requires k.Valid()
    ensures (m, after) == MatchOutcome(sha256, oracle, k.stateOrder, k.states, snap, cache)
    ensures m.Some? ==> m.value in k.states
    ensures FirstWithSignature(k.stateOrder, k.states, Signature(sha256, snap)).Some? ==>
      m == FirstWithSignature(k.stateOrder, k.states, Signature(sha256, snap))
    ensures m.None? ==> FirstWithSignature(k.stateOrder, k.states, Signature(sha256, snap)).None?
  {
    m, after := MatchState(sha256, oracle, k.stateOrder, k.states, snap, cache);
    MatchOutcomeMeaning(sha256, oracle, k.stateOrder, k.states, snap, cache);
  }

  // ----------------------------------------------------------- actions

  /** What `_action_matches_existing` reads before its loop: the trimmed,
      lower-cased function text and the stringified element id. */
  datatype Candidate = Candidate(raw: Json, func: string, elemId: string)

  /** Reading a candidate raises when it is no dict, when its "function" is
      no string, or when it has no "element_id". */
  function ReadCandidate(c: Json): (r: Result<Candidate, Raised>)
    ensures r.Ok? <==> c.JDict? && GetOr(c, "function", JStr("")).JStr? && HasKey(c, "element_id")
    ensures r.Ok? ==>
      && r.value.raw == c && r.value.elemId == PyStr(Lookup(c, "element_id").value)
      && r.value.func == Lower(Strip(GetOr(c, "function", JStr("")).s))
  {
    if !c.JDict? then Err(WrongType)
    else match GetOr(c, "function", JStr(""))
      case JStr(f) =>
        (match Lookup(c, "element_id")
         case None => Err(MissingKey)
         case Some(e) => Ok(Candidate(c, Lower(Strip(f)), PyStr(e))))
      case _ => Err(WrongType)
  }

  /** How an existing action matches a candidate: same type required; then
      by element id, by function text, or by xpath, in that order. */
  datatype Hit = ById | ByFunction | ByXpath | Miss

  predicate SameType(a: AbstractAction, c: Candidate) {
    Lookup(c.raw, "action_type") == Some(JStr(TypeValue(a.actionType)))
  }

  function HitOf(a: AbstractAction, c: Candidate): (h: Hit)
    ensures h != Miss ==> SameType(a, c)
    ensures h == ById <==> SameType(a, c) && exists e :: e in a.elements && e.nodeId == c.elemId
  {
    var xpath := GetOr(c.raw, "xpath", JNull);
    if !SameType(a, c) then Miss
    else if exists e :: e in a.elements && e.nodeId == c.elemId then ById
    else if c.func != "" && Lower(Strip(a.functionDesc)) == c.func then ByFunction
    else if Truthy(xpath) && exists e :: e in a.elements && JStr(e.description) == xpath then ByXpath
    else Miss
  }

  /** The action after a hit: a function-text hit adds the candidate's
      element with no locator, an xpath hit adds it with the xpath. */
  function Merged(a: AbstractAction, c: Candidate): (r: AbstractAction)
    ensures r == a.(elements := r.elements) && a.elements <= r.elements && |r.elements| <= |a.elements| + 1
    ensures HitOf(a, c) != Miss ==> HitOf(r, c) == ById
    ensures HitOf(a, c) == ById || HitOf(a, c) == Miss ==> r == a
  {
    match HitOf(a, c)
    case ByFunction =>
      var r := a.(elements := a.elements + [UIElement(c.elemId, "")]);
      assert r.elements[|a.elements|] in r.elements;
      r
    case ByXpath =>
      var r := a.(elements := a.elements + [UIElement(c.elemId, GetStr(c.raw, "xpath", ""))]);
      assert r.elements[|a.elements|] in r.elements;
      r
    case _ => a
  }

  /** The first action, in table order, that the candidate hits. */
  function FirstHit(order: seq<ActionId>, actions: map<ActionId, AbstractAction>, c: Candidate): (r: Option<ActionId>)
    requires forall id :: id in order ==> id in actions
    ensures r.Some? ==> exists i :: 0 <= i < |order| && order[i] == r.value && HitOf(actions[r.value], c) != Miss
                         && forall j :: 0 <= j < i ==> HitOf(actions[order[j]], c) == Miss
    ensures r.None? ==> forall id :: id in order ==> HitOf(actions[id], c) == Miss
  {
    if order == [] then None
    else if HitOf(actions[order[0]], c) != Miss then Some(order[0])
    else
      var rest := FirstHit(order[1..], actions, c);
      if rest.Some? then
        var i :| 0 <= i < |order[1..]| && order[1..][i] == rest.value && HitOf(actions[rest.value], c) != Miss
                 && forall j :: 0 <= j < i ==> HitOf(actions[order[1..][j]], c) == Miss;
        assert order[i + 1] == rest.value;
        rest
      else rest
  }

  lemma {:induction false} FirstHitAt(order: seq<ActionId>, actions: map<ActionId, AbstractAction>, c: Candidate, i: nat)
    requires forall id :: id in order ==> id in actions
    requires i < |order| && HitOf(actions[order[i]], c) != Miss
    requires forall j :: 0 <= j < i ==> HitOf(actions[order[j]], c) == Miss
    ensures FirstHit(order, actions, c) == Some(order[i])
  {
    FirstHitStep(order, actions, c);
    if i > 0 {
      var rest := order[1..];
      assert forall j :: 0 <= j < i - 1 ==> rest[j] == order[j + 1];
      FirstHitAt(rest, actions, c, i - 1);
    }
  }

  /** `FirstHit` looks at the head of the order first. */
  lemma FirstHitStep(order: seq<ActionId>, actions: map<ActionId, AbstractAction>, c: Candidate)
    requires forall id :: id in order ==> id in actions
    requires order != []
    ensures FirstHit(order, actions, c) ==
      if HitOf(actions[order[0]], c) != Miss then Some(order[0]) else FirstHit(order[1..], actions, c)
  {
  }

  /** Matching the same candidate again, after a merge, finds the same
      action by its element id and changes nothing more. */
  lemma MatchAgain(order: seq<ActionId>, actions: map<ActionId, AbstractAction>, c: Candidate)
    requires forall id :: id in order ==> id in actions
    requires FirstHit(order, actions, c).Some?
    ensures var id := FirstHit(order, actions, c).value;
      var after := actions[id := Merged(actions[id], c)];
      && FirstHit(order, after, c) == Some(id)
      && HitOf(after[id], c) == ById && Merged(after[id], c) == after[id]
  {
    var id := FirstHit(order, actions, c).value;
    var after := actions[id := Merged(actions[id], c)];
    var i :| 0 <= i < |order| && order[i] == id && HitOf(actions[id], c) != Miss
             && forall j :: 0 <= j < i ==> HitOf(actions[order[j]], c) == Miss;
    forall j | 0 <= j < i
      ensures HitOf(after[order[j]], c) == Miss
    {
      assert order[j] != id;
    }
    FirstHitAt(order, after, c, i);
  }

  /** `_action_matches_existing`: the first action, in table order, that
      the candidate hits is merged with it; True exactly when there is one.
      Reading the candidate's "action_type" raises only when there is an
      action to compare it with. */
  method ActionMatchesExisting(k: AppKnowledge, c: Candidate) returns (r: Result<bool, Raised>)
    requires k.Valid()
    modifies k
    ensures k.Valid() && (old(k.IndexExact()) ==> k.IndexExact())
    ensures r.Err? <==> old(k.actionOrder) != [] && !HasKey(c.raw, "action_type")
    ensures r.Err? ==> r.error == MissingKey && k.actions == old(k.actions)
    ensures r.Ok? ==> var hit := FirstHit(old(k.actionOrder), old(k.actions), c);
      && (r.value <==> hit.Some?)
      && k.actions == if hit.Some? then old(k.actions)[hit.value := Merged(old(k.actions[hit.value]), c)] else old(k.actions)
    ensures k.actions.Keys == old(k.actions).Keys
    ensures forall id :: id in old(k.actions) ==> Grown(old(k.actions[id]), k.actions[id])
    ensures k.states == old(k.states) && k.stateOrder == old(k.stateOrder) && k.actionOrder == old(k.actionOrder)
    ensures k.unexplored == old(k.unexplored) && k.rawTrace == old(k.rawTrace)
  {
    if k.actionOrder != [] && !HasKey(c.raw, "action_type") {
      return Err(MissingKey);
    }
    var hit := FindHit(k.actionOrder, k.actions, c);
    if hit.None? {
      return Ok(false);
    }
    var a := k.actions[hit.value];
    if HitOf(a, c) != ById {
      k.SetElements(hit.value, Merged(a, c).elements);
    }
    r := Ok(true);
  }

  /** The search loop of `_action_matches_existing`: the first action, in
      table order, that the candidate hits. */
  method FindHit(order: seq<ActionId>, actions: map<ActionId, AbstractAction>, c: Candidate) returns (r: Option<ActionId>)
    requires forall id :: id in order ==> id in actions
    ensures r == FirstHit(order, actions, c)
  {
    var i := 0;
    while i < |order|
      invariant 0 <= i <= |order|
      invariant FirstHit(order[i..], actions, c) == FirstHit(order, actions, c)
    {
      if HitOf(actions[order[i]], c) != Miss {
        assert order[i..][0] == order[i];
        return Some(order[i]);
      }
      assert order[i..][1..] == order[i + 1..];
      i := i + 1;
    }
    r := None;
  }

  /** `concrete_action.get("elements", [])[1:]`, stringified: a list or a
      string can be sliced; a dict looks the slice up as a key, which is
      never there, and anything else raises a type error. */
  function ElementsTail(c: Json): Result<seq<string>, Raised> {
    match Lookup(c, "elements")
    case None => Ok([])
    case Some(JList(items)) => Ok(if items == [] then [] else Stringified(items[1..]))
    case Some(JStr(s)) => Ok(if s == [] then [] else seq(|s| - 1, i requires 0 <= i < |s| - 1 => [s[i + 1]]))
    case Some(JDict(_)) => Err(MissingKey)
    case Some(_) => Err(WrongType)
  }

  /** `ActionType(concrete_action["action_type"])` */
  function CandidateType(c: Json): Result<ActionType, Raised> {
    match Lookup(c, "action_type")
    case None => Err(MissingKey)
    case Some(JStr(s)) => if ParseType(s).Some? then Ok(ParseType(s).value) else Err(BadValue)
    case Some(_) => Err(BadValue)
  }

  /** The exception `_create_abstract_action` raises for a candidate, if
      any: slicing its "elements" first, then reading its type. */
  function CreateFails(c: Json): (r: Option<Raised>)
    ensures r.None? <==> ElementsTail(c).Ok? && CandidateType(c).Ok?
    ensures ElementsTail(c).Err? ==> r == Some(ElementsTail(c).error)
  {
    if ElementsTail(c).Err? then Some(ElementsTail(c).error)
    else if CandidateType(c).Err? then Some(CandidateType(c).error)
    else None
  }

  /** The action `_create_abstract_action` builds from candidate `c` with
      `id` as its id: UNEXPLORED, without back-pointers, of the candidate's
      type and function text, its element list led by the candidate's own
      element with its xpath. */
  function CreatedAction(c: Candidate, id: ActionId): (r: Result<AbstractAction, Raised>)
    ensures r.Err? <==> CreateFails(c.raw).Some?
    ensures r.Err? ==> r.error == CreateFails(c.raw).value
    ensures r.Ok? ==>
      && r.value.id == id && r.value.actionType == CandidateType(c.raw).value
      && r.value.flag == Unexplored && r.value.source.None? && r.value.target.None?
      && |r.value.elements| == 1 + |ElementsTail(c.raw).value|
      && r.value.elements[0] == UIElement(c.elemId, GetStr(c.raw, "xpath", ""))
  {
    if CreateFails(c.raw).Some? then Err(CreateFails(c.raw).value)
    else
      var tail := ElementsTail(c.raw).value;
      Ok(AbstractAction(id, CandidateType(c.raw).value,
                        [UIElement(c.elemId, GetStr(c.raw, "xpath", ""))] + seq(|tail|, i requires 0 <= i < |tail| => UIElement(tail[i], "")),
                        Unexplored, GetStr(c.raw, "function", ""), None, None))
  }

  /** `_create_abstract_action`, with `id` the new action's id: the element
      list is never empty; it starts with the candidate's own element and
      its xpath, followed by the rest of its group without locators. */
  method CreateAbstractAction(c: Candidate, id: ActionId) returns (r: Result<AbstractAction, Raised>)
    ensures r.Ok? <==> ElementsTail(c.raw).Ok? && CandidateType(c.raw).Ok?
    ensures r.Ok? ==>
      && r.value.id == id && r.value.actionType == CandidateType(c.raw).value
      && |r.value.elements| == 1 + |ElementsTail(c.raw).value|
      && r.value.elements[0] == UIElement(c.elemId, GetStr(c.raw, "xpath", ""))
      && (forall i :: 1 <= i < |r.value.elements| ==> r.value.elements[i] == UIElement(ElementsTail(c.raw).value[i - 1], ""))
      && r.value.flag == Unexplored && r.value.source.None? && r.value.target.None?
      && r.value.functionDesc == GetStr(c.raw, "function", "")
    ensures r == CreatedAction(c, id)
  {
    var head := UIElement(c.elemId, GetStr(c.raw, "xpath", ""));
    var tail := ElementsTail(c.raw);
    if tail.Err? {
      return Err(tail.error);
    }
    var elems := AppendBlank(head, tail.value);
    var t := CandidateType(c.raw);
    if t.Err? {
      return Err(t.error);
    }
    assert elems == [head] + seq(|tail.value|, i requires 0 <= i < |tail.value| => UIElement(tail.value[i], ""));
    assert CreateFails(c.raw).None?;
    r := Ok(AbstractAction(id, t.value, elems, Unexplored, GetStr(c.raw, "function", ""), None, None));
  }

  /** The element loop of `_create_abstract_action`: after `head`, one
      element per id, with no locator. */
  method AppendBlank(head: UIElement, ids: seq<string>) returns (elems: seq<UIElement>)
    ensures |elems| == 1 + |ids| && elems[0] == head
    ensures forall j :: 1 <= j < |elems| ==> elems[j] == UIElement(ids[j - 1], "")
  {
    elems := [head];
    for i := 0 to |ids|
      invariant |elems| == 1 + i && elems[0] == head
      invariant forall j :: 1 <= j < |elems| ==> elems[j] == UIElement(ids[j - 1], "")
    {
      elems := elems + [UIElement(ids[i], "")];
    }
  }

  /** `_match_abstract_action`: the first action, in table order, of the
      step's type with an element of the step's element id. Subscripting a
      step that is no dict raises, and so does a missing key, each only
      when it is reached. */
  function MatchAbstractAction(order: seq<ActionId>, actions: map<ActionId, AbstractAction>, step: Json): (r: Result<Option<ActionId>, Raised>)
    requires forall id :: id in order ==> id in actions
    ensures r.Ok? && r.value.Some? ==>
      && r.value.value in order
      && Lookup(step, "action_type") == Some(JStr(TypeValue(actions[r.value.value].actionType)))
      && HasKey(step, "element_id")
      && exists e :: e in actions[r.value.value].elements && e.nodeId == PyStr(Lookup(step, "element_id").value)
    ensures r.Ok? && r.value.None? ==> forall id :: id in order ==>
      || Lookup(step, "action_type") != Some(JStr(TypeValue(actions[id].actionType)))
      || (&& HasKey(step, "element_id")
          && forall e :: e in actions[id].elements ==> e.nodeId != PyStr(Lookup(step, "element_id").value))
    ensures order == [] ==> r == Ok(None)
  {
    if order == [] then Ok(None)
    else if !step.JDict? then Err(WrongType)
    else match Lookup(step, "action_type")
      case None => Err(MissingKey)
      case Some(t) =>
        if t != JStr(TypeValue(actions[order[0]].actionType)) then MatchAbstractAction(order[1..], actions, step)
        else match Lookup(step, "element_id")
          case None => Err(MissingKey)
          case Some(e) =>
            if exists el :: el in actions[order[0]].elements && el.nodeId == PyStr(e) then Ok(Some(order[0]))
            else MatchAbstractAction(order[1..], actions, step)
  }

  /** An action that differs from `before` at most by elements appended. */
  ghost predicate Grown(before: AbstractAction, after: AbstractAction) {
    after == before.(elements := after.elements) && before.elements <= after.elements
  }

  /** The tables of a knowledge object at some earlier point. */
  datatype Before = Before(actions: map<ActionId, AbstractAction>, actionOrder: seq<ActionId>,
                           unexplored: set<ActionId>, states: map<StateId, AbstractState>,
                           stateOrder: seq<StateId>, rawTrace: seq<TraceItem>)

  ghost function BeforeOf(k: AppKnowledge): Before
    reads k
  {
    Before(k.actions, k.actionOrder, k.unexplored, k.states, k.stateOrder, k.rawTrace)
  }

  /** A new action from a candidate in state `sid`: registered UNEXPLORED,
      indexed, sourced in the state and listed by it. */
  ghost predicate CreatedIn(t: Before, id: ActionId, sid: StateId) {
    && id in t.actions && t.actions[id].flag == Unexplored && id in t.unexplored
    && t.actions[id].source == Some(sid) && t.actions[id].target.None?
    && sid in t.states && id in t.states[sid].actions
  }

  /** The state table after state `sid` lists the actions `more` as well. */
  function Listed(states: map<StateId, AbstractState>, sid: StateId, more: seq<ActionId>): map<StateId, AbstractState>
    requires sid in states
  {
    states[sid := states[sid].(actions := states[sid].actions + more)]
  }

  lemma ListedTwice(states: map<StateId, AbstractState>, sid: StateId, a: seq<ActionId>, b: seq<ActionId>)
    requires sid in states
    ensures Listed(Listed(states, sid, a), sid, b) == Listed(states, sid, a + b)
    ensures Listed(states, sid, []) == states
  {
    assert states[sid].actions + a + b == states[sid].actions + (a + b);
    assert states[sid].actions + [] == states[sid].actions;
  }

  /** Registering a new action of state `sid` and listing it in the state. */
  method AddCreated(k: AppKnowledge, a: AbstractAction, sid: StateId)
    requires k.Valid() && sid in k.states && a.id !in k.actions
    requires a.flag == Unexplored && a.source == Some(sid) && a.target.None?
    modifies k
    ensures k.Valid() && (old(k.IndexExact()) ==> k.IndexExact())
    ensures k.actions == old(k.actions)[a.id := a] && CreatedIn(BeforeOf(k), a.id, sid)
    ensures k.actionOrder == old(k.actionOrder) + [a.id] && k.unexplored == old(k.unexplored) + {a.id}
    ensures k.states == Listed(old(k.states), sid, [a.id])
    ensures k.stateOrder == old(k.stateOrder) && k.rawTrace == old(k.rawTrace)
  {
    k.RegisterAction(a);
    var s := k.states[sid];
    assert a.id !in s.actions;
    k.SetState(s.(actions := s.actions + [a.id]));
  }

  /** One candidate of step 3 taken from tables `x` to `y` with outcome
      `r`: reading it may raise; a candidate that hits an existing action is
      merged into the first one hit; any other becomes exactly one new
      action, with an id not yet used, built by `_create_abstract_action`,
      sourced in and listed by state `sid`, UNEXPLORED and indexed, and
      appended to the action order, unless building it raises. Nothing else
      changes, and nothing at all when it raises. */
  ghost predicate Handled(x: Before, c: Json, sid: StateId, y: Before, r: Result<Option<ActionId>, Raised>) {
    && sid in x.states && (forall id :: id in x.actionOrder ==> id in x.actions)
    && match ReadCandidate(c)
       case Err(e) => r == Err(e) && y == x
       case Ok(cand) =>
         if x.actionOrder != [] && !HasKey(c, "action_type") then r == Err(MissingKey) && y == x
         else match FirstHit(x.actionOrder, x.actions, cand)
           case Some(h) => r == Ok(None) && y == x.(actions := x.actions[h := Merged(x.actions[h], cand)])
           case None =>
             match CreateFails(c)
             case Some(e) => r == Err(e) && y == x
             case None =>
               && r.Ok? && r.value.Some? && r.value.value !in x.actions
               && var id := r.value.value;
                  y == x.(actions := x.actions[id := CreatedAction(cand, id).value.(source := Some(sid))],
                          actionOrder := x.actionOrder + [id], unexplored := x.unexplored + {id},
                          states := Listed(x.states, sid, [id]))
  }

  /** One candidate of step 3: nothing new when it matches an existing
      action; otherwise exactly one new action, created in state `sid`. */
  method ProcessOne(k: AppKnowledge, c: Json, sid: StateId) returns (r: Result<Option<ActionId>, Raised>)
    requires k.Valid() && sid in k.states
    modifies k
    ensures k.Valid() && (old(k.IndexExact()) ==> k.IndexExact())
    ensures forall id :: id in old(k.actions) ==> id in k.actions && Grown(old(k.actions[id]), k.actions[id])
    ensures r.Ok? && r.value.Some? ==>
      && r.value.value !in old(k.actions) && CreatedIn(BeforeOf(k), r.value.value, sid)
      && k.actionOrder == old(k.actionOrder) + [r.value.value]
      && k.unexplored == old(k.unexplored) + {r.value.value}
      && k.states == Listed(old(k.states), sid, [r.value.value])
    ensures !(r.Ok? && r.value.Some?) ==>
      && k.actionOrder == old(k.actionOrder) && k.unexplored == old(k.unexplored) && k.states == old(k.states)
    ensures k.stateOrder == old(k.stateOrder) && k.rawTrace == old(k.rawTrace)
    ensures r.Ok? ==>
      && ReadCandidate(c).Ok?
      && (r.value.Some? <==> FirstHit(old(k.actionOrder), old(k.actions), ReadCandidate(c).value).None?)
    ensures Handled(old(BeforeOf(k)), c, sid, BeforeOf(k), r)
  {
    ghost var x := BeforeOf(k);
    var cand := ReadCandidate(c);
    if cand.Err? {
      return Err(cand.error);
    }
    var matched := ActionMatchesExisting(k, cand.value);
    if matched.Err? {
      assert BeforeOf(k) == x;
      return Err(matched.error);
    }
    ghost var hit := FirstHit(x.actionOrder, x.actions, cand.value);
    if matched.value {
      assert BeforeOf(k) == x.(actions := x.actions[hit.value := Merged(x.actions[hit.value], cand.value)]);
      return Ok(None);
    }
    assert BeforeOf(k) == x && hit.None?;
    r := NewAction(k, cand.value, sid);
    NewHandled(x, c, cand.value, sid, BeforeOf(k), r);
  }

  /** The case of `Handled` where the candidate hits nothing. */
  lemma NewHandled(x: Before, c: Json, cand: Candidate, sid: StateId, y: Before, r: Result<Option<ActionId>, Raised>)
    requires sid in x.states && (forall id :: id in x.actionOrder ==> id in x.actions)
    requires ReadCandidate(c) == Ok(cand) && !(x.actionOrder != [] && !HasKey(c, "action_type"))
    requires FirstHit(x.actionOrder, x.actions, cand).None?
    requires r.Err? <==> CreateFails(c).Some?
    requires r.Err? ==> r.error == CreateFails(c).value && y == x
    requires r.Ok? ==>
      && r.value.Some? && r.value.value !in x.actions
      && y.actions == x.actions[r.value.value := CreatedAction(cand, r.value.value).value.(source := Some(sid))]
      && y.actionOrder == x.actionOrder + [r.value.value] && y.unexplored == x.unexplored + {r.value.value}
      && y.states == Listed(x.states, sid, [r.value.value])
      && y.stateOrder == x.stateOrder && y.rawTrace == x.rawTrace
    ensures Handled(x, c, sid, y, r)
  {
  }

  /** A candidate that matched no action becomes a new action of state
      `sid`, or raises while being created and changes nothing. */
  method NewAction(k: AppKnowledge, c: Candidate, sid: StateId) returns (r: Result<Option<ActionId>, Raised>)
    requires k.Valid() && sid in k.states
    modifies k
    ensures k.Valid() && (old(k.IndexExact()) ==> k.IndexExact())
    ensures r.Ok? ==> r.value.Some? && r.value.value !in old(k.actions)
    ensures r.Ok? ==>
      && CreatedIn(BeforeOf(k), r.value.value, sid) && k.actions == old(k.actions)[r.value.value := k.actions[r.value.value]]
      && k.actionOrder == old(k.actionOrder) + [r.value.value]
      && k.unexplored == old(k.unexplored) + {r.value.value}
      && k.states == Listed(old(k.states), sid, [r.value.value])
    ensures r.Err? ==>
      && k.actions == old(k.actions) && k.actionOrder == old(k.actionOrder)
      && k.unexplored == old(k.unexplored) && k.states == old(k.states)
    ensures k.stateOrder == old(k.stateOrder) && k.rawTrace == old(k.rawTrace)
    ensures r.Err? <==> CreateFails(c.raw).Some?
    ensures r.Err? ==> r.error == CreateFails(c.raw).value
    ensures r.Ok? ==> k.actions == old(k.actions)[r.value.value := CreatedAction(c, r.value.value).value.(source := Some(sid))]
  {
    var id := FreshId(k.actionOrder);
    var created := CreateAbstractAction(c, id);
    if created.Err? {
      return Err(created.error);
    }
    AddCreated(k, created.value.(source := Some(sid)), sid);
    r := Ok(Some(id));
  }

  /** Since `b`, the candidates have added exactly the actions `created`,
      all of state `sid`, and the earlier actions have only grown. */
  ghost predicate Progress(t: Before, b: Before, sid: StateId, created: seq<ActionId>) {
    && sid in b.states
    && t.actionOrder == b.actionOrder + created
    && (forall id :: id in created ==> id !in b.actions && CreatedIn(t, id, sid))
    && (forall id :: id in b.actions ==> id in t.actions && Grown(b.actions[id], t.actions[id]))
    && t.unexplored == b.unexplored + (set id | id in created)
    && t.states == Listed(b.states, sid, created)
    && t.stateOrder == b.stateOrder && t.rawTrace == b.rawTrace
  }

  /** A candidate handled as `ProcessOne` promises keeps the progress. */
  lemma StepKeeps(x: Before, y: Before, b: Before, sid: StateId, created: seq<ActionId>, added: Option<ActionId>)
    requires Progress(x, b, sid, created)
    requires forall id :: id in x.actions ==> id in y.actions && Grown(x.actions[id], y.actions[id])
    requires added.Some? ==>
      && added.value !in x.actions && CreatedIn(y, added.value, sid)
      && y.actionOrder == x.actionOrder + [added.value] && y.unexplored == x.unexplored + {added.value}
      && y.states == Listed(x.states, sid, [added.value])
    requires added.None? ==> y.actionOrder == x.actionOrder && y.unexplored == x.unexplored && y.states == x.states
    requires y.stateOrder == x.stateOrder && y.rawTrace == x.rawTrace
    ensures Progress(y, b, sid, if added.Some? then created + [added.value] else created)
  {
    var more := if added.Some? then created + [added.value] else created;
    if added.Some? {
      ListedTwice(b.states, sid, created, [added.value]);
      assert (set id | id in more) == (set id | id in created) + {added.value};
    }
    forall id | id in created
      ensures CreatedIn(y, id, sid)
    {
      assert id in x.actions && Grown(x.actions[id], y.actions[id]);
    }
  }

  /** One turn of the candidate loop: the candidate handled, and the record
      of the turns so far extended by it. */
  method ProcessStep(k: AppKnowledge, items: seq<Json>, i: nat, sid: StateId,
                     ghost trail: seq<Before>, ghost outcomes: seq<Result<Option<ActionId>, Raised>>)
    returns (r: Result<Option<ActionId>, Raised>, ghost trail': seq<Before>,
             ghost outcomes': seq<Result<Option<ActionId>, Raised>>)
    requires k.Valid() && sid in k.states
    requires Processed(items, sid, trail, outcomes) && |outcomes| == i < |items|
    requires outcomes != [] ==> outcomes[|outcomes| - 1].Ok?
    requires trail[|outcomes|] == BeforeOf(k)
    modifies k
    ensures k.Valid() && (old(k.IndexExact()) ==> k.IndexExact()) && sid in k.states
    ensures Processed(items, sid, trail', outcomes') && |outcomes'| == |outcomes| + 1
    ensures trail'[0] == trail[0] && trail'[|outcomes'|] == BeforeOf(k)
    ensures forall j :: 0 <= j < |outcomes| ==> outcomes'[j] == outcomes[j]
    ensures outcomes'[|outcomes|] == r
  {
    r := ProcessOne(k, items[i], sid);
    ghost var y := BeforeOf(k);
    ProcessedSnoc(items, sid, trail, outcomes, y, r);
    trail', outcomes' := trail + [y], outcomes + [r];
    assert trail'[0] == trail[0] && trail'[|outcomes'|] == y;
  }

  /** The ids of the actions created, in order. */
  function NewIds(outcomes: seq<Result<Option<ActionId>, Raised>>): (r: seq<ActionId>)
    ensures |r| <= |outcomes|
  {
    if outcomes == [] then []
    else NewIds(outcomes[..|outcomes| - 1])
         + (var o := outcomes[|outcomes| - 1]; if o.Ok? && o.value.Some? then [o.value.value] else [])
  }

  /** The candidates `items` taken one by one, the `i`-th from `trail[i]` to
      `trail[i + 1]` with outcome `outcomes[i]`, each as `Handled` says,
      stopping at the first one that raises. */
  ghost predicate Processed(items: seq<Json>, sid: StateId, trail: seq<Before>,
                            outcomes: seq<Result<Option<ActionId>, Raised>>) {
    && |trail| == |outcomes| + 1 && |outcomes| <= |items|
    && (forall i {:trigger Handled(trail[i], items[i], sid, trail[i + 1], outcomes[i])} :: 0 <= i < |outcomes| ==>
          Handled(trail[i], items[i], sid, trail[i + 1], outcomes[i]))
    && (forall i :: 0 <= i < |outcomes| - 1 ==> outcomes[i].Ok?)
  }

  /** What a handled candidate changes, in the terms of `Progress`. */
  lemma HandledKeeps(x: Before, c: Json, sid: StateId, y: Before, r: Result<Option<ActionId>, Raised>)
    requires Handled(x, c, sid, y, r)
    ensures forall id :: id in x.actions ==> id in y.actions && Grown(x.actions[id], y.actions[id])
    ensures var added := if r.Ok? then r.value else None;
      && (added.Some? ==>
            && added.value !in x.actions && CreatedIn(y, added.value, sid)
            && y.actionOrder == x.actionOrder + [added.value] && y.unexplored == x.unexplored + {added.value}
            && y.states == Listed(x.states, sid, [added.value]))
      && (added.None? ==> y.actionOrder == x.actionOrder && y.unexplored == x.unexplored && y.states == x.states)
    ensures y.stateOrder == x.stateOrder && y.rawTrace == x.rawTrace
  {
    match ReadCandidate(c)
    case Err(_) =>
    case Ok(cand) =>
      if !(x.actionOrder != [] && !HasKey(c, "action_type")) {
        match FirstHit(x.actionOrder, x.actions, cand)
        case Some(h) =>
          HitKeeps(x, h, cand, y);
        case None =>
          if CreateFails(c).None? {
            var id := r.value.value;
            CreateKeeps(x, sid, id, CreatedAction(cand, id).value.(source := Some(sid)), y);
          }
      }
  }

  /** A candidate merged into the action `h` it hit only grows that action. */
  lemma HitKeeps(x: Before, h: ActionId, cand: Candidate, y: Before)
    requires h in x.actions && y == x.(actions := x.actions[h := Merged(x.actions[h], cand)])
    ensures forall id :: id in x.actions ==> id in y.actions && Grown(x.actions[id], y.actions[id])
  {
  }

  /** A created action `a` of state `sid` leaves the others as they were. */
  lemma CreateKeeps(x: Before, sid: StateId, id: ActionId, a: AbstractAction, y: Before)
    requires sid in x.states && id !in x.actions
    requires a.flag == Unexplored && a.source == Some(sid) && a.target.None?
    requires y == x.(actions := x.actions[id := a], actionOrder := x.actionOrder + [id],
                     unexplored := x.unexplored + {id}, states := Listed(x.states, sid, [id]))
    ensures forall j :: j in x.actions ==> j in y.actions && Grown(x.actions[j], y.actions[j])
    ensures CreatedIn(y, id, sid)
  {
  }

  /** `HandledKeeps` for turn `j` of a run. */
  lemma TurnKeeps(items: seq<Json>, sid: StateId, trail: seq<Before>,
                  outcomes: seq<Result<Option<ActionId>, Raised>>, j: nat)
    requires Processed(items, sid, trail, outcomes) && j < |outcomes|
    ensures var x, y, r := trail[j], trail[j + 1], outcomes[j];
      && sid in x.states
      && (forall id :: id in x.actions ==> id in y.actions && Grown(x.actions[id], y.actions[id]))
      && var added := if r.Ok? then r.value else None;
      && (added.Some? ==>
            && added.value !in x.actions && CreatedIn(y, added.value, sid)
            && y.actionOrder == x.actionOrder + [added.value] && y.unexplored == x.unexplored + {added.value}
            && y.states == Listed(x.states, sid, [added.value]))
      && (added.None? ==> y.actionOrder == x.actionOrder && y.unexplored == x.unexplored && y.states == x.states)
      && y.stateOrder == x.stateOrder && y.rawTrace == x.rawTrace
  {
    assert Handled(trail[j], items[j], sid, trail[j + 1], outcomes[j]);
    HandledKeeps(trail[j], items[j], sid, trail[j + 1], outcomes[j]);
  }

  /** The first `m` turns of a run of step 3 add exactly the actions they
      report as created, all of state `sid`, and only grow the others. */
  lemma {:induction false} ProcessedProgress(items: seq<Json>, sid: StateId, trail: seq<Before>,
                                             outcomes: seq<Result<Option<ActionId>, Raised>>, m: nat)
    requires Processed(items, sid, trail, outcomes) && sid in trail[0].states && m <= |outcomes|
    ensures Progress(trail[m], trail[0], sid, NewIds(outcomes[..m]))
  {
    if m == 0 {
      assert outcomes[..0] == [];
      ListedTwice(trail[0].states, sid, [], []);
      var none: seq<ActionId> := [];
      assert (set id | id in none) == {};
    } else {
      var j := m - 1;
      ProcessedProgress(items, sid, trail, outcomes, j);
      TurnKeeps(items, sid, trail, outcomes, j);
      assert outcomes[..j + 1] == outcomes[..j] + [outcomes[j]];
      TurnProgress(trail[j], trail[j + 1], trail[0], sid, outcomes[..j], outcomes[j], outcomes[..j + 1]);
    }
  }

  /** One more turn keeps the progress of the turns `before` it. */
  lemma TurnProgress(x: Before, y: Before, b: Before, sid: StateId, before: seq<Result<Option<ActionId>, Raised>>,
                     r: Result<Option<ActionId>, Raised>, after: seq<Result<Option<ActionId>, Raised>>)
    requires Progress(x, b, sid, NewIds(before)) && after == before + [r]
    requires forall id :: id in x.actions ==> id in y.actions && Grown(x.actions[id], y.actions[id])
    requires var added := if r.Ok? then r.value else None;
      && (added.Some? ==>
            && added.value !in x.actions && CreatedIn(y, added.value, sid)
            && y.actionOrder == x.actionOrder + [added.value] && y.unexplored == x.unexplored + {added.value}
            && y.states == Listed(x.states, sid, [added.value]))
      && (added.None? ==> y.actionOrder == x.actionOrder && y.unexplored == x.unexplored && y.states == x.states)
    requires y.stateOrder == x.stateOrder && y.rawTrace == x.rawTrace
    ensures Progress(y, b, sid, NewIds(after))
  {
    StepKeeps(x, y, b, sid, NewIds(before), if r.Ok? then r.value else None);
    NewIdsLast(before, r);
  }

  /** The ids created by the turns so far and one more. */
  lemma NewIdsLast(before: seq<Result<Option<ActionId>, Raised>>, r: Result<Option<ActionId>, Raised>)
    ensures NewIds(before + [r]) == if r.Ok? && r.value.Some? then NewIds(before) + [r.value.value] else NewIds(before)
  {
    assert (before + [r])[..|before|] == before;
    assert NewIds(before) + [] == NewIds(before);
  }

  lemma NewIdsSnoc(outcomes: seq<Result<Option<ActionId>, Raised>>, o: Result<Option<ActionId>, Raised>)
    ensures NewIds(outcomes + [o]) == NewIds(outcomes) + NewIds([o])
  {
    assert (outcomes + [o])[..|outcomes|] == outcomes;
    assert [o][..0] == [];
  }

  /** One more candidate handled after the ones before it all succeeded. */
  lemma ProcessedSnoc(items: seq<Json>, sid: StateId, trail: seq<Before>,
                      outcomes: seq<Result<Option<ActionId>, Raised>>, y: Before, o: Result<Option<ActionId>, Raised>)
    requires Processed(items, sid, trail, outcomes) && |outcomes| < |items|
    requires outcomes != [] ==> outcomes[|outcomes| - 1].Ok?
    requires Handled(trail[|outcomes|], items[|outcomes|], sid, y, o)
    ensures Processed(items, sid, trail + [y], outcomes + [o])
  {
    var n := |outcomes|;
    var t, u := trail + [y], outcomes + [o];
    SnocEarlier(items, sid, trail, outcomes, y, o);
    SameStep(trail[n], items[n], sid, y, o, t[n], t[n + 1], u[n]);
    SnocOk(outcomes, o);
  }

  lemma SnocOk(outcomes: seq<Result<Option<ActionId>, Raised>>, o: Result<Option<ActionId>, Raised>)
    requires forall i :: 0 <= i < |outcomes| - 1 ==> outcomes[i].Ok?
    requires outcomes != [] ==> outcomes[|outcomes| - 1].Ok?
    ensures forall i :: 0 <= i < |outcomes + [o]| - 1 ==> (outcomes + [o])[i].Ok?
  {
    var u := outcomes + [o];
    forall i | 0 <= i < |u| - 1
      ensures u[i].Ok?
    {
      assert u[i] == outcomes[i];
    }
  }

  /** The steps before the new one are unchanged. */
  lemma SnocEarlier(items: seq<Json>, sid: StateId, trail: seq<Before>,
                    outcomes: seq<Result<Option<ActionId>, Raised>>, y: Before, o: Result<Option<ActionId>, Raised>)
    requires Processed(items, sid, trail, outcomes)
    ensures var t, u := trail + [y], outcomes + [o];
      forall i :: 0 <= i < |outcomes| ==> Handled(t[i], items[i], sid, t[i + 1], u[i])
  {
    var t, u := trail + [y], outcomes + [o];
    forall i | 0 <= i < |outcomes|
      ensures Handled(t[i], items[i], sid, t[i + 1], u[i])
    {
      SameStep(trail[i], items[i], sid, trail[i + 1], outcomes[i], t[i], t[i + 1], u[i]);
    }
  }

  lemma SameStep(x: Before, c: Json, sid: StateId, y: Before, r: Result<Option<ActionId>, Raised>,
                 x': Before, y': Before, r': Result<Option<ActionId>, Raised>)
    requires Handled(x, c, sid, y, r) && x' == x && y' == y && r' == r
    ensures Handled(x', c, sid, y', r')
  {
  }

  /** Step 3 taken from tables `x` to `y`: a failure to get the candidates
      changes nothing; otherwise the candidates are processed in order and
      the step fails exactly with the first candidate that raises. */
  ghost predicate CandidatesDone(x: Before, cands: Result<seq<Json>, Raised>, sid: StateId, y: Before,
                                 r: Result<(), Raised>, trail: seq<Before>,
                                 outcomes: seq<Result<Option<ActionId>, Raised>>) {
    match cands
    case Err(e) => r == Err(e) && y == x
    case Ok(items) =>
      && Processed(items, sid, trail, outcomes) && trail[0] == x && trail[|trail| - 1] == y
      && (r.Ok? <==> |outcomes| == |items| && (outcomes == [] || outcomes[|outcomes| - 1].Ok?))
      && (r.Err? ==> outcomes != [] && outcomes[|outcomes| - 1] == Err(r.error))
  }

  /** Step 3: the loop over the candidate actions; `created` lists the new
      actions, one for each candidate that matched no existing action. */
  method ProcessCandidates(k: AppKnowledge, items: seq<Json>, sid: StateId)
    returns (r: Result<(), Raised>, ghost created: seq<ActionId>, ghost trail: seq<Before>,
             ghost outcomes: seq<Result<Option<ActionId>, Raised>>)
    requires k.Valid() && sid in k.states
    modifies k
    ensures k.Valid() && (old(k.IndexExact()) ==> k.IndexExact())
    ensures |created| <= |items| && k.actionOrder == old(k.actionOrder) + created
    ensures forall id :: id in created ==> id !in old(k.actions) && CreatedIn(BeforeOf(k), id, sid)
    ensures forall id :: id in old(k.actions) ==> id in k.actions && Grown(old(k.actions[id]), k.actions[id])
    ensures k.unexplored == old(k.unexplored) + set id | id in created
    ensures k.states == Listed(old(k.states), sid, created)
    ensures k.stateOrder == old(k.stateOrder) && k.rawTrace == old(k.rawTrace)
    ensures CandidatesDone(old(BeforeOf(k)), Ok(items), sid, BeforeOf(k), r, trail, outcomes)
    ensures created == NewIds(outcomes)
  {
    r, trail, outcomes := HandleAll(k, items, sid);
    ProcessedProgress(items, sid, trail, outcomes, |outcomes|);
    assert outcomes[..|outcomes|] == outcomes;
    created := NewIds(outcomes);
  }

  /** The loop of step 3: the candidates handled one by one, stopping at
      the first that raises. */
  method HandleAll(k: AppKnowledge, items: seq<Json>, sid: StateId)
    returns (r: Result<(), Raised>, ghost trail: seq<Before>, ghost outcomes: seq<Result<Option<ActionId>, Raised>>)
    requires k.Valid() && sid in k.states
    modifies k
    ensures k.Valid() && (old(k.IndexExact()) ==> k.IndexExact())
    ensures CandidatesDone(old(BeforeOf(k)), Ok(items), sid, BeforeOf(k), r, trail, outcomes)
  {
    ghost var exact := k.IndexExact();
    trail, outcomes := [BeforeOf(k)], [];
    r := Ok(());
    for i := 0 to |items|
      invariant k.Valid() && (exact ==> k.IndexExact()) && sid in k.states
      invariant |outcomes| == i && Processed(items, sid, trail, outcomes)
      invariant trail[0] == old(BeforeOf(k)) && trail[i] == BeforeOf(k)
      invariant forall j :: 0 <= j < i ==> outcomes[j].Ok?
    {
      var one;
      one, trail, outcomes := ProcessStep(k, items, i, sid, trail, outcomes);
      if one.Err? {
        r := Err(one.error);
        break;
      }
    }
  }

  // -------------------------------------------------------- the step

  /** Step 4 for a step whose states and action resolved: the action is
      EXPLORED and its edge recorded, or, when the step stayed in the same
      state, INEFFECTIVE with any such edge removed. */
  method RecordStep(k: AppKnowledge, prev: StateId, aid: ActionId, next: StateId)
    requires k.Valid() && prev in k.states && next in k.states && aid in k.actions
    modifies k, k.aig
    ensures k.Valid() && (old(k.IndexExact()) ==> k.IndexExact())
    ensures prev == next ==>
      && k.actions == old(k.actions)[aid := old(k.actions[aid]).(flag := Ineffective)]
      && k.aig.edges == Without(old(k.aig.edges), {Edge(prev, next, aid)}) && k.aig.nodes == old(k.aig.nodes)
    ensures prev != next ==>
      && k.actions == old(k.actions)[aid := old(k.actions[aid]).(flag := Explored, source := Some(prev), target := Some(next))]
      && Edge(prev, next, aid) in k.aig.edges
      && k.aig.edges == (if Edge(prev, next, aid) in old(k.aig.edges) then old(k.aig.edges) else old(k.aig.edges) + [Edge(prev, next, aid)])
      && k.aig.nodes == old(k.aig.nodes) + {prev, next}
    ensures k.unexplored == if old(k.actions[aid].flag) == Unexplored then old(k.unexplored) - {aid} else old(k.unexplored)
    ensures k.states == old(k.states) && k.stateOrder == old(k.stateOrder) && k.actionOrder == old(k.actionOrder)
    ensures k.rawTrace == old(k.rawTrace)
  {
    if prev == next {
      MarkIneffective(k, prev, aid);
    } else {
      MarkExplored(k, prev, aid, next);
    }
  }

  /** A step that stayed in state `s`: EXPLORED, then INEFFECTIVE, and the
      self-loop edge, if any, removed. */
  method MarkIneffective(k: AppKnowledge, s: StateId, aid: ActionId)
    requires k.Valid() && s in k.states && aid in k.actions
    modifies k, k.aig
    ensures k.Valid() && (old(k.IndexExact()) ==> k.IndexExact())
    ensures k.actions == old(k.actions)[aid := old(k.actions[aid]).(flag := Ineffective)]
    ensures k.aig.edges == Without(old(k.aig.edges), {Edge(s, s, aid)}) && k.aig.nodes == old(k.aig.nodes)
    ensures k.unexplored == if old(k.actions[aid].flag) == Unexplored then old(k.unexplored) - {aid} else old(k.unexplored)
    ensures k.states == old(k.states) && k.stateOrder == old(k.stateOrder) && k.actionOrder == old(k.actionOrder)
    ensures k.rawTrace == old(k.rawTrace)
  {
    SetIneffective(k, aid);
    var _ := k.DropEdge(Edge(s, s, aid));
  }

  /** The two flag updates of a step that changed nothing: EXPLORED, then
      INEFFECTIVE. */
  method SetIneffective(k: AppKnowledge, aid: ActionId)
    requires k.Valid() && aid in k.actions
    modifies k
    ensures k.Valid() && (old(k.IndexExact()) ==> k.IndexExact())
    ensures k.actions == old(k.actions)[aid := old(k.actions[aid]).(flag := Ineffective)]
    ensures k.unexplored == if old(k.actions[aid].flag) == Unexplored then old(k.unexplored) - {aid} else old(k.unexplored)
    ensures k.states == old(k.states) && k.stateOrder == old(k.stateOrder) && k.actionOrder == old(k.actionOrder)
    ensures k.rawTrace == old(k.rawTrace)
  {
    ghost var a0, u0 := k.actions, k.unexplored;
    k.UpdateActionFlag(aid, Explored);
    assert k.unexplored == if a0[aid].flag == Unexplored then u0 - {aid} else u0;
    ghost var a1 := k.actions;
    k.UpdateActionFlag(aid, Ineffective);
    ghost var done := a0[aid].(flag := Ineffective);
    assert a1 == a0[aid := a0[aid].(flag := Explored)];
    assert a1[aid].(flag := Ineffective) == done;
    assert k.actions == a1[aid := done];
    SetTwice(a0, aid, a1, done);
  }

  /** A step from `prev` to another state `next`: EXPLORED, with its edge
      recorded. */
  method MarkExplored(k: AppKnowledge, prev: StateId, aid: ActionId, next: StateId)
    requires k.Valid() && prev in k.states && next in k.states && aid in k.actions
    modifies k, k.aig
    ensures k.Valid() && (old(k.IndexExact()) ==> k.IndexExact())
    ensures k.actions == old(k.actions)[aid := old(k.actions[aid]).(flag := Explored, source := Some(prev), target := Some(next))]
    ensures Edge(prev, next, aid) in k.aig.edges
    ensures k.aig.edges == (if Edge(prev, next, aid) in old(k.aig.edges) then old(k.aig.edges) else old(k.aig.edges) + [Edge(prev, next, aid)])
    ensures k.aig.nodes == old(k.aig.nodes) + {prev, next}
    ensures k.unexplored == if old(k.actions[aid].flag) == Unexplored then old(k.unexplored) - {aid} else old(k.unexplored)
    ensures k.states == old(k.states) && k.stateOrder == old(k.stateOrder) && k.actionOrder == old(k.actionOrder)
    ensures k.rawTrace == old(k.rawTrace)
  {
    ghost var a0, u0, e0 := k.actions, k.unexplored, k.aig.edges;
    ghost var exact := k.IndexExact();
    k.UpdateActionFlag(aid, Explored);
    assert k.unexplored == if a0[aid].flag == Unexplored then u0 - {aid} else u0;
    assert k.aig.edges == e0 && (exact ==> k.IndexExact());
    ghost var a1 := k.actions;
    k.LinkEdge(prev, aid, next);
    ghost var done := a0[aid].(flag := Explored, source := Some(prev), target := Some(next));
    assert a1 == a0[aid := a0[aid].(flag := Explored)];
    assert a1[aid].(source := Some(prev), target := Some(next)) == done;
    assert k.actions == a1[aid := done];
    SetTwice(a0, aid, a1, done);
  }

  /** Writing a key twice keeps the second value. */
  lemma SetTwice<K, V>(m: map<K, V>, id: K, m1: map<K, V>, v: V)
    requires id in m1 && m1 == m[id := m1[id]]
    ensures m1[id := v] == m[id := v]
  {
  }

  /** A grouper action as the dict `extract_actions` returns. */
  function EntryJson(a: ActionEntry): Json {
    JDict([Entry("action_type", a.actionType), Entry("element_id", JStr(a.elementId)), Entry("function", a.functionText)]
          + (if a.elements.Some? then [Entry("elements", JList(seq(|a.elements.value|, i requires 0 <= i < |a.elements.value| => JStr(a.elements.value[i]))))] else [])
          + [Entry("xpath", a.xpath)])
  }

  function EntriesJson(acts: seq<ActionEntry>): seq<Json> {
    seq(|acts|, i requires 0 <= i < |acts| => EntryJson(acts[i]))
  }

  /** The candidate list of step 3 for `snapshot`, with `usage` the
      grouper's token count once it has run: the cached "grouped_actions"
      (raising when they cannot be iterated), or else the grouper's actions
      as dicts, raising exactly when the grouper raises. */
  ghost predicate CandidatesFor(snapshot: Json, reply: Option<Reply>, usage: int, r: Result<seq<Json>, Raised>) {
    if HasKey(snapshot, "grouped_actions") then
      var cached := Items(Lookup(snapshot, "grouped_actions").value);
      r == if cached.Some? then Ok(cached.value) else Err(WrongType)
    else
      && (r.Err? <==> RawFails(snapshot) || !HtmlSliceable(snapshot))
      && (r.Err? ==> r.error == WrongType)
      && (r.Ok? ==> exists raw :: IsRawList(Rects(snapshot).value, raw)
                                  && r.value == EntriesJson(Outcome(reply, Rects(snapshot).value, raw, usage).actions))
  }

  /** The candidate actions of step 3: the snapshot's cached
      "grouped_actions" when it has them, otherwise what the grouper
      extracts. A grouper failure is an exception of the wrong-type kind. */
  method Candidates(grouper: Grouper, snapshot: Json, reply: Option<Reply>) returns (r: Result<seq<Json>, Raised>)
    modifies grouper
    ensures HasKey(snapshot, "grouped_actions") ==>
      && grouper.tokenUsage == old(grouper.tokenUsage)
      && var cached := Items(Lookup(snapshot, "grouped_actions").value);
         r == if cached.Some? then Ok(cached.value) else Err(WrongType)
    ensures !HasKey(snapshot, "grouped_actions") ==>
      && (r.Err? <==> RawFails(snapshot) || !HtmlSliceable(snapshot))
      && (r.Ok? ==> exists raw :: IsRawList(Rects(snapshot).value, raw)
                                  && r.value == EntriesJson(Outcome(reply, Rects(snapshot).value, raw, grouper.tokenUsage).actions))
    ensures CandidatesFor(snapshot, reply, grouper.tokenUsage, r)
  {
    if HasKey(snapshot, "grouped_actions") {
      var cached := Items(Lookup(snapshot, "grouped_actions").value);
      return if cached.Some? then Ok(cached.value) else Err(WrongType);
    }
    var extracted := grouper.ExtractActions(snapshot, reply);
    if extracted.Err? {
      return Err(WrongType);
    }
    r := Ok(EntriesJson(extracted.value.actions));
  }

  /** What step 4 did: the resolved previous state and action, if any. */
  datatype Step = NoStep | Stepped(prev: StateId, action: ActionId)

  /** Step 4 taken from tables `x` with edges `edges` to tables `y` with
      edges `edges'`, the new snapshot being in `state`: no step changes
      nothing; a step that stayed in `state` makes its action INEFFECTIVE
      and removes that self-loop; any other step makes the action EXPLORED,
      pointing from the previous state to `state`, and adds that edge
      unless it is there. Every other action and edge stays, and only the
      action's own index membership can move. */
  ghost predicate StepRecorded(x: Before, edges: seq<Edge>, step: Step, state: StateId, y: Before, edges': seq<Edge>) {
    && y.states == x.states && y.stateOrder == x.stateOrder && y.actionOrder == x.actionOrder && y.rawTrace == x.rawTrace
    && (step.NoStep? ==> y == x && edges' == edges)
    && (step.Stepped? ==>
          && step.action in x.actions
          && y.unexplored == (if x.actions[step.action].flag == Unexplored then x.unexplored - {step.action} else x.unexplored)
          && (step.prev == state ==>
                && y.actions == x.actions[step.action := x.actions[step.action].(flag := Ineffective)]
                && edges' == Without(edges, {Edge(state, state, step.action)}))
          && (step.prev != state ==>
                && y.actions == x.actions[step.action := x.actions[step.action].(flag := Explored, source := Some(step.prev), target := Some(state))]
                && edges' == if Edge(step.prev, state, step.action) in edges then edges else edges + [Edge(step.prev, state, step.action)]))
  }

  /** The frame of step 4: without a step nothing changes; with one, every
      other action keeps its value, every other edge stays, and the only
      edge that can appear is the one of a step that changed state. */
  lemma StepFrame(x: Before, edges: seq<Edge>, step: Step, state: StateId, y: Before, edges': seq<Edge>)
    requires StepRecorded(x, edges, step, state, y, edges')
    ensures step.NoStep? ==> y.actions == x.actions && y.unexplored == x.unexplored && edges' == edges
    ensures forall id :: id in x.actions && (step.NoStep? || id != step.action) ==> id in y.actions && y.actions[id] == x.actions[id]
    ensures forall e :: e in edges && (step.NoStep? || e != Edge(step.prev, state, step.action)) ==> e in edges'
    ensures forall e :: e in edges' ==> e in edges || (step.Stepped? && step.prev != state && e == Edge(step.prev, state, step.action))
  {
  }

  /** Step 4 of `update_knowledge`, once both the previous snapshot and the
      previous action are present: when the previous snapshot matches a
      state and the action an abstract action, the step is recorded. */
  method PrevStep(k: AppKnowledge, sha256: string -> string, oracle: Option<(Json, Json) -> bool>, cache: Cache,
                  prevSnapshot: Json, prevAction: Json, state: StateId)
    returns (r: Result<(), Raised>, after: Cache, ghost step: Step)
    requires k.Valid() && state in k.states
    modifies k, k.aig
    ensures k.Valid() && (old(k.IndexExact()) ==> k.IndexExact())
    ensures var p := old(MatchOutcome(sha256, oracle, k.stateOrder, k.states, prevSnapshot, cache));
      var a := old(MatchAbstractAction(k.actionOrder, k.actions, prevAction));
      && after == p.1
      && (r.Err? <==> p.0.Some? && a.Err?) && (r.Err? ==> r.error == a.error)
      && step == if p.0.Some? && a.Ok? && a.value.Some? then Stepped(p.0.value, a.value.value) else NoStep
    ensures step.NoStep? ==> k.actions == old(k.actions) && k.aig.edges == old(k.aig.edges) && k.unexplored == old(k.unexplored)
    ensures r.Err? ==> step.NoStep? && MatchAbstractAction(k.actionOrder, k.actions, prevAction).Err?
    ensures step.Stepped? ==>
      && r.Ok? && step.prev in k.states && step.action in k.actions
      && MatchAbstractAction(old(k.actionOrder), old(k.actions), prevAction) == Ok(Some(step.action))
      && (FirstWithSignature(k.stateOrder, k.states, Signature(sha256, prevSnapshot)).Some? ==>
            step.prev == FirstWithSignature(k.stateOrder, k.states, Signature(sha256, prevSnapshot)).value)
    ensures step.Stepped? && step.prev == state ==>
      && k.actions == old(k.actions)[step.action := old(k.actions[step.action]).(flag := Ineffective)]
      && Edge(state, state, step.action) !in k.aig.edges
    ensures step.Stepped? && step.prev != state ==>
      && k.actions == old(k.actions)[step.action := old(k.actions[step.action]).(flag := Explored, source := Some(step.prev), target := Some(state))]
      && Edge(step.prev, state, step.action) in k.aig.edges
    ensures k.states == old(k.states) && k.stateOrder == old(k.stateOrder) && k.actionOrder == old(k.actionOrder)
    ensures k.rawTrace == old(k.rawTrace)
    ensures StepRecorded(old(BeforeOf(k)), old(k.aig.edges), step, state, BeforeOf(k), k.aig.edges)
  {
    step := NoStep;
    r := Ok(());
    var prev;
    prev, after := MatchKnown(k, sha256, oracle, cache, prevSnapshot);
    if prev.None? {
      return;
    }
    var aid := MatchAbstractAction(k.actionOrder, k.actions, prevAction);
    if aid.Err? {
      return Err(aid.error), after, step;
    }
    if aid.value.None? {
      return;
    }
    RecordStep(k, prev.value, aid.value.value, state);
    step := Stepped(prev.value, aid.value.value);
  }

  /** The intermediate values of steps 2 and 3: the tables after step 2
      and its outcome, the candidate list, and the turns of the candidate
      loop. */
  /** State `id` is known and its newest concrete snapshot is `snap`. */
  ghost predicate EndsIn(states: map<StateId, AbstractState>, id: StateId, snap: Json) {
    id in states && |states[id].concrete| > 0 && states[id].concrete[|states[id].concrete| - 1] == snap
  }

  datatype Observation = Observation(merged: Before, merging: Result<(), Raised>, cands: Result<seq<Json>, Raised>,
                                     trail: seq<Before>, outcomes: seq<Result<Option<ActionId>, Raised>>)

  /** Steps 2 and 3 taken from tables `x` to `y`: the snapshot merged into
      state `state` as `StateMerged` says; if that raised, the update ends
      there; otherwise the candidates of the snapshot are handled under
      that state as `CandidatesDone` says. */
  ghost predicate Observed(x: Before, sha256: string -> string, oracle: Option<(Json, Json) -> bool>, cache: Cache,
                           snapshot: Json, reply: Option<Reply>, usage: int, obs: Observation,
                           y: Before, r: Result<(), Raised>, state: StateId, after: Cache) {
    && StateMerged(x, sha256, oracle, cache, snapshot, obs.merged, obs.merging, state, after)
    && (obs.merging.Err? ==> r == obs.merging && y == obs.merged)
    && (obs.merging.Ok? ==>
          && CandidatesFor(snapshot, reply, usage, obs.cands)
          && CandidatesDone(obs.merged, obs.cands, state, y, r, obs.trail, obs.outcomes))
  }

  /** Steps 2 and 3 of `update_knowledge`: the snapshot is merged into a
      state, and that state's candidate actions are matched or created. */
  method ObserveState(k: AppKnowledge, grouper: Grouper, sha256: string -> string,
                      oracle: Option<(Json, Json) -> bool>, cache: Cache, snapshot: Json, reply: Option<Reply>)
    returns (r: Result<(), Raised>, after: Cache, state: StateId, ghost obs: Observation)
    requires k.Valid()
    modifies k, k.aig, grouper
    ensures k.Valid() && (old(k.IndexExact()) ==> k.IndexExact())
    ensures old(k.stateOrder) <= k.stateOrder && old(k.actionOrder) <= k.actionOrder
    ensures EndsIn(k.states, state, snapshot)
    ensures k.aig.edges == old(k.aig.edges) && k.rawTrace == old(k.rawTrace)
    ensures Observed(old(BeforeOf(k)), sha256, oracle, cache, snapshot, reply, grouper.tokenUsage, obs, BeforeOf(k), r, state, after)
    ensures obs.merging.Err? ==> grouper.tokenUsage == old(grouper.tokenUsage)
  {
    r, state, after := MergeState(k, sha256, oracle, cache, snapshot);
    ghost var merged := BeforeOf(k);
    if r.Err? {
      return r, after, state, Observation(merged, r, Ok([]), [], []);
    }
    ghost var cands, trail, outcomes;
    r, cands, trail, outcomes := ActionsOfState(k, grouper, snapshot, reply, state);
    obs := Observation(merged, Ok(()), cands, trail, outcomes);
  }

  /** Step 3 of `update_knowledge`: the candidate actions of the snapshot,
      matched or created under `state`; the state's snapshots stay as they
      are. */
  method ActionsOfState(k: AppKnowledge, grouper: Grouper, snapshot: Json, reply: Option<Reply>, state: StateId)
    returns (r: Result<(), Raised>, ghost cands: Result<seq<Json>, Raised>, ghost trail: seq<Before>,
             ghost outcomes: seq<Result<Option<ActionId>, Raised>>)
    requires k.Valid() && state in k.states
    modifies k, grouper
    ensures k.Valid() && (old(k.IndexExact()) ==> k.IndexExact())
    ensures k.stateOrder == old(k.stateOrder) && old(k.actionOrder) <= k.actionOrder
    ensures state in k.states && k.states[state].concrete == old(k.states[state].concrete)
    ensures EndsIn(old(k.states), state, snapshot) ==> EndsIn(k.states, state, snapshot)
    ensures k.rawTrace == old(k.rawTrace)
    ensures CandidatesFor(snapshot, reply, grouper.tokenUsage, cands)
    ensures CandidatesDone(old(BeforeOf(k)), cands, state, BeforeOf(k), r, trail, outcomes)
  {
    var candidates := Candidates(grouper, snapshot, reply);
    cands := candidates;
    if candidates.Err? {
      return Err(candidates.error), cands, [], [];
    }
    ghost var created;
    r, created, trail, outcomes := ProcessCandidates(k, candidates.value, state);
  }

  /** Steps 1 to 3 of `update_knowledge`: the raw trace item is added,
      then the snapshot observed as `Observed` says. */
  method Observe(k: AppKnowledge, grouper: Grouper, sha256: string -> string,
                 oracle: Option<(Json, Json) -> bool>, cache: Cache, item: TraceItem, reply: Option<Reply>)
    returns (r: Result<(), Raised>, after: Cache, state: StateId, ghost obs: Observation)
    requires k.Valid()
    modifies k, k.aig, grouper
    ensures k.Valid() && (old(k.IndexExact()) ==> k.IndexExact())
    ensures old(k.stateOrder) <= k.stateOrder && old(k.actionOrder) <= k.actionOrder
    ensures EndsIn(k.states, state, item.end)
    ensures k.aig.edges == old(k.aig.edges) && k.rawTrace == old(k.rawTrace) + [item]
    ensures Observed(old(BeforeOf(k)).(rawTrace := old(k.rawTrace) + [item]),
                     sha256, oracle, cache, item.end, reply, grouper.tokenUsage, obs, BeforeOf(k), r, state, after)
  {
    k.AddRawTraceItem(item);
    assert BeforeOf(k) == old(BeforeOf(k)).(rawTrace := old(k.rawTrace) + [item]);
    r, after, state, obs := ObserveState(k, grouper, sha256, oracle, cache, item.end, reply);
  }

  /** Step 4 of `update_knowledge` after steps 2 and 3 ended with `seen`
      and the cache `mid`: nothing happens when they raised or when either
      previous value is None; otherwise `PrevStep` decides, on the tables
      as they now are. */
  method RecordPrevious(k: AppKnowledge, sha256: string -> string, oracle: Option<(Json, Json) -> bool>,
                        seen: Result<(), Raised>, mid: Cache, prevSnapshot: Option<Json>, prevAction: Option<Json>,
                        state: StateId, ghost observed: Before)
    returns (r: Result<(), Raised>, after: Cache, ghost step: Step)
    requires k.Valid() && state in k.states && observed == BeforeOf(k)
    modifies k, k.aig
    ensures k.Valid() && (old(k.IndexExact()) ==> k.IndexExact())
    ensures k.states == old(k.states) && k.stateOrder == old(k.stateOrder) && k.actionOrder == old(k.actionOrder)
    ensures k.rawTrace == old(k.rawTrace)
    ensures forall s :: s in observed.stateOrder ==> s in observed.states
    ensures forall id :: id in observed.actionOrder ==> id in observed.actions
    ensures seen.Err? || IsNone(prevSnapshot) || IsNone(prevAction) ==>
      r == seen && after == mid && step == NoStep && BeforeOf(k) == observed
    ensures !(seen.Err? || IsNone(prevSnapshot) || IsNone(prevAction)) ==>
      && var p := MatchOutcome(sha256, oracle, observed.stateOrder, observed.states, prevSnapshot.value, mid);
      && var a := MatchAbstractAction(observed.actionOrder, observed.actions, prevAction.value);
      && after == p.1
      && (r.Err? <==> p.0.Some? && a.Err?) && (r.Err? ==> r.error == a.error)
      && step == (if p.0.Some? && a.Ok? && a.value.Some? then Stepped(p.0.value, a.value.value) else NoStep)
      && k.states == observed.states && k.stateOrder == observed.stateOrder && k.actionOrder == observed.actionOrder
    ensures step.NoStep? ==> k.aig.edges == old(k.aig.edges)
    ensures step.Stepped? && step.prev == state ==>
      && step.action in k.actions && k.actions[step.action].flag == Ineffective
      && Edge(state, state, step.action) !in k.aig.edges
    ensures step.Stepped? && step.prev != state ==>
      && step.action in k.actions && k.actions[step.action].flag == Explored
      && Edge(step.prev, state, step.action) in k.aig.edges
    ensures StepRecorded(observed, old(k.aig.edges), step, state, BeforeOf(k), k.aig.edges)
  {
    if seen.Err? || IsNone(prevSnapshot) || IsNone(prevAction) {
      return seen, mid, NoStep;
    }
    r, after, step := PrevStep(k, sha256, oracle, mid, prevSnapshot.value, prevAction.value, state);
  }

  /** `update_knowledge`. The raw trace item is added first; steps 2 and 3
      go as `Observed` says, from the tables with that item, to `observed`;
      step 4 records the step the previous snapshot and action resolve to,
      matched against `observed`. An exception from a later step leaves
      what was done before it. The snapshot sits at the end of exactly one
      state, `state`. */
  method UpdateKnowledge(k: AppKnowledge, grouper: Grouper, sha256: string -> string,
                         oracle: Option<(Json, Json) -> bool>, cache: Cache,
                         prevSnapshot: Option<Json>, prevAction: Option<Json>, snapshot: Json,
                         reply: Option<Reply>)
    returns (r: Result<(), Raised>, after: Cache, state: StateId, ghost step: Step,
             ghost obs: Observation, ghost observed: Before, ghost seen: Result<(), Raised>, ghost mid: Cache)
    requires k.Valid()
    modifies k, k.aig, grouper
    ensures k.Valid() && (old(k.IndexExact()) ==> k.IndexExact())
    ensures k.rawTrace == old(k.rawTrace) + [TraceItem(prevSnapshot, prevAction, snapshot)]
    ensures forall s :: s in observed.stateOrder ==> s in observed.states
    ensures forall id :: id in observed.actionOrder ==> id in observed.actions
    ensures seen.Err? || IsNone(prevSnapshot) || IsNone(prevAction) ==>
      r == seen && after == mid && step == NoStep && BeforeOf(k) == observed
    ensures !(seen.Err? || IsNone(prevSnapshot) || IsNone(prevAction)) ==>
      && var p := MatchOutcome(sha256, oracle, observed.stateOrder, observed.states, prevSnapshot.value, mid);
      && var a := MatchAbstractAction(observed.actionOrder, observed.actions, prevAction.value);
      && after == p.1
      && (r.Err? <==> p.0.Some? && a.Err?) && (r.Err? ==> r.error == a.error)
      && step == (if p.0.Some? && a.Ok? && a.value.Some? then Stepped(p.0.value, a.value.value) else NoStep)
      && k.states == observed.states && k.stateOrder == observed.stateOrder && k.actionOrder == observed.actionOrder
    ensures old(k.stateOrder) <= k.stateOrder && old(k.actionOrder) <= k.actionOrder
    ensures EndsIn(k.states, state, snapshot)
    ensures (IsNone(prevSnapshot) || IsNone(prevAction)) ==> step.NoStep?
    ensures step.NoStep? ==> k.aig.edges == old(k.aig.edges)
    ensures step.Stepped? && step.prev == state ==>
      && step.action in k.actions && k.actions[step.action].flag == Ineffective
      && Edge(state, state, step.action) !in k.aig.edges
    ensures step.Stepped? && step.prev != state ==>
      && step.action in k.actions && k.actions[step.action].flag == Explored
      && Edge(step.prev, state, step.action) in k.aig.edges
    ensures StepRecorded(observed, old(k.aig.edges), step, state, BeforeOf(k), k.aig.edges)
    ensures Observed(old(BeforeOf(k)).(rawTrace := old(k.rawTrace) + [TraceItem(prevSnapshot, prevAction, snapshot)]),
                     sha256, oracle, cache, snapshot, reply, grouper.tokenUsage, obs, observed, seen, state, mid)
  {
    var observing, cacheNow;
    observing, cacheNow, state, obs := Observe(k, grouper, sha256, oracle, cache, TraceItem(prevSnapshot, prevAction, snapshot), reply);
    seen, mid, observed := observing, cacheNow, BeforeOf(k);
    ghost var usage := grouper.tokenUsage;
    ghost var states := k.states;
    r, after, step := RecordPrevious(k, sha256, oracle, observing, cacheNow, prevSnapshot, prevAction, state, observed);
    assert k.states == states && grouper.tokenUsage == usage;
  }
}
