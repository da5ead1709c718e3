/** The parts of the exploration driver (`ExplorationAgent`) that decide
    without the browser: the stop test of the main loop, the back-tracking
    stack, the re-location of an action's element on a fresh page, and the
    same-site URL filter. */
module ExplorationPolicy {
  import opened Outcomes
  import opened JsonValues
  import opened Walks
  import opened Knowledge
  import opened UrlParse
  import opened ActionSelector
  import opened KnowledgeMaintenance

  /** The `max_depth` and `max_steps` defaults of the constructor. */
  const DefaultMaxDepth: int := 5
  const DefaultMaxSteps: int := 100

  // ------------------------------------------------------------ URL filter

  /** `urlparse(start_url).netloc`, the only site the agent may visit. */
  function Origin(startUrl: string): (r: Result<string, UrlError>)
    ensures r.Err? <==> Parse(startUrl).Err?
    ensures r.Ok? ==> Validator(r.value, startUrl) == Ok(("ok", true))
  {
    match Parse(startUrl)
    case Err(e) => Err(e)
    case Ok(p) => Ok(p.netloc)
  }

  /** `_validator`: a URL is allowed when its netloc is the origin's or
      empty (a relative URL); the verdict is "ok" or "blocked". A URL that
      `urlparse` rejects raises. */
  function Validator(origin: string, url: string): (r: Result<(string, bool), UrlError>)
    ensures r.Err? <==> Parse(url).Err?
    ensures r.Ok? ==> (r.value.1 <==> Parse(url).value.netloc == origin || Parse(url).value.netloc == "")
    ensures r.Ok? ==> r.value.0 == (if r.value.1 then "ok" else "blocked")
  {
    match Parse(url)
    case Err(e) => Err(e)
    case Ok(p) =>
      var allow := p.netloc == origin || p.netloc == "";
      Ok((if allow then "ok" else "blocked", allow))
  }

  /** A well-formed URL on the origin's host is allowed. */
  lemma SameSiteAllowed(origin: string, p: UrlParts)
    requires WellFormed(p) && p.netloc == origin
    ensures Validator(origin, Compose(p)) == Ok(("ok", true))
  {
    ParseCompose(p);
  }

  /** A well-formed URL on any other named host is blocked. */
  lemma OtherSiteBlocked(origin: string, p: UrlParts)
    requires WellFormed(p) && p.netloc != origin && p.netloc != ""
    ensures Validator(origin, Compose(p)) == Ok(("blocked", false))
  {
    ParseCompose(p);
  }

  // ------------------------------------------------------------ element re-location

  /** `info.get("xpath") == xpath` for a rect entry that is a dict. */
  predicate XpathIs(info: Json, xpath: string) {
    Lookup(info, "xpath") == Some(JStr(xpath))
  }

  /** The scan of `_is_action_available` over the interactive rects: the id
      of the first rect whose xpath is `xpath`; a rect that is not a dict,
      met before any match, has no `.get` and raises. */
  function XpathOwner(rects: seq<Entry>, xpath: string): (r: Result<Option<string>, Raised>)
    ensures r.Ok? && r.value.Some? ==> HasKey(JDict(rects), r.value.value)
    ensures r.Err? ==> r.error == WrongType
  {
    if rects == [] then Ok(None)
    else if !rects[0].value.JDict? then Err(WrongType)
    else if XpathIs(rects[0].value, xpath) then Ok(Some(rects[0].key))
    else XpathOwner(rects[1..], xpath)
  }

  /** The rects before position `i` are dicts without the xpath. */
  predicate ScannedPast(rects: seq<Entry>, xpath: string, i: int)
    requires 0 <= i <= |rects|
  {
    forall j :: 0 <= j < i ==> rects[j].value.JDict? && !XpathIs(rects[j].value, xpath)
  }

  lemma ScannedPastTail(rects: seq<Entry>, xpath: string, i: int)
    requires rects != [] && rects[0].value.JDict? && !XpathIs(rects[0].value, xpath)
    requires 0 <= i <= |rects| - 1 && ScannedPast(rects[1..], xpath, i)
    ensures ScannedPast(rects, xpath, i + 1)
  {
    forall j | 0 < j < i + 1
      ensures rects[j].value.JDict? && !XpathIs(rects[j].value, xpath)
    {
      assert rects[j] == rects[1..][j - 1];
    }
  }

  /** What the scan finds: the first rect with the xpath, unless a rect
      that is no dict comes first; nothing when every rect is a dict
      without it. */
  lemma {:induction false} XpathOwnerMeaning(rects: seq<Entry>, xpath: string)
    ensures var r := XpathOwner(rects, xpath);
      && (r.Ok? && r.value.Some? ==>
            exists i :: 0 <= i < |rects| && rects[i].key == r.value.value && XpathIs(rects[i].value, xpath)
                        && ScannedPast(rects, xpath, i))
      && (r == Ok(None) <==> ScannedPast(rects, xpath, |rects|))
      && (r.Err? ==> exists i :: 0 <= i < |rects| && !rects[i].value.JDict? && ScannedPast(rects, xpath, i))
  {
    if rects == [] || !rects[0].value.JDict? || XpathIs(rects[0].value, xpath) {
      if rects != [] {
        assert ScannedPast(rects, xpath, 0);
        assert !ScannedPast(rects, xpath, |rects|) by {
          assert !(rects[0].value.JDict? && !XpathIs(rects[0].value, xpath));
        }
      }
      return;
    }
    var tail := rects[1..];
    XpathOwnerMeaning(tail, xpath);
    var r := XpathOwner(tail, xpath);
    assert XpathOwner(rects, xpath) == r;
    if r.Ok? && r.value.Some? {
      var i :| 0 <= i < |tail| && tail[i].key == r.value.value && XpathIs(tail[i].value, xpath) && ScannedPast(tail, xpath, i);
      ScannedPastTail(rects, xpath, i);
      assert rects[i + 1] == tail[i];
    }
    if r.Err? {
      var i :| 0 <= i < |tail| && !tail[i].value.JDict? && ScannedPast(tail, xpath, i);
      ScannedPastTail(rects, xpath, i);
      assert rects[i + 1] == tail[i];
    }
    if r == Ok(None) {
      ScannedPastTail(rects, xpath, |tail|);
    }
    if ScannedPast(rects, xpath, |rects|) {
      assert ScannedPast(tail, xpath, |tail|) by {
        forall j | 0 <= j < |tail|
          ensures tail[j].value.JDict? && !XpathIs(tail[j].value, xpath)
        {
          assert tail[j] == rects[j + 1];
        }
      }
    }
  }

  /** The `for rid, info in rects.items()` loop, run against `XpathOwner`. */
  method FindByXpath(rects: seq<Entry>, xpath: string) returns (r: Result<Option<string>, Raised>)
    ensures r == XpathOwner(rects, xpath)
  {
    for i := 0 to |rects|
      invariant XpathOwner(rects[i..], xpath) == XpathOwner(rects, xpath)
    {
      assert rects[i..][1..] == rects[i + 1..];
      var info := rects[i].value;
      if !info.JDict? {
        return Err(WrongType);
      }
      if XpathIs(info, xpath) {
        return Ok(Some(rects[i].key));
      }
    }
    r := Ok(None);
  }

  // ------------------------------------------------------------ the agent

  /** The state had an UNEXPLORED action: the test before a push. */
  predicate HasWork(states: map<StateId, AbstractState>, actions: map<ActionId, AbstractAction>, sid: StateId)
    requires sid in states && forall a :: a in states[sid].actions ==> a in actions
  {
    exists a :: a in states[sid].actions && actions[a].flag == Unexplored
  }

  /** The stop test reports work left exactly when `select_action` would
      find an action: the index of UNEXPLORED ids is non-empty. */
  lemma IndexMatchesSelector(k: AppKnowledge, current: Option<StateId>)
    requires k.Valid() && k.IndexExact()
    ensures forall id :: id in k.actionOrder <==> id in k.actions
    ensures forall s, a :: s in k.states && a in k.states[s].actions ==> a in k.actions
    ensures k.unexplored != {} <==> SelectAction(k.states, k.actions, k.actionOrder, current).Some?
  {
    assert forall s :: s in k.states ==> Lists(k.states[s], k.actions);
    var r := SelectAction(k.states, k.actions, k.actionOrder, current);
    if k.unexplored != {} {
      var id :| id in k.unexplored;
      assert id in k.actions && k.actions[id].flag == Unexplored;
    }
    if r.Some? {
      assert r.value in UnexploredIds(k.actions);
    }
  }

  class ExplorationAgent {
    const knowledge: AppKnowledge
    /** `_origin`: the netloc of the start URL. */
    const origin: string
    const maxDepth: int
    const maxSteps: int
    var stepsExecuted: int
    /** `_visited_state_ids` */
    var visited: set<StateId>
    /** `_state_stack`: states to come back to, oldest first. */
    var stateStack: seq<StateId>

    ghost predicate Valid()
      reads this, knowledge, knowledge.aig
    {
      knowledge.Valid() && Distinct(stateStack)
    }

    /** The progress-tracking part of `__init__`: fresh, empty knowledge. */
    constructor(origin: string, maxDepth: int, maxSteps: int)
      ensures Valid() && knowledge.IndexExact() && fresh(knowledge) && fresh(knowledge.aig)
      ensures knowledge.states == map[] && knowledge.actions == map[] && knowledge.unexplored == {}
      ensures this.origin == origin && this.maxDepth == maxDepth && this.maxSteps == maxSteps
      ensures stepsExecuted == 0 && visited == {} && stateStack == []
    {
      knowledge := new AppKnowledge();
      this.origin := origin;
      this.maxDepth := maxDepth;
      this.maxSteps := maxSteps;
      stepsExecuted := 0;
      visited := {};
      stateStack := [];
    }

    /** `_should_continue`: go on while some action is UNEXPLORED, the step
        budget is not spent and no more than `maxDepth` states were visited. */
    function ShouldContinue(): (r: bool)
      reads this, knowledge
      ensures knowledge.unexplored == {} ==> !r
      ensures stepsExecuted >= maxSteps ==> !r
      ensures |visited| > maxDepth ==> !r
      ensures knowledge.unexplored != {} && stepsExecuted < maxSteps && |visited| <= maxDepth ==> r
    {
      if knowledge.unexplored == {} then false
      else if stepsExecuted >= maxSteps then false
      else if |visited| > maxDepth then false
      else true
    }

    /** When the loop goes on, `select_action` finds an action to try. */
    lemma ContinueHasTarget(current: Option<StateId>)
      requires Valid() && knowledge.IndexExact() && ShouldContinue()
      ensures forall id :: id in knowledge.actionOrder <==> id in knowledge.actions
      ensures forall s, a :: s in knowledge.states && a in knowledge.states[s].actions ==> a in knowledge.actions
      ensures SelectAction(knowledge.states, knowledge.actions, knowledge.actionOrder, current).Some?
    {
      IndexMatchesSelector(knowledge, current);
    }

    /** The back-tracking push of `explore`: the current state is looked up
        (a missing id raises `KeyError`) and pushed when it has an UNEXPLORED
        action and is not on the stack yet. The result says whether it was
        pushed; the stack never holds a state twice. */
    method PushForBacktrack(current: StateId) returns (r: Result<bool, Raised>)
      requires Valid()
      modifies this
      ensures Valid()
      ensures visited == old(visited) && stepsExecuted == old(stepsExecuted)
      ensures current !in knowledge.states ==> r == Err(MissingKey) && stateStack == old(stateStack)
      ensures current in knowledge.states ==>
        && (forall a :: a in knowledge.states[current].actions ==> a in knowledge.actions)
        && r.Ok?
        && (r.value <==> HasWork(knowledge.states, knowledge.actions, current) && current !in old(stateStack))
        && stateStack == (if r.value then old(stateStack) + [current] else old(stateStack))
    {
      if current !in knowledge.states {
        return Err(MissingKey);
      }
      assert Lists(knowledge.states[current], knowledge.actions);
      var s := knowledge.states[current];
      var work := exists a :: a in s.actions && knowledge.actions[a].flag == Unexplored;
      if work && current !in stateStack {
        stateStack := stateStack + [current];
        return Ok(true);
      }
      r := Ok(false);
    }

    /** `_is_action_available` with the page's interactive rects given as a
        dict. The primary element is found by id, else by its description
        used as an xpath; a match by xpath rewrites the element's id to the
        rect's. After a true answer the primary element's id is a key of
        the rects. */
    method IsActionAvailable(aid: ActionId, rects: seq<Entry>) returns (r: Result<bool, Raised>)
      requires Valid() && aid in knowledge.actions
      modifies knowledge
      ensures Valid() && (old(knowledge.IndexExact()) ==> knowledge.IndexExact())
      ensures knowledge.states == old(knowledge.states) && knowledge.stateOrder == old(knowledge.stateOrder)
      ensures knowledge.actionOrder == old(knowledge.actionOrder) && knowledge.unexplored == old(knowledge.unexplored)
      ensures knowledge.rawTrace == old(knowledge.rawTrace) && aid in knowledge.actions
      ensures r == Ok(true) ==>
        knowledge.actions[aid].elements != [] && HasKey(JDict(rects), knowledge.actions[aid].elements[0].nodeId)
      ensures var a := old(knowledge.actions[aid]);
        && (a.elements == [] ==> r == Ok(false))
        && (a.elements != [] && HasKey(JDict(rects), a.elements[0].nodeId) ==> r == Ok(true))
        && (a.elements != [] && !HasKey(JDict(rects), a.elements[0].nodeId) && a.elements[0].description == "" ==>
              r == Ok(false))
        && (a.elements != [] && !HasKey(JDict(rects), a.elements[0].nodeId) && a.elements[0].description != "" ==>
              var found := XpathOwner(rects, a.elements[0].description);
              && (found.Err? ==> r == Err(found.error))
              && (found.Ok? ==> r == Ok(found.value.Some?)))
      ensures var a := old(knowledge.actions[aid]);
        if r == Ok(true) && !HasKey(JDict(rects), a.elements[0].nodeId) then
          var e := a.elements[0];
          knowledge.actions == old(knowledge.actions)[aid := a.(elements := a.elements[0 := UIElement(XpathOwner(rects, e.description).value.value, e.description)])]
        else knowledge.actions == old(knowledge.actions)
    {
      var a := knowledge.actions[aid];
      if a.elements == [] {
        return Ok(false);
      }
      var elem := a.elements[0];
      if HasKey(JDict(rects), elem.nodeId) {
        return Ok(true);
      }
      if elem.description == "" {
        return Ok(false);
      }
      var found := FindByXpath(rects, elem.description);
      if found.Err? {
        return Err(found.error);
      }
      if found.value.None? {
        return Ok(false);
      }
      knowledge.SetElements(aid, a.elements[0 := UIElement(found.value.value, elem.description)]);
      r := Ok(true);
    }
  }
}
