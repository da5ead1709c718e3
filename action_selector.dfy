/** The app-wide target action selector (`ActionSelector.select_action`):
    the least-id UNEXPLORED action of the current state, else the least-id
    UNEXPLORED action of the whole table, else none. It only reads the
    knowledge tables. */
module ActionSelector {
  import opened Outcomes
  import opened Text
  import opened Walks
  import opened Knowledge

  /** The ids among `ids` whose action is UNEXPLORED, in order: the list
      comprehensions of `select_action`. */
  function UnexploredOf(ids: seq<ActionId>, actions: map<ActionId, AbstractAction>): (r: seq<ActionId>)
    requires forall id :: id in ids ==> id in actions
    ensures forall id :: id in r <==> id in ids && actions[id].flag == Unexplored
  {
    if ids == [] then []
    else (if actions[ids[0]].flag == Unexplored then [ids[0]] else []) + UnexploredOf(ids[1..], actions)
  }

  lemma LeastStep(x: string, rest: string, ids: seq<string>)
    requires Less(x, rest) && forall id :: id in ids ==> !Less(id, rest)
    ensures !Less(x, x) && forall id :: id in ids ==> !Less(id, x)
  {
    LessIrreflexive(x);
    forall id | id in ids
      ensures !Less(id, x)
    {
      if Less(id, x) {
        LessTransitive(id, x, rest);
      }
    }
  }

  /** `sorted(ids)[0]`: the least id in Python's string order. */
  function Least(ids: seq<ActionId>): (r: ActionId)
    requires ids != []
    ensures r in ids && forall id :: id in ids ==> !Less(id, r)
  {
    if |ids| == 1 then
      LessIrreflexive(ids[0]);
      ids[0]
    else
      var rest := Least(ids[1..]);
      assert forall id :: id in ids ==> id == ids[0] || id in ids[1..];
      if Less(ids[0], rest) then
        LeastStep(ids[0], rest, ids[1..]);
        ids[0]
      else rest
  }

  /** Two lists with the same members have the same least member: the
      choice does not depend on the order the dicts are walked in. */
  lemma LeastIgnoresOrder(a: seq<ActionId>, b: seq<ActionId>)
    requires a != [] && forall id :: id in a <==> id in b
    ensures b != [] && Least(a) == Least(b)
  {
    assert a[0] in b;
    var x, y := Least(a), Least(b);
    LessTotal(x, y);
  }

  /** `current_state_id` is truthy, names a known state, and that state
      lists an UNEXPLORED action. */
  predicate LocalWork(states: map<StateId, AbstractState>, actions: map<ActionId, AbstractAction>, current: Option<StateId>)
    requires forall s, a :: s in states && a in states[s].actions ==> a in actions
  {
    current.Some? && current.value != "" && current.value in states
    && exists a :: a in states[current.value].actions && actions[a].flag == Unexplored
  }

  /** `select_action`: a local choice when the current state has work,
      otherwise a global one; None exactly when no action is UNEXPLORED. */
  function SelectAction(states: map<StateId, AbstractState>, actions: map<ActionId, AbstractAction>,
                        actionOrder: seq<ActionId>, current: Option<StateId>): (r: Option<ActionId>)
    requires forall id :: id in actionOrder <==> id in actions
    requires forall s, a :: s in states && a in states[s].actions ==> a in actions
    ensures r.Some? ==> r.value in actions && actions[r.value].flag == Unexplored
    ensures r.None? <==> forall id :: id in actions ==> actions[id].flag != Unexplored
    ensures LocalWork(states, actions, current) ==>
      && r.Some? && r.value in states[current.value].actions
      && forall a :: a in states[current.value].actions && actions[a].flag == Unexplored ==> !Less(a, r.value)
    ensures !LocalWork(states, actions, current) && r.Some? ==>
      forall id :: id in actions && actions[id].flag == Unexplored ==> !Less(id, r.value)
  {
    var local := if current.Some? && current.value != "" && current.value in states
                 then UnexploredOf(states[current.value].actions, actions) else [];
    if local != [] then
      Some(Least(local))
    else
      var global := UnexploredOf(actionOrder, actions);
      if global != [] then Some(Least(global)) else None
  }
}
