/** The deterministic part of `ElementGrouper.extract_actions`: one raw
    action per interactive rect, the translation of the oracle's groups into
    one action per group, and the rule that falls back to the raw list. The
    oracle's reply is a parameter: the tokens it reports and the parsed JSON
    of its content. */
module ElementGrouper {
  import opened Outcomes
  import opened JsonValues

  /** One entry of the action list: raw entries carry no element list,
      group entries carry the group's stringified element ids. */
  datatype ActionEntry = ActionEntry(actionType: Json, elementId: string, functionText: Json, xpath: Json,
                                     elements: Option<seq<string>>)

  /** An exception `extract_actions` lets through: `.items()` or `.get` on a
      value that is no dict, or slicing a value that cannot be sliced. */
  datatype Uncaught = Uncaught

  /** The oracle's reply: the total tokens it reports, if any, and its
      content parsed as JSON, None where reading or parsing it raises. */
  datatype Reply = Reply(totalTokens: Option<nat>, parsed: Option<Json>)

  /** The four results: actions, page description, element groups and the
      token count. */
  datatype Extracted = Extracted(actions: seq<ActionEntry>, pageDescription: Json, elementGroups: Json, tokenUsage: int)

  /** The interactive rects of a snapshot; a non-dict snapshot has none, and
      rects that are no dict cannot be iterated with `.items()`. */
  function Rects(snapshot: Json): Result<seq<Entry>, Uncaught> {
    if !snapshot.JDict? then Ok([])
    else match GetOr(snapshot, "interactive_rects", JDict([]))
      case JDict(es) => Ok(es)
      case _ => Err(Uncaught)
  }

  /** `a` is the raw action of the rect `key` with description `info`. */
  predicate IsRawEntry(key: string, info: Json, a: ActionEntry) {
    && a.elementId == key
    && a.actionType == GetOr(info, "default_action", JStr("click"))
    && a.functionText == GetOr(info, "aria_label", JStr(""))
    && a.xpath == GetOr(info, "xpath", JStr(""))
    && a.elements.None?
  }

  /** `raw` is the raw list of `rects`: one action per rect, in rect order. */
  predicate IsRawList(rects: seq<Entry>, raw: seq<ActionEntry>) {
    |raw| == |rects| && forall i :: 0 <= i < |raw| ==> IsRawEntry(rects[i].key, rects[i].value, raw[i])
  }

  /** Building the raw list raises: the rects are no dict, or one rect's
      description is no dict and has no `.get`. */
  predicate RawFails(snapshot: Json) {
    Rects(snapshot).Err? || exists e :: e in Rects(snapshot).value && !e.value.JDict?
  }

  /** The loop that builds the raw list. */
  method RawActions(snapshot: Json) returns (r: Result<seq<ActionEntry>, Uncaught>)
    ensures !snapshot.JDict? ==> r == Ok([])
    ensures r.Err? <==> RawFails(snapshot)
    ensures r.Ok? ==> IsRawList(Rects(snapshot).value, r.value)
  {
    var rects := Rects(snapshot);
    if rects.Err? {
      return Err(Uncaught);
    }
    var es := rects.value;
    var raw: seq<ActionEntry> := [];
    for i := 0 to |es|
      invariant |raw| == i
      invariant forall j :: 0 <= j < i ==> es[j].value.JDict? && IsRawEntry(es[j].key, es[j].value, raw[j])
    {
      var info := es[i].value;
      if !info.JDict? {
        assert es[i] in es;
        return Err(Uncaught);
      }
      raw := raw + [ActionEntry(GetOr(info, "default_action", JStr("click")), es[i].key,
                                GetOr(info, "aria_label", JStr("")), GetOr(info, "xpath", JStr("")), None)];
    }
    r := Ok(raw);
  }

  /** `original_type.get(id, "click")`, where `original_type` maps each raw
      element id to its action type (a later entry overriding an earlier one). */
  function OriginalType(raw: seq<ActionEntry>, id: string): (r: Json)
    ensures (forall i :: 0 <= i < |raw| ==> raw[i].elementId != id) ==> r == JStr("click")
    ensures (exists i :: 0 <= i < |raw| && raw[i].elementId == id) ==>
      exists i :: 0 <= i < |raw| && raw[i].elementId == id && r == raw[i].actionType
        && forall j :: i < j < |raw| ==> raw[j].elementId != id
  {
    if raw == [] then JStr("click")
    else if raw[|raw| - 1].elementId == id then raw[|raw| - 1].actionType
    else
      var r := OriginalType(raw[..|raw| - 1], id);
      OriginalTypeSnoc(raw[..|raw| - 1], raw[|raw| - 1], id, r);
      assert raw == raw[..|raw| - 1] + [raw[|raw| - 1]];
      r
  }

  /** An entry for another id, added at the end, leaves the lookup as it was. */
  lemma OriginalTypeSnoc(raw: seq<ActionEntry>, last: ActionEntry, id: string, r: Json)
    requires last.elementId != id
    requires (forall i :: 0 <= i < |raw| ==> raw[i].elementId != id) ==> r == JStr("click")
    requires (exists i :: 0 <= i < |raw| && raw[i].elementId == id) ==>
      exists i :: 0 <= i < |raw| && raw[i].elementId == id && r == raw[i].actionType
        && forall j :: i < j < |raw| ==> raw[j].elementId != id
    ensures var raw' := raw + [last];
      && ((forall i :: 0 <= i < |raw'| ==> raw'[i].elementId != id) ==> r == JStr("click"))
      && ((exists i :: 0 <= i < |raw'| && raw'[i].elementId == id) ==>
        exists i :: 0 <= i < |raw'| && raw'[i].elementId == id && r == raw'[i].actionType
          && forall j :: i < j < |raw'| ==> raw'[j].elementId != id)
  {
    var raw' := raw + [last];
    if exists i :: 0 <= i < |raw'| && raw'[i].elementId == id {
      var i :| 0 <= i < |raw'| && raw'[i].elementId == id;
      assert raw[i].elementId == id;
      var w :| 0 <= w < |raw| && raw[w].elementId == id && r == raw[w].actionType
        && forall j :: w < j < |raw| ==> raw[j].elementId != id;
      assert raw'[w] == raw[w];
    } else {
      forall i | 0 <= i < |raw|
        ensures raw[i].elementId != id
      {
        assert raw'[i] == raw[i];
      }
    }
  }

  /** `interactive_rects.get(id, {}).get("xpath", "")`. */
  function RectXpath(rects: seq<Entry>, id: string): Json {
    match KeyIndex(rects, id)
    case None => JStr("")
    case Some(k) => GetOr(rects[k].value, "xpath", JStr(""))
  }

  /** A group with a missing or falsy "elements" is skipped. */
  predicate Skipped(g: Json) {
    var els := Lookup(g, "elements");
    els.None? || !Truthy(els.value)
  }

  /** `str(eid)` of every element id. */
  function Stringified(items: seq<Json>): (r: seq<string>)
    ensures |r| == |items| && forall i :: 0 <= i < |items| ==> r[i] == PyStr(items[i])
  {
    seq(|items|, i requires 0 <= i < |items| => PyStr(items[i]))
  }

  /** The group with its "elements" replaced in place by `ids`. */
  function WithElements(g: Json, ids: seq<string>): (r: Json)
    requires HasKey(g, "elements")
    ensures Lookup(r, "elements") == Some(JList(seq(|ids|, i requires 0 <= i < |ids| => JStr(ids[i]))))
    ensures forall key :: key != "elements" ==> Lookup(r, key) == Lookup(g, key)
  {
    var k := KeyIndex(g.entries, "elements").value;
    var es := g.entries[k := Entry("elements", JList(seq(|ids|, i requires 0 <= i < |ids| => JStr(ids[i]))))];
    forall key {
      KeyIndexSameKeys(es, g.entries, key);
    }
    JDict(es)
  }

  /** One group of the loop: raises when it is no dict, or when its
      elements cannot be iterated; otherwise skipped, or one action whose
      representative is the first stringified element, typed as that raw
      element (default "click"), with that rect's xpath (default ""). */
  function Translate(g: Json, rects: seq<Entry>, raw: seq<ActionEntry>): (r: Result<Option<(ActionEntry, Json)>, Uncaught>)
    ensures r.Ok? <==> g.JDict? && (Skipped(g) || Items(Lookup(g, "elements").value).Some?)
    ensures r.Ok? && Skipped(g) ==> r.value.None?
    ensures r.Ok? && !Skipped(g) ==> (
      && r.value.Some?
      && var (a, g') := r.value.value;
         var ids := Stringified(Items(Lookup(g, "elements").value).value);
         && |ids| > 0 && a.elements == Some(ids) && a.elementId == ids[0]
         && a.actionType == OriginalType(raw, ids[0]) && a.xpath == RectXpath(rects, ids[0])
         && a.functionText == GetOr(g, "function", JStr(""))
         && Lookup(g', "elements") == Some(JList(seq(|ids|, i requires 0 <= i < |ids| => JStr(ids[i])))))
  {
    if !g.JDict? then Err(Uncaught)
    else if Skipped(g) then Ok(None)
    else match Items(Lookup(g, "elements").value)
      case None => Err(Uncaught)
      case Some(items) =>
        var ids := Stringified(items);
        var rep := ids[0];
        Ok(Some((ActionEntry(OriginalType(raw, rep), rep, GetOr(g, "function", JStr("")), RectXpath(rects, rep), Some(ids)),
                 WithElements(g, ids))))
  }

  /** The groups that are not skipped. */
  function Kept(items: seq<Json>): seq<Json> {
    if items == [] then []
    else Kept(items[..|items| - 1]) + (if Skipped(items[|items| - 1]) then [] else [items[|items| - 1]])
  }

  /** The loop over the groups, ended by the first group that raises. */
  function TranslateAll(items: seq<Json>, rects: seq<Entry>, raw: seq<ActionEntry>): (r: Result<(seq<ActionEntry>, seq<Json>), Uncaught>)
    ensures r.Ok? <==> forall i :: 0 <= i < |items| ==> Translate(items[i], rects, raw).Ok?
  {
    if items == [] then Ok(([], []))
    else
      var init := items[..|items| - 1];
      var last := items[|items| - 1];
      assert forall i :: 0 <= i < |init| ==> init[i] == items[i];
      match TranslateAll(init, rects, raw)
      case Err(e) => Err(e)
      case Ok((acts, gs)) =>
        match Translate(last, rects, raw)
        case Err(e) => Err(e)
        case Ok(None) => Ok((acts, gs + [last]))
        case Ok(Some((a, g'))) => Ok((acts + [a], gs + [g']))
  }

  /** A group loop that does not raise yields exactly one action per kept
      group, in order. */
  lemma {:induction false} TranslateAllActions(items: seq<Json>, rects: seq<Entry>, raw: seq<ActionEntry>)
    requires TranslateAll(items, rects, raw).Ok?
    ensures var acts := TranslateAll(items, rects, raw).value.0;
      && |acts| == |Kept(items)|
      && (forall j :: 0 <= j < |acts| ==>
            !Skipped(Kept(items)[j]) && Translate(Kept(items)[j], rects, raw).Ok?
            && acts[j] == Translate(Kept(items)[j], rects, raw).value.value.0)
  {
    if items != [] {
      var init := items[..|items| - 1];
      var last := items[|items| - 1];
      assert forall i :: 0 <= i < |init| ==> init[i] == items[i];
      TranslateAllActions(init, rects, raw);
      var acts0 := TranslateAll(init, rects, raw).value.0;
      var t := Translate(last, rects, raw);
      assert t.Ok?;
      if t.value.None? {
        assert Skipped(last);
        assert TranslateAll(items, rects, raw).value.0 == acts0;
      } else {
        assert !Skipped(last);
        assert Kept(items) == Kept(init) + [last];
        assert TranslateAll(items, rects, raw).value.0 == acts0 + [t.value.value.0];
      }
    }
  }

  /** A group as the loop leaves it: as it was when skipped, otherwise with
      its elements normalised. */
  function Rewritten(g: Json, rects: seq<Entry>, raw: seq<ActionEntry>): Json {
    if Skipped(g) then g
    else match Translate(g, rects, raw)
      case Ok(Some((_, g'))) => g'
      case _ => g
  }

  /** A group loop that does not raise keeps every skipped group and
      rewrites every kept one in place. */
  lemma {:induction false} TranslateAllGroups(items: seq<Json>, rects: seq<Entry>, raw: seq<ActionEntry>)
    requires TranslateAll(items, rects, raw).Ok?
    ensures var gs := TranslateAll(items, rects, raw).value.1;
      && |gs| == |items|
      && (forall i :: 0 <= i < |items| ==> gs[i] == Rewritten(items[i], rects, raw))
  {
    if items != [] {
      var init := items[..|items| - 1];
      var last := items[|items| - 1];
      assert forall i :: 0 <= i < |init| ==> init[i] == items[i];
      TranslateAllGroups(init, rects, raw);
      var gs0 := TranslateAll(init, rects, raw).value.1;
      var gs := TranslateAll(items, rects, raw).value.1;
      GroupsSnoc(items, rects, raw);
      forall i | 0 <= i < |items|
        ensures gs[i] == Rewritten(items[i], rects, raw)
      {
        if i < |init| {
          assert gs[i] == gs0[i] && items[i] == init[i];
        }
      }
    }
  }

  /** The last group of a loop that does not raise is left as `Rewritten`
      says, after the groups before it. */
  lemma GroupsSnoc(items: seq<Json>, rects: seq<Entry>, raw: seq<ActionEntry>)
    requires items != [] && TranslateAll(items, rects, raw).Ok?
    ensures TranslateAll(items[..|items| - 1], rects, raw).Ok?
    ensures TranslateAll(items, rects, raw).value.1 ==
      TranslateAll(items[..|items| - 1], rects, raw).value.1 + [Rewritten(items[|items| - 1], rects, raw)]
  {
    var t := Translate(items[|items| - 1], rects, raw);
    assert t.Ok?;
  }

  /** The group loop over the oracle's "Same-function elements": one action
      per kept group, each group's elements normalised in place; a value
      that cannot be iterated, or a group that raises, ends it. */
  method GroupActions(groups: Json, rects: seq<Entry>, raw: seq<ActionEntry>)
    returns (r: Result<(seq<ActionEntry>, Json), Uncaught>)
    ensures Items(groups).None? ==> r.Err?
    ensures Items(groups).Some? ==>
      match TranslateAll(Items(groups).value, rects, raw)
      case Err(_) => r.Err?
      case Ok((acts, gs)) => r == Ok((acts, if groups.JList? then JList(gs) else groups))
  {
    var items := Items(groups);
    if items.None? {
      return Err(Uncaught);
    }
    var gs := items.value;
    var acts: seq<ActionEntry> := [];
    var out: seq<Json> := [];
    for i := 0 to |gs|
      invariant TranslateAll(gs[..i], rects, raw) == Ok((acts, out))
    {
      assert gs[..i + 1][..i] == gs[..i];
      var t := Translate(gs[i], rects, raw);
      if t.Err? {
        ErrStays(gs, i + 1, rects, raw);
        return Err(Uncaught);
      }
      if t.value.None? {
        out := out + [gs[i]];
      } else {
        acts := acts + [t.value.value.0];
        out := out + [t.value.value.1];
      }
    }
    assert gs[..|gs|] == gs;
    r := Ok((acts, if groups.JList? then JList(out) else groups));
  }

  lemma ErrStays(gs: seq<Json>, i: nat, rects: seq<Entry>, raw: seq<ActionEntry>)
    requires 0 < i <= |gs| && TranslateAll(gs[..i], rects, raw).Err?
    ensures TranslateAll(gs, rects, raw).Err?
  {
    assert !Translate(gs[..i][i - 1], rects, raw).Ok? || exists j :: 0 <= j < i - 1 && !Translate(gs[..i][j], rects, raw).Ok?;
  }

  /** The "too aggressive" rule: no group actions, or at most two of them
      for more than five raw elements, fall back to the raw list. So the
      actions are never empty when there are raw elements, and there are
      at least three of them when there are more than five raw elements. */
  function Chosen(actions: seq<ActionEntry>, raw: seq<ActionEntry>): (r: seq<ActionEntry>)
    ensures r == raw || r == actions
    ensures |raw| > 0 ==> |r| > 0
    ensures |raw| > 5 ==> |r| >= 3
  {
    if actions == [] || (|actions| <= 2 && |raw| > 5) then raw else actions
  }

  /** Slicing `snapshot.get("html", "")` raises unless it is a string or a list. */
  predicate HtmlSliceable(snapshot: Json) {
    match Lookup(snapshot, "html")
    case None => true
    case Some(v) => v.JStr? || v.JList?
  }

  /** The tokens a reply reports, 0 when it reports none. */
  function Reported(reply: Option<Reply>): nat {
    if reply.Some? && reply.value.totalTokens.Some? then reply.value.totalTokens.value else 0
  }

  /** The try block of `extract_actions` after the raw list, with `total` the
      token count once the reply's tokens are added: no reply, a reply that
      does not parse to a dict, or a group loop that raises all give
      `(raw, "", [], 0)`; otherwise the group actions under the fallback
      rule, the page description, the normalised groups and the total. */
  function Outcome(reply: Option<Reply>, rects: seq<Entry>, raw: seq<ActionEntry>, total: int): (r: Extracted)
    ensures r.actions == raw || (
      && |r.actions| > 0 && (|raw| > 5 ==> |r.actions| >= 3)
      && forall a :: a in r.actions ==> a.elements.Some? && |a.elements.value| > 0 && a.elementId == a.elements.value[0])
    ensures r.actions != raw ==> r.tokenUsage == total
  {
    var fallback := Extracted(raw, JStr(""), JList([]), 0);
    if reply.None? || reply.value.parsed.None? || !reply.value.parsed.value.JDict? then fallback
    else
      var parsed := reply.value.parsed.value;
      var groups := GetOr(parsed, "Same-function elements", JList([]));
      match Items(groups)
      case None => fallback
      case Some(items) =>
        match TranslateAll(items, rects, raw)
        case Err(_) => fallback
        case Ok((acts, gs)) =>
          assert forall a :: a in acts ==> a.elements.Some? && |a.elements.value| > 0 && a.elementId == a.elements.value[0] by {
            TranslateAllActions(items, rects, raw);
          }
          Extracted(Chosen(acts, raw), GetOr(parsed, "Page description", JStr("")),
                    if groups.JList? then JList(gs) else groups, total)
  }

  class Grouper {
    /** The running total of tokens the oracle reported. */
    var tokenUsage: int

    constructor ()
      ensures tokenUsage == 0
    {
      tokenUsage := 0;
    }

    /** `extract_actions`: the raw list and, given the oracle's reply, the
        outcome of the try block; building the raw list or slicing the
        page's html raises out of it. The reply's tokens are added even
        where the try block then falls back. */
    method ExtractActions(snapshot: Json, reply: Option<Reply>) returns (r: Result<Extracted, Uncaught>)
      modifies this
      ensures r.Err? <==> RawFails(snapshot) || !HtmlSliceable(snapshot)
      ensures r.Err? ==> tokenUsage == old(tokenUsage)
      ensures r.Ok? ==> tokenUsage == old(tokenUsage) + Reported(reply)
      ensures r.Ok? ==> exists raw :: IsRawList(Rects(snapshot).value, raw)
                                      && r.value == Outcome(reply, Rects(snapshot).value, raw, tokenUsage)
    {
      var raw := RawActions(snapshot);
      if raw.Err? || !HtmlSliceable(snapshot) {
        return Err(Uncaught);
      }
      var rects := Rects(snapshot).value;
      var fallback := Extracted(raw.value, JStr(""), JList([]), 0);
      if reply.None? {
        return Ok(fallback);
      }
      tokenUsage := tokenUsage + Reported(reply);
      var parsed := reply.value.parsed;
      if parsed.None? || !parsed.value.JDict? {
        return Ok(fallback);
      }
      var groups := GetOr(parsed.value, "Same-function elements", JList([]));
      var pageDesc := GetOr(parsed.value, "Page description", JStr(""));
      var grouped := GroupActions(groups, rects, raw.value);
      if grouped.Err? {
        return Ok(fallback);
      }
      var (acts, normalised) := grouped.value;
      r := Ok(Extracted(Chosen(acts, raw.value), pageDesc, normalised, tokenUsage));
    }
  }
}
