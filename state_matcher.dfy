/** Matching a page snapshot to an abstract state (`StateMatcher`): a
    signature from a bounded pre-order walk over the DOM tags plus the URL
    path and query; a lookup by signature; and, when an equivalence oracle is
    configured, a cached comparison against the first snapshots of each
    state. The hash function and the oracle are parameters. */
module StateMatcher {
  import opened Outcomes
  import opened Text
  import opened JsonValues
  import opened UrlParse
  import opened Walks
  import opened Knowledge

  /** `_extract_tags` stops collecting at this many tags. */
  const TagLimit: nat := 256

  /** `_canonicalize` falls back to this many characters of `str(snapshot)`. */
  const FallbackLength: nat := 1024

  /** One step of the tag walk that can matter: a tag collected, or a
      `for` over a value that is not iterable, which raises TypeError. */
  datatype Event = Tag(tag: Json) | Fail

  function Flatten(ss: seq<seq<Event>>): seq<Event> {
    if ss == [] then [] else Flatten(ss[..|ss| - 1]) + ss[|ss| - 1]
  }

  /** The steps of `_extract_tags` on `node` with no limit, in the order it
      takes them: a dict contributes its truthy "tag" and then the steps of
      its "children", a list the steps of its items, left to right.
      Children that are not iterable raise; that step is placed before the
      dict's own tag, since the tag is dropped along with everything else
      when the walk raises. */
  function Events(node: Json): seq<Event>
    decreases node
  {
    match node
    case JDict(es) =>
      var tag := GetOr(JDict(es), "tag", JStr(""));
      var own := if Truthy(tag) then [Tag(tag)] else [];
      (match KeyIndex(es, "children")
       case None => own
       case Some(k) =>
         assert es[k] in es;
         match es[k].value
         case JList(_) => own + Events(es[k].value)
         case JStr(_) => own
         case JDict(_) => own
         case _ => [Fail] + own)
    case JList(items) =>
      Flatten(seq(|items|, i requires 0 <= i < |items| => Events(items[i])))
    case _ => []
  }

  /** Running the steps with room for `room` more tags: None when a step
      that raises is reached before the room is used up. */
  function Scan(evs: seq<Event>, room: nat): (r: Option<seq<Json>>)
    ensures r.Some? ==> |r.value| <= room
  {
    if evs == [] || room == 0 then Some([])
    else match evs[0]
      case Fail => None
      case Tag(t) =>
        match Scan(evs[1..], room - 1)
        case None => None
        case Some(rest) => Some([t] + rest)
  }

  /** All tags of the steps, with no limit. */
  function TagsOf(evs: seq<Event>): seq<Json> {
    if evs == [] then [] else (if evs[0].Tag? then [evs[0].tag] else []) + TagsOf(evs[1..])
  }

  /** The walk collects the first `room` tags in walk order, and fails
      exactly when a raising step comes before the `room`-th tag. */
  lemma {:induction false} ScanMeaning(evs: seq<Event>, room: nat)
    ensures Scan(evs, room).Some? ==> Scan(evs, room).value == Take(TagsOf(evs), room)
    ensures Scan(evs, room).None? <==> exists i :: 0 <= i < |evs| && evs[i] == Fail && |TagsOf(evs[..i])| < room
  {
    if evs != [] && room != 0 {
      ScanMeaning(evs[1..], if evs[0].Tag? then room - 1 else room);
      assert evs[..1] == [evs[0]];
      if evs[0] == Fail {
        assert TagsOf(evs[..0]) == [];
      } else {
        forall i | 1 <= i <= |evs|
          ensures TagsOf(evs[..i]) == [evs[0].tag] + TagsOf(evs[1..][..i - 1])
        {
          assert evs[..i][1..] == evs[1..][..i - 1];
        }
        if Scan(evs, room).None? {
          var i :| 0 <= i < |evs[1..]| && evs[1..][i] == Fail && |TagsOf(evs[1..][..i])| < room - 1;
          assert evs[i + 1] == Fail && |TagsOf(evs[..i + 1])| < room;
        }
        if exists i :: 0 <= i < |evs| && evs[i] == Fail && |TagsOf(evs[..i])| < room {
          var i :| 0 <= i < |evs| && evs[i] == Fail && |TagsOf(evs[..i])| < room;
          assert i != 0;
          assert evs[1..][i - 1] == Fail && |TagsOf(evs[1..][..i - 1])| < room - 1;
        }
      }
    } else if evs == [] {
    } else {
      assert TagsOf(evs[..0]) == [];
    }
  }

  /** The walk of `a` followed by `b` is the walk of `a`, then the walk of
      `b` with the room that is left. */
  lemma {:induction false} ScanAppend(a: seq<Event>, b: seq<Event>, room: nat)
    ensures Scan(a + b, room) ==
      match Scan(a, room)
      case None => None
      case Some(x) =>
        match Scan(b, room - |x|)
        case None => None
        case Some(y) => Some(x + y)
  {
    if a == [] {
      assert a + b == b;
      match Scan(b, room)
      case None =>
      case Some(y) => assert [] + y == y;
    } else if room != 0 {
      assert (a + b)[0] == a[0];
      assert (a + b)[1..] == a[1..] + b;
      if a[0].Tag? {
        ScanAppend(a[1..], b, room - 1);
        match Scan(a[1..], room - 1)
        case None =>
        case Some(x) =>
          assert Scan(a, room) == Some([a[0].tag] + x);
          match Scan(b, room - 1 - |x|)
          case None =>
          case Some(y) =>
            assert [a[0].tag] + (x + y) == ([a[0].tag] + x) + y;
      }
    }
  }

  lemma FlattenSnoc(ss: seq<seq<Event>>, i: nat)
    requires i < |ss|
    ensures Flatten(ss[..i + 1]) == Flatten(ss[..i]) + ss[i]
  {
    assert ss[..i + 1][..i] == ss[..i];
  }

  /** The room left for tags when `acc` already holds some. */
  function Room(acc: seq<Json>, limit: nat): nat {
    if |acc| < limit then limit - |acc| else 0
  }

  /** `_extract_tags(node, acc, limit)`: None where it raises; otherwise the
      accumulator, grown by exactly what the walk collects in the room left. */
  method ExtractTags(node: Json, acc: seq<Json>, limit: nat) returns (r: Option<seq<Json>>)
    ensures r.None? <==> Scan(Events(node), Room(acc, limit)).None?
    ensures r.Some? ==> r.value == acc + Scan(Events(node), Room(acc, limit)).value
    decreases node, 2
  {
    if |acc| >= limit {
      return Some(acc);
    }
    match node {
      case JDict(es) =>
        r := ExtractDict(es, acc, limit, node);
      case JList(items) =>
        r := ExtractItems(items, acc, limit, node);
      case _ =>
        r := Some(acc);
    }
  }

  /** `_extract_tags` on the dict `node`: its truthy tag, then its children. */
  method ExtractDict(es: seq<Entry>, acc: seq<Json>, limit: nat, ghost node: Json) returns (r: Option<seq<Json>>)
    requires node == JDict(es) && |acc| < limit
    ensures r.None? <==> Scan(Events(node), Room(acc, limit)).None?
    ensures r.Some? ==> r.value == acc + Scan(Events(node), Room(acc, limit)).value
    decreases node, 1
  {
    var tag := GetOr(JDict(es), "tag", JStr(""));
    ghost var own := if Truthy(tag) then [Tag(tag)] else [];
    var a := acc;
    if Truthy(tag) {
      a := a + [tag];
    }
    assert a[|acc|..] == if Truthy(tag) then [tag] else [];
    ScanOwn(tag, limit - |acc|);
    var k := KeyIndex(es, "children");
    if k.None? {
      assert Events(node) == own;
      return Some(a);
    }
    assert es[k.value] in es;
    var children := es[k.value].value;
    if children.JStr? || children.JDict? {
      assert Events(node) == own;
      return Some(a);
    }
    if !children.JList? {
      assert Events(node) == [Fail] + own;
      return None;
    }
    // the children list is walked as a list node
    assert Events(node) == own + Events(children);
    assert Room(a, limit) == limit - |acc| - |a[|acc|..]|;
    r := ExtractTags(children, a, limit);
    WalkAfter(own, Events(children), limit - |acc|, acc, a[|acc|..], r);
  }

  /** Once the walk of `a` has collected `x`, the walk of `a + b` is the
      walk of `b` in the room left, after `x`. */
  lemma ScanAfter(a: seq<Event>, b: seq<Event>, room: nat, x: seq<Json>)
    requires Scan(a, room) == Some(x)
    ensures |x| <= room
    ensures Scan(a + b, room).None? <==> Scan(b, room - |x|).None?
    ensures Scan(a + b, room).Some? ==> Scan(a + b, room).value == x + Scan(b, room - |x|).value
  {
    ScanAppend(a, b, room);
  }

  /** What the walk of the children gives, after `x` was collected from
      `a` on top of `acc`, is what the walk of `a + b` gives on top of `acc`. */
  lemma WalkAfter(a: seq<Event>, b: seq<Event>, room: nat, acc: seq<Json>, x: seq<Json>, r: Option<seq<Json>>)
    requires Scan(a, room) == Some(x)
    requires |x| <= room
    requires r.None? <==> Scan(b, room - |x|).None?
    requires r.Some? ==> r.value == acc + x + Scan(b, room - |x|).value
    ensures r.None? <==> Scan(a + b, room).None?
    ensures r.Some? ==> r.value == acc + Scan(a + b, room).value
  {
    ScanAfter(a, b, room, x);
  }

  /** A dict's own tag fits in any room that is not used up. */
  lemma ScanOwn(tag: Json, room: nat)
    requires room > 0
    ensures Scan(if Truthy(tag) then [Tag(tag)] else [], room) == Some(if Truthy(tag) then [tag] else [])
  {
    if Truthy(tag) {
      var evs := [Tag(tag)];
      assert evs[1..] == [];
      assert Scan(evs[1..], room - 1) == Some([]);
      assert [tag] + [] == [tag];
    }
  }

  /** The loop of `_extract_tags` over the items of the list `node`. */
  method ExtractItems(items: seq<Json>, acc: seq<Json>, limit: nat, ghost node: Json) returns (r: Option<seq<Json>>)
    requires node == JList(items) && |acc| < limit
    ensures r.None? <==> Scan(Events(node), Room(acc, limit)).None?
    ensures r.Some? ==> r.value == acc + Scan(Events(node), Room(acc, limit)).value
    decreases node, 1
  {
    ghost var evs := seq(|items|, i requires 0 <= i < |items| => Events(items[i]));
    var a := acc;
    var i := 0;
    ghost var got: seq<Json> := [];
    assert evs[..0] == [] && Flatten(evs[..0]) == [];
    while i < |items|
      invariant 0 <= i <= |items|
      invariant a == acc + got
      invariant Scan(Flatten(evs[..i]), limit - |acc|) == Some(got)
    {
      var next;
      next, got := ExtractItem(items, i, acc, got, a, limit, evs, node);
      if next.None? {
        return None;
      }
      a := next.value;
      i := i + 1;
    }
    assert evs[..i] == evs;
    assert Events(node) == Flatten(evs);
    r := Some(a);
  }

  /** One turn of that loop: the tags of item `i` continue the walk over
      the items before it, and a raise there is a raise for the list. */
  method ExtractItem(items: seq<Json>, i: nat, acc: seq<Json>, ghost got: seq<Json>, a: seq<Json>, limit: nat,
                     ghost evs: seq<seq<Event>>, ghost node: Json)
    returns (next: Option<seq<Json>>, ghost got': seq<Json>)
    requires node == JList(items) && i < |items| == |evs| && |acc| < limit
    requires evs[i] == Events(items[i])
    requires a == acc + got && Scan(Flatten(evs[..i]), limit - |acc|) == Some(got)
    ensures next.None? ==> Scan(Flatten(evs), limit - |acc|).None?
    ensures next.Some? ==> next.value == acc + got' && Scan(Flatten(evs[..i + 1]), limit - |acc|) == Some(got')
    decreases node, 0
  {
    ItemStep(evs, i, limit - |acc|, got);
    assert Room(a, limit) == limit - |acc| - |got|;
    assert items[i] in items;
    next := ExtractTags(items[i], a, limit);
    got' := got;
    if next.Some? {
      got' := got + Scan(evs[i], limit - |acc| - |got|).value;
    }
  }

  /** One more item of a list: its steps continue the walk with the room
      left, and a walk that raises there raises for the whole list. */
  lemma ItemStep(evs: seq<seq<Event>>, i: nat, room: nat, x: seq<Json>)
    requires i < |evs| && Scan(Flatten(evs[..i]), room) == Some(x)
    ensures |x| <= room
    ensures Scan(Flatten(evs[..i + 1]), room) ==
      match Scan(evs[i], room - |x|)
      case None => None
      case Some(y) => Some(x + y)
    ensures Scan(evs[i], room - |x|).None? ==> Scan(Flatten(evs), room).None?
  {
    FlattenSnoc(evs, i);
    ScanAfter(Flatten(evs[..i]), evs[i], room, x);
    if Scan(evs[i], room - |x|).None? {
      ScanRest(evs, i + 1, room);
    }
  }


  /** A walk that fails on a prefix of the items fails on all of them. */
  lemma ScanRest(evs: seq<seq<Event>>, i: nat, room: nat)
    requires i <= |evs| && Scan(Flatten(evs[..i]), room).None?
    ensures Scan(Flatten(evs), room).None?
    decreases |evs| - i
  {
    if i < |evs| {
      FlattenSnoc(evs, i);
      ScanAppend(Flatten(evs[..i]), evs[i], room);
      ScanRest(evs, i + 1, room);
    } else {
      assert evs[..i] == evs;
    }
  }

  /** The collected tags, when every one of them is a string. */
  function TagStrings(tags: seq<Json>): (r: Option<seq<string>>)
    ensures r.Some? ==> |r.value| == |tags| && forall i :: 0 <= i < |tags| ==> tags[i] == JStr(r.value[i])
  {
    if tags == [] then Some([])
    else match (tags[0], TagStrings(tags[1..]))
      case (JStr(s), Some(rest)) => Some([s] + rest)
      case _ => None
  }

  /** `_canonicalize`: the tags of `snapshot["dom_tree"]`, or of the whole
      snapshot, joined with ","; where the walk raises, or `",".join` meets a
      tag that is no string, the first 1024 characters of `str(snapshot)`. */
  function Canonical(snapshot: Json): string {
    var dom := GetOr(snapshot, "dom_tree", snapshot);
    match Scan(Events(dom), TagLimit)
    case None => Take(PyStr(snapshot), FallbackLength)
    case Some(tags) =>
      match TagStrings(tags)
      case None => Take(PyStr(snapshot), FallbackLength)
      case Some(names) => Join(names, ",")
  }

  /** `_canonicalize` in terms of the whole walk: when no raising step
      comes before the 256th tag and the first 256 tags in walk order are
      strings, those strings joined with ","; otherwise the fallback, at
      most 1024 characters. */
  lemma CanonicalMeaning(snapshot: Json)
    ensures var evs := Events(GetOr(snapshot, "dom_tree", snapshot));
      var names := TagStrings(Take(TagsOf(evs), TagLimit));
      var r := Canonical(snapshot);
      if (forall i :: 0 <= i < |evs| && evs[i] == Fail ==> |TagsOf(evs[..i])| >= TagLimit) && names.Some?
      then r == Join(names.value, ",")
      else r == Take(PyStr(snapshot), FallbackLength) && |r| <= FallbackLength
  {
    ScanMeaning(Events(GetOr(snapshot, "dom_tree", snapshot)), TagLimit);
  }

  /** The URL part of the signature: path, plus `?query` when the query is
      not empty. A `urlparse` that raises leaves the URL as it is; a falsy
      value that is no string is parsed as bytes, whose path prints as `b''`;
      any other value is printed. With no "url" key the part is empty; a
      URL string that fails to parse is kept whole. */
  function UrlText(snapshot: Json): (r: string)
    ensures Lookup(snapshot, "url").None? ==> r == ""
    ensures forall s :: Lookup(snapshot, "url") == Some(JStr(s)) && Parse(s).Err? ==> r == s
  {
    match Lookup(snapshot, "url")
    case None => ""
    case Some(JStr(s)) =>
      (match Parse(s)
       case Ok(p) => p.path + (if p.query != "" then "?" + p.query else "")
       case Err(_) => s)
    case Some(v) => if Truthy(v) then PyStr(v) else "b''"
  }

  /** `signature`: the hash of the canonical tag string and the URL part. */
  function Signature(sha256: string -> string, snapshot: Json): string {
    sha256(Canonical(snapshot) + "|" + UrlText(snapshot))
  }

  /** With a hash that never collides, two snapshots whose canonical tag
      strings hold no "|" share a signature exactly when they share both the
      tag string and the URL part: the signature tells pages apart by DOM
      structure and by URL. */
  lemma SignatureSeparates(sha256: string -> string, s1: Json, s2: Json)
    requires forall x, y :: sha256(x) == sha256(y) ==> x == y
    requires '|' !in Canonical(s1) && '|' !in Canonical(s2)
    ensures Signature(sha256, s1) == Signature(sha256, s2) <==>
      Canonical(s1) == Canonical(s2) && UrlText(s1) == UrlText(s2)
  {
    HashedPairs(sha256, Canonical(s1), UrlText(s1), Canonical(s2), UrlText(s2));
  }

  /** An injective hash of "a|b", with no "|" in `a`, determines `a` and `b`. */
  lemma HashedPairs(sha256: string -> string, a: string, b: string, c: string, d: string)
    requires forall x, y :: sha256(x) == sha256(y) ==> x == y
    requires '|' !in a && '|' !in c
    ensures sha256(a + "|" + b) == sha256(c + "|" + d) <==> a == c && b == d
  {
    if sha256(a + "|" + b) == sha256(c + "|" + d) {
      SplitAtBar(a, b, c, d);
    }
  }

  /** A string cut at its first "|" comes apart in only one way. */
  lemma SplitAtBar(a: string, b: string, c: string, d: string)
    requires '|' !in a && '|' !in c && a + "|" + b == c + "|" + d
    ensures a == c && b == d
  {
    var x := a + "|" + b;
    FirstBar(a, b);
    FirstBar(c, d);
    assert a == x[..|a|] && c == x[..|c|];
    assert b == x[|a| + 1..] && d == x[|c| + 1..];
  }

  /** The first "|" of `a + "|" + b` is the one after `a`. */
  lemma FirstBar(a: string, b: string)
    requires '|' !in a
    ensures IndexOf(a + "|" + b, '|') == |a|
  {
    var x := a + "|" + b;
    var r := IndexOf(x, '|');
    assert x[..|a|] == a && x[|a|] == '|';
  }

  /** `_safe_sig`: the first 16 characters of the signature. */
  function SafeSig(sha256: string -> string, snapshot: Json): (r: string)
    ensures |Signature(sha256, snapshot)| >= 16 ==> |r| == 16
    ensures |r| <= |Signature(sha256, snapshot)| && r == Signature(sha256, snapshot)[..|r|]
  {
    Take(Signature(sha256, snapshot), 16)
  }

  /** Two snapshots with the same DOM tree whose URLs differ only in scheme,
      host and fragment have the same signature, provided the tag walk
      succeeds (otherwise the fallback prints the whole snapshot, URL
      included). */
  lemma SignatureIgnoresHost(sha256: string -> string, s1: Json, s2: Json, p1: UrlParts, p2: UrlParts)
    requires Lookup(s1, "dom_tree") == Lookup(s2, "dom_tree") && Lookup(s1, "dom_tree").Some?
    requires var tags := Scan(Events(Lookup(s1, "dom_tree").value), TagLimit); tags.Some? && TagStrings(tags.value).Some?
    requires Lookup(s1, "url") == Some(JStr(Compose(p1))) && Lookup(s2, "url") == Some(JStr(Compose(p2)))
    requires WellFormed(p1) && WellFormed(p2) && p1.path == p2.path && p1.query == p2.query
    ensures Signature(sha256, s1) == Signature(sha256, s2)
  {
    assert GetOr(s1, "dom_tree", s1) == GetOr(s2, "dom_tree", s2);
    assert Canonical(s1) == Canonical(s2);
    UrlTextOf(s1, p1);
    UrlTextOf(s2, p2);
  }

  /** The URL part of a snapshot whose URL is composed from `p`. */
  lemma UrlTextOf(s: Json, p: UrlParts)
    requires Lookup(s, "url") == Some(JStr(Compose(p))) && WellFormed(p)
    ensures UrlText(s) == p.path + (if p.query != "" then "?" + p.query else "")
  {
    ParseCompose(p);
  }

  // ------------------------------------------------------------- matching

  /** The snapshots the oracle is shown for one state: at most the first 3. */
  function RefsOf(id: StateId, s: AbstractState): (r: seq<(StateId, Json)>)
    ensures |r| <= 3 && forall p :: p in r ==> p.0 == id && p.1 in Take(s.concrete, 3)
  {
    var refs := Take(s.concrete, 3);
    seq(|refs|, i requires 0 <= i < |refs| => (id, refs[i]))
  }

  /** The (state, reference snapshot) pairs in the order the oracle tier visits them. */
  function Pairs(order: seq<StateId>, states: map<StateId, AbstractState>): (r: seq<(StateId, Json)>)
    requires forall id :: id in order ==> id in states
    ensures forall p :: p in r ==> p.0 in order && p.1 in Take(states[p.0].concrete, 3)
  {
    if order == [] then [] else RefsOf(order[0], states[order[0]]) + Pairs(order[1..], states)
  }

  type Cache = map<(string, string), bool>

  /** `_safe_sig` as a value, the form in which the oracle tier uses it. */
  function ShortSig(sha256: string -> string): Json -> string {
    j => SafeSig(sha256, j)
  }

  /** The oracle tier over `pairs`: each pair's cache key is the short
      signature of its reference and of the snapshot; a cached answer is
      used as it is, otherwise the oracle is asked and its answer stored.
      The first yes wins. No pair means no state and the cache as it was;
      `OracleTierMeaning` states the rest. */
  function OracleTier(short: Json -> string, oracle: (Json, Json) -> bool, snapshot: Json,
                      pairs: seq<(StateId, Json)>, cache: Cache): (r: (Option<StateId>, Cache))
    ensures pairs == [] ==> r == (None, cache)
  {
    if pairs == [] then (None, cache)
    else
      var key := (short(pairs[0].1), short(snapshot));
      if key in cache then
        if cache[key] then (Some(pairs[0].0), cache)
        else OracleTier(short, oracle, snapshot, pairs[1..], cache)
      else
        var eq := oracle(pairs[0].1, snapshot);
        if eq then (Some(pairs[0].0), cache[key := eq])
        else OracleTier(short, oracle, snapshot, pairs[1..], cache[key := eq])
  }

  /** Answers already cached are never replaced or dropped; a state
      returned is one of the pairs'; and when none is returned every pair's
      answer is on record as no. */
  lemma {:induction false} OracleTierMeaning(short: Json -> string, oracle: (Json, Json) -> bool, snapshot: Json,
                                             pairs: seq<(StateId, Json)>, cache: Cache)
    ensures var r := OracleTier(short, oracle, snapshot, pairs, cache);
      && (forall key :: key in cache ==> key in r.1 && r.1[key] == cache[key])
      && (r.0.Some? ==> exists i :: 0 <= i < |pairs| && pairs[i].0 == r.0.value)
      && (r.0.None? ==> forall i :: 0 <= i < |pairs| ==>
            (short(pairs[i].1), short(snapshot)) in r.1 && !r.1[(short(pairs[i].1), short(snapshot))])
  {
    if pairs != [] {
      var key := (short(pairs[0].1), short(snapshot));
      var c := if key in cache then cache else cache[key := oracle(pairs[0].1, snapshot)];
      if !c[key] {
        OracleTierMeaning(short, oracle, snapshot, pairs[1..], c);
        var r := OracleTier(short, oracle, snapshot, pairs[1..], c);
        assert r == OracleTier(short, oracle, snapshot, pairs, cache);
        if r.0.Some? {
          var i :| 0 <= i < |pairs[1..]| && pairs[1..][i].0 == r.0.value;
          assert pairs[i + 1].0 == r.0.value;
        } else {
          forall i | 0 <= i < |pairs|
            ensures (short(pairs[i].1), short(snapshot)) in r.1 && !r.1[(short(pairs[i].1), short(snapshot))]
          {
            if i > 0 {
              assert pairs[i] == pairs[1..][i - 1];
            }
          }
        }
      }
    }
  }

  /** `p` is one of `pairs`, for state `id`, and `cache` records that its
      reference snapshot was judged equivalent to `snapshot`. */
  ghost predicate Judged(short: Json -> string, snapshot: Json, pairs: seq<(StateId, Json)>, cache: Cache,
                         p: (StateId, Json), id: StateId)
  {
    && p in pairs && p.0 == id
    && (short(p.1), short(snapshot)) in cache
    && cache[(short(p.1), short(snapshot))]
  }

  /** The returned state has a reference snapshot that was judged
      equivalent, with that answer on record in the returned cache. */
  lemma {:induction false} OracleTierFound(short: Json -> string, oracle: (Json, Json) -> bool, snapshot: Json,
                                           pairs: seq<(StateId, Json)>, cache: Cache)
    ensures var (r, after) := OracleTier(short, oracle, snapshot, pairs, cache);
      r.Some? ==> exists p :: Judged(short, snapshot, pairs, after, p, r.value)
  {
    if pairs != [] {
      var key := (short(pairs[0].1), short(snapshot));
      var c := if key in cache then cache else cache[key := oracle(pairs[0].1, snapshot)];
      if c[key] {
        assert Judged(short, snapshot, pairs, c, pairs[0], pairs[0].0);
      } else {
        OracleTierFound(short, oracle, snapshot, pairs[1..], c);
        var (r, after) := OracleTier(short, oracle, snapshot, pairs[1..], c);
        if r.Some? {
          var p :| Judged(short, snapshot, pairs[1..], after, p, r.value);
          assert Judged(short, snapshot, pairs, after, p, r.value);
        }
      }
    }
  }

  /** With every pair's answer already cached, the oracle is not asked:
      any two oracles give the same outcome and the cache is unchanged. */
  lemma {:induction false} CachedNotAsked(short: Json -> string, o1: (Json, Json) -> bool, o2: (Json, Json) -> bool,
                                          snapshot: Json, pairs: seq<(StateId, Json)>, cache: Cache)
    requires forall p :: p in pairs ==> (short(p.1), short(snapshot)) in cache
    ensures OracleTier(short, o1, snapshot, pairs, cache) == OracleTier(short, o2, snapshot, pairs, cache)
    ensures OracleTier(short, o1, snapshot, pairs, cache).1 == cache
  {
    if pairs != [] {
      assert pairs[0] in pairs;
      assert forall p :: p in pairs[1..] ==> p in pairs;
      CachedNotAsked(short, o1, o2, snapshot, pairs[1..], cache);
    }
  }

  /** What `match_state` returns, with the cache after it: the first state,
      in table order, carrying the snapshot's signature; otherwise None when
      no oracle is configured; otherwise the oracle tier over the first
      snapshots of every state. Any state returned is in the table;
      `MatchOutcomeMeaning` states the rest. */
  function MatchOutcome(sha256: string -> string, oracle: Option<(Json, Json) -> bool>,
                        order: seq<StateId>, states: map<StateId, AbstractState>, snapshot: Json, cache: Cache)
    : (r: (Option<StateId>, Cache))
    requires forall id :: id in order ==> id in states
    ensures r.0.Some? ==> r.0.value in states
  {
    var hit := FirstWithSignature(order, states, Signature(sha256, snapshot));
    if hit.Some? then (hit, cache)
    else if oracle.None? then (None, cache)
    else
      OracleTierFound(ShortSig(sha256), oracle.value, snapshot, Pairs(order, states), cache);
      OracleTier(ShortSig(sha256), oracle.value, snapshot, Pairs(order, states), cache)
  }

  /** A signature hit returns the first state carrying the signature with
      the cache unchanged; with no oracle a miss is None; a state from the
      oracle tier was judged equivalent on record. */
  lemma MatchOutcomeMeaning(sha256: string -> string, oracle: Option<(Json, Json) -> bool>,
                            order: seq<StateId>, states: map<StateId, AbstractState>, snapshot: Json, cache: Cache)
    requires forall id :: id in order ==> id in states
    ensures var r := MatchOutcome(sha256, oracle, order, states, snapshot, cache);
      && (FirstWithSignature(order, states, Signature(sha256, snapshot)).Some? ==>
            r == (FirstWithSignature(order, states, Signature(sha256, snapshot)), cache))
      && (oracle.None? ==> r.1 == cache && r.0 == FirstWithSignature(order, states, Signature(sha256, snapshot)))
      && (r.0.Some? && FirstWithSignature(order, states, Signature(sha256, snapshot)).None? ==>
            oracle.Some? && exists p :: Judged(ShortSig(sha256), snapshot, Pairs(order, states), r.1, p, r.0.value))
  {
    if FirstWithSignature(order, states, Signature(sha256, snapshot)).None? && oracle.Some? {
      OracleTierFound(ShortSig(sha256), oracle.value, snapshot, Pairs(order, states), cache);
    }
  }

  /** `match_state`: the first state, in table order, carrying the
      snapshot's signature; otherwise None when no oracle is configured;
      otherwise the oracle tier, which returns the updated cache. */
  method MatchState(sha256: string -> string, oracle: Option<(Json, Json) -> bool>,
                    order: seq<StateId>, states: map<StateId, AbstractState>, snapshot: Json, cache: Cache)
    returns (r: Option<StateId>, after: Cache)
    requires forall id :: id in order ==> id in states
    ensures var hit := FirstWithSignature(order, states, Signature(sha256, snapshot));
      && (hit.Some? ==> r == hit && after == cache)
      && (hit.None? && oracle.None? ==> r.None? && after == cache)
      && (hit.None? && oracle.Some? ==>
            (r, after) == OracleTier(ShortSig(sha256), oracle.value, snapshot, Pairs(order, states), cache))
    ensures (r, after) == MatchOutcome(sha256, oracle, order, states, snapshot, cache)
  {
    var sig := Signature(sha256, snapshot);
    var i := 0;
    while i < |order|
      invariant 0 <= i <= |order|
      invariant FirstWithSignature(order[i..], states, sig) == FirstWithSignature(order, states, sig)
    {
      if states[order[i]].signature == sig {
        assert order[i..][0] == order[i];
        return Some(order[i]), cache;
      }
      assert order[i..][1..] == order[i + 1..];
      i := i + 1;
    }
    if oracle.None? {
      return None, cache;
    }
    r, after := OracleLoop(ShortSig(sha256), oracle.value, order, states, snapshot, cache);
  }

  /** The outer loop of the oracle tier: states in table order. */
  method OracleLoop(short: Json -> string, oracle: (Json, Json) -> bool,
                    order: seq<StateId>, states: map<StateId, AbstractState>, snapshot: Json, cache: Cache)
    returns (r: Option<StateId>, after: Cache)
    requires forall id :: id in order ==> id in states
    ensures (r, after) == OracleTier(short, oracle, snapshot, Pairs(order, states), cache)
  {
    after := cache;
    var i := 0;
    while i < |order|
      invariant 0 <= i <= |order|
      invariant OracleTier(short, oracle, snapshot, Pairs(order, states), cache)
             == OracleTier(short, oracle, snapshot, Pairs(order[i..], states), after)
    {
      assert order[i..][1..] == order[i + 1..];
      assert Pairs(order[i..], states) == RefsOf(order[i], states[order[i]]) + Pairs(order[i + 1..], states);
      r, after := OracleRefs(short, oracle, order[i], states[order[i]], snapshot, after, Pairs(order[i + 1..], states));
      if r.Some? {
        return;
      }
      i := i + 1;
    }
    r := None;
  }

  /** The pairs from position `j` on, then `rest`: pair `j` first. */
  lemma HeadOfRest(refs: seq<(StateId, Json)>, j: nat, rest: seq<(StateId, Json)>)
    requires j < |refs|
    ensures (refs[j..] + rest)[0] == refs[j]
    ensures (refs[j..] + rest)[1..] == refs[j + 1..] + rest
  {
    assert refs[j..] == [refs[j]] + refs[j + 1..];
  }

  /** The inner loop of the oracle tier: the first three snapshots of one
      state; `rest` stands for the pairs still to come after them. */
  method OracleRefs(short: Json -> string, oracle: (Json, Json) -> bool, id: StateId, st: AbstractState,
                    snapshot: Json, cache: Cache, ghost rest: seq<(StateId, Json)>)
    returns (r: Option<StateId>, after: Cache)
    ensures r.Some? ==> (r, after) == OracleTier(short, oracle, snapshot, RefsOf(id, st) + rest, cache)
    ensures r.None? ==>
      OracleTier(short, oracle, snapshot, RefsOf(id, st) + rest, cache) == OracleTier(short, oracle, snapshot, rest, after)
  {
    var refs := Take(st.concrete, 3);
    var mine := short(snapshot);
    after := cache;
    var j := 0;
    while j < |refs|
      invariant 0 <= j <= |refs|
      invariant OracleTier(short, oracle, snapshot, RefsOf(id, st) + rest, cache)
             == OracleTier(short, oracle, snapshot, RefsOf(id, st)[j..] + rest, after)
    {
      ghost var todo := RefsOf(id, st)[j..] + rest;
      HeadOfRest(RefsOf(id, st), j, rest);
      assert todo[0] == (id, refs[j]);
      var key := (short(refs[j]), mine);
      if key in after {
        if after[key] {
          return Some(id), after;
        }
      } else {
        var eq := oracle(refs[j], snapshot);
        after := after[key := eq];
        if eq {
          return Some(id), after;
        }
      }
      j := j + 1;
    }
    assert RefsOf(id, st)[j..] + rest == rest;
    r := None;
  }
}
