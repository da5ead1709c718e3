/** The part of Python's `urllib.parse.urlparse` (CPython 3.12) that the
    explorer reads: scheme, network location, path, `;params`, query and
    fragment of a URL string. */
module UrlParse {
  import opened Outcomes
  import opened Text

  datatype UrlParts = UrlParts(scheme: string, netloc: string, path: string, params: string, query: string, fragment: string)

  /** `urlsplit` raises ValueError for an unbalanced IPv6 bracket in the netloc. */
  datatype UrlError = InvalidIPv6

  /** The leading characters `urlsplit` strips: C0 controls and space. */
  predicate IsC0OrSpace(c: char) {
    c <= ' '
  }

  /** The characters `urlsplit` deletes anywhere in the URL. */
  predicate IsUnsafe(c: char) {
    c == '\t' || c == '\r' || c == '\n'
  }

  predicate IsAsciiLetter(c: char) {
    ('a' <= c <= 'z') || ('A' <= c <= 'Z')
  }

  /** `scheme_chars`: letters, digits, `+`, `-` and `.`. */
  predicate IsSchemeChar(c: char) {
    IsAsciiLetter(c) || ('0' <= c <= '9') || c == '+' || c == '-' || c == '.'
  }

  function StripLeading(s: string): (r: string)
    ensures |r| <= |s| && r == s[|s| - |r|..]
    ensures r == [] || !IsC0OrSpace(r[0])
  {
    if s != [] && IsC0OrSpace(s[0]) then StripLeading(s[1..]) else s
  }

  function RemoveUnsafe(s: string): (r: string)
    ensures forall c :: c in r <==> c in s && !IsUnsafe(c)
  {
    if s == [] then []
    else (if IsUnsafe(s[0]) then [] else [s[0]]) + RemoveUnsafe(s[1..])
  }

  /** The position of the first of `/`, `?`, `#` in `s`, or `|s|`. */
  function NetlocEnd(s: string): (r: nat)
    ensures r <= |s|
    ensures forall i :: 0 <= i < r ==> s[i] != '/' && s[i] != '?' && s[i] != '#'
    ensures r < |s| ==> s[r] == '/' || s[r] == '?' || s[r] == '#'
  {
    if s == [] || s[0] == '/' || s[0] == '?' || s[0] == '#' then 0 else 1 + NetlocEnd(s[1..])
  }

  /** `s.split(c, 1)` when `c in s`: the text before and after the first `c`. */
  function SplitAt(s: string, c: char): (r: (string, string))
    requires c in s
    ensures r.0 + [c] + r.1 == s && c !in r.0
  {
    var i := IndexOf(s, c);
    assert s == s[..i] + [c] + s[i + 1..];
    (s[..i], s[i + 1..])
  }

  /** The position of the last `c` in `s`, or -1, as `s.rfind(c)`. */
  function LastIndexOf(s: string, c: char): (r: int)
    ensures -1 <= r < |s|
    ensures r == -1 ==> c !in s
    ensures 0 <= r ==> s[r] == c && c !in s[r + 1..]
  {
    if s == [] then -1
    else if s[|s| - 1] == c then |s| - 1
    else
      var k := LastIndexOf(s[..|s| - 1], c);
      assert s[k + 1..] == s[..|s| - 1][k + 1..] + [s[|s| - 1]] by {
        if k == -1 { assert s[..|s| - 1] == s[k + 1..|s| - 1]; }
      }
      k
  }

  /** The schemes whose last path segment may carry `;params`. */
  predicate UsesParams(scheme: string) {
    scheme in ["", "ftp", "hdl", "prospero", "http", "imap", "https", "shttp", "rtsp", "rtsps", "rtspu",
               "sip", "sips", "mms", "sftp", "tel"]
  }

  /** `_splitparams`: the `;` searched from the last `/` on, or anywhere when there is no `/`. */
  function SplitParams(path: string): (r: (string, string))
    requires ';' in path
  {
    var from := LastIndexOf(path, '/');
    var i := if from < 0 then IndexOf(path, ';') else
      var k := IndexOf(path[from..], ';'); if k < 0 then -1 else from + k;
    if i < 0 then (path, "") else (path[..i], path[i + 1..])
  }

  /** The scheme found before the first `:`, when the text before it is a
      scheme: it starts with an ASCII letter and holds only scheme characters. */
  function SchemeLength(s: string): (r: Option<nat>)
    ensures r.Some? ==> 0 < r.value < |s| && s[r.value] == ':'
  {
    var i := IndexOf(s, ':');
    if i > 0 && IsAsciiLetter(s[0]) && forall k :: 0 <= k < i ==> IsSchemeChar(s[k]) then Some(i) else None
  }

  /** The scheme and the rest: the text before the first `:` when it is a
      scheme, lower-cased. */
  function SplitScheme(u: string): (string, string) {
    match SchemeLength(u)
    case Some(i) => (Lower(u[..i]), u[i + 1..])
    case None => ("", u)
  }

  /** The netloc after a leading `//`, up to the first `/`, `?` or `#`. */
  function SplitNetloc(rest: string): (string, string) {
    if StartsWith(rest, "//") then
      var e := 2 + NetlocEnd(rest[2..]); (rest[2..e], rest[e..])
    else ("", rest)
  }

  /** Path, params, query and fragment of what follows the netloc. */
  function SplitTail(scheme: string, rest: string): (string, string, string, string) {
    var (rest, fragment) := if '#' in rest then SplitAt(rest, '#') else (rest, "");
    var (path, query) := if '?' in rest then SplitAt(rest, '?') else (rest, "");
    var (path, params) := if UsesParams(scheme) && ';' in path then SplitParams(path) else (path, "");
    (path, params, query, fragment)
  }

  /** `urlparse(url)` */
  function Parse(url: string): (r: Result<UrlParts, UrlError>)
  {
    var (scheme, rest) := SplitScheme(RemoveUnsafe(StripLeading(url)));
    var (netloc, rest) := SplitNetloc(rest);
    if ('[' in netloc && ']' !in netloc) || (']' in netloc && '[' !in netloc) then Err(InvalidIPv6)
    else
      var (path, params, query, fragment) := SplitTail(scheme, rest);
      Ok(UrlParts(scheme, netloc, path, params, query, fragment))
  }

  // ------------------------------------------------------------ composing

  /** The URL `scheme://netloc path[?query][#fragment]`. */
  function Compose(p: UrlParts): string {
    p.scheme + "://" + p.netloc + p.path + (if p.query == "" then "" else "?" + p.query)
      + (if p.fragment == "" then "" else "#" + p.fragment)
  }

  /** Parts that `Compose` writes so that `Parse` reads them back: a
      lower-case scheme, a netloc without delimiters or brackets, a path
      that is empty or absolute and holds no `?`, `#` or `;`, a query without
      `#`, and no tab or line break anywhere. */
  predicate WellFormed(p: UrlParts) {
    && p.scheme != [] && IsAsciiLetter(p.scheme[0]) && 'a' <= p.scheme[0] <= 'z'
    && (forall c :: c in p.scheme ==> IsSchemeChar(c) && !('A' <= c <= 'Z'))
    && (forall c :: c in p.netloc ==> c != '/' && c != '?' && c != '#' && c != '[' && c != ']' && !IsUnsafe(c))
    && (p.path == [] || p.path[0] == '/')
    && (forall c :: c in p.path ==> c != '?' && c != '#' && c != ';' && !IsUnsafe(c))
    && p.params == []
    && (forall c :: c in p.query ==> c != '#' && !IsUnsafe(c))
    && (forall c :: c in p.fragment ==> !IsUnsafe(c))
  }

  /** The first `c` is the only position holding `c` with none before it. */
  lemma {:induction false} IndexOfUnique(s: string, c: char, j: nat)
    requires j < |s| && s[j] == c && c !in s[..j]
    ensures IndexOf(s, c) == j
  {
    if j > 0 {
      assert s[0] in s[..j];
      assert s[1..][..j - 1] == s[1..j];
      assert forall x :: x in s[1..j] ==> x in s[..j];
      IndexOfUnique(s[1..], c, j - 1);
    }
  }

  lemma {:induction false} IndexOfAppend(a: string, b: string, c: char)
    requires c !in a
    ensures IndexOf(a + b, c) == if c in b then |a| + IndexOf(b, c) else -1
  {
    if c in b {
      var j := IndexOf(b, c);
      forall k | 0 <= k < |a| + j
        ensures (a + b)[k] != c
      {
        if k < |a| {
          assert a[k] in a;
        } else {
          assert b[k - |a|] in b[..j];
        }
      }
      IndexOfUnique(a + b, c, |a| + j);
    } else {
      assert c !in a + b;
    }
  }

  lemma {:induction false} RemoveUnsafeKeeps(s: string)
    requires forall c :: c in s ==> !IsUnsafe(c)
    ensures RemoveUnsafe(s) == s
  {
    if s != [] {
      assert forall c :: c in s[1..] ==> c in s;
      RemoveUnsafeKeeps(s[1..]);
      assert s == [s[0]] + s[1..];
    }
  }

  lemma {:induction false} NetlocEndAt(n: string, rest: string)
    requires forall c :: c in n ==> c != '/' && c != '?' && c != '#'
    requires rest == [] || rest[0] == '/' || rest[0] == '?' || rest[0] == '#'
    ensures NetlocEnd(n + rest) == |n|
  {
    if n == [] {
      assert n + rest == rest;
    } else {
      assert n[0] in n;
      assert (n + rest)[0] == n[0];
      assert forall c :: c in n[1..] ==> c in n;
      assert (n + rest)[1..] == n[1..] + rest;
      NetlocEndAt(n[1..], rest);
    }
  }

  lemma LowerKeeps(s: string)
    requires forall c :: c in s ==> !('A' <= c <= 'Z')
    ensures Lower(s) == s
  {
    forall i | 0 <= i < |s|
      ensures Lower(s)[i] == s[i]
    {
      assert s[i] in s;
    }
  }

  /** The text after `netloc` in `Compose(p)`. */
  function Tail(p: UrlParts): string {
    p.path + (if p.query == "" then "" else "?" + p.query) + (if p.fragment == "" then "" else "#" + p.fragment)
  }

  lemma SplitTailOf(p: UrlParts)
    requires WellFormed(p)
    ensures SplitTail(p.scheme, Tail(p)) == (p.path, "", p.query, p.fragment)
  {
    var pq := p.path + (if p.query == "" then "" else "?" + p.query);
    SplitFragmentOf(p, pq);
    SplitQueryOf(p, pq);
    assert ';' !in p.path;
  }

  /** The fragment is what follows the first `#` of the tail. */
  lemma SplitFragmentOf(p: UrlParts, pq: string)
    requires WellFormed(p) && pq == p.path + (if p.query == "" then "" else "?" + p.query)
    ensures (if '#' in Tail(p) then SplitAt(Tail(p), '#') else (Tail(p), "")) == (pq, p.fragment)
  {
    var t := Tail(p);
    assert '#' !in pq;
    if p.fragment == "" {
      assert t == pq;
    } else {
      assert t == pq + ("#" + p.fragment);
      IndexOfAppend(pq, "#" + p.fragment, '#');
      assert IndexOf(t, '#') == |pq|;
      assert t[..|pq|] == pq && t[|pq| + 1..] == p.fragment;
    }
  }

  /** The query is what follows the first `?` before the fragment. */
  lemma SplitQueryOf(p: UrlParts, pq: string)
    requires WellFormed(p) && pq == p.path + (if p.query == "" then "" else "?" + p.query)
    ensures (if '?' in pq then SplitAt(pq, '?') else (pq, "")) == (p.path, p.query)
  {
    if p.query != "" {
      assert pq == p.path + ("?" + p.query);
      IndexOfAppend(p.path, "?" + p.query, '?');
      assert IndexOf(pq, '?') == |p.path|;
      assert pq[..|p.path|] == p.path && pq[|p.path| + 1..] == p.query;
    } else {
      assert pq == p.path;
    }
  }

  lemma SplitSchemeOf(p: UrlParts, after: string)
    requires WellFormed(p)
    ensures SplitScheme(p.scheme + (":" + after)) == (p.scheme, after)
  {
    var u := p.scheme + (":" + after);
    IndexOfAppend(p.scheme, ":" + after, ':');
    assert u[0] == p.scheme[0];
    assert forall k :: 0 <= k < |p.scheme| ==> u[k] == p.scheme[k] && p.scheme[k] in p.scheme;
    assert SchemeLength(u) == Some(|p.scheme|);
    assert u[..|p.scheme|] == p.scheme;
    assert u[|p.scheme| + 1..] == after;
    LowerKeeps(p.scheme);
  }

  lemma SplitNetlocOf(p: UrlParts)
    requires WellFormed(p)
    ensures SplitNetloc("//" + p.netloc + Tail(p)) == (p.netloc, Tail(p))
  {
    var rest := "//" + p.netloc + Tail(p);
    var t := Tail(p);
    assert StartsWith(rest, "//");
    assert rest[2..] == p.netloc + t;
    if t != [] {
      assert t[0] == '/' || t[0] == '?' || t[0] == '#' by {
        if p.path != [] { assert t[0] == p.path[0]; }
      }
    }
    NetlocEndAt(p.netloc, t);
    assert rest[2..2 + |p.netloc|] == p.netloc;
    assert rest[2 + |p.netloc|..] == t;
  }

  lemma PrepareKeeps(p: UrlParts)
    requires WellFormed(p)
    ensures RemoveUnsafe(StripLeading(Compose(p))) == Compose(p)
  {
    var url := Compose(p);
    assert url[0] == p.scheme[0];
    assert forall c :: c in url ==> !IsUnsafe(c);
    RemoveUnsafeKeeps(url);
  }

  /** Parsing a composed URL gives its parts back. */
  lemma ParseCompose(p: UrlParts)
    requires WellFormed(p)
    ensures Parse(Compose(p)) == Ok(p)
  {
    var url := Compose(p);
    var after := "//" + p.netloc + Tail(p);
    assert url == p.scheme + (":" + after);
    PrepareKeeps(p);
    assert RemoveUnsafe(StripLeading(url)) == url;
    SplitSchemeOf(p, after);
    assert SplitScheme(url) == (p.scheme, after);
    SplitNetlocOf(p);
    assert SplitNetloc(after) == (p.netloc, Tail(p));
    assert '[' !in p.netloc && ']' !in p.netloc;
    SplitTailOf(p);
  }
}
