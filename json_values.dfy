/** The JSON-like values the explorer passes around as untyped Python data:
    page snapshots, DOM trees, interactive-element tables and LLM outputs.
    A Python dict is an ordered list of entries with distinct keys (insertion
    order, as Python keeps it). Floating-point numbers are not represented. */
module JsonValues {
  import opened Outcomes
  import opened Text

  datatype Json =
    | JNull
    | JBool(b: bool)
    | JInt(i: int)
    | JStr(s: string)
    | JList(items: seq<Json>)
    | JDict(entries: seq<Entry>)

  datatype Entry = Entry(key: string, value: Json)

  /** The position of `key` among the entries of a dict. */
  function KeyIndex(es: seq<Entry>, key: string): (r: Option<nat>)
    ensures r.Some? ==> r.value < |es| && es[r.value].key == key
    ensures r.Some? ==> forall i :: 0 <= i < r.value ==> es[i].key != key
    ensures r.None? ==> forall i :: 0 <= i < |es| ==> es[i].key != key
  {
    if es == [] then None
    else if es[0].key == key then Some(0)
    else match KeyIndex(es[1..], key)
      case None => None
      case Some(k) => Some(k + 1)
  }

  /** Entries with the same keys in the same order have the same key positions. */
  lemma {:induction false} KeyIndexSameKeys(a: seq<Entry>, b: seq<Entry>, key: string)
    requires |a| == |b| && forall i :: 0 <= i < |a| ==> a[i].key == b[i].key
    ensures KeyIndex(a, key) == KeyIndex(b, key)
  {
    if a != [] {
      KeyIndexSameKeys(a[1..], b[1..], key);
    }
  }

  /** `key in d` for a dict `d`; false for anything else. */
  predicate HasKey(j: Json, key: string) {
    j.JDict? && KeyIndex(j.entries, key).Some?
  }

  /** `d.get(key)` for a dict `d`, None when absent or when `j` is no dict. */
  function Lookup(j: Json, key: string): (r: Option<Json>)
    ensures r.Some? <==> HasKey(j, key)
  {
    if j.JDict? then
      match KeyIndex(j.entries, key)
      case None => None
      case Some(k) => Some(j.entries[k].value)
    else None
  }

  /** `d.get(key, default)` */
  function GetOr(j: Json, key: string, default: Json): Json {
    match Lookup(j, key)
    case None => default
    case Some(v) => v
  }

  /** A string entry read with a string default; a value of another type reads as the default. */
  function GetStr(j: Json, key: string, default: string): string {
    match Lookup(j, key)
    case Some(JStr(s)) => s
    case _ => default
  }

  /** Python truthiness: empty strings, lists and dicts, 0, False and None are false. */
  predicate Truthy(j: Json) {
    match j
    case JNull => false
    case JBool(b) => b
    case JInt(i) => i != 0
    case JStr(s) => s != []
    case JList(items) => items != []
    case JDict(es) => es != []
  }

  /** What `for x in j` enumerates: list items, the characters of a string,
      the keys of a dict; None where Python raises TypeError. */
  function Items(j: Json): (r: Option<seq<Json>>)
    ensures r.None? <==> (j.JNull? || j.JBool? || j.JInt?)
    ensures r.Some? ==> (|r.value| > 0 <==> Truthy(j))
  {
    match j
    case JList(items) => Some(items)
    case JStr(s) => Some(seq(|s|, i requires 0 <= i < |s| => JStr([s[i]])))
    case JDict(es) => Some(seq(|es|, i requires 0 <= i < |es| => JStr(es[i].key)))
    case _ => None
  }

  /** `n` as `width` lower-case hex digits (the low `width` digits of `n`). */
  function HexDigits(n: nat, width: nat): (r: string)
    ensures |r| == width && forall i :: 0 <= i < width ==> r[i] in "0123456789abcdef"
  {
    if width == 0 then [] else HexDigits(n / 16, width - 1) + ["0123456789abcdef"[n % 16]]
  }

  /** The quote `repr` puts around a string: a single quote, unless the
      string holds a single quote and no double quote. */
  function ReprQuote(s: string): (r: char)
    ensures r == '"' <==> '\'' in s && '"' !in s
  {
    if '\'' in s && '"' !in s then '"' else '\''
  }

  /** One character of a string as `repr` writes it between `quote`s:
      the quote and the backslash behind a backslash, tab, newline and
      carriage return by name, other control characters as `\xNN`. */
  function ReprChar(c: char, quote: char): (r: string)
    requires quote == '\'' || quote == '"'
    ensures c == quote || c == '\\' ==> r == ['\\', c]
    ensures c != quote && c != '\\' && ' ' <= c <= '~' ==> r == [c]
    ensures quote !in r || r == ['\\', quote]
  {
    if c == quote || c == '\\' then ['\\', c]
    else if c == '\t' then "\\t"
    else if c == '\n' then "\\n"
    else if c == '\r' then "\\r"
    else if c < ' ' || c as int == 0x7f then "\\x" + HexDigits(c as int, 2)
    else [c]
  }

  function ReprBody(s: string, quote: char): string
    requires quote == '\'' || quote == '"'
  {
    if s == [] then [] else ReprChar(s[0], quote) + ReprBody(s[1..], quote)
  }

  /** `repr(s)` for a string `s`. */
  function ReprStr(s: string): string {
    var q := ReprQuote(s);
    [q] + ReprBody(s, q) + [q]
  }

  /** `repr(j)`. */
  function Repr(j: Json): string {
    match j
    case JNull => "None"
    case JBool(b) => if b then "True" else "False"
    case JInt(i) => IntToDecimal(i)
    case JStr(s) => ReprStr(s)
    case JList(items) => "[" + Join(seq(|items|, k requires 0 <= k < |items| => Repr(items[k])), ", ") + "]"
    case JDict(es) =>
      "{" + Join(seq(|es|, k requires 0 <= k < |es| => ReprStr(es[k].key) + ": " + Repr(es[k].value)), ", ") + "}"
  }

  /** `str(j)` */
  function PyStr(j: Json): string {
    if j.JStr? then j.s else Repr(j)
  }

  /** One character of a string as `json.dumps` writes it with its default
      `ensure_ascii`: the double quote and the backslash behind a backslash,
      five control characters by name, printable ASCII as it is, and every
      other character as `\uXXXX`, as a surrogate pair above U+FFFF. */
  function JsonChar(c: char): (r: string)
    ensures c == '"' || c == '\\' ==> r == ['\\', c]
    ensures c != '"' && c != '\\' && ' ' <= c <= '~' ==> r == [c]
    ensures '"' !in r || r == ['\\', '"']
    ensures !(' ' <= c <= '~') ==> |r| > 1 && r[0] == '\\' && forall i :: 0 <= i < |r| ==> ' ' <= r[i] <= '~'
  {
    if c == '"' || c == '\\' then ['\\', c]
    else if c == '\n' then "\\n"
    else if c == '\r' then "\\r"
    else if c == '\t' then "\\t"
    else if c as int == 8 then "\\b"
    else if c as int == 12 then "\\f"
    else if ' ' <= c <= '~' then [c]
    else if c as int < 0x10000 then "\\u" + HexDigits(c as int, 4)
    else
      var n := c as int - 0x10000;
      "\\u" + HexDigits(0xD800 + n / 0x400, 4) + "\\u" + HexDigits(0xDC00 + n % 0x400, 4)
  }

  function JsonBody(s: string): string {
    if s == [] then [] else JsonChar(s[0]) + JsonBody(s[1..])
  }

  /** A string as `json.dumps` writes it. */
  function JsonStr(s: string): string {
    "\"" + JsonBody(s) + "\""
  }

  /** `json.dumps(j, sort_keys=True)`. */
  function SortedDump(j: Json): string {
    match j
    case JNull => "null"
    case JBool(b) => if b then "true" else "false"
    case JInt(i) => IntToDecimal(i)
    case JStr(s) => JsonStr(s)
    case JList(items) => "[" + Join(seq(|items|, k requires 0 <= k < |items| => SortedDump(items[k])), ", ") + "]"
    case JDict(es) =>
      var members := seq(|es|, k requires 0 <= k < |es| => (es[k].key, JsonStr(es[k].key) + ": " + SortedDump(es[k].value)));
      "{" + Join(SecondsOf(SortByKey(members)), ", ") + "}"
  }

  function SecondsOf(ps: seq<(string, string)>): seq<string> {
    seq(|ps|, i requires 0 <= i < |ps| => ps[i].1)
  }

  /** Insertion sort of rendered members by key, as `sort_keys=True` orders them. */
  function SortByKey(ps: seq<(string, string)>): seq<(string, string)> {
    if ps == [] then [] else InsertByKey(ps[0], SortByKey(ps[1..]))
  }

  function InsertByKey(p: (string, string), sorted: seq<(string, string)>): seq<(string, string)> {
    if sorted == [] || !Less(sorted[0].0, p.0) then [p] + sorted
    else [sorted[0]] + InsertByKey(p, sorted[1..])
  }
}
