// The Python values the task analyzer handles: what `json.loads` produces
// for a request body, and the handful of built-ins the analyzer applies to
// them (`bool()`, `str()`, `int()`, `len()`, numeric comparison).

module PyValues {
  import opened Opt
  import opened Text

  /** A decoded JSON value. JSON numbers are integers here (no floats). An
      object holds its key/value pairs as written, a repeated key included;
      `DictItems` is the dict Python builds from them. */
  datatype Json =
    | JNull
    | JBool(b: bool)
    | JInt(i: int)
    | JStr(s: string)
    | JList(items: seq<Json>)
    | JObject(members: seq<Member>)

  /** One key/value pair of a JSON object, in the object's key order. */
  datatype Member = Member(key: string, value: Json)

  /** Library routines whose code is not part of this model, as values:
      `lower` is `str.lower`; `dateFromIso` is `date.fromisoformat` and
      `datetimeFromIso` is `datetime.fromisoformat(..).date()`, both giving
      the day number (`toordinal()`) or `None` where Python raises;
      `isoFormat` is `date.isoformat` on a day number. */
  datatype Runtime = Runtime(
    lower: string -> string,
    dateFromIso: string -> Option<int>,
    datetimeFromIso: string -> Option<int>,
    isoFormat: int -> string)

  /** `d.get(key)` on a decoded object: `None` when the key is missing.
      A repeated key keeps its last value, as in the dict `json.loads`
      builds (`DictItemsAgreeWithGet`). */
  function Get(members: seq<Member>, key: string): (r: Option<Json>)
    ensures r.Some? <==> exists k :: 0 <= k < |members| && members[k].key == key
    ensures r.Some? ==> exists k :: 0 <= k < |members| && members[k] == Member(key, r.value)
  {
    if members == [] then None
    else
      var last := members[|members| - 1];
      if last.key == key then Some(last.value) else Get(members[..|members| - 1], key)
  }

  /** No key occurs twice, as in the items of a Python dict. */
  predicate DistinctKeys(d: seq<Member>) {
    forall i, j :: 0 <= i < j < |d| ==> d[i].key != d[j].key
  }

  /** `d[m.key] = m.value` on a dict's items: a new key goes last, a key
      already there keeps its place and takes the new value. */
  function Put(d: seq<Member>, m: Member): (r: seq<Member>)
    ensures |r| <= |d| + 1 && m in r
    ensures forall x :: x in r ==> x in d || x == m
    ensures forall x :: x in d && x.key != m.key ==> x in r
    ensures DistinctKeys(d) ==> DistinctKeys(r)
  {
    if d == [] then [m]
    else if d[0].key == m.key then [m] + d[1..]
    else
      var rest := Put(d[1..], m);
      assert DistinctKeys(d) ==> forall x :: x in rest ==> x.key != d[0].key by {
        if DistinctKeys(d) {
          assert forall x :: x in d[1..] ==> x.key != d[0].key;
        }
      }
      [d[0]] + rest
  }

  /** The items of the dict `json.loads` builds from an object's key/value
      pairs: each key once, where it first occurs, with its last value. */
  function DictItems(pairs: seq<Member>): (r: seq<Member>)
    ensures |r| <= |pairs| && (r == [] <==> pairs == [])
    ensures forall x :: x in r ==> x in pairs
    ensures DistinctKeys(r)
  {
    if pairs == [] then []
    else Put(DictItems(pairs[..|pairs| - 1]), pairs[|pairs| - 1])
  }

  /** In a dict's items, `.get` finds the one member with the key. */
  lemma GetDistinctMember(d: seq<Member>, x: Member)
    requires DistinctKeys(d) && x in d
    ensures Get(d, x.key) == Some(x.value)
  {
    var i :| 0 <= i < |d| && d[i] == x;
    var k :| 0 <= k < |d| && d[k] == Member(x.key, Get(d, x.key).value);
    assert k == i;
  }

  lemma PutGet(d: seq<Member>, m: Member, key: string)
    requires DistinctKeys(d)
    ensures Get(Put(d, m), key) == if key == m.key then Some(m.value) else Get(d, key)
  {
    var r := Put(d, m);
    if key == m.key {
      GetDistinctMember(r, m);
    } else if x :| x in d && x.key == key {
      GetDistinctMember(d, x);
      GetDistinctMember(r, x);
    } else {
      assert forall k :: 0 <= k < |r| ==> r[k].key != key by {
        forall k | 0 <= k < |r| ensures r[k].key != key {
          assert r[k] in r;
        }
      }
    }
  }

  /** The dict built from the pairs answers every `.get` as the pairs do:
      `Get`, reading the last pair with the key, and the dict's items agree. */
  lemma {:induction false} DictItemsAgreeWithGet(pairs: seq<Member>, key: string)
    ensures Get(DictItems(pairs), key) == Get(pairs, key)
  {
    if pairs != [] {
      var init := pairs[..|pairs| - 1];
      DictItemsAgreeWithGet(init, key);
      PutGet(DictItems(init), pairs[|pairs| - 1], key);
    }
  }

  /** `{"k": 1, "k": 2}` decodes to the dict `{'k': 2}`: one item, the last value. */
  lemma RepeatedKeyKeepsLastValue()
    ensures var pairs := [Member("k", JInt(1)), Member("k", JInt(2))];
            && DictItems(pairs) == [Member("k", JInt(2))]
            && Get(pairs, "k") == Some(JInt(2))
            && LenOf(JObject(pairs)) == Some(1)
  {
    var pairs := [Member("k", JInt(1)), Member("k", JInt(2))];
    assert pairs[..1] == [Member("k", JInt(1))];
    assert DictItems(pairs[..1]) == [Member("k", JInt(1))];
  }

  /** A missing key read with `.get(key)` yields Python's `None`. */
  function Lookup(field: Option<Json>): Json {
    field.GetOr(JNull)
  }

  /** Python's `bool(v)`: a string, list or dict is true exactly when its
      length is not zero, and None is false. */
  predicate Truthy(v: Json)
    ensures v.JNull? ==> !Truthy(v)
    ensures (v.JStr? || v.JList? || v.JObject?) ==> (Truthy(v) <==> LenOf(v).value != 0)
  {
    match v
    case JNull => false
    case JBool(b) => b
    case JInt(i) => i != 0
    case JStr(s) => s != []
    case JList(items) => items != []
    case JObject(members) => members != []
  }

  function HexDigit(d: int): char
    requires 0 <= d < 16
  {
    "0123456789abcdef"[d]
  }

  /** One character as it appears inside the quotes of `repr(str)`. */
  function EscapeChar(c: char, quote: char): string {
    if c == '\\' then "\\\\"
    else if c == quote then ['\\', quote]
    else if c == '\n' then "\\n"
    else if c == '\r' then "\\r"
    else if c == '\t' then "\\t"
    else if c < ' ' || c == '\U{7f}' then "\\x" + [HexDigit(c as int / 16), HexDigit(c as int % 16)]
    else [c]
  }

  function Escape(s: string, quote: char): string {
    if s == [] then "" else EscapeChar(s[0], quote) + Escape(s[1..], quote)
  }

  /** `repr(s)` of a string: single quotes unless the text holds a single
      quote and no double quote. */
  function Quote(s: string): (r: string)
    ensures |r| >= 2 && r[0] == r[|r| - 1] && (r[0] == '\'' || r[0] == '"')
    ensures r[0] == '"' <==> '\'' in s && '"' !in s
  {
    var q := if '\'' in s && '"' !in s then '"' else '\'';
    [q] + Escape(s, q) + [q]
  }

  /** `repr(v)`, the form `str()` uses for the elements of a list or dict. */
  function Repr(v: Json): (r: string)
    ensures r != []
    ensures v.JStr? ==> r[0] == r[|r| - 1] && (r[0] == '\'' || r[0] == '"')
    ensures v.JList? ==> |r| >= 2 && r[0] == '[' && r[|r| - 1] == ']'
    ensures v.JObject? ==> |r| >= 2 && r[0] == '{' && r[|r| - 1] == '}'
    ensures v.JInt? ==> ParseInt(r) == Some(v.i)
    decreases v
  {
    match v
    case JNull => "None"
    case JBool(b) => if b then "True" else "False"
    case JInt(i) => ParseShow(i); Show(i)
    case JStr(s) => Quote(s)
    case JList(items) =>
      "[" + Join(", ", seq(|items|, k requires 0 <= k < |items| => Repr(items[k]))) + "]"
    case JObject(members) =>
      var d := DictItems(members);
      "{" + Join(", ", seq(|d|, k requires 0 <= k < |d| =>
                             assert d[k] in members;
                             Quote(d[k].key) + ": " + Repr(d[k].value))) + "}"
  }

  /** `str(v)` (also what an f-string substitutes). */
  function Str(v: Json): (r: string)
    ensures v.JStr? ==> r == v.s
    ensures v.JInt? ==> ParseInt(r) == Some(v.i)
  {
    match v
    case JStr(s) => s
    case JInt(i) => ParseShow(i); Show(i)
    case _ => Repr(v)
  }

  /** Python's `int(v)`: `None` where Python raises (None, lists, dicts,
      strings that are not base-10 integer literals). */
  function IntOf(v: Json): (r: Option<int>)
    ensures v.JInt? ==> r == Some(v.i)
    ensures v.JNull? || v.JList? || v.JObject? ==> r.None?
    ensures v.JStr? && r.Some? ==> Strip(v.s) != [] && !HasSeparator(v.s)
  {
    match v
    case JInt(i) => Some(i)
    case JBool(b) => Some(if b then 1 else 0)
    case JStr(s) => ParseInt(s)
    case _ => None
  }

  /** The value of a number in a comparison such as `v >= 7`; `None` where
      the comparison with an int raises TypeError. */
  function NumberOf(v: Json): (r: Option<int>)
    ensures r.Some? <==> v.JInt? || v.JBool?
    ensures r.Some? ==> IntOf(v) == r
  {
    match v
    case JInt(i) => Some(i)
    case JBool(b) => Some(if b then 1 else 0)
    case _ => None
  }

  /** `len(v)`; `None` where Python raises TypeError. */
  function LenOf(v: Json): (r: Option<nat>)
    ensures r.Some? <==> v.JStr? || v.JList? || v.JObject?
    ensures v.JObject? ==> r.value <= |v.members| && (r.value == 0 <==> v.members == [])
  {
    match v
    case JStr(s) => Some(|s|)
    case JList(items) => Some(|items|)
    case JObject(members) => Some(|DictItems(members)|)
    case _ => None
  }
}
