/** The JSON-like values the generator reads and writes.

An OpenAPI document, once parsed, is a tree of Python `None`, `bool`, `int`,
`float`, `str`, `list` and `dict`. Dicts keep insertion order, so an object is an
ordered association list of members; assignment to an existing key keeps the
key's position, assignment to a new key appends it.
 */
module JsonModel {
  import opened Results

  datatype Json =
    | Null
    | Bool(b: bool)
    | Int(i: int)
    | Float(repr: string)   // a float, kept as the text Python's `repr` gives it
    | Str(s: string)
    | Arr(items: seq<Json>)
    | Obj(members: seq<Member>)

  datatype Member = Member(key: string, value: Json)

  /** The members of a Python dict, in insertion order. */
  type Dict = seq<Member>

  function KeysOf(d: Dict): (ks: seq<string>)
    ensures |ks| == |d|
    ensures forall i :: 0 <= i < |d| ==> ks[i] == d[i].key
  {
    if |d| == 0 then [] else [d[0].key] + KeysOf(d[1..])
  }

  /** Python dicts never hold a key twice. */
  predicate DistinctKeys(d: Dict) {
    forall i, j :: 0 <= i < j < |d| ==> d[i].key != d[j].key
  }

  /** `k in d` and `d[k]`, as one lookup. */
  function Lookup(d: Dict, k: string): (r: Option<Json>)
    ensures r.Some? <==> k in KeysOf(d)
    ensures r.Some? ==> Member(k, r.value) in d
  {
    if |d| == 0 then None
    else if d[0].key == k then Some(d[0].value)
    else Lookup(d[1..], k)
  }

  /** `d.get(k)`: the member's value, or `None` when the key is absent. */
  function Get(d: Dict, k: string): Json {
    match Lookup(d, k)
    case Some(v) => v
    case None => Null
  }

  /** `d[k] = v`. */
  function Put(d: Dict, k: string, v: Json): (r: Dict)
    ensures Lookup(r, k) == Some(v)
    ensures forall k' :: k' != k ==> Lookup(r, k') == Lookup(d, k')
  {
    if |d| == 0 then [Member(k, v)]
    else if d[0].key == k then [Member(k, v)] + d[1..]
    else
      var rest := Put(d[1..], k, v);
      assert ([d[0]] + rest)[1..] == rest;
      [d[0]] + rest
  }

  /** Assignment keeps an existing key in place and appends a new one. */
  lemma {:induction false} PutKeys(d: Dict, k: string, v: Json)
    ensures KeysOf(Put(d, k, v)) == if k in KeysOf(d) then KeysOf(d) else KeysOf(d) + [k]
  {
    if |d| > 0 && d[0].key != k {
      PutKeys(d[1..], k, v);
      assert ([d[0]] + Put(d[1..], k, v))[1..] == Put(d[1..], k, v);
    }
  }

  /** `d.update(e)`: the members of `e` assigned into `d`, in order. */
  function Update(d: Dict, e: Dict): Dict
    decreases |e|
  {
    if |e| == 0 then d else Update(Put(d, e[0].key, e[0].value), e[1..])
  }

  /** After `d.update(e)`, a key of `e` maps to its value in `e`; every other
      key keeps its value in `d`. */
  lemma {:induction false} LookupUpdate(d: Dict, e: Dict, k: string)
    requires DistinctKeys(e)
    ensures Lookup(Update(d, e), k) == if k in KeysOf(e) then Lookup(e, k) else Lookup(d, k)
    decreases |e|
  {
    if |e| > 0 {
      var d' := Put(d, e[0].key, e[0].value);
      assert DistinctKeys(e[1..]);
      LookupUpdate(d', e[1..], k);
      if k == e[0].key {
        assert k !in KeysOf(e[1..]);
      }
    }
  }

  /** Python truthiness: `None`, `False`, zero, and empty strings, lists and
      dicts are false. */
  predicate Truthy(j: Json) {
    match j
    case Null => false
    case Bool(b) => b
    case Int(i) => i != 0
    case Float(r) => r != "0.0" && r != "-0.0"
    case Str(s) => |s| > 0
    case Arr(items) => |items| > 0
    case Obj(ms) => |ms| > 0
  }

  /** Python's `a or b`. */
  function Or(a: Json, b: Json): Json {
    if Truthy(a) then a else b
  }

  /** Python's `x or default` where the result is then used as a `str`: a
      truthy value that is not a string raises. */
  function TextOr(j: Json, default: string): (r: Result<string>)
    ensures !Truthy(j) ==> r == Ok(default)
    ensures j.Str? && j.s != "" ==> r == Ok(j.s)
    ensures r.Err? <==> Truthy(j) && !j.Str?
  {
    if !Truthy(j) then Ok(default)
    else if j.Str? then Ok(j.s)
    else Err(WrongType("text expected"))
  }

  function DigitChar(d: nat): char
    requires d < 10
  {
    "0123456789"[d]
  }

  function NatToDecimal(n: nat): string
    decreases n
  {
    if n < 10 then [DigitChar(n)] else NatToDecimal(n / 10) + [DigitChar(n % 10)]
  }

  function IntToDecimal(i: int): string {
    if i < 0 then "-" + NatToDecimal(-i) else NatToDecimal(i)
  }

  /** Python's `repr` of a string: single quotes unless the text holds a single
      quote and no double quote. */
  function QuoteRepr(s: string): string {
    var q := if '\'' in s && '"' !in s then '"' else '\'';
    [q] + EscapeRepr(s, q) + [q]
  }

  function EscapeRepr(s: string, q: char): string {
    if |s| == 0 then ""
    else
      var c := s[0];
      var e :=
        if c == '\\' then "\\\\"
        else if c == q then ['\\', q]
        else if c == '\n' then "\\n"
        else if c == '\r' then "\\r"
        else if c == '\t' then "\\t"
        else [c];
      e + EscapeRepr(s[1..], q)
  }

  /** Python's `repr` of a value. */
  function Repr(j: Json): string
    decreases j
  {
    match j
    case Null => "None"
    case Bool(b) => if b then "True" else "False"
    case Int(i) => IntToDecimal(i)
    case Float(r) => r
    case Str(s) => QuoteRepr(s)
    case Arr(items) => "[" + ReprItems(items) + "]"
    case Obj(ms) => "{" + ReprMembers(ms) + "}"
  }

  function ReprItems(items: seq<Json>): string
    decreases items
  {
    if |items| == 0 then ""
    else if |items| == 1 then Repr(items[0])
    else Repr(items[0]) + ", " + ReprItems(items[1..])
  }

  function ReprMembers(ms: seq<Member>): string
    decreases ms
  {
    if |ms| == 0 then ""
    else
      var head := QuoteRepr(ms[0].key) + ": " + Repr(ms[0].value);
      if |ms| == 1 then head else head + ", " + ReprMembers(ms[1..])
  }

  /** Python's `str(x)`: a string is itself, anything else its `repr`. */
  function PyStr(j: Json): string {
    if j.Str? then j.s else Repr(j)
  }

  /** `str` of each item, in order. */
  function PyStrs(items: seq<Json>): (r: seq<string>)
    ensures |r| == |items|
    ensures forall i :: 0 <= i < |items| ==> r[i] == PyStr(items[i])
  {
    seq(|items|, i requires 0 <= i < |items| => PyStr(items[i]))
  }

  lemma PyStrsCons(items: seq<Json>)
    requires |items| > 0
    ensures PyStrs(items) == [PyStr(items[0])] + PyStrs(items[1..])
  {
  }

  /** Strings as JSON strings. */
  function StrJsons(xs: seq<string>): (r: seq<Json>)
    ensures |r| == |xs|
    ensures forall i :: 0 <= i < |xs| ==> r[i] == Str(xs[i])
  {
    seq(|xs|, i requires 0 <= i < |xs| => Str(xs[i]))
  }

  lemma StrJsonsMembers(xs: seq<string>)
    ensures forall x :: Str(x) in StrJsons(xs) <==> x in xs
  {
    forall x
      ensures Str(x) in StrJsons(xs) <==> x in xs
    {
      if Str(x) in StrJsons(xs) {
        var i :| 0 <= i < |xs| && StrJsons(xs)[i] == Str(x);
        assert xs[i] == x;
      }
      if x in xs {
        var i :| 0 <= i < |xs| && xs[i] == x;
        assert StrJsons(xs)[i] == Str(x);
      }
    }
  }

  /** The texts of a list of JSON strings. */
  function StringsOf(items: seq<Json>): (r: seq<string>)
    requires forall i :: 0 <= i < |items| ==> items[i].Str?
    ensures |r| == |items|
    ensures forall i :: 0 <= i < |items| ==> r[i] == items[i].s
  {
    seq(|items|, i requires 0 <= i < |items| => items[i].s)
  }
}
