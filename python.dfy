/** The parts of Python's built-in behaviour that the annotation parser relies on:
    whitespace and `str.strip`, `str.startswith`, `str.find`, the values a literal
    or an assignment can carry, truthiness, `str()` and `float()`. Library code
    that cannot be seen (the JS-literal parser, float parsing and formatting,
    `repr` of containers) is supplied through a `Host`. */
module Python {

  datatype Option<+T> = None | Some(value: T)

  datatype Result<+T, +E> = Ok(value: T) | Err(error: E)

  /** `str.isspace()` for one character (Unicode whitespace); `str.strip()` and the
      regular expression class `\s` use the same set. */
  predicate IsSpace(c: char) {
    || ('\t' <= c <= '\r')
    || ('\U{1c}' <= c <= ' ')
    || c == '\U{85}' || c == '\U{a0}' || c == '\U{1680}'
    || ('\U{2000}' <= c <= '\U{200a}')
    || c == '\U{2028}' || c == '\U{2029}' || c == '\U{202f}' || c == '\U{205f}' || c == '\U{3000}'
  }

  /** The index of the first non-whitespace character at or after `idx`, or the
      length of `s` when there is none (an index past the end is left alone). */
  function WhitespaceEnd(s: string, idx: nat): (j: nat)
    ensures idx <= j && (idx <= |s| ==> j <= |s|)
    ensures idx > |s| ==> j == idx
    ensures forall k :: idx <= k < j ==> k < |s| && IsSpace(s[k])
    ensures j < |s| ==> !IsSpace(s[j])
    decreases |s| - idx
  {
    if idx < |s| && IsSpace(s[idx]) then WhitespaceEnd(s, idx + 1) else idx
  }

  /** The index just past the last non-whitespace character of `s[lo..hi]`, or
      `lo` when there is none: where `str.rstrip()` cuts. */
  function ContentEnd(s: string, lo: nat, hi: nat): (e: nat)
    requires lo <= hi <= |s|
    ensures lo <= e <= hi
    ensures forall i :: e <= i < hi ==> IsSpace(s[i])
    ensures e > lo ==> !IsSpace(s[e - 1])
    decreases hi
  {
    if hi > lo && IsSpace(s[hi - 1]) then ContentEnd(s, lo, hi - 1) else hi
  }

  /** How many whitespace characters `str.lstrip()` removes from `s`. */
  function LeadingSpaces(s: string): (n: nat)
    ensures n <= |s|
  {
    WhitespaceEnd(s, 0)
  }

  /** `str.strip()`. */
  function Strip(s: string): string {
    s[LeadingSpaces(s)..ContentEnd(s, LeadingSpaces(s), |s|)]
  }

  /** What `str.strip()` keeps: a contiguous slice of `s` that neither starts nor
      ends with whitespace, with only whitespace cut on either side. */
  lemma StripShape(s: string)
    ensures var r, k := Strip(s), LeadingSpaces(s);
      && k + |r| <= |s| && r == s[k..k + |r|]
      && (r == [] || (!IsSpace(r[0]) && !IsSpace(r[|r| - 1])))
      && (forall i :: 0 <= i < k ==> IsSpace(s[i]))
      && (forall i :: k + |r| <= i < |s| ==> IsSpace(s[i]))
  {
  }

  predicate StartsWith(s: string, prefix: string) {
    |prefix| <= |s| && s[..|prefix|] == prefix
  }

  /** `str.removeprefix(prefix)`. */
  function RemovePrefix(s: string, prefix: string): string {
    if StartsWith(s, prefix) then s[|prefix|..] else s
  }

  /** `s.find(c, start)`: the first index at or after `start` holding `c`, or -1. */
  function Find(s: string, c: char, start: nat): (r: int)
    ensures r == -1 || (start <= r < |s| && s[r] == c)
    ensures r == -1 ==> forall i :: start <= i < |s| ==> s[i] != c
    ensures r != -1 ==> forall i :: start <= i < r ==> s[i] != c
    decreases |s| - start
  {
    if start >= |s| then -1
    else if s[start] == c then start
    else Find(s, c, start + 1)
  }

  /** `sub in s` for strings. */
  predicate Contains(s: string, sub: string) {
    exists i | 0 <= i <= |s| - |sub| :: OccursAt(s, sub, i)
  }

  predicate OccursAt(s: string, sub: string, i: nat) {
    i + |sub| <= |s| && s[i..i + |sub|] == sub
  }

  /** A Python float. Rounding to binary64 is not modelled: finite floats are reals. */
  datatype Float = Finite(r: real) | PosInf | NegInf | NaN

  /** Python `a < b` on floats: false whenever a NaN is involved. */
  predicate Lt(a: Float, b: Float) {
    match (a, b)
    case (NaN, _) => false
    case (_, NaN) => false
    case (NegInf, _) => b != NegInf
    case (_, NegInf) => false
    case (PosInf, _) => false
    case (_, PosInf) => true
    case (Finite(x), Finite(y)) => x < y
  }

  /** Python `a <= b` on floats: false whenever a NaN is involved. */
  predicate Le(a: Float, b: Float) {
    !a.NaN? && !b.NaN? && !Lt(b, a)
  }

  /** The values a parsed literal or an assignment's right-hand side can hold. */
  datatype Value =
    | PyNone
    | PyBool(b: bool)
    | PyInt(i: int)
    | PyFloat(f: Float)
    | PyStr(s: string)
    | PyList(items: seq<Value>)
    | PyDict(entries: seq<(string, Value)>)

  /** A dict literal as the JS-literal parser builds it: its entries in source order. */
  type Dict = seq<(string, Value)>

  /** `bool(v)`. */
  predicate Truthy(v: Value) {
    match v
    case PyNone => false
    case PyBool(b) => b
    case PyInt(i) => i != 0
    case PyFloat(f) => f != Finite(0.0)
    case PyStr(s) => s != []
    case PyList(items) => items != []
    case PyDict(entries) => entries != []
  }

  /** `d.get(key)`: the value of the last entry for `key` (a repeated key keeps
      its last value, as sequential dict insertion does). */
  function DictGet(d: Dict, key: string): (r: Option<Value>)
    ensures r.None? <==> forall i :: 0 <= i < |d| ==> d[i].0 != key
    ensures r.Some? ==> exists i :: 0 <= i < |d| && d[i] == (key, r.value)
                                    && forall j :: i < j < |d| ==> d[j].0 != key
  {
    if |d| == 0 then None
    else if d[|d| - 1].0 == key then Some(d[|d| - 1].1)
    else DictGet(d[..|d| - 1], key)
  }

  /** `d.get(key, default)`. */
  function DictGetOr(d: Dict, key: string, default: Value): Value {
    match DictGet(d, key)
    case Some(v) => v
    case None => default
  }

  /** `d[key] = v`: an existing key keeps its place and takes the new value;
      a new key is appended. */
  function DictSet(d: Dict, key: string, v: Value): (r: Dict)
    ensures DictGet(r, key) == Some(v)
    ensures forall k :: k != key ==> DictGet(r, k) == DictGet(d, k)
    ensures forall i :: 0 <= i < |d| ==> d[i].0 in KeysOf(r)
    ensures forall i :: 0 <= i < |r| ==> r[i].0 == key || r[i].0 in KeysOf(d)
  {
    if forall i :: 0 <= i < |d| ==> d[i].0 != key then
      var r := d + [(key, v)];
      DictAppendGet(d, key, v);
      assert forall i :: 0 <= i < |d| ==> r[i] == d[i];
      r
    else
      var r := seq(|d|, i requires 0 <= i < |d| => if d[i].0 == key then (key, v) else d[i]);
      DictSetGet(d, r, key, v);
      r
  }

  /** The keys of a dict, in entry order. */
  function KeysOf(d: Dict): (ks: seq<string>)
    ensures |ks| == |d| && forall i :: 0 <= i < |d| ==> ks[i] == d[i].0
  {
    seq(|d|, i requires 0 <= i < |d| => d[i].0)
  }

  lemma DictAppendGet(d: Dict, key: string, v: Value)
    ensures forall k :: DictGet(d + [(key, v)], k) == if k == key then Some(v) else DictGet(d, k)
  {
    assert (d + [(key, v)])[..|d|] == d;
  }

  lemma DictSetGet(d: Dict, r: Dict, key: string, v: Value)
    requires |r| == |d|
    requires exists i :: 0 <= i < |d| && d[i].0 == key
    requires forall i :: 0 <= i < |d| ==> r[i] == if d[i].0 == key then (key, v) else d[i]
    ensures DictGet(r, key) == Some(v)
    ensures forall k :: k != key ==> DictGet(r, k) == DictGet(d, k)
  {
    forall k | k != key ensures DictGet(r, k) == DictGet(d, k) {
      DictGetPointwise(d, r, k);
    }
    var i :| 0 <= i < |d| && d[i].0 == key;
    assert r[i] == (key, v);
    var g := DictGet(r, key);
    assert g.Some?;
    var j :| 0 <= j < |r| && r[j] == (key, g.value) && forall j' :: j < j' < |r| ==> r[j'].0 != key;
    assert r[j] == (key, v);
  }

  lemma {:induction false} DictGetPointwise(d: Dict, r: Dict, k: string)
    requires |r| == |d|
    requires forall i :: 0 <= i < |d| ==> (r[i].0 == k <==> d[i].0 == k)
    requires forall i :: 0 <= i < |d| && d[i].0 == k ==> r[i] == d[i]
    ensures DictGet(r, k) == DictGet(d, k)
    decreases |d|
  {
    if |d| > 0 {
      DictGetPointwise(d[..|d| - 1], r[..|r| - 1], k);
    }
  }

  /** The library code the parser calls but that is not part of this model. */
  datatype Host = Host(
    /** chompjs.parse_js_object on a text that opens with `{`: a dict, or None where it raises ValueError */
    parseObject: string -> Option<Dict>,
    /** chompjs.parse_js_object on a text that opens with `[`: a list, or None where it raises ValueError */
    parseArray: string -> Option<seq<Value>>,
    /** float() of a string, or None where it raises ValueError */
    parseFloat: string -> Option<Float>,
    /** str() of a float, as in "103.0" */
    formatFloat: Float -> string,
    /** str() of a list or a dict */
    repr: Value -> string
  )

  /** The decimal digits of a natural number. */
  function Digits(n: nat): (r: string)
    ensures |r| > 0 && forall i :: 0 <= i < |r| ==> '0' <= r[i] <= '9'
    ensures |r| > 1 ==> r[0] != '0'
  {
    var d := ['0' + (n % 10) as char];
    if n < 10 then d else Digits(n / 10) + d
  }

  /** `str(v)`. */
  function Str(host: Host, v: Value): string {
    match v
    case PyNone => "None"
    case PyBool(b) => if b then "True" else "False"
    case PyInt(i) => if i < 0 then "-" + Digits(-i) else Digits(i)
    case PyFloat(f) => host.formatFloat(f)
    case PyStr(s) => s
    case PyList(_) => host.repr(v)
    case PyDict(_) => host.repr(v)
  }

  /** An int or a float. */
  predicate IsNumber(v: Value) {
    v.PyInt? || v.PyFloat?
  }

  /** The float an int or a float compares as. */
  function NumberValue(v: Value): (f: Float)
    requires IsNumber(v)
    ensures v.PyInt? ==> f == Finite(v.i as real)
  {
    if v.PyInt? then Finite(v.i as real) else v.f
  }

  /** The outcome of `float(v)`: a float, a ValueError, or a TypeError. */
  datatype Conversion = Converted(f: Float) | ValueError | TypeError

  /** `float(v)`. A bool or an int converts exactly; a string goes through the
      host's float parser; None, a list and a dict raise TypeError. */
  function ToFloat(host: Host, v: Value): (c: Conversion)
    ensures c.TypeError? <==> v.PyNone? || v.PyList? || v.PyDict?
    ensures c.ValueError? <==> v.PyStr? && host.parseFloat(v.s).None?
    ensures IsNumber(v) ==> c == Converted(NumberValue(v))
    ensures v.PyBool? ==> c == Converted(Finite(if v.b then 1.0 else 0.0))
    ensures v.PyStr? && host.parseFloat(v.s).Some? ==> c == Converted(host.parseFloat(v.s).value)
  {
    match v
    case PyBool(b) => Converted(Finite(if b then 1.0 else 0.0))
    case PyInt(i) => Converted(Finite(i as real))
    case PyFloat(f) => Converted(f)
    case PyStr(s) => (match host.parseFloat(s) case Some(f) => Converted(f) case None => ValueError)
    case _ => TypeError
  }
}
