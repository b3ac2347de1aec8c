/**
 * The fragment of Python's value model the scripts rely on: decoded JSON
 * values, truthiness, and the operations on them that can raise.
 *
 * An expression that raises in Python (a `KeyError`, a `TypeError`, an
 * `AttributeError` on `.get` of a non-dict, ...) evaluates here to `Raised`;
 * `Outcome` is failure-compatible, so `var x :- e;` propagates an exception
 * the way an unguarded Python statement does.
 */
module Py {

  datatype Option<+T> = None | Some(value: T)

  datatype Outcome<+T> = Returned(value: T) | Raised {
    predicate IsFailure() { Raised? }

    function PropagateFailure<U>(): Outcome<U>
      requires Raised?
    {
      Raised
    }

    function Extract(): T
      requires Returned?
    {
      value
    }
  }

  /** A decoded JSON document; Python's `None` is `JNull`. */
  datatype Json =
    | JNull
    | JBool(b: bool)
    | JNum(n: int)
    | JStr(s: string)
    | JArr(elems: seq<Json>)
    | JObj(fields: map<string, Json>)

  /** Python truthiness: `None`, `False`, `0`, `""`, `[]` and `{}` are falsy. */
  predicate Truthy(v: Json) {
    match v
    case JNull => false
    case JBool(b) => b
    case JNum(n) => n != 0
    case JStr(s) => s != ""
    case JArr(e) => e != []
    case JObj(m) => m != map[]
  }

  /** `d.get(key, default)` on a dict `d`. */
  function Field(m: map<string, Json>, key: string, default: Json): Json {
    if key in m then m[key] else default
  }

  /** `v.get(key, default)`: only a dict has a `get` method. */
  function Get(v: Json, key: string, default: Json): Outcome<Json> {
    match v
    case JObj(m) => Returned(Field(m, key, default))
    case _ => Raised
  }

  /** `v[key]` with a string key: a missing key is a `KeyError`, a non-dict a `TypeError`. */
  function Subscript(v: Json, key: string): Outcome<Json> {
    match v
    case JObj(m) => if key in m then Returned(m[key]) else Raised
    case _ => Raised
  }

  /** `v[0]`: a list or a string yields its first element; anything else raises. */
  function Index0(v: Json): Outcome<Json> {
    match v
    case JArr(e) => if e != [] then Returned(e[0]) else Raised
    case JStr(s) => if s != "" then Returned(JStr([s[0]])) else Raised
    case _ => Raised
  }

  /** The one-character strings of `s`, which is what iterating a string yields. */
  function Chars(s: string): (r: seq<Json>)
    ensures |r| == |s|
    ensures forall i :: 0 <= i < |s| ==> r[i] == JStr([s[i]])
  {
    seq(|s|, i requires 0 <= i < |s| => JStr([s[i]]))
  }

  /** `for x in v`: a list yields its elements, a string its characters. */
  function Iter(v: Json): Outcome<seq<Json>> {
    match v
    case JArr(e) => Returned(e)
    case JStr(s) => Returned(Chars(s))
    case _ => Raised
  }

  /** `len(v)`. */
  function Len(v: Json): Outcome<nat> {
    match v
    case JStr(s) => Returned(|s|)
    case JArr(e) => Returned(|e|)
    case JObj(m) => Returned(|m|)
    case _ => Raised
  }

  predicate IsPrefix(p: string, s: string) {
    |p| <= |s| && s[..|p|] == p
  }

  predicate IsSubstring(p: string, s: string)
    decreases |s|
  {
    IsPrefix(p, s) || (s != "" && IsSubstring(p, s[1..]))
  }

  /** `key in v` for a string `key`: a dict tests its keys, a list its elements, a string its substrings. */
  function Contains(v: Json, key: string): Outcome<bool> {
    match v
    case JObj(m) => Returned(key in m)
    case JArr(e) => Returned(JStr(key) in e)
    case JStr(s) => Returned(IsSubstring(key, s))
    case _ => Raised
  }

  predicate IsNumber(v: Json) {
    v.JNum? || v.JBool?
  }

  /** The integer value of a number; `bool` is a subclass of `int` in Python. */
  function Num(v: Json): int
    requires IsNumber(v)
  {
    match v
    case JNum(n) => n
    case JBool(b) => if b then 1 else 0
  }

  /** Lexicographic order on strings, as Python compares `str` values. */
  predicate StrLess(a: string, b: string)
    decreases |a|
  {
    if a == "" then b != ""
    else if b == "" then false
    else if a[0] != b[0] then a[0] < b[0]
    else StrLess(a[1..], b[1..])
  }

  /**
   * `a == b`: numbers compare by value (`True == 1`), lists element by
   * element, dicts key by key; values of different kinds are unequal.
   */
  predicate PyEq(a: Json, b: Json)
    decreases a
  {
    if IsNumber(a) && IsNumber(b) then Num(a) == Num(b)
    else
      match a
      case JArr(x) => b.JArr? && |x| == |b.elems| && forall i :: 0 <= i < |x| ==> PyEq(x[i], b.elems[i])
      case JObj(m) => b.JObj? && m.Keys == b.fields.Keys && forall k :: k in m ==> PyEq(m[k], b.fields[k])
      case _ => a == b
  }

  /**
   * `a > b`: numbers compare numerically, strings and lists
   * lexicographically; anything else (`None`, dicts, mixed kinds) raises.
   */
  function Greater(a: Json, b: Json): Outcome<bool>
    decreases a
  {
    if IsNumber(a) && IsNumber(b) then Returned(Num(a) > Num(b))
    else if a.JStr? && b.JStr? then Returned(StrLess(b.s, a.s))
    else if a.JArr? && b.JArr? then ListGreater(a.elems, b.elems)
    else Raised
  }

  /**
   * `x > y` on lists: the first position whose elements are not `==`
   * decides with `>` there, which may raise; when one list is a prefix of
   * the other, the longer one is greater.
   */
  function ListGreater(x: seq<Json>, y: seq<Json>): Outcome<bool>
    decreases x
  {
    if x == [] || y == [] then Returned(|x| > |y|)
    else if PyEq(x[0], y[0]) then ListGreater(x[1..], y[1..])
    else Greater(x[0], y[0])
  }

  /** A proper prefix is smaller, and a list is never greater than itself. */
  lemma {:induction false} ListGreaterPrefix(x: seq<Json>, y: seq<Json>)
    ensures ListGreater(x, x + y) == Returned(false)
    ensures y != [] ==> ListGreater(x + y, x) == Returned(true)
    decreases |x|
  {
    if x != [] {
      PyEqReflexive(x[0]);
      assert (x + y)[0] == x[0] && (x + y)[1..] == x[1..] + y;
      ListGreaterPrefix(x[1..], y);
    } else {
      assert x + y == y;
    }
  }

  lemma {:induction false} PyEqReflexive(a: Json)
    ensures PyEq(a, a)
    decreases a
  {
    match a
    case JArr(x) =>
      forall i | 0 <= i < |x| ensures PyEq(x[i], x[i]) {
        PyEqReflexive(x[i]);
      }
    case JObj(m) =>
      forall k | k in m ensures PyEq(m[k], m[k]) {
        PyEqReflexive(m[k]);
      }
    case _ =>
  }

  /** `[2] > [1]` and `[True, 5] > [1, 3]`: equal heads pass the decision on; `[1] > ["a"]` raises. */
  lemma ListComparisons()
    ensures Greater(JArr([JNum(2)]), JArr([JNum(1)])) == Returned(true)
    ensures Greater(JArr([JBool(true), JNum(5)]), JArr([JNum(1), JNum(3)])) == Returned(true)
    ensures Greater(JArr([JNum(1)]), JArr([JStr("a")])) == Raised
  {
    assert PyEq(JBool(true), JNum(1));
    assert [JBool(true), JNum(5)][1..] == [JNum(5)];
    assert [JNum(1), JNum(3)][1..] == [JNum(3)];
  }

  function LowerChar(c: char): char {
    if 'A' <= c <= 'Z' then (c as int + 32) as char else c
  }

  function UpperChar(c: char): char {
    if 'a' <= c <= 'z' then (c as int - 32) as char else c
  }

  /** `s.lower()`, on ASCII letters. */
  function Lower(s: string): (r: string)
    ensures |r| == |s|
    ensures forall i :: 0 <= i < |s| ==> r[i] == LowerChar(s[i])
  {
    seq(|s|, i requires 0 <= i < |s| => LowerChar(s[i]))
  }

  /** `s.upper()`, on ASCII letters. */
  function Upper(s: string): (r: string)
    ensures |r| == |s|
    ensures forall i :: 0 <= i < |s| ==> r[i] == UpperChar(s[i])
  {
    seq(|s|, i requires 0 <= i < |s| => UpperChar(s[i]))
  }

  /** No lower-case ASCII letter occurs in `s`. */
  predicate NoLowerCase(s: string) {
    forall i :: 0 <= i < |s| ==> !('a' <= s[i] <= 'z')
  }

  lemma UpperHasNoLowerCase(s: string)
    ensures NoLowerCase(Upper(s))
  {
  }
}

/** The remote APIs, replaced by a fixed answer per URL. */
module Remote {
  import opened Py

  /**
   * The outcome of `requests.get(url)` followed by `.json()`: `Fail` stands
   * for a non-200 status, a transport exception or a body that does not decode.
   */
  datatype Response = Ok(body: Json) | Fail

  /** What every URL answers during one run; a URL not in the map fails. */
  type Api = map<string, Response>

  /** `requests.get(url)`: a value that is not a known URL string fails. */
  function Request(api: Api, url: Json): Response {
    if url.JStr? && url.s in api then api[url.s] else Fail
  }
}
