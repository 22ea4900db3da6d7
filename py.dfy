/** Python values, truthiness, equality and the "first element that passes"
    search, as insights/core/context.py relies on them. */
module Py {

  datatype Option<+T> = None | Some(value: T)

  /** The exception a Python attribute access or call raises. */
  datatype PyError = AttributeError(attribute: string)

  /** The outcome of a Python expression: a value or a raised exception. */
  datatype Outcome<+T> = Ok(value: T) | Raise(error: PyError)

  /** The Python values that metadata entries, system fields and product
      attributes hold. */
  datatype Value =
    | PyNone
    | PyBool(b: bool)
    | PyInt(i: int)
    | PyStr(s: string)
    | PyList(items: seq<Value>)

  /** `bool(v)`. */
  predicate Truthy(v: Value)
  {
    match v
    case PyNone => false
    case PyBool(b) => b
    case PyInt(i) => i != 0
    case PyStr(s) => s != ""
    case PyList(items) => items != []
  }

  function BoolAsInt(b: bool): int
  {
    if b then 1 else 0
  }

  /** `a == b`: `bool` is a subclass of `int` (so `True == 1`), lists compare
      element by element, values of unrelated types are unequal. */
  predicate PyEq(a: Value, b: Value)
    decreases a
  {
    match a
    case PyNone => b.PyNone?
    case PyBool(x) =>
      (b.PyBool? && b.b == x) || (b.PyInt? && b.i == BoolAsInt(x))
    case PyInt(i) =>
      (b.PyInt? && b.i == i) || (b.PyBool? && BoolAsInt(b.b) == i)
    case PyStr(s) => b.PyStr? && b.s == s
    case PyList(xs) =>
      b.PyList? && |xs| == |b.items| &&
      forall k :: 0 <= k < |xs| ==> PyEq(xs[k], b.items[k])
  }

  /** The falsy values are exactly None, False, 0, "" and []. */
  lemma FalsyValues(v: Value)
    ensures !Truthy(v) <==>
      v == PyNone || v == PyBool(false) || v == PyInt(0) || v == PyStr("") || v == PyList([])
  {
  }

  /** Python's `==` across types: None equals only None, a string only the
      same string, a list only a list; a bool equals the int it stands for
      (`True == 1`, `False == 0`). */
  lemma PyEqKinds(a: Value, b: Value)
    ensures PyEq(a, b) ==> (a.PyNone? <==> b.PyNone?) && (a.PyStr? <==> b.PyStr?) && (a.PyList? <==> b.PyList?)
    ensures a.PyStr? ==> (PyEq(a, b) <==> a == b)
    ensures PyEq(PyBool(true), PyInt(1)) && PyEq(PyBool(false), PyInt(0))
    ensures !PyEq(PyBool(true), PyInt(2))
  {
  }

  /** Python's `==` is reflexive on these values. */
  lemma {:induction false} PyEqReflexive(v: Value)
    ensures PyEq(v, v)
    decreases v
  {
    match v
    case PyList(xs) =>
      forall k | 0 <= k < |xs| ensures PyEq(xs[k], xs[k]) {
        PyEqReflexive(xs[k]);
      }
    case _ =>
  }

  /** Python's `==` is symmetric on these values. */
  lemma {:induction false} PyEqSymmetric(a: Value, b: Value)
    ensures PyEq(a, b) <==> PyEq(b, a)
    decreases a
  {
    match a
    case PyList(xs) =>
      if b.PyList? && |xs| == |b.items| {
        forall k | 0 <= k < |xs| ensures PyEq(xs[k], b.items[k]) <==> PyEq(b.items[k], xs[k]) {
          PyEqSymmetric(xs[k], b.items[k]);
        }
      }
    case _ =>
  }

  /** Against a string, or a list of strings, Python's `==` is structural
      equality: no bool/int coercion can apply. */
  lemma PyEqStrings(v: Value, w: seq<Value>)
    requires forall k :: 0 <= k < |w| ==> w[k].PyStr?
    ensures PyEq(v, PyList(w)) <==> v == PyList(w)
  {
    if v == PyList(w) {
      PyEqReflexive(v);
    }
    if PyEq(v, PyList(w)) {
      forall k | 0 <= k < |w| ensures v.items[k] == w[k] {
        assert PyEq(v.items[k], w[k]);
      }
      assert v.items == w;
    }
  }

  /** `str.lower()` on one character, for the ASCII letters. */
  function LowerChar(c: char): char
  {
    if 'A' <= c <= 'Z' then (c as int + 32) as char else c
  }

  /** `s.lower()`, for the ASCII letters; non-ASCII case mappings are not
      modelled. */
  function Lower(s: string): (r: string)
    ensures |r| == |s|
  {
    seq(|s|, i requires 0 <= i < |s| => LowerChar(s[i]))
  }

  /** `s.lower()` keeps the length, turns every ASCII upper-case letter into
      its lower-case letter, leaves no ASCII upper-case letter, and keeps
      every other character. */
  lemma LowerSpec(s: string)
    ensures |Lower(s)| == |s|
    ensures forall i :: 0 <= i < |s| ==> !('A' <= Lower(s)[i] <= 'Z')
    ensures forall i :: 0 <= i < |s| && 'A' <= s[i] <= 'Z' ==> Lower(s)[i] == (s[i] as int + 32) as char
    ensures forall i :: 0 <= i < |s| && !('A' <= s[i] <= 'Z') ==> Lower(s)[i] == s[i]
  {
  }

  /** The index of the first element that passes `p`, as a Python
      `for x in xs: if p(x): return ...` loop finds it. */
  function FirstIndex<T>(xs: seq<T>, p: T -> bool): (r: Option<nat>)
    ensures r.Some? ==> r.value < |xs|
  {
    if xs == [] then None
    else if p(xs[0]) then Some(0)
    else
      match FirstIndex(xs[1..], p)
      case None => None
      case Some(k) => Some(k + 1)
  }

  /** FirstIndex finds an element that passes, with none passing before it,
      and finds nothing iff no element passes. */
  lemma {:induction false} FirstIndexSpec<T>(xs: seq<T>, p: T -> bool)
    ensures FirstIndex(xs, p).Some? ==> p(xs[FirstIndex(xs, p).value])
    ensures FirstIndex(xs, p).Some? ==> forall j :: 0 <= j < FirstIndex(xs, p).value ==> !p(xs[j])
    ensures FirstIndex(xs, p).None? <==> forall j :: 0 <= j < |xs| ==> !p(xs[j])
    decreases |xs|
  {
    if xs != [] && !p(xs[0]) {
      FirstIndexSpec(xs[1..], p);
      assert forall j :: 0 < j < |xs| ==> xs[j] == xs[1..][j - 1];
    }
  }

  /** The first passing index is the only index that passes with no passing
      index before it. */
  lemma FirstIndexUnique<T>(xs: seq<T>, p: T -> bool, i: nat)
    requires i < |xs| && p(xs[i])
    requires forall j :: 0 <= j < i ==> !p(xs[j])
    ensures FirstIndex(xs, p) == Some(i)
  {
    FirstIndexSpec(xs, p);
  }
}
