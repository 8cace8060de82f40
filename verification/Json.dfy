/** Values as `json.loads` builds them, and Python's equality on them. */
module Json {
  datatype Json =
    | Null
    | Bool(b: bool)
    | Int(i: int)
    | Real(r: real)
    | String(s: string)
    | Array(items: seq<Json>)
    | Object(fields: map<string, Json>)
  {
    predicate Numeric() {
      Bool? || Int? || Real?
    }

    /** `True` counts as 1 and `False` as 0. */
    function Number(): real
      requires Numeric()
    {
      match this
      case Bool(b) => if b then 1.0 else 0.0
      case Int(i) => i as real
      case Real(r) => r
    }
  }

  type Fields = map<string, Json>

  /** `mapping.get(key)`. */
  function Get(m: Fields, key: string): Json {
    if key in m then m[key] else Null
  }

  /** `a == b`: numbers and booleans compare by value, containers element by element. */
  predicate PyEq(a: Json, b: Json)
    decreases a
  {
    if a.Numeric() && b.Numeric() then a.Number() == b.Number()
    else match a
      case Object(m) =>
        b.Object? && m.Keys == b.fields.Keys && forall k :: k in m ==> PyEq(m[k], b.fields[k])
      case Array(items) =>
        b.Array? && |items| == |b.items| && forall i :: 0 <= i < |items| ==> PyEq(items[i], b.items[i])
      case _ => a == b
  }

  lemma {:induction false} PyEqReflexive(a: Json)
    ensures PyEq(a, a)
    decreases a
  {
    match a
    case Object(m) =>
      forall k | k in m ensures PyEq(m[k], m[k]) {
        PyEqReflexive(m[k]);
      }
    case Array(items) =>
      forall i | 0 <= i < |items| ensures PyEq(items[i], items[i]) {
        PyEqReflexive(items[i]);
      }
    case _ =>
  }

  lemma {:induction false} PyEqSymmetric(a: Json, b: Json)
    ensures PyEq(a, b) ==> PyEq(b, a)
    decreases a
  {
    if PyEq(a, b) && !a.Numeric() {
      match a
      case Object(m) =>
        forall k | k in m ensures PyEq(b.fields[k], m[k]) {
          PyEqSymmetric(m[k], b.fields[k]);
        }
      case Array(items) =>
        forall i | 0 <= i < |items| ensures PyEq(b.items[i], items[i]) {
          PyEqSymmetric(items[i], b.items[i]);
        }
      case _ =>
    }
  }

  /** Without booleans and reals anywhere, numbers are written in one way only. */
  predicate OneForm(a: Json)
    decreases a
  {
    match a
    case Bool(_) => false
    case Real(_) => false
    case Object(m) => forall k :: k in m ==> OneForm(m[k])
    case Array(items) => forall i :: 0 <= i < |items| ==> OneForm(items[i])
    case _ => true
  }

  /** On such values Python's equality is equality. */
  lemma {:induction false} PyEqIsEquality(a: Json, b: Json)
    requires OneForm(a) && OneForm(b)
    ensures PyEq(a, b) <==> a == b
    decreases a
  {
    if a == b {
      PyEqReflexive(a);
    } else if a.Object? && b.Object? && a.fields.Keys == b.fields.Keys {
      var k :| k in a.fields && a.fields[k] != b.fields[k];
      PyEqIsEquality(a.fields[k], b.fields[k]);
    } else if a.Array? && b.Array? && |a.items| == |b.items| {
      var i :| 0 <= i < |a.items| && a.items[i] != b.items[i];
      PyEqIsEquality(a.items[i], b.items[i]);
    }
  }

  /** Numbers of all kinds compare by value, true as 1 and false as 0, and with nothing else. */
  lemma PyEqOfNumbers(a: Json, b: Json)
    ensures forall i, j :: a == Int(i) && b == Int(j) ==> (PyEq(a, b) <==> i == j)
    ensures forall i, x :: a == Int(i) && b == Real(x) ==>
      (PyEq(a, b) <==> i as real == x) && (PyEq(b, a) <==> PyEq(a, b))
    ensures forall x, y :: a == Real(x) && b == Real(y) ==> (PyEq(a, b) <==> x == y)
    ensures forall t, i :: a == Bool(t) && b == Int(i) ==> (PyEq(a, b) <==> i == if t then 1 else 0)
    ensures forall t, x :: a == Bool(t) && b == Real(x) ==> (PyEq(a, b) <==> x == if t then 1.0 else 0.0)
    ensures forall t, u :: a == Bool(t) && b == Bool(u) ==> (PyEq(a, b) <==> t == u)
    ensures a.Numeric() && !b.Numeric() ==> !PyEq(a, b) && !PyEq(b, a)
  {
  }
}
