/** JSON values as the Python services see them after decoding a request
    body: None, booleans, ints, floats (exact reals here), strings, lists
    and dictionaries with string keys. */
module Json {
  import opened Common

  datatype Value =
    | Null
    | Bool(b: bool)
    | Int(i: int)
    | Float(f: real)
    | Str(s: string)
    | Arr(items: seq<Value>)
    | Obj(fields: map<string, Value>)

  /** `d.get(k)`: the stored value, or None when the key is absent. */
  function Get(d: map<string, Value>, k: string): (v: Value)
    ensures k in d ==> v == d[k]
    ensures k !in d ==> v == Null
  {
    if k in d then d[k] else Null
  }

  /** The numeric value of a bool, int or float; Python compares these
      three kinds by value (True == 1 == 1.0). */
  function Numeric(v: Value): (n: Option<real>)
  {
    match v
    case Bool(b) => Some(if b then 1.0 else 0.0)
    case Int(i) => Some(i as real)
    case Float(f) => Some(f)
    case _ => None
  }

  /** Python's `==` on decoded JSON values: numbers by value across bool,
      int and float; lists element by element; dictionaries by key set and
      value by value; everything else by identity of kind and content. */
  predicate PyEq(a: Value, b: Value)
    ensures Numeric(a).Some? != Numeric(b).Some? ==> !PyEq(a, b)
    ensures b == Null ==> (PyEq(a, b) <==> a == Null)
    ensures a.Str? && b.Str? ==> (PyEq(a, b) <==> a.s == b.s)
    decreases a
  {
    if Numeric(a).Some? && Numeric(b).Some? then Numeric(a).value == Numeric(b).value
    else match (a, b)
      case (Arr(xs), Arr(ys)) =>
        |xs| == |ys| && forall i :: 0 <= i < |xs| ==> PyEq(xs[i], ys[i])
      case (Obj(m), Obj(n)) =>
        m.Keys == n.Keys && forall k :: k in m ==> PyEq(m[k], n[k])
      case _ => a == b
  }

  /** Python's `==` agrees with itself on every value. */
  lemma {:induction false} PyEqReflexive(a: Value)
    ensures PyEq(a, a)
    decreases a
  {
    match a
    case Arr(xs) =>
      forall i | 0 <= i < |xs| ensures PyEq(xs[i], xs[i]) { PyEqReflexive(xs[i]); }
    case Obj(m) =>
      forall k | k in m ensures PyEq(m[k], m[k]) { PyEqReflexive(m[k]); }
    case _ =>
  }

  /** Python's `==` on these values does not depend on the order of its
      operands. */
  lemma {:induction false} PyEqSymmetric(a: Value, b: Value)
    requires PyEq(a, b)
    ensures PyEq(b, a)
    decreases a
  {
    if Numeric(a).Some? && Numeric(b).Some? {
    } else {
      match (a, b)
      case (Arr(xs), Arr(ys)) =>
        forall i | 0 <= i < |ys| ensures PyEq(ys[i], xs[i]) { PyEqSymmetric(xs[i], ys[i]); }
      case (Obj(m), Obj(n)) =>
        forall k | k in n ensures PyEq(n[k], m[k]) { PyEqSymmetric(m[k], n[k]); }
      case _ =>
    }
  }
}
