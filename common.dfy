/** Shared vocabulary of the services: optional values, the HTTP error
    outcomes a handler raises, and the two lookup idioms the services use
    on their in-memory tables (first match in a list, dictionary get with
    an empty-list default). */
module Common {

  datatype Option<+T> = None | Some(value: T)

  /** The HTTPException statuses raised by the handlers in the core:
      400, 404 and 500. */
  datatype Status = BadRequest | NotFound | InternalError

  /** A handler either answers with a value or raises an HTTPException. */
  datatype Result<+T> = Ok(value: T) | Err(status: Status)

  /** Index of the first element of `s` whose key is `k`: the
      "for item in list: if item.get(key) == k: return item" search. */
  function FirstIndex<T>(s: seq<T>, key: T -> string, k: string): (r: Option<nat>)
    ensures r.Some? ==> r.value < |s| && key(s[r.value]) == k
    ensures r.Some? ==> forall j :: 0 <= j < r.value ==> key(s[j]) != k
    ensures r.None? <==> forall j :: 0 <= j < |s| ==> key(s[j]) != k
  {
    if s == [] then None
    else if key(s[0]) == k then Some(0)
    else match FirstIndex(s[1..], key, k)
      case None => None
      case Some(i) => Some(i + 1)
  }

  /** `d.get(k, [])` on a dictionary whose values are lists. */
  function GetOrEmpty<K, V>(d: map<K, seq<V>>, k: K): (r: seq<V>)
    ensures k in d ==> r == d[k]
    ensures k !in d ==> r == []
  {
    if k in d then d[k] else []
  }

  function Min(a: int, b: int): (m: int)
    ensures m <= a && m <= b && (m == a || m == b)
  {
    if a <= b then a else b
  }

  /** All elements of `s` are pairwise distinct. */
  predicate Distinct<T(==)>(s: seq<T>)
  {
    forall i, j :: 0 <= i < j < |s| ==> s[i] != s[j]
  }

  /** Decimal rendering of a natural number, as Python's str(n). */
  function NatToString(n: nat): (s: string)
    ensures |s| >= 1
    decreases n
  {
    var d := ['0', '1', '2', '3', '4', '5', '6', '7', '8', '9'][n % 10];
    if n < 10 then [d] else NatToString(n / 10) + [d]
  }
}
