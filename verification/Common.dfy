/** Value types shared by every component of the model. */
module Common {

  datatype Option<+T> = None | Some(value: T)

  datatype Result<+T> = Ok(value: T) | Err

  /** A JSON value. Numbers are reals: f64 rounding, NaN and infinities are not modelled. */
  datatype Json =
    | JNull
    | JBool(b: bool)
    | JNumber(n: real)
    | JString(s: string)
    | JArray(items: seq<Json>)
    | JObject(fields: map<string, Json>)

  function Lookup<K, V>(m: map<K, V>, k: K): Option<V> {
    if k in m then Some(m[k]) else None
  }

  /** The values of a map, in the given order of its keys. */
  function ValuesIn<K, V>(m: map<K, V>, order: seq<K>): seq<V>
    requires forall k :: k in order ==> k in m
  {
    seq(|order|, i requires 0 <= i < |order| => m[order[i]])
  }

  /** `order` lists every key exactly once: one possible iteration order of a hash map. */
  ghost predicate IsEnumeration<K(!new)>(order: seq<K>, keys: set<K>) {
    && (forall k :: k in order <==> k in keys)
    && forall i, j :: 0 <= i < j < |order| ==> order[i] != order[j]
  }

  lemma {:induction false} EnumerationExists<K(!new)>(keys: set<K>) returns (order: seq<K>)
    ensures IsEnumeration(order, keys)
    decreases |keys|
  {
    if keys == {} {
      order := [];
    } else {
      var k :| k in keys;
      var rest := EnumerationExists(keys - {k});
      order := rest + [k];
    }
  }

  lemma EnumerationDropLast<K(!new)>(order: seq<K>, keys: set<K>)
    requires IsEnumeration(order, keys) && order != []
    ensures IsEnumeration(order[..|order| - 1], keys - {order[|order| - 1]})
  {
    var last := order[|order| - 1];
    var rest := order[..|order| - 1];
    forall k ensures k in rest <==> k in keys - {last} {
      if k in order && k != last {
        var i :| 0 <= i < |order| && order[i] == k;
        assert rest[i] == k;
      }
    }
  }

  lemma {:induction false} EnumerationLength<K(!new)>(order: seq<K>, keys: set<K>)
    requires IsEnumeration(order, keys)
    ensures |order| == |keys|
    decreases |order|
  {
    if order == [] {
      assert keys == {};
    } else {
      EnumerationDropLast(order, keys);
      EnumerationLength(order[..|order| - 1], keys - {order[|order| - 1]});
    }
  }

  lemma Associative<T>(a: seq<T>, b: seq<T>, c: seq<T>)
    ensures (a + b) + c == a + (b + c)
  {
  }

  /** A concatenation, seen from its last element. */
  lemma ConcatSnoc<T>(a: seq<T>, b: seq<T>)
    requires b != []
    ensures b == b[..|b| - 1] + [b[|b| - 1]]
    ensures a + b == (a + b[..|b| - 1]) + [b[|b| - 1]]
  {
  }
}
