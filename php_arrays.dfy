/**
 * A PHP array used as a dictionary: an ordered list of key/value pairs with
 * distinct keys. Assigning to an existing key replaces its value in place;
 * assigning to a new key appends it, so the array keeps first-insertion order.
 */
module PhpArrays {
  import opened Wrappers

  type OrderedMap<K, V> = seq<(K, V)>

  /** `array_keys($m)`. */
  function Keys<K, V>(m: OrderedMap<K, V>): (ks: seq<K>)
    ensures |ks| == |m|
    ensures forall i :: 0 <= i < |m| ==> ks[i] == m[i].0
  {
    if m == [] then [] else [m[0].0] + Keys(m[1..])
  }

  ghost predicate UniqueKeys<K, V>(m: OrderedMap<K, V>) {
    forall i, j :: 0 <= i < j < |m| ==> m[i].0 != m[j].0
  }

  /** `$m[$k]`, or None when `isset($m[$k])` is false. */
  function Get<K(==), V>(m: OrderedMap<K, V>, k: K): (r: Option<V>)
    ensures r.Some? <==> k in Keys(m)
  {
    if m == [] then None
    else if m[0].0 == k then Some(m[0].1)
    else Get(m[1..], k)
  }

  /** `$m[$k]` is the value paired with the first occurrence of `$k`. */
  lemma {:induction false} GetValue<K, V>(m: OrderedMap<K, V>, k: K, i: nat)
    requires i < |m| && m[i].0 == k && k !in Keys(m[..i])
    ensures Get(m, k) == Some(m[i].1)
  {
    if i > 0 {
      assert m[1..][..i - 1] == m[..i][1..];
      GetValue(m[1..], k, i - 1);
    }
  }

  /** `$m[$k] = $v`. */
  function Put<K(==), V>(m: OrderedMap<K, V>, k: K, v: V): OrderedMap<K, V> {
    if m == [] then [(k, v)]
    else if m[0].0 == k then [(k, v)] + m[1..]
    else [m[0]] + Put(m[1..], k, v)
  }

  /** After `$m[$k] = $v`, `$m[$k]` is `$v`. */
  lemma {:induction false} PutGet<K, V>(m: OrderedMap<K, V>, k: K, v: V)
    ensures Get(Put(m, k, v), k) == Some(v)
  {
    if m != [] && m[0].0 != k {
      PutGet(m[1..], k, v);
    }
  }

  /** `$m[$k] = $v` leaves every other key as it was. */
  lemma {:induction false} PutGetOther<K, V>(m: OrderedMap<K, V>, k: K, v: V, k': K)
    requires k' != k
    ensures Get(Put(m, k, v), k') == Get(m, k')
  {
    if m != [] && m[0].0 != k && m[0].0 != k' {
      PutGetOther(m[1..], k, v, k');
    }
  }

  /** An existing key keeps its position; a new key goes last. */
  lemma {:induction false} PutKeys<K, V>(m: OrderedMap<K, V>, k: K, v: V)
    ensures Keys(Put(m, k, v)) == if k in Keys(m) then Keys(m) else Keys(m) + [k]
  {
    if m != [] && m[0].0 != k {
      PutKeys(m[1..], k, v);
      assert Keys(m) == [m[0].0] + Keys(m[1..]);
    }
  }

  /** Keys stay distinct. */
  lemma PutUnique<K, V>(m: OrderedMap<K, V>, k: K, v: V)
    requires UniqueKeys(m)
    ensures UniqueKeys(Put(m, k, v))
  {
    var p := Put(m, k, v);
    PutKeys(m, k, v);
    var ks, kp := Keys(m), Keys(p);
    forall i, j | 0 <= i < j < |p| ensures p[i].0 != p[j].0 {
      assert kp[i] == p[i].0 && kp[j] == p[j].0;
      if j < |m| {
        assert ks[i] == m[i].0 && ks[j] == m[j].0;
      }
    }
  }
}
