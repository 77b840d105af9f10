/// A JavaScript `Map` as the application uses it: an association list in
/// insertion order, where `set` on a present key updates the value in place
/// and `set` on a new key appends it.
module OrderedMap {
  import opened Wrappers

  type Assoc<K, V> = seq<(K, V)>

  function Keys<K(==), V>(m: Assoc<K, V>): (ks: seq<K>)
    ensures |ks| == |m|
    ensures forall i :: 0 <= i < |m| ==> ks[i] == m[i].0
  {
    seq(|m|, i requires 0 <= i < |m| => m[i].0)
  }

  predicate HasKey<K(==), V>(m: Assoc<K, V>, k: K) {
    exists i :: 0 <= i < |m| && m[i].0 == k
  }

  predicate DistinctKeys<K(==), V>(m: Assoc<K, V>) {
    forall i, j :: 0 <= i < j < |m| ==> m[i].0 != m[j].0
  }

  /** `map.get(k)`. */
  function Get<K(==), V>(m: Assoc<K, V>, k: K): (r: Option<V>)
    ensures r.None? <==> !HasKey(m, k)
    ensures r.Some? ==> exists i :: 0 <= i < |m| && m[i] == (k, r.value)
  {
    if |m| == 0 then None
    else if m[0].0 == k then Some(m[0].1)
    else
      var r := Get(m[1..], k);
      assert forall i :: 0 < i < |m| ==> m[i] == m[1..][i - 1];
      r
  }

  /** Past a first entry of another key, the key is present iff it is
      present in the rest. */
  lemma HasKeyTail<K, V>(m: Assoc<K, V>, k: K)
    requires |m| > 0 && m[0].0 != k
    ensures HasKey(m, k) <==> HasKey(m[1..], k)
  {
    if HasKey(m, k) {
      var i :| 0 <= i < |m| && m[i].0 == k;
      assert m[1..][i - 1].0 == k;
    }
    if HasKey(m[1..], k) {
      var i :| 0 <= i < |m[1..]| && m[1..][i].0 == k;
      assert m[i + 1].0 == k;
    }
  }

  lemma KeysCons<K, V>(e: (K, V), m: Assoc<K, V>)
    ensures Keys([e] + m) == [e.0] + Keys(m)
  {
  }

  /** `map.set(k, v)`. */
  function Put<K(==), V>(m: Assoc<K, V>, k: K, v: V): (r: Assoc<K, V>)
    ensures HasKey(m, k) ==> Keys(r) == Keys(m)
    ensures !HasKey(m, k) ==> Keys(r) == Keys(m) + [k]
  {
    if |m| == 0 then [(k, v)]
    else if m[0].0 == k then
      assert Keys([(k, v)] + m[1..]) == Keys(m);
      [(k, v)] + m[1..]
    else
      var t := Put(m[1..], k, v);
      HasKeyTail(m, k);
      KeysCons(m[0], t);
      KeysCons(m[0], m[1..]);
      assert [m[0]] + m[1..] == m;
      [m[0]] + t
  }

  /** `set` on a new key appends the entry. */
  lemma {:induction false} PutNew<K, V>(m: Assoc<K, V>, k: K, v: V)
    requires !HasKey(m, k)
    ensures Put(m, k, v) == m + [(k, v)]
  {
    if |m| > 0 {
      forall i | 0 <= i < |m[1..]|
        ensures m[1..][i].0 != k
      {
        assert m[1..][i] == m[i + 1];
      }
      PutNew(m[1..], k, v);
      assert m == [m[0]] + m[1..];
    }
  }

  /** After `set(k, v)`, `get(k)` is `v`. */
  lemma {:induction false} GetPutSame<K, V>(m: Assoc<K, V>, k: K, v: V)
    ensures Get(Put(m, k, v), k) == Some(v)
  {
    if |m| > 0 && m[0].0 != k {
      GetPutSame(m[1..], k, v);
      assert Put(m, k, v)[1..] == Put(m[1..], k, v);
    }
  }

  /** `set(k, v)` leaves every other key's value alone. */
  lemma {:induction false} GetPutOther<K, V>(m: Assoc<K, V>, k: K, v: V, k': K)
    requires k' != k
    ensures Get(Put(m, k, v), k') == Get(m, k')
  {
    if |m| > 0 && m[0].0 != k && m[0].0 != k' {
      GetPutOther(m[1..], k, v, k');
      assert Put(m, k, v)[1..] == Put(m[1..], k, v);
    } else if |m| > 0 && m[0].0 == k {
      assert Put(m, k, v)[1..] == m[1..];
    }
  }

  /** A map never holds a key twice. */
  lemma PutDistinct<K, V>(m: Assoc<K, V>, k: K, v: V)
    requires DistinctKeys(m)
    ensures DistinctKeys(Put(m, k, v))
  {
    var r := Put(m, k, v);
    forall i, j | 0 <= i < j < |r|
      ensures r[i].0 != r[j].0
    {
      assert Keys(r)[i] == r[i].0 && Keys(r)[j] == r[j].0;
      if j < |m| {
        assert Keys(m)[i] == m[i].0 && Keys(m)[j] == m[j].0;
      } else {
        assert Keys(m)[i] == m[i].0;
      }
    }
  }

  /** With distinct keys, `get` finds each entry's own value. */
  lemma {:induction false} GetAt<K, V>(m: Assoc<K, V>, i: nat)
    requires DistinctKeys(m) && i < |m|
    ensures Get(m, m[i].0) == Some(m[i].1)
    decreases i
  {
    if i > 0 {
      assert DistinctKeys(m[1..]) by {
        forall a, b | 0 <= a < b < |m[1..]|
          ensures m[1..][a].0 != m[1..][b].0
        {
          assert m[1..][a] == m[a + 1] && m[1..][b] == m[b + 1];
        }
      }
      GetAt(m[1..], i - 1);
      assert m[1..][i - 1] == m[i];
    }
  }

  /** The sum of `f` over the values. */
  function SumBy<K, V>(m: Assoc<K, V>, f: V -> int): int
    decreases |m|
  {
    if |m| == 0 then 0 else f(m[0].1) + SumBy(m[1..], f)
  }

  function ValueOr<V>(o: Option<V>, f: V -> int): int {
    if o.Some? then f(o.value) else 0
  }

  /** `set(k, v)` swaps the old value's share of a sum for the new one's. */
  lemma {:induction false} SumByPut<K, V>(m: Assoc<K, V>, k: K, v: V, f: V -> int)
    ensures SumBy(Put(m, k, v), f) == SumBy(m, f) - ValueOr(Get(m, k), f) + f(v)
    decreases |m|
  {
    if |m| > 0 && m[0].0 != k {
      SumByPut(m[1..], k, v, f);
      assert Put(m, k, v)[1..] == Put(m[1..], k, v);
    } else if |m| > 0 {
      assert Put(m, k, v)[1..] == m[1..];
    }
  }
}
