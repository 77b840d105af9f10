/// `array.sort((a, b) => a.key.localeCompare(b.key))` on a list of entries
/// whose keys are distinct: an insertion sort by key. The keys the
/// application sorts are ISO date prefixes (`YYYY-MM-DD`, `YYYY-MM`), for
/// which `localeCompare` orders like the character order `JsString.Less`.
module KeySort {
  import opened JsString
  import OrderedMap

  predicate StrictlySorted<V>(s: seq<(string, V)>) {
    forall i, j :: 0 <= i < j < |s| ==> Less(s[i].0, s[j].0)
  }

  /** Places `x` before the first entry whose key is larger. */
  function Insert<V>(x: (string, V), s: seq<(string, V)>): (r: seq<(string, V)>)
    ensures |r| == |s| + 1
    ensures multiset(r) == multiset(s) + multiset{x}
    decreases |s|
  {
    if |s| == 0 then [x]
    else if Less(x.0, s[0].0) then [x] + s
    else
      var t := Insert(x, s[1..]);
      assert s == [s[0]] + s[1..];
      [s[0]] + t
  }

  function SortByKey<V>(s: seq<(string, V)>): (r: seq<(string, V)>)
    ensures |r| == |s|
    ensures multiset(r) == multiset(s)
    decreases |s|
  {
    if |s| == 0 then []
    else
      var t := SortByKey(s[1..]);
      assert s == [s[0]] + s[1..];
      Insert(s[0], t)
  }

  lemma {:induction false} InsertSorted<V>(x: (string, V), s: seq<(string, V)>)
    requires StrictlySorted(s)
    requires forall i :: 0 <= i < |s| ==> s[i].0 != x.0
    ensures StrictlySorted(Insert(x, s))
    decreases |s|
  {
    if |s| > 0 && !Less(x.0, s[0].0) {
      LessTotal(x.0, s[0].0);
      InsertSorted(x, s[1..]);
      var t := Insert(x, s[1..]);
      var r := [s[0]] + t;
      forall j | 0 < j < |r|
        ensures Less(s[0].0, r[j].0)
      {
        assert r[j] in multiset(t);
        if r[j] != x {
          assert r[j] in multiset(s[1..]);
          var k :| 0 <= k < |s[1..]| && s[1..][k] == r[j];
          assert s[k + 1] == r[j];
        }
      }
      forall i, j | 0 <= i < j < |r|
        ensures Less(r[i].0, r[j].0)
      {
        if i > 0 {
          assert r[i] == t[i - 1] && r[j] == t[j - 1];
        }
      }
    } else if |s| > 0 {
      var r := [x] + s;
      forall i, j | 0 <= i < j < |r|
        ensures Less(r[i].0, r[j].0)
      {
        if i == 0 && j > 1 {
          LessTransitive(x.0, s[0].0, s[j - 1].0);
        }
      }
    }
  }

  /** The sorted list is ascending by key when the keys are distinct */
  lemma {:induction false} SortByKeySorted<V>(s: seq<(string, V)>)
    requires OrderedMap.DistinctKeys(s)
    ensures StrictlySorted(SortByKey(s))
    decreases |s|
  {
    if |s| > 0 {
      assert OrderedMap.DistinctKeys(s[1..]) by {
        forall i, j | 0 <= i < j < |s[1..]|
          ensures s[1..][i].0 != s[1..][j].0
        {
          assert s[1..][i] == s[i + 1] && s[1..][j] == s[j + 1];
        }
      }
      SortByKeySorted(s[1..]);
      var t := SortByKey(s[1..]);
      forall i | 0 <= i < |t|
        ensures t[i].0 != s[0].0
      {
        assert t[i] in multiset(t);
        assert t[i] in multiset(s[1..]);
        var k :| 0 <= k < |s[1..]| && s[1..][k] == t[i];
        assert s[k + 1] == t[i];
      }
      InsertSorted(s[0], t);
    }
  }

  lemma {:induction false} SumByInsert<V>(x: (string, V), s: seq<(string, V)>, f: V -> int)
    ensures OrderedMap.SumBy(Insert(x, s), f) == f(x.1) + OrderedMap.SumBy(s, f)
    decreases |s|
  {
    if |s| > 0 && !Less(x.0, s[0].0) {
      SumByInsert(x, s[1..], f);
      assert Insert(x, s)[1..] == Insert(x, s[1..]);
    }
  }

  /** Sorting keeps every entry, so it keeps every total. */
  lemma {:induction false} SumBySort<V>(s: seq<(string, V)>, f: V -> int)
    ensures OrderedMap.SumBy(SortByKey(s), f) == OrderedMap.SumBy(s, f)
    decreases |s|
  {
    if |s| > 0 {
      SumBySort(s[1..], f);
      SumByInsert(s[0], SortByKey(s[1..]), f);
    }
  }
}
