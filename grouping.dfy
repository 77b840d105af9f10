/// The "group into a Map in a `forEach` loop" pattern the statistics use:
///
///     xs.forEach(x => { const cur = m.get(key(x)); m.set(key(x), bump(cur, x)) })
///
/// `GroupFold` is that loop as a function, `GroupInto` is the loop itself,
/// and `GroupFoldGet` says what each bucket ends up holding: the fold of
/// `bump` over exactly the elements with that key, in their original order.
module Grouping {
  import opened Wrappers
  import opened OrderedMap

  /** The elements of `xs` whose key is `k`, in order. */
  function Filter<T>(xs: seq<T>, key: T -> string, k: string): (r: seq<T>)
    ensures |r| <= |xs|
    ensures forall i :: 0 <= i < |r| ==> key(r[i]) == k
    decreases |xs|
  {
    if |xs| == 0 then []
    else
      var rest := Filter(xs[..|xs| - 1], key, k);
      if key(xs[|xs| - 1]) == k then rest + [xs[|xs| - 1]] else rest
  }

  lemma {:induction false} FilterEmpty<T>(xs: seq<T>, key: T -> string, k: string)
    ensures Filter(xs, key, k) == [] <==> forall i :: 0 <= i < |xs| ==> key(xs[i]) != k
    decreases |xs|
  {
    if |xs| > 0 {
      FilterEmpty(xs[..|xs| - 1], key, k);
      assert forall i :: 0 <= i < |xs| - 1 ==> xs[..|xs| - 1][i] == xs[i];
    }
  }

  /** `bump` folded over a sequence, starting from "no entry yet". */
  function FoldAcc<T, A>(xs: seq<T>, bump: (Option<A>, T) -> A): Option<A>
    decreases |xs|
  {
    if |xs| == 0 then None else Some(bump(FoldAcc(xs[..|xs| - 1], bump), xs[|xs| - 1]))
  }

  /** Exactly the elements of key `k` are kept. */
  lemma {:induction false} FilterMembers<T>(xs: seq<T>, key: T -> string, k: string, x: T)
    ensures x in Filter(xs, key, k) <==> x in xs && key(x) == k
    decreases |xs|
  {
    if |xs| > 0 {
      var ys := xs[..|xs| - 1];
      assert xs == ys + [xs[|xs| - 1]];
      FilterMembers(ys, key, k, x);
    }
  }

  /** The Map the loop has built after visiting all of `xs`. */
  function GroupFold<T, A>(xs: seq<T>, key: T -> string, bump: (Option<A>, T) -> A): Assoc<string, A>
    decreases |xs|
  {
    if |xs| == 0 then []
    else
      var m := GroupFold(xs[..|xs| - 1], key, bump);
      var x := xs[|xs| - 1];
      Put(m, key(x), bump(Get(m, key(x)), x))
  }

  /** Each bucket holds the fold over exactly the elements of its key, and
      a key has a bucket iff some element carries it. */
  lemma {:induction false} GroupFoldGet<T, A>(xs: seq<T>, key: T -> string, bump: (Option<A>, T) -> A, k: string)
    ensures Get(GroupFold(xs, key, bump), k) == FoldAcc(Filter(xs, key, k), bump)
    decreases |xs|
  {
    if |xs| > 0 {
      var ys := xs[..|xs| - 1];
      var x := xs[|xs| - 1];
      var m := GroupFold(ys, key, bump);
      GroupFoldGet(ys, key, bump, k);
      GroupFoldGet(ys, key, bump, key(x));
      if key(x) == k {
        GetPutSame(m, k, bump(Get(m, k), x));
        var f := Filter(xs, key, k);
        assert f[..|f| - 1] == Filter(ys, key, k);
      } else {
        GetPutOther(m, key(x), bump(Get(m, key(x)), x), k);
      }
    }
  }

  lemma {:induction false} GroupFoldDistinct<T, A>(xs: seq<T>, key: T -> string, bump: (Option<A>, T) -> A)
    ensures DistinctKeys(GroupFold(xs, key, bump))
    decreases |xs|
  {
    if |xs| > 0 {
      var ys := xs[..|xs| - 1];
      var x := xs[|xs| - 1];
      GroupFoldDistinct(ys, key, bump);
      var m := GroupFold(ys, key, bump);
      PutDistinct(m, key(x), bump(Get(m, key(x)), x));
    }
  }

  /** The buckets are keyed by exactly the keys that occur. */
  lemma GroupFoldHasKey<T, A>(xs: seq<T>, key: T -> string, bump: (Option<A>, T) -> A, k: string)
    ensures HasKey(GroupFold(xs, key, bump), k) <==> exists i :: 0 <= i < |xs| && key(xs[i]) == k
  {
    GroupFoldGet(xs, key, bump, k);
    FilterEmpty(xs, key, k);
  }

  /** The forEach loop. */
  method GroupInto<T, A>(xs: seq<T>, key: T -> string, bump: (Option<A>, T) -> A)
      returns (m: Assoc<string, A>)
    ensures m == GroupFold(xs, key, bump)
  {
    m := [];
    var i := 0;
    while i < |xs|
      invariant 0 <= i <= |xs|
      invariant m == GroupFold(xs[..i], key, bump)
    {
      assert xs[..i + 1][..i] == xs[..i];
      var k := key(xs[i]);
      m := Put(m, k, bump(Get(m, k), xs[i]));
      i := i + 1;
    }
    assert xs[..i] == xs;
  }

  /** `xs.map(f)`, built from the end as a `push` loop builds it. */
  function MapSeq<T, B>(xs: seq<T>, f: T -> B): (r: seq<B>)
    ensures |r| == |xs|
    ensures forall i :: 0 <= i < |xs| ==> r[i] == f(xs[i])
    decreases |xs|
  {
    if |xs| == 0 then [] else MapSeq(xs[..|xs| - 1], f) + [f(xs[|xs| - 1])]
  }

  /** The loop that maps each element in turn and pushes the result. */
  method MapInto<T, B>(xs: seq<T>, f: T -> B) returns (ys: seq<B>)
    ensures ys == MapSeq(xs, f)
  {
    ys := [];
    var i := 0;
    while i < |xs|
      invariant 0 <= i <= |xs|
      invariant ys == MapSeq(xs[..i], f)
    {
      assert xs[..i + 1][..i] == xs[..i];
      ys := ys + [f(xs[i])];
      i := i + 1;
    }
    assert xs[..i] == xs;
  }

  /** `xs.filter(x => key(x) !== k)`: no element with key `k` is left, the
      others all are. */
  function Without<T>(xs: seq<T>, key: T -> string, k: string): (r: seq<T>)
    ensures |r| <= |xs|
    ensures forall i :: 0 <= i < |r| ==> key(r[i]) != k
    decreases |xs|
  {
    if |xs| == 0 then []
    else
      var rest := Without(xs[..|xs| - 1], key, k);
      if key(xs[|xs| - 1]) != k then rest + [xs[|xs| - 1]] else rest
  }

  /** Exactly the elements with another key survive. */
  lemma {:induction false} WithoutMembers<T>(xs: seq<T>, key: T -> string, k: string, x: T)
    ensures x in Without(xs, key, k) <==> x in xs && key(x) != k
    decreases |xs|
  {
    if |xs| > 0 {
      var ys := xs[..|xs| - 1];
      assert xs == ys + [xs[|xs| - 1]];
      WithoutMembers(ys, key, k, x);
    }
  }

  /** The filter keeps the relative order: it works piecewise. */
  lemma {:induction false} WithoutAppend<T>(xs: seq<T>, ys: seq<T>, key: T -> string, k: string)
    ensures Without(xs + ys, key, k) == Without(xs, key, k) + Without(ys, key, k)
    decreases |ys|
  {
    if |ys| > 0 {
      var zs := xs + ys;
      assert zs[..|zs| - 1] == xs + ys[..|ys| - 1];
      WithoutAppend(xs, ys[..|ys| - 1], key, k);
    } else {
      assert xs + ys == xs;
    }
  }

  /** With no element of key `k` the filter changes nothing. */
  lemma {:induction false} WithoutNothing<T>(xs: seq<T>, key: T -> string, k: string)
    requires forall i :: 0 <= i < |xs| ==> key(xs[i]) != k
    ensures Without(xs, key, k) == xs
    decreases |xs|
  {
    if |xs| > 0 {
      WithoutNothing(xs[..|xs| - 1], key, k);
      assert xs == xs[..|xs| - 1] + [xs[|xs| - 1]];
    }
  }
}
