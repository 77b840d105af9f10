/// Sizes of the `Set`s the application builds from lists
/// (`new Set(xs.map(f)).size`).
module FiniteSets {

  /** A list has at most as many distinct elements as entries. */
  lemma {:induction false} ElementsAtMost<A>(xs: seq<A>)
    ensures |set x | x in xs| <= |xs|
    decreases |xs|
  {
    if |xs| > 0 {
      var ys := xs[..|xs| - 1];
      ElementsAtMost(ys);
      assert (set x | x in xs) == (set x | x in ys) + {xs[|xs| - 1]} by {
        assert xs == ys + [xs[|xs| - 1]];
      }
    }
  }

  /** Mapping a set never makes it larger. */
  lemma {:induction false} ImageAtMost<A, B>(s: set<A>, f: A -> B)
    ensures |set x | x in s :: f(x)| <= |s|
    decreases |s|
  {
    if s != {} {
      var x :| x in s;
      var s' := s - {x};
      ImageAtMost(s', f);
      assert (set y | y in s :: f(y)) == (set y | y in s' :: f(y)) + {f(x)};
    }
  }

  /** A map that is one-to-one on a set keeps its size. */
  lemma {:induction false} InjectiveImage<A, B>(s: set<A>, f: A -> B)
    requires forall x, y :: x in s && y in s && f(x) == f(y) ==> x == y
    ensures |set x | x in s :: f(x)| == |s|
    decreases |s|
  {
    if s != {} {
      var x :| x in s;
      var s' := s - {x};
      InjectiveImage(s', f);
      assert (set y | y in s :: f(y)) == (set y | y in s' :: f(y)) + {f(x)};
    }
  }

  /** `new Set(xs.map(f))`. */
  function Image<A(==), B>(xs: seq<A>, f: A -> B): set<B> {
    set x | x in xs :: f(x)
  }

  /** `new Set(xs.map(f)).size` is at most `xs.length`. */
  lemma {:induction false} MappedAtMost<A, B>(xs: seq<A>, f: A -> B)
    ensures |Image(xs, f)| <= |xs|
    decreases |xs|
  {
    if |xs| > 0 {
      var ys := xs[..|xs| - 1];
      var z := xs[|xs| - 1];
      MappedAtMost(ys, f);
      assert Image(xs, f) == Image(ys, f) + {f(z)} by {
        assert xs == ys + [z];
      }
    }
  }

  /** When `h` renders the images of `f` through a `g` that tells them
      apart, `h` has as many distinct values as `f`. */
  lemma {:induction false} ComposeImage<A, B, C>(xs: seq<A>, f: A -> B, g: B -> C, h: A -> C)
    requires forall x :: x in xs ==> h(x) == g(f(x))
    requires forall x, y :: x in xs && y in xs && h(x) == h(y) ==> f(x) == f(y)
    ensures |Image(xs, h)| == |Image(xs, f)|
    decreases |xs|
  {
    if |xs| > 0 {
      var ys := xs[..|xs| - 1];
      var z := xs[|xs| - 1];
      assert xs == ys + [z];
      ComposeImage(ys, f, g, h);
      var fs := Image(ys, f);
      var hs := Image(ys, h);
      assert Image(xs, f) == fs + {f(z)};
      assert Image(xs, h) == hs + {h(z)};
      if f(z) in fs {
        var w :| w in ys && f(w) == f(z);
        assert h(z) == h(w);
        assert h(w) in hs;
        assert Image(xs, h) == hs;
        assert Image(xs, f) == fs;
      } else {
        forall w | w in ys
          ensures h(w) != h(z)
        {
          assert f(w) in fs;
        }
        assert h(z) !in hs;
        assert |Image(xs, h)| == |hs| + 1;
        assert |Image(xs, f)| == |fs| + 1;
      }
    }
  }

  /** A list without repeated elements has as many distinct elements as
      entries. */
  lemma {:induction false} DistinctElements<A>(xs: seq<A>)
    requires forall i, j :: 0 <= i < j < |xs| ==> xs[i] != xs[j]
    ensures |set x | x in xs| == |xs|
    decreases |xs|
  {
    if |xs| > 0 {
      var ys := xs[..|xs| - 1];
      var z := xs[|xs| - 1];
      assert xs == ys + [z];
      DistinctElements(ys);
      assert z !in ys by {
        forall i | 0 <= i < |ys|
          ensures ys[i] != z
        {
          assert ys[i] == xs[i];
        }
      }
      assert (set x | x in xs) == (set x | x in ys) + {z};
    }
  }
}
