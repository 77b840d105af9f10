/// The bookmark store (src/contexts/BookmarkContext.tsx): a list of
/// bookmarks keyed by lesson path, with `addBookmark`, `removeBookmark`,
/// `isBookmarked` and `toggleBookmark`. Only the local list is modelled;
/// `now` is a parameter.
module Bookmarks {
  import opened Grouping

  datatype Bookmark = Bookmark(path: string, title: string, category: string, addedAt: string)

  function PathOf(b: Bookmark): string {
    b.path
  }

  /** `bookmarks.some(b => b.path === path)`. */
  predicate IsBookmarked(bs: seq<Bookmark>, path: string)
    ensures IsBookmarked(bs, path) <==> path in Paths(bs)
  {
    exists i :: 0 <= i < |bs| && bs[i].path == path
  }

  /** No path is bookmarked twice. */
  predicate UniquePaths(bs: seq<Bookmark>) {
    forall i, j :: 0 <= i < j < |bs| ==> bs[i].path != bs[j].path
  }

  function Add(bs: seq<Bookmark>, path: string, title: string, category: string, now: string): seq<Bookmark> {
    if IsBookmarked(bs, path) then bs else bs + [Bookmark(path, title, category, now)]
  }

  function Remove(bs: seq<Bookmark>, path: string): seq<Bookmark> {
    Without(bs, PathOf, path)
  }

  function Toggle(bs: seq<Bookmark>, path: string, title: string, category: string, now: string): seq<Bookmark> {
    if IsBookmarked(bs, path) then Remove(bs, path) else Add(bs, path, title, category, now)
  }

  /** Adding is a no-op on a bookmarked path and otherwise appends one
      bookmark for it. */
  lemma AddEffect(bs: seq<Bookmark>, path: string, title: string, category: string, now: string)
    ensures IsBookmarked(Add(bs, path, title, category, now), path)
    ensures IsBookmarked(bs, path) ==> Add(bs, path, title, category, now) == bs
    ensures !IsBookmarked(bs, path) ==> Add(bs, path, title, category, now) == bs + [Bookmark(path, title, category, now)]
  {
    if !IsBookmarked(bs, path) {
      assert Add(bs, path, title, category, now)[|bs|].path == path;
    }
  }

  /** Removing drops every bookmark of the path, keeps every other one,
      and keeps their relative order. */
  lemma RemoveEffect(bs: seq<Bookmark>, path: string)
    ensures !IsBookmarked(Remove(bs, path), path)
    ensures forall b :: b in Remove(bs, path) <==> b in bs && b.path != path
    ensures forall a, c :: bs == a + c ==> Remove(bs, path) == Remove(a, path) + Remove(c, path)
  {
    forall b
      ensures b in Remove(bs, path) <==> b in bs && b.path != path
    {
      WithoutMembers(bs, PathOf, path, b);
    }
    forall a, c | bs == a + c
      ensures Remove(bs, path) == Remove(a, path) + Remove(c, path)
    {
      WithoutAppend(a, c, PathOf, path);
    }
  }

  /** Toggling flips `isBookmarked` for the path. */
  lemma ToggleFlips(bs: seq<Bookmark>, path: string, title: string, category: string, now: string)
    ensures IsBookmarked(Toggle(bs, path, title, category, now), path) == !IsBookmarked(bs, path)
  {
    if IsBookmarked(bs, path) {
      RemoveEffect(bs, path);
    } else {
      AddEffect(bs, path, title, category, now);
    }
  }

  function Paths(bs: seq<Bookmark>): set<string> {
    set b | b in bs :: b.path
  }

  /** Removing a bookmarked path and adding it back gives the same set of
      paths. */
  lemma RemoveThenAddPaths(bs: seq<Bookmark>, path: string, title: string, category: string, now: string)
    requires IsBookmarked(bs, path)
    ensures Paths(Add(Remove(bs, path), path, title, category, now)) == Paths(bs)
  {
    var once := Remove(bs, path);
    RemoveEffect(bs, path);
    var added := Bookmark(path, title, category, now);
    var twice := once + [added];
    assert Add(once, path, title, category, now) == twice;
    forall q | q in Paths(bs)
      ensures q in Paths(twice)
    {
      var b :| b in bs && b.path == q;
      if q != path {
        assert b in once;
      } else {
        assert added in twice;
      }
    }
    forall q | q in Paths(twice)
      ensures q in Paths(bs)
    {
      var b :| b in twice && b.path == q;
      if b != added {
        assert b in once;
      } else {
        var i :| 0 <= i < |bs| && bs[i].path == path;
        assert bs[i] in bs;
      }
    }
  }

  /** Adding an unbookmarked path and removing it again gives the list
      back. */
  lemma AddThenRemove(bs: seq<Bookmark>, path: string, title: string, category: string, now: string)
    requires !IsBookmarked(bs, path)
    ensures Remove(Add(bs, path, title, category, now), path) == bs
  {
    var added := Bookmark(path, title, category, now);
    WithoutAppend(bs, [added], PathOf, path);
    WithoutNothing(bs, PathOf, path);
    assert [added][..0] == [];
    assert Remove([added], path) == [];
  }

  /** Toggling twice restores the set of bookmarked paths; starting from an
      unbookmarked path it restores the list itself. */
  lemma ToggleTwice(bs: seq<Bookmark>, path: string, title: string, category: string, now: string)
    ensures Paths(Toggle(Toggle(bs, path, title, category, now), path, title, category, now)) == Paths(bs)
    ensures !IsBookmarked(bs, path) ==>
              Toggle(Toggle(bs, path, title, category, now), path, title, category, now) == bs
  {
    ToggleFlips(bs, path, title, category, now);
    if IsBookmarked(bs, path) {
      RemoveThenAddPaths(bs, path, title, category, now);
    } else {
      AddThenRemove(bs, path, title, category, now);
    }
  }

  /** Adding, removing and toggling keep paths unique. */
  lemma UniqueKept(bs: seq<Bookmark>, path: string, title: string, category: string, now: string)
    requires UniquePaths(bs)
    ensures UniquePaths(Add(bs, path, title, category, now))
    ensures UniquePaths(Remove(bs, path))
    ensures UniquePaths(Toggle(bs, path, title, category, now))
  {
    var r := Remove(bs, path);
    forall i, j | 0 <= i < j < |r|
      ensures r[i].path != r[j].path
    {
      RemoveSubsequence(bs, path);
    }
  }

  /** The filter never moves two bookmarks past each other, so a pair it
      keeps was a pair of the original list. */
  lemma {:induction false} RemoveSubsequence(bs: seq<Bookmark>, path: string)
    requires UniquePaths(bs)
    ensures UniquePaths(Remove(bs, path))
    decreases |bs|
  {
    if |bs| > 0 {
      var ys := bs[..|bs| - 1];
      var x := bs[|bs| - 1];
      assert UniquePaths(ys);
      RemoveSubsequence(ys, path);
      var ry := Remove(ys, path);
      forall b | b in ry
        ensures b.path != x.path
      {
        WithoutMembers(ys, PathOf, path, b);
        var k :| 0 <= k < |ys| && ys[k] == b;
      }
    }
  }

  /** The provider's `bookmarks` state. */
  class BookmarkStore {
    var bookmarks: seq<Bookmark>

    constructor(loaded: seq<Bookmark>)
      ensures bookmarks == loaded
    {
      bookmarks := loaded;
    }

    method AddBookmark(path: string, title: string, category: string, now: string)
      modifies this
      ensures bookmarks == Add(old(bookmarks), path, title, category, now)
    {
      if IsBookmarked(bookmarks, path) {
        return;
      }
      bookmarks := bookmarks + [Bookmark(path, title, category, now)];
    }

    method RemoveBookmark(path: string)
      modifies this
      ensures bookmarks == Remove(old(bookmarks), path)
    {
      bookmarks := Remove(bookmarks, path);
    }

    method ToggleBookmark(path: string, title: string, category: string, now: string)
      modifies this
      ensures bookmarks == Toggle(old(bookmarks), path, title, category, now)
    {
      if IsBookmarked(bookmarks, path) {
        RemoveBookmark(path);
      } else {
        AddBookmark(path, title, category, now);
      }
    }
  }
}
