/// The notes store (src/contexts/NoteContext.tsx): one note per lesson
/// path, read with `getNote`, written with `saveNote` (blank content
/// deletes) and removed with `deleteNote`. Only the local list update is
/// modelled; `now` is a parameter.
module Notes {
  import opened JsString
  import opened Grouping

  datatype Note = Note(path: string, content: string, updatedAt: string)

  function PathOf(n: Note): string {
    n.path
  }

  /** `notes.find(n => n.path === path)?.content || ''`. */
  function GetNote(ns: seq<Note>, path: string): (c: string)
    ensures (forall i :: 0 <= i < |ns| ==> ns[i].path != path) ==> c == ""
    ensures (exists i :: 0 <= i < |ns| && ns[i].path == path) ==>
              exists i :: 0 <= i < |ns| && ns[i].path == path && c == ns[i].content
                && forall j :: 0 <= j < i ==> ns[j].path != path
    decreases |ns|
  {
    if |ns| == 0 then ""
    else if ns[0].path == path then ns[0].content
    else
      var c := GetNote(ns[1..], path);
      assert forall i :: 0 <= i < |ns| - 1 ==> ns[1..][i] == ns[i + 1];
      c
  }

  predicate HasNote(ns: seq<Note>, path: string) {
    exists i :: 0 <= i < |ns| && ns[i].path == path
  }

  /** The `map` branch of `saveNote`, one note. */
  function Rewrite(n: Note, path: string, content: string, now: string): Note {
    if n.path == path then n.(content := content, updatedAt := now) else n
  }

  /** `deleteNote`: keep the notes of other paths. */
  function DeleteNote(ns: seq<Note>, path: string): seq<Note> {
    Without(ns, PathOf, path)
  }

  /** The list `saveNote` leaves. */
  function SaveNote(ns: seq<Note>, path: string, content: string, now: string): (r: seq<Note>)
    ensures !IsBlank(content) && HasNote(ns, path) ==>
              |r| == |ns| && forall i :: 0 <= i < |ns| ==> r[i] == Rewrite(ns[i], path, content, now)
    ensures !IsBlank(content) && !HasNote(ns, path) ==> r == ns + [Note(path, content, now)]
    ensures IsBlank(content) ==> r == DeleteNote(ns, path)
  {
    if IsBlank(content) then DeleteNote(ns, path)
    else if HasNote(ns, path) then seq(|ns|, i requires 0 <= i < |ns| => Rewrite(ns[i], path, content, now))
    else ns + [Note(path, content, now)]
  }

  /** After `deleteNote(p)` no note of `p` is left, the others keep their
      relative order, and `getNote(p)` is empty. */
  lemma DeleteNoteEffect(ns: seq<Note>, path: string)
    ensures !HasNote(DeleteNote(ns, path), path)
    ensures GetNote(DeleteNote(ns, path), path) == ""
    ensures forall n :: n in DeleteNote(ns, path) <==> n in ns && n.path != path
    ensures forall a, b :: ns == a + b ==> DeleteNote(ns, path) == DeleteNote(a, path) + DeleteNote(b, path)
  {
    forall n
      ensures n in DeleteNote(ns, path) <==> n in ns && n.path != path
    {
      WithoutMembers(ns, PathOf, path, n);
    }
    forall a, b | ns == a + b
      ensures DeleteNote(ns, path) == DeleteNote(a, path) + DeleteNote(b, path)
    {
      WithoutAppend(a, b, PathOf, path);
    }
  }

  /** Saving non-blank text makes it what `getNote` reads back. */
  lemma GetAfterSave(ns: seq<Note>, path: string, content: string, now: string)
    requires !IsBlank(content)
    ensures GetNote(SaveNote(ns, path, content, now), path) == content
  {
    var r := SaveNote(ns, path, content, now);
    if !HasNote(ns, path) {
      assert r[|ns|].path == path;
    }
    assert HasNote(r, path);
  }

  /** Saving blank text deletes the note of that path and nothing else. */
  lemma BlankSaveDeletes(ns: seq<Note>, path: string, content: string, now: string)
    requires IsBlank(content)
    ensures !HasNote(SaveNote(ns, path, content, now), path)
    ensures GetNote(SaveNote(ns, path, content, now), path) == ""
  {
    DeleteNoteEffect(ns, path);
  }

  /** Reading a list with one note appended. */
  lemma {:induction false} GetAppend(ns: seq<Note>, n: Note, q: string)
    ensures GetNote(ns + [n], q) == if HasNote(ns, q) then GetNote(ns, q) else if n.path == q then n.content else ""
    decreases |ns|
  {
    if |ns| > 0 {
      assert (ns + [n])[1..] == ns[1..] + [n];
      GetAppend(ns[1..], n, q);
      if ns[0].path != q {
        assert HasNote(ns, q) <==> HasNote(ns[1..], q) by {
          if HasNote(ns, q) {
            var i :| 0 <= i < |ns| && ns[i].path == q;
            assert ns[1..][i - 1] == ns[i];
          }
          if HasNote(ns[1..], q) {
            var i :| 0 <= i < |ns[1..]| && ns[1..][i].path == q;
            assert ns[i + 1] == ns[1..][i];
          }
        }
      }
    } else {
      assert [] + [n] == [n];
    }
  }

  lemma {:induction false} DeleteOtherGet(ns: seq<Note>, path: string, other: string)
    requires other != path
    ensures GetNote(DeleteNote(ns, path), other) == GetNote(ns, other)
    decreases |ns|
  {
    if |ns| > 0 {
      var ys := ns[..|ns| - 1];
      var x := ns[|ns| - 1];
      assert ns == ys + [x];
      DeleteOtherGet(ys, path, other);
      GetAppend(ys, x, other);
      if x.path != path {
        var d := DeleteNote(ys, path);
        GetAppend(d, x, other);
        assert HasNote(d, other) <==> HasNote(ys, other) by {
          if HasNote(d, other) {
            var i :| 0 <= i < |d| && d[i].path == other;
            WithoutMembers(ys, PathOf, path, d[i]);
          }
          if HasNote(ys, other) {
            var i :| 0 <= i < |ys| && ys[i].path == other;
            WithoutMembers(ys, PathOf, path, ys[i]);
            var j :| 0 <= j < |d| && d[j] == ys[i];
          }
        }
      }
    }
  }

  lemma {:induction false} AppendOtherGet(ns: seq<Note>, n: Note, other: string)
    requires n.path != other
    ensures GetNote(ns + [n], other) == GetNote(ns, other)
  {
    GetAppend(ns, n, other);
  }

  lemma {:induction false} RewriteOtherGet(ns: seq<Note>, path: string, content: string, now: string, other: string)
    requires other != path
    ensures GetNote(seq(|ns|, i requires 0 <= i < |ns| => Rewrite(ns[i], path, content, now)), other) == GetNote(ns, other)
    decreases |ns|
  {
    if |ns| > 0 {
      var r := seq(|ns|, i requires 0 <= i < |ns| => Rewrite(ns[i], path, content, now));
      RewriteOtherGet(ns[1..], path, content, now, other);
      assert r[1..] == seq(|ns[1..]|, i requires 0 <= i < |ns[1..]| => Rewrite(ns[1..][i], path, content, now));
    }
  }

  /** Saving under one path never changes what another path reads. */
  lemma SaveOtherGet(ns: seq<Note>, path: string, content: string, now: string, other: string)
    requires other != path
    ensures GetNote(SaveNote(ns, path, content, now), other) == GetNote(ns, other)
  {
    if IsBlank(content) {
      DeleteOtherGet(ns, path, other);
    } else if HasNote(ns, path) {
      RewriteOtherGet(ns, path, content, now, other);
    } else {
      AppendOtherGet(ns, Note(path, content, now), other);
    }
  }

  /** The provider's `notes` state. */
  class NoteStore {
    var notes: seq<Note>

    constructor(loaded: seq<Note>)
      ensures notes == loaded
    {
      notes := loaded;
    }

    method Save(path: string, content: string, now: string)
      modifies this
      ensures notes == SaveNote(old(notes), path, content, now)
    {
      if IsBlank(content) {
        Delete(path);
        return;
      }
      notes := SaveNote(notes, path, content, now);
    }

    method Delete(path: string)
      modifies this
      ensures notes == DeleteNote(old(notes), path)
    {
      notes := DeleteNote(notes, path);
    }
  }
}
