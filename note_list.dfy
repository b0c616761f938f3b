/**
 * The pure updaters that src/App.tsx hands to setNotes, over the ordered
 * note sequence (later position = drawn on top).
 */
module NoteList {
  import opened Wrappers
  import opened NoteTypes
  import opened Geometry

  predicate HasId(s: seq<Note>, id: string)
  {
    exists n :: n in s && n.id == id
  }

  /** No two notes share an id (ids come from crypto.randomUUID). */
  predicate UniqueIds(s: seq<Note>)
  {
    forall i, j :: 0 <= i < j < |s| ==> s[i].id != s[j].id
  }

  /** Array.prototype.findIndex with `note.id === id`: the first match, or -1. */
  function IndexOf(s: seq<Note>, id: string): (r: int)
    ensures -1 <= r < |s|
    ensures r == -1 <==> !HasId(s, id)
    ensures r >= 0 ==> s[r].id == id && forall j :: 0 <= j < r ==> s[j].id != id
  {
    if |s| == 0 then -1
    else if s[0].id == id then 0
    else
      var k := IndexOf(s[1..], id);
      assert forall n :: n in s ==> n == s[0] || n in s[1..];
      if k == -1 then -1 else k + 1
  }

  /**
   * The updater of bringNoteToFront: the first note with `id` is spliced out
   * and pushed at the end; the sequence is returned as it is when the id is
   * absent or already last.
   */
  function ToFront(s: seq<Note>, id: string): (r: seq<Note>)
    ensures |r| == |s| && multiset(r) == multiset(s)
    ensures HasId(s, id) ==> r[|r| - 1].id == id
    ensures !HasId(s, id) ==> r == s
    ensures IndexOf(s, id) == |s| - 1 ==> r == s
  {
    var i := IndexOf(s, id);
    if i == -1 || i == |s| - 1 then s
    else
      assert s == s[..i] + [s[i]] + s[i + 1..];
      s[..i] + s[i + 1..] + [s[i]]
  }

  /** The updater of a drop on the trash: `prev.filter(note => note.id !== id)`. */
  function WithoutId(s: seq<Note>, id: string): (r: seq<Note>)
    ensures |r| <= |s|
    ensures forall n :: n in r <==> n in s && n.id != id
  {
    if |s| == 0 then []
    else
      assert forall n :: n in s <==> n == s[0] || n in s[1..];
      (if s[0].id == id then [] else [s[0]]) + WithoutId(s[1..], id)
  }

  /** `prev.map(note => note.id === id ? f(note) : note)`. */
  function MapMatching(s: seq<Note>, id: string, f: Note -> Note): (r: seq<Note>)
    ensures |r| == |s|
    ensures forall i :: 0 <= i < |s| ==> r[i] == if s[i].id == id then f(s[i]) else s[i]
  {
    if |s| == 0 then []
    else [if s[0].id == id then f(s[0]) else s[0]] + MapMatching(s[1..], id, f)
  }

  /** The updater of updateNoteText. */
  function WithText(s: seq<Note>, id: string, text: string): (r: seq<Note>)
    ensures |r| == |s|
    ensures forall i :: 0 <= i < |s| ==>
      && r[i].text == (if s[i].id == id then text else s[i].text)
      && r[i].(text := s[i].text) == s[i]
  {
    MapMatching(s, id, (n: Note) => n.(text := text))
  }

  /** The updater of updateNoteColor. */
  function WithColor(s: seq<Note>, id: string, color: string): (r: seq<Note>)
    ensures |r| == |s|
    ensures forall i :: 0 <= i < |s| ==>
      && r[i].color == (if s[i].id == id then color else s[i].color)
      && r[i].(color := s[i].color) == s[i]
  {
    MapMatching(s, id, (n: Note) => n.(color := color))
  }

  /** The updater of handlePointerMove for an open session and the pointer at (clientX, clientY). */
  function Moved(s: seq<Note>, drag: DragState, board: Option<BoardRect>, clientX: int, clientY: int): (r: seq<Note>)
    ensures |r| == |s|
    ensures forall i :: 0 <= i < |s| && s[i].id != drag.id ==> r[i] == s[i]
    ensures forall i :: 0 <= i < |s| && s[i].id == drag.id ==>
      r[i] == Dragged(s[i], drag, board, clientX - drag.startX, clientY - drag.startY)
  {
    MapMatching(s, drag.id, (n: Note) => Dragged(n, drag, board, clientX - drag.startX, clientY - drag.startY))
  }

  /** Two sequences that agree on the id at every position. */
  predicate SameIds(s: seq<Note>, r: seq<Note>)
  {
    |s| == |r| && forall i :: 0 <= i < |s| ==> s[i].id == r[i].id
  }

  /** A per-note update that keeps every id keeps both the uniqueness of ids and the set of ids present. */
  lemma SameIdsPreserve(s: seq<Note>, r: seq<Note>, id: string)
    requires SameIds(s, r)
    ensures UniqueIds(s) ==> UniqueIds(r)
    ensures HasId(s, id) <==> HasId(r, id)
  {
    if HasId(s, id) {
      var n :| n in s && n.id == id;
      var i :| 0 <= i < |s| && s[i] == n;
      assert r[i] in r;
    }
    if HasId(r, id) {
      var n :| n in r && n.id == id;
      var i :| 0 <= i < |r| && r[i] == n;
      assert s[i] in s;
    }
  }

  lemma {:induction false} WithoutIdConcat(a: seq<Note>, b: seq<Note>, id: string)
    ensures WithoutId(a + b, id) == WithoutId(a, id) + WithoutId(b, id)
  {
    if |a| > 0 {
      assert (a + b)[1..] == a[1..] + b;
      WithoutIdConcat(a[1..], b, id);
    } else {
      assert a + b == b;
    }
  }

  /** Filtering out an id that no note carries returns the sequence unchanged. */
  lemma {:induction false} WithoutIdAbsent(s: seq<Note>, id: string)
    requires !HasId(s, id)
    ensures WithoutId(s, id) == s
  {
    if |s| > 0 {
      assert s[0] in s;
      assert forall n :: n in s[1..] ==> n in s;
      WithoutIdAbsent(s[1..], id);
      assert [s[0]] + s[1..] == s;
    }
  }

  /** With unique ids, no note before or after index i carries the id of the note at i. */
  lemma UniqueOthers(s: seq<Note>, i: int)
    requires UniqueIds(s) && 0 <= i < |s|
    ensures !HasId(s[..i], s[i].id) && !HasId(s[i + 1..], s[i].id)
  {
    forall n | n in s[..i] ensures n.id != s[i].id {
      var j :| 0 <= j < i && s[..i][j] == n;
    }
    forall n | n in s[i + 1..] ensures n.id != s[i].id {
      var j :| 0 <= j < |s| - i - 1 && s[i + 1..][j] == n;
      assert s[i + 1 + j] == n;
    }
  }

  lemma WithoutIdSingle(n: Note, id: string)
    ensures WithoutId([n], id) == if n.id == id then [] else [n]
  {
    assert [n][1..] == [];
  }

  /** Filtering a sequence split around one note that carries the filtered id. */
  lemma WithoutIdAround(a: seq<Note>, x: Note, b: seq<Note>)
    ensures WithoutId(a + [x] + b, x.id) == WithoutId(a, x.id) + WithoutId(b, x.id)
  {
    var id := x.id;
    WithoutIdConcat(a + [x], b, id);
    WithoutIdConcat(a, [x], id);
    WithoutIdSingle(x, id);
    var wa, wb := WithoutId(a, id), WithoutId(b, id);
    assert WithoutId(a + [x], id) == wa + [];
    assert wa + [] == wa;
  }

  /** The same with the note moved to the end. */
  lemma WithoutIdAtEnd(a: seq<Note>, x: Note, b: seq<Note>)
    ensures WithoutId(a + b + [x], x.id) == WithoutId(a, x.id) + WithoutId(b, x.id)
  {
    var id := x.id;
    WithoutIdConcat(a + b, [x], id);
    WithoutIdConcat(a, b, id);
    WithoutIdSingle(x, id);
    var wab := WithoutId(a + b, id);
    assert wab + [] == wab;
  }

  /** With unique ids, the trash drop removes exactly the note at the id's index and keeps the others in order. */
  lemma WithoutIdAt(s: seq<Note>, i: int)
    requires UniqueIds(s) && 0 <= i < |s|
    ensures WithoutId(s, s[i].id) == s[..i] + s[i + 1..]
  {
    var a, x, b := s[..i], s[i], s[i + 1..];
    assert s == a + [x] + b;
    WithoutIdAround(a, x, b);
    UniqueOthers(s, i);
    WithoutIdAbsent(a, x.id);
    WithoutIdAbsent(b, x.id);
  }

  /** Bringing a note to front keeps every other note in its relative order: the filtered sequences agree. */
  lemma ToFrontKeepsOthers(s: seq<Note>, id: string)
    ensures WithoutId(ToFront(s, id), id) == WithoutId(s, id)
  {
    var i := IndexOf(s, id);
    if i != -1 && i != |s| - 1 {
      var a, x, b := s[..i], s[i], s[i + 1..];
      assert s == a + [x] + b;
      assert ToFront(s, id) == a + b + [x];
      WithoutIdAround(a, x, b);
      WithoutIdAtEnd(a, x, b);
    }
  }

  /** Where each note of the result of ToFront comes from. */
  lemma ToFrontAt(s: seq<Note>, id: string)
    requires HasId(s, id)
    ensures var i, r := IndexOf(s, id), ToFront(s, id);
      && r[|r| - 1] == s[i]
      && forall k :: 0 <= k < |r| - 1 ==> r[k] == s[if k < i then k else k + 1]
  {
  }

  lemma ToFrontPreservesUnique(s: seq<Note>, id: string)
    requires UniqueIds(s)
    ensures UniqueIds(ToFront(s, id))
  {
    if HasId(s, id) {
      ToFrontAt(s, id);
    }
  }

  /** The second bringNoteToFront of one pointer-down (header, then the note itself) is a no-op. */
  lemma ToFrontIdempotent(s: seq<Note>, id: string)
    requires UniqueIds(s)
    ensures ToFront(ToFront(s, id), id) == ToFront(s, id)
  {
    var r := ToFront(s, id);
    if HasId(s, id) {
      ToFrontPreservesUnique(s, id);
      assert r[|r| - 1] in r;
      var k := IndexOf(r, id);
      assert k == |r| - 1;
    }
  }

  lemma UniqueSnoc(s: seq<Note>, n: Note)
    requires UniqueIds(s) && !HasId(s, n.id)
    ensures UniqueIds(s + [n])
  {
    forall i | 0 <= i < |s| ensures s[i].id != n.id {
      assert s[i] in s;
    }
  }

  lemma UniqueFiltered(s: seq<Note>, id: string)
    requires UniqueIds(s)
    ensures UniqueIds(WithoutId(s, id))
  {
    var i := IndexOf(s, id);
    if i == -1 {
      WithoutIdAbsent(s, id);
    } else {
      WithoutIdAt(s, i);
    }
  }
}
