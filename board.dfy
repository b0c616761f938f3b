/**
 * The note-board controller of src/App.tsx: the ordered note sequence, the
 * drag session, and one method per event handler.
 */
module Board {
  import opened Wrappers
  import opened NoteTypes
  import opened Geometry
  import opened NoteList

  const COLOR_POOL: seq<string> := ["#fff2a8", "#ffd1dc", "#d9f8d9", "#d7e8ff", "#ffe0b5"]

  /** The palette colour offered to a note added while `count` notes exist. */
  function NextColor(count: nat): (c: string)
    ensures c in COLOR_POOL
  {
    COLOR_POOL[count % |COLOR_POOL|]
  }

  /** The palette colours are pairwise distinct. */
  lemma PoolDistinct()
    ensures forall i, j :: 0 <= i < j < |COLOR_POOL| ==> COLOR_POOL[i] != COLOR_POOL[j]
  {
    assert COLOR_POOL[0][1] != COLOR_POOL[2][1] && COLOR_POOL[0][1] != COLOR_POOL[3][1];
    assert COLOR_POOL[1][1] != COLOR_POOL[2][1] && COLOR_POOL[1][1] != COLOR_POOL[3][1];
    assert COLOR_POOL[4][1] != COLOR_POOL[2][1] && COLOR_POOL[4][1] != COLOR_POOL[3][1];
    assert COLOR_POOL[0][3] != COLOR_POOL[1][3] && COLOR_POOL[0][3] != COLOR_POOL[4][3];
    assert COLOR_POOL[1][3] != COLOR_POOL[4][3];
    assert COLOR_POOL[2][2] != COLOR_POOL[3][2];
  }

  /** The offered colour cycles through the pool: two counts get the same colour exactly when they agree modulo 5. */
  lemma NextColorCycles(m: nat, n: nat)
    ensures NextColor(m) == NextColor(n) <==> m % 5 == n % 5
  {
    PoolDistinct();
  }

  /** The creation form: the geometry and colour of the next note. */
  datatype Form = Form(x: int, y: int, width: int, height: int, color: string)

  /** The note handleAddNote builds from the form while `count` notes exist. */
  function NewNote(id: string, form: Form, count: nat): (n: Note)
    ensures n.id == id && n.title == None && n.text == ""
    ensures n.x == form.x && n.y == form.y && n.width == form.width && n.height == form.height
    ensures form.color != "" ==> n.color == form.color
    ensures form.color == "" ==> n.color == COLOR_POOL[count % 5]
  {
    Note(id, None, form.x, form.y, form.width, form.height,
         if form.color != "" then form.color else NextColor(count), "")
  }

  /** The updater of handleAddNote: one new note on top, the others untouched. */
  function Appended(s: seq<Note>, id: string, form: Form): (r: seq<Note>)
    ensures |r| == |s| + 1 && r[..|s|] == s && r[|s|] == NewNote(id, form, |s|)
    ensures UniqueIds(s) && !HasId(s, id) ==> UniqueIds(r) && HasId(r, id)
  {
    var n := NewNote(id, form, |s|);
    assert (s + [n])[|s|] in s + [n];
    if UniqueIds(s) && !HasId(s, id) then UniqueSnoc(s, n); s + [n] else s + [n]
  }

  class NoteBoard {
    /** The notes in z-order: the last one is drawn on top. */
    var notes: seq<Note>
    /** dragRef.current: the open drag session, if any. */
    var drag: Option<DragState>

    /** Ids are unique, and an open session always names a note on the board. */
    ghost predicate Valid()
      reads this
    {
      UniqueIds(notes) && (drag.Some? ==> HasId(notes, drag.value.id))
    }

    constructor ()
      ensures Valid() && notes == [] && drag == None
    {
      notes := [];
      drag := None;
    }

    /** Raise a note to the top; also what a pointer-down anywhere on a note does. */
    method BringNoteToFront(id: string)
      requires Valid()
      modifies this
      ensures Valid()
      ensures notes == ToFront(old(notes), id) && drag == old(drag)
    {
      var index := IndexOf(notes, id);
      if index == -1 || index == |notes| - 1 {
        return;
      }
      var updated := notes;
      var note := updated[index];
      updated := updated[..index] + updated[index + 1..];
      updated := updated + [note];
      ToFrontPreservesUnique(notes, id);
      assert multiset(updated) == multiset(notes);
      if drag.Some? {
        var other :| other in notes && other.id == drag.value.id;
        assert other in multiset(updated);
      }
      notes := updated;
    }

    /** Pointer-down on a note's header (Move) or its resize handle (Resize). */
    method StartDrag(id: string, mode: DragMode, clientX: int, clientY: int)
      requires Valid()
      modifies this
      ensures Valid()
      ensures !HasId(old(notes), id) ==> notes == old(notes) && drag == old(drag)
      ensures HasId(old(notes), id) ==>
        var n := old(notes)[IndexOf(old(notes), id)];
        && notes == ToFront(old(notes), id)
        && drag == Some(DragState(id, mode, clientX, clientY, n.x, n.y, n.width, n.height))
    {
      var index := IndexOf(notes, id);
      if index == -1 {
        return;
      }
      var note := notes[index];
      BringNoteToFront(id);
      drag := Some(DragState(id, mode, clientX, clientY, note.x, note.y, note.width, note.height));
      assert notes[|notes| - 1] in notes;
    }

    /** A pointer move anywhere in the window; `board` is the board's measured size, if any. */
    method PointerMove(clientX: int, clientY: int, board: Option<BoardRect>)
      requires Valid()
      modifies this
      ensures Valid()
      ensures drag == old(drag)
      ensures drag.None? ==> notes == old(notes)
      ensures drag.Some? ==> notes == Moved(old(notes), drag.value, board, clientX, clientY)
    {
      if drag.None? {
        return;
      }
      var d := drag.value;
      var updated := Moved(notes, d, board, clientX, clientY);
      SameIdsPreserve(notes, updated, d.id);
      notes := updated;
    }

    /** A pointer release anywhere in the window; `trash` is the trash zone's measured rectangle, if any. */
    method PointerUp(clientX: int, clientY: int, trash: Option<TrashRect>)
      requires Valid()
      modifies this
      ensures Valid()
      ensures drag == None
      ensures old(drag).Some? && old(drag).value.mode == Move && trash.Some?
                && OverTrash(trash.value, clientX, clientY)
        ==> var i := IndexOf(old(notes), old(drag).value.id);
            && notes == WithoutId(old(notes), old(drag).value.id)
            && 0 <= i && notes == old(notes)[..i] + old(notes)[i + 1..]
      ensures !(old(drag).Some? && old(drag).value.mode == Move && trash.Some?
                && OverTrash(trash.value, clientX, clientY))
        ==> notes == old(notes)
    {
      if drag.None? {
        return;
      }
      var d := drag.value;
      drag := None;
      if d.mode != Move {
        return;
      }
      if trash.None? {
        return;
      }
      var t := trash.value;
      if OverTrash(t, clientX, clientY) {
        UniqueFiltered(notes, d.id);
        WithoutIdAt(notes, IndexOf(notes, d.id));
        notes := WithoutId(notes, d.id);
      }
    }

    /** The "Add note" button; `id` stands for the value of crypto.randomUUID. */
    method AddNote(id: string, form: Form)
      requires Valid()
      requires !HasId(notes, id)
      modifies this
      ensures Valid()
      ensures notes == Appended(old(notes), id, form) && drag == old(drag)
    {
      var updated := Appended(notes, id, form);
      if drag.Some? {
        var other :| other in notes && other.id == drag.value.id;
        assert updated[..|notes|] == notes;
        assert other in updated;
      }
      notes := updated;
    }

    method UpdateNoteText(id: string, text: string)
      requires Valid()
      modifies this
      ensures Valid()
      ensures notes == WithText(old(notes), id, text) && drag == old(drag)
    {
      var updated := WithText(notes, id, text);
      SameIdsPreserve(notes, updated, if drag.Some? then drag.value.id else id);
      notes := updated;
    }

    method UpdateNoteColor(id: string, color: string)
      requires Valid()
      modifies this
      ensures Valid()
      ensures notes == WithColor(old(notes), id, color) && drag == old(drag)
    {
      var updated := WithColor(notes, id, color);
      SameIdsPreserve(notes, updated, if drag.Some? then drag.value.id else id);
      notes := updated;
    }
  }

  /** A note added at (80, 80) and dragged by (+50, +30) on a large board ends at (130, 110); proved from the method contracts alone. */
  method ScenarioMove()
  {
    var b := new NoteBoard();
    b.AddNote("a", Form(80, 80, 220, 180, "#fff2a8"));
    assert b.notes[0].x == 80 && b.notes[0].color == "#fff2a8";
    b.StartDrag("a", Move, 500, 400);
    assert b.drag.Some? && b.drag.value.originX == 80;
    b.PointerMove(550, 430, Some(BoardRect(900, 700)));
    assert b.notes[0].x == 130 && b.notes[0].y == 110;
    assert b.notes[0].width == 220 && b.notes[0].height == 180;
    b.PointerUp(550, 430, Some(TrashRect(0, 100, 600, 700)));
    assert b.drag == None && |b.notes| == 1;
  }

  /** A pointer-down on a note's body raises it without opening a session; proved from the method contracts alone. */
  method ScenarioRaise()
  {
    var b := new NoteBoard();
    b.AddNote("a", Form(80, 80, 220, 180, "#fff2a8"));
    b.AddNote("b", Form(10, 10, 150, 150, ""));
    // A note added with an empty form colour takes the palette colour for its position.
    assert b.notes[1].color == "#ffd1dc";
    b.BringNoteToFront("a");
    assert b.notes[1].id == "a" && b.notes[0].id == "b" && b.drag == None;
  }

  /** A move released on the trash edge deletes exactly the dragged note; proved from the method contracts alone. */
  method ScenarioTrash()
  {
    var b := new NoteBoard();
    b.AddNote("a", Form(80, 80, 220, 180, "#fff2a8"));
    b.AddNote("b", Form(10, 10, 150, 150, ""));
    assert b.notes[0].id == "a" && b.notes[1].id == "b";
    b.StartDrag("a", Move, 130, 110);
    b.PointerUp(100, 600, Some(TrashRect(0, 100, 600, 700)));
    assert b.notes == [b.notes[0]] && b.notes[0].id == "b";
  }
}
