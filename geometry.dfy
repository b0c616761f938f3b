/**
 * The geometry of src/App.tsx: clamp, the per-note update computed on a
 * pointer move, and the trash-zone hit test of a pointer release.
 */
module Geometry {
  import opened Wrappers
  import opened NoteTypes

  /** The minimum width and height a resize clamps to. */
  const MIN_HINT: int := 120

  datatype DragMode = Move | Resize

  /** The drag session: which note, which mode, where the pointer started and the note's frame then. */
  datatype DragState = DragState(
    id: string,
    mode: DragMode,
    startX: int,
    startY: int,
    originX: int,
    originY: int,
    originWidth: int,
    originHeight: int)

  /** The measured size of the board surface. */
  datatype BoardRect = BoardRect(width: int, height: int)

  /** The measured rectangle of the trash zone. */
  datatype TrashRect = TrashRect(left: int, right: int, top: int, bottom: int)

  function Min(a: int, b: int): int { if a <= b then a else b }

  function Max(a: int, b: int): int { if a >= b then a else b }

  /**
   * Math.min(Math.max(value, lo), hi). The upper bound is applied last, so it
   * wins when the bounds are inverted.
   */
  function Clamp(value: int, lo: int, hi: int): (r: int)
    ensures lo <= hi ==> lo <= r <= hi
    ensures hi < lo ==> r == hi
    ensures lo <= value <= hi ==> r == value
    ensures value < lo ==> r == Min(lo, hi)
    ensures hi < value ==> r == hi
  {
    Min(Max(value, lo), hi)
  }

  /**
   * The new state of the session's note for a pointer delta (the callback of
   * prev.map in handlePointerMove). Without a board measurement the upper
   * bound of a move is the note's current position plus the delta, and the
   * upper bound of a resize is the candidate size itself.
   */
  function Dragged(note: Note, drag: DragState, board: Option<BoardRect>, deltaX: int, deltaY: int): (r: Note)
    ensures r.id == note.id && r.title == note.title && r.color == note.color && r.text == note.text
    ensures drag.mode == Move ==> r.width == note.width && r.height == note.height
    ensures drag.mode == Resize ==> r.x == note.x && r.y == note.y
  {
    match drag.mode
    case Move =>
      var maxX := if board.Some? then board.value.width - note.width else note.x + deltaX;
      var maxY := if board.Some? then board.value.height - note.height else note.y + deltaY;
      note.(x := Clamp(drag.originX + deltaX, 0, maxX), y := Clamp(drag.originY + deltaY, 0, maxY))
    case Resize =>
      var maxWidth := if board.Some? then board.value.width - note.x else drag.originWidth + deltaX;
      var maxHeight := if board.Some? then board.value.height - note.y else drag.originHeight + deltaY;
      note.(width := Clamp(drag.originWidth + deltaX, MIN_HINT, maxWidth),
            height := Clamp(drag.originHeight + deltaY, MIN_HINT, maxHeight))
  }

  /** A moved note stays on a measured board that is at least as large as the note. */
  lemma MoveStaysOnBoard(note: Note, drag: DragState, bw: int, bh: int, deltaX: int, deltaY: int)
    requires drag.mode == Move
    ensures var r := Dragged(note, drag, Some(BoardRect(bw, bh)), deltaX, deltaY);
      && r.x == Clamp(drag.originX + deltaX, 0, bw - note.width)
      && r.y == Clamp(drag.originY + deltaY, 0, bh - note.height)
      && (note.width <= bw ==> 0 <= r.x && r.x + r.width <= bw)
      && (note.height <= bh ==> 0 <= r.y && r.y + r.height <= bh)
      && (0 <= drag.originX + deltaX <= bw - note.width ==> r.x == drag.originX + deltaX)
      && (0 <= drag.originY + deltaY <= bh - note.height ==> r.y == drag.originY + deltaY)
  {
  }

  /** A note wider than the board is pushed to a negative x: the inverted clamp returns its upper bound. */
  lemma MoveOnNarrowBoard(note: Note, drag: DragState, bw: int, bh: int, deltaX: int, deltaY: int)
    requires drag.mode == Move && bw < note.width
    ensures Dragged(note, drag, Some(BoardRect(bw, bh)), deltaX, deltaY).x == bw - note.width < 0
  {
  }

  /**
   * Without a board measurement a move is bounded above by the note's current
   * x plus the delta, not by the origin: once a note has been moved, a later
   * pointer move can take it below 0.
   */
  lemma MoveWithoutBoard(note: Note, drag: DragState, deltaX: int, deltaY: int)
    requires drag.mode == Move
    ensures var r := Dragged(note, drag, None, deltaX, deltaY);
      && r.x <= note.x + deltaX
      && r.y <= note.y + deltaY
      && (note.x == drag.originX && 0 <= drag.originX + deltaX ==> r.x == drag.originX + deltaX)
      && (note.y == drag.originY && 0 <= drag.originY + deltaY ==> r.y == drag.originY + deltaY)
      && (note.x + deltaX < 0 ==> r.x < 0)
      && (note.y + deltaY < 0 ==> r.y < 0)
  {
  }

  /** A resize on a measured board is kept between the floor and the board's far edge when there is room. */
  lemma ResizeStaysOnBoard(note: Note, drag: DragState, bw: int, bh: int, deltaX: int, deltaY: int)
    requires drag.mode == Resize
    ensures var r := Dragged(note, drag, Some(BoardRect(bw, bh)), deltaX, deltaY);
      && r.width == Clamp(drag.originWidth + deltaX, MIN_HINT, bw - note.x)
      && r.height == Clamp(drag.originHeight + deltaY, MIN_HINT, bh - note.y)
      && (bw - note.x >= MIN_HINT ==> MIN_HINT <= r.width && r.x + r.width <= bw)
      && (bh - note.y >= MIN_HINT ==> MIN_HINT <= r.height && r.y + r.height <= bh)
      && (bw - note.x < MIN_HINT ==> r.width == bw - note.x < MIN_HINT)
      && (bh - note.y < MIN_HINT ==> r.height == bh - note.y < MIN_HINT)
  {
  }

  /** Without a board measurement a resize applies the raw delta: the 120 floor is not enforced. */
  lemma ResizeWithoutBoard(note: Note, drag: DragState, deltaX: int, deltaY: int)
    requires drag.mode == Resize
    ensures var r := Dragged(note, drag, None, deltaX, deltaY);
      r.width == drag.originWidth + deltaX && r.height == drag.originHeight + deltaY
  {
  }

  /** The hit test of handlePointerUp: inclusive on all four sides. */
  predicate OverTrash(t: TrashRect, px: int, py: int): (hit: bool)
    ensures hit ==> t.left <= t.right && t.top <= t.bottom
  {
    px >= t.left && px <= t.right && py >= t.top && py <= t.bottom
  }

  /** Every corner and every edge point of a non-empty trash rectangle counts as a hit; a point one unit outside does not. */
  lemma OverTrashInclusive(t: TrashRect, px: int, py: int)
    requires t.left <= t.right && t.top <= t.bottom
    ensures OverTrash(t, t.left, t.top) && OverTrash(t, t.right, t.bottom)
    ensures OverTrash(t, t.left, t.bottom) && OverTrash(t, t.right, t.top)
    ensures !OverTrash(t, t.left - 1, py) && !OverTrash(t, t.right + 1, py)
    ensures !OverTrash(t, px, t.top - 1) && !OverTrash(t, px, t.bottom + 1)
  {
  }
}
