# Sticky-notes board controller in Dafny

This project models the note-board controller of a browser sticky-notes app
(`src/App.tsx`, with the `Note` record of `src/types.ts`). The controller
holds two pieces of state:

- the ordered note sequence, whose order is the z-order (the last note is drawn on top);
- an optional drag session (`dragRef.current`) recording which note is dragged, in which mode
  (move or resize), where the pointer started and the note's frame at that moment.

The pure parts are functions: `clamp`, the palette choice `nextColor`, and
the updaters that the event handlers pass to `setNotes` (bring to front,
per-note map, trash filter, append). The stateful part is the class
`Board.NoteBoard`, with a `seq<Note>` field and an `Option<DragState>`
field, and one method per event handler. Its invariant `Valid()` says that
ids are unique and that an open session names a note on the board; every
method keeps it.

Modules, one per concern of the source:

- `Wrappers`: `Option`.
- `NoteTypes`: the `Note` record of `src/types.ts:1-10`.
- `Geometry`: `clamp`, `MIN_HINT = 120`, the drag session record, the per-note geometry of a
  pointer move, and the trash hit test.
- `NoteList`: the `setNotes` updaters and what they preserve.
- `Board`: the palette, the creation form, and the controller class.

Modelling choices:

- Coordinates and sizes are unbounded integers. The logic only adds, subtracts, takes `min`/`max`
  and compares.
- The browser measurements are `Option` parameters of the event methods: the board's size
  (`getBoundingClientRect` of the board) and the trash rectangle. `None` stands for an element
  that is not mounted.
- The pointer position `clientX`/`clientY` is passed as parameters.
- `crypto.randomUUID()` is an `id` parameter of `AddNote`, required to be fresh.
- `Note.title` is an `Option<string>`. The record type declares a title, but `handleAddNote`
  never sets one, so a note created on the board has none (`None`).
- `nextColor` is computed from the length of the notes of the current render. In the sequential
  model this equals the length of the sequence the updater receives.

Behaviour of the code that a reader might not expect:

- Without a board measurement, the upper bound of a move is the note's *current* position plus
  the delta (`note.x + deltaX`), not the origin. The lower bound of 0 is then not enforced either,
  because `Math.min` is applied last (`Geometry.MoveWithoutBoard`).
- Without a board measurement, a resize applies the raw delta: the upper bound equals the
  candidate, so the 120 floor is not enforced (`Geometry.ResizeWithoutBoard`).
- With a board, a resize also goes below 120 when the room to the board's edge
  (`board width - note.x`) is under 120 (`Geometry.ResizeStaysOnBoard`).
- A note wider than the board gets a negative `x` (`Geometry.MoveOnNarrowBoard`).

`Board.ScenarioMove`, `Board.ScenarioRaise` and `Board.ScenarioTrash` are clients of the class. They prove from the method contracts alone that:

- a note added at (80, 80) and dragged by (+50, +30) ends at (130, 110);
- a pointer-down on a note's body raises it without opening a session;
- a move released on the trash edge deletes exactly that note.

## Model

| member | source | states |
|---|---|---|
| `Geometry.Clamp` | src/App.tsx:22-23 | the result lies in `[lo, hi]` when `lo <= hi`; it is `hi` when `hi < lo`; it is the value itself when that is in range; below range it is `min(lo, hi)`, above range `hi` |
| `Geometry.Dragged` | src/App.tsx:119-145 | a pointer move changes neither id, title, colour nor text; in move mode only `x`/`y` change and in resize mode only `width`/`height` |
| `Geometry.MoveStaysOnBoard` | src/App.tsx:122-131 | with a board, `x = clamp(originX + dx, 0, boardW - width)` and likewise `y`; when the note fits, `0 <= x` and `x + width <= boardW`; an in-range candidate is taken exactly |
| `Geometry.MoveOnNarrowBoard` | src/App.tsx:123-130 | a note wider than the board gets `x = boardW - width`, which is negative |
| `Geometry.MoveWithoutBoard` | src/App.tsx:123-130 | without a board, `x <= note.x + dx`; the candidate is taken on the first move from the origin; a move that takes `note.x + dx` below 0 gives a negative `x` |
| `Geometry.ResizeStaysOnBoard` | src/App.tsx:134-145 | with a board, `width = clamp(originWidth + dx, 120, boardW - note.x)`; with at least 120 of room, `120 <= width` and `x + width <= boardW`; with less room, the width equals the room and is below 120; likewise `height` |
| `Geometry.ResizeWithoutBoard` | src/App.tsx:134-145 | without a board, `width = originWidth + dx` and `height = originHeight + dy` exactly |
| `Geometry.OverTrash` | src/App.tsx:161-165 | the hit test compares with `>=`/`<=` on all four sides (bounds included); a hit implies a non-empty rectangle |
| `Geometry.OverTrashInclusive` | src/App.tsx:161-165 | the trash hit test includes all four corners and edges, and excludes points one unit outside each side |
| `NoteList.IndexOf` | src/App.tsx:81 | `-1` exactly when no note has the id; otherwise the index of the first note with it |
| `NoteList.ToFront` | src/App.tsx:79-88 | same length and same multiset of notes; the note with the id is last; an absent id, or one whose first match is already last, leaves the sequence unchanged |
| `NoteList.ToFrontAt` | src/App.tsx:83-85 | after a raise, the note with the id is last and every other note keeps its place, shifted down by one when it stood after the raised note |
| `NoteList.ToFrontKeepsOthers` | src/App.tsx:83-86 | the notes without the id keep their relative order (the filtered sequences are equal) |
| `NoteList.ToFrontPreservesUnique` | src/App.tsx:79-88 | bringing to front keeps ids unique |
| `NoteList.ToFrontIdempotent` | src/App.tsx:314-318 | raising the same note twice (header handler, then the note's own handler) gives the same order as raising it once |
| `NoteList.WithoutId` | src/App.tsx:168 | the result holds exactly the notes whose id differs from the dragged one |
| `NoteList.WithoutIdAbsent` | src/App.tsx:168 | filtering an id no note carries returns the sequence unchanged |
| `NoteList.WithoutIdAt` | src/App.tsx:168 | with unique ids, the filter removes exactly the note at the id's index and keeps the others in order |
| `NoteList.UniqueFiltered` | src/App.tsx:168 | the trash filter keeps ids unique |
| `NoteList.MapMatching` | src/App.tsx:119-120 | same length; each note with the id is replaced by its update and every other note is unchanged |
| `NoteList.WithText` | src/App.tsx:197-201 | matching notes get the new text; no other field of any note changes; same length and order |
| `NoteList.WithColor` | src/App.tsx:203-207 | matching notes get the new colour; no other field of any note changes; same length and order |
| `NoteList.Moved` | src/App.tsx:114-147 | same length and order; notes without the session id are unchanged; the session's note gets the geometry for the delta from the session's start point |
| `NoteList.SameIdsPreserve` | src/App.tsx:118-147 | a per-note update that keeps ids keeps them unique and keeps which ids are present |
| `Board.NextColor` | src/App.tsx:38-41 | the chosen colour is one of the palette's |
| `Board.PoolDistinct` | src/App.tsx:18 | the five palette colours are pairwise distinct |
| `Board.NextColorCycles` | src/App.tsx:38-41 | two note counts get the same colour exactly when they agree modulo 5 |
| `Board.NewNote` | src/App.tsx:183-193 | the new note has the given id, the form's geometry, empty text and no title; its colour is the form's when non-empty and `COLOR_POOL[count % 5]` otherwise |
| `Board.Appended` | src/App.tsx:183-194 | exactly one note is appended at the end and the prior notes are untouched; a fresh id keeps ids unique |
| `Board.NoteBoard.constructor` | src/App.tsx:26-34 | the board starts with no notes and no session |
| `Board.NoteBoard.BringNoteToFront` | src/App.tsx:79-88 | the notes become `ToFront` of the old notes; the session is unchanged; the invariant holds |
| `Board.NoteBoard.StartDrag` | src/App.tsx:90-105 | an absent id changes nothing; otherwise the note is brought to front and the session records the id, the mode, the pointer start and the note's x/y/width/height |
| `Board.NoteBoard.PointerMove` | src/App.tsx:111-148 | no session leaves the notes unchanged; the session itself never changes; with a session the notes become `Moved` of the old notes |
| `Board.NoteBoard.PointerUp` | src/App.tsx:150-170 | the session is always cleared; a move release inside the trash removes exactly the dragged note and keeps the others in order; any other release leaves the notes unchanged |
| `Board.NoteBoard.AddNote` | src/App.tsx:181-195 | the notes become `Appended` of the old notes; the session is unchanged; the invariant holds |
| `Board.NoteBoard.UpdateNoteText` | src/App.tsx:197-201 | the notes become `WithText` of the old notes; the session is unchanged |
| `Board.NoteBoard.UpdateNoteColor` | src/App.tsx:203-207 | the notes become `WithColor` of the old notes; the session is unchanged |

## Left out

- Persistence is left out because it is browser I/O and async plumbing
  (`src/App.tsx:43-77` and `src/api.ts`). This covers `localStorage`, JSON parsing and
  serialising, the simulated latency and the swallowed failures. The one decision rule there is
  not modelled: the remote result replaces the notes only while the component is mounted and
  when the result is non-empty.
- Since notes loaded from storage are not modelled, `Valid()` assumes that ids are unique from
  the start. The source relies on `crypto.randomUUID` for that.
- `crypto.randomUUID` is a foreign call. It is the caller-supplied fresh `id` of `AddNote`.
- DOM and host calls are not modelled: `preventDefault`, `setPointerCapture`,
  `getBoundingClientRect`, and adding or removing the window listeners. The source keeps one
  session in the single `dragRef`; a pointer-down while a session is open replaces it, and so
  does `StartDrag`.
- Floating point, `NaN`, and the `Number(...)` coercion of the form inputs are left out;
  coordinates are integers.
- JSX rendering and the creation-form editing are UI markup and are not modelled.
  `src/components/NoteCard.tsx`, `src/components/NoteCreatorPanel.tsx` and `src/NoteCard.tsx`
  are view components that delegate to the controller. Their title-blur rule depends on a
  constants module that is not part of this model, and `src/App.tsx` never sets titles.
- React's batching of `setNotes` updaters is not modelled. Each handler's updater is applied to
  the current sequence at once. `startDrag` reads the note from the rendered `notes`, which in
  the sequential model is the same sequence.
