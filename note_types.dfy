/**
 * The note record of src/types.ts. JavaScript numbers are modelled as
 * unbounded integers: the board logic only adds, subtracts and compares them.
 */
module NoteTypes {
  import opened Wrappers

  datatype Note = Note(
    id: string,
    // The record type declares a title, but handleAddNote never sets one,
    // so a note created on the board has none.
    title: Option<string>,
    x: int,
    y: int,
    width: int,
    height: int,
    color: string,
    text: string)
}
