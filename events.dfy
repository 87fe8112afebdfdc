/** The event vocabulary recorded by the editor's undo history, together with
    the machine-level types its payloads use. */
module Events {

  /** The largest value of Rust's `usize` on a 64-bit target. */
  const USIZE_MAX: nat := 0xFFFF_FFFF_FFFF_FFFF

  /** Rust's `usize`: a natural number no larger than `USIZE_MAX`. */
  type Usize = n: nat | n <= USIZE_MAX

  /** Rust's `i128`: a signed 128-bit integer. */
  type I128 = n: int | -0x8000_0000_0000_0000_0000_0000_0000_0000 <= n <= 0x7FFF_FFFF_FFFF_FFFF_FFFF_FFFF_FFFF_FFFF

  datatype Option<+T> = None | Some(value: T)

  /** A snapshot of one line of the document. Only its text matters here. */
  datatype Row = Row(text: string)

  /** The row built from the empty string. */
  const EmptyRow: Row := Row("")

  /** A cursor position in the document: column and line. */
  datatype Position = Position(x: Usize, y: Usize)

  /** The direction of a relative cursor movement: an assumed stand-in for
      the editor's own type, whose definition is not part of this model. */
  datatype Direction = Up | Down | Left | Right

  /** The kinds of scratch bank an event can store to or load from. */
  datatype BankType =
    | Line    // holds lines from the document
    | Cursor  // holds cursor positions

  /** One recorded editor event. */
  datatype Event =
    | Store(bank: BankType, index: Usize)
    | Load(bank: BankType, index: Usize)
    | SpliceUp(pos: Position)
    | SplitDown(pos: Position)
    | InsertLineAbove(line: Usize)
    | InsertLineBelow(line: Usize)
    | Deletion(pos: Position, ch: char)
    | Insertion(pos: Position, ch: char)
    | DeleteLine(line: Usize, row: Row)
    | UpdateLine(line: Usize, before: Row, after: Row)
    | MoveCursor(delta: I128, direction: Direction)
    | GotoCursor(pos: Position)
    | Overwrite(beforeRows: seq<Row>, afterRows: seq<Row>)
    | New
    | Open(path: Option<string>)
    | Save(path: Option<string>, flag: bool)
    | SaveAll
    | Undo
    | Redo
    | Commit
    | Quit(flag: bool)
    | QuitAll(flag: bool)
    | NextTab
    | PrevTab
  {
    /** The events that describe no content edit of their own: bank
        traffic, cursor movement, document lifecycle and editor control. */
    predicate IsControl()
    {
      Store? || Load? || MoveCursor? || GotoCursor? || New? || Open? || Save? ||
      SaveAll? || Undo? || Redo? || Commit? || Quit? || QuitAll? || NextTab? || PrevTab?
    }
  }

  /** A group of events undone or redone as one step, newest first. */
  type Patch = seq<Event>
}
