/** The inversion table used to undo recorded events. */
module Inversion {
  import opened Events

  /** Rust's `usize::saturating_add`: the sum, or `USIZE_MAX` when the sum
      does not fit. */
  function SaturatingAdd(a: Usize, b: Usize): (r: Usize)
    ensures r <= a + b
    ensures r == a + b || r == USIZE_MAX
  {
    if a + b <= USIZE_MAX then a + b else USIZE_MAX
  }

  /** The event that undoes `before`, or `None` when `before` is not a
      content edit. */
  function Reverse(before: Event): (r: Option<Event>)
    ensures r.None? <==> before.IsControl()
    ensures r.Some? ==> !r.value.IsControl()
  {
    match before
    case SpliceUp(pos) => Some(SplitDown(pos))
    case SplitDown(pos) => Some(SplitDown(pos))
    case InsertLineAbove(y) => Some(DeleteLine(y, EmptyRow))
    case InsertLineBelow(y) => Some(DeleteLine(SaturatingAdd(y, 1), EmptyRow))
    case Deletion(pos, ch) => Some(Insertion(pos, ch))
    case Insertion(pos, ch) => Some(Deletion(pos, ch))
    case DeleteLine(y, row) => Some(UpdateLine(y, EmptyRow, row))
    case UpdateLine(y, b, a) => Some(UpdateLine(y, a, b))
    case Overwrite(b, a) => Some(Overwrite(a, b))
    case _ => None
  }

  /** The events whose inverse is the same event with its two payloads
      exchanged. */
  predicate IsSwapEdit(e: Event)
  {
    e.Insertion? || e.Deletion? || e.UpdateLine? || e.Overwrite?
  }

  /** Character edits invert to each other, and whole-line and whole-document
      replacements invert by exchanging their before and after images. */
  lemma ReverseSwapsPayloads(e: Event)
    ensures e.Insertion? ==> Reverse(e) == Some(Deletion(e.pos, e.ch))
    ensures e.Deletion? ==> Reverse(e) == Some(Insertion(e.pos, e.ch))
    ensures e.UpdateLine? ==> Reverse(e) == Some(UpdateLine(e.line, e.after, e.before))
    ensures e.Overwrite? ==> Reverse(e) == Some(Overwrite(e.afterRows, e.beforeRows))
  {
  }

  /** On the swapping edits, reversing twice gives back the original event. */
  lemma ReverseInvolutiveOnSwaps(e: Event)
    requires IsSwapEdit(e)
    ensures Reverse(e).Some? && Reverse(Reverse(e).value) == Some(e)
  {
  }

  /** Inserting a line below line `y` is undone by deleting the empty line at
      `y + 1`; at the largest index the increment saturates. */
  lemma ReverseInsertLineBelow(y: Usize)
    ensures y < USIZE_MAX ==> Reverse(InsertLineBelow(y)) == Some(DeleteLine(y + 1, EmptyRow))
    ensures y == USIZE_MAX ==> Reverse(InsertLineBelow(y)) == Some(DeleteLine(USIZE_MAX, EmptyRow))
  {
  }

  /** Line creation and deletion invert to deleting an empty line and to
      restoring the deleted row over an empty one. */
  lemma ReverseLineLifecycle(y: Usize, row: Row)
    ensures Reverse(InsertLineAbove(y)) == Some(DeleteLine(y, EmptyRow))
    ensures Reverse(DeleteLine(y, row)) == Some(UpdateLine(y, EmptyRow, row))
  {
  }

  /** `SpliceUp` and `SplitDown` both invert to `SplitDown` at the same
      position, so reversing `SpliceUp` twice does not give it back. */
  lemma SpliceSplitAsymmetry(p: Position)
    ensures Reverse(SpliceUp(p)) == Reverse(SplitDown(p)) == Some(SplitDown(p))
    ensures Reverse(Reverse(SpliceUp(p)).value) != Some(SpliceUp(p))
  {
  }

  /** Every inverse the table produces can itself be inverted. This follows
      from the two postconditions of `Reverse`; it is kept as its own lemma
      so that the closure of the table under inversion is stated directly. */
  lemma ReverseOfInverseDefined(e: Event)
    requires Reverse(e).Some?
    ensures Reverse(Reverse(e).value).Some?
  {
  }
}
