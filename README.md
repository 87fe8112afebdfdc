# Undo/redo event recording core of the ox editor, in Dafny

This project models `src/undo.rs` of the ox text editor. That file is where the editor records what the user did so the changes can later be undone or redone. It has three parts:

- **`Event`** (`events.dfy`, module `Events`) is the closed set of 24 things the editor records. They are content edits (`Insertion`, `Deletion`, `DeleteLine`, `UpdateLine`, `Overwrite`, …), cursor moves, bank store/load, document lifecycle (`New`, `Open`, `Save`, …) and control signals (`Undo`, `Redo`, `Commit`, `Quit`, …). `BankType` is the kind of scratch bank that `Store`/`Load` address. A `Patch` is a sequence of events that is undone as one step, newest first.
- **`EventStack`** (`event_stack.dfy`) holds the committed `history` of patches and the pending `currentPatch`. The class `Undo.EventStack` keeps both as fields that its methods update in place:
  - `Push` records an event at the front of the pending patch;
  - `Append` pushes a ready-made patch onto the history;
  - `Pop` takes the newest patch off the history;
  - `Empty` clears the history;
  - `Commit` seals a non-empty pending patch into the history.
  Each method is proved against a transition of the value-level model `StackModel`. The lemmas about those transitions state the behaviour callers rely on: the newest event comes first in a patch, a second commit does nothing, clearing keeps the pending patch, and patches come back last in, first out. `scenarios.dfy` drives the class through concrete call sequences and states what the caller then observes.
- **`reverse`** (`reverse.dfy`, module `Inversion`) maps an event to the event that undoes it. It returns `None` for the non-edit events. The line index of `InsertLineBelow` is incremented with `usize` saturating addition.

Rust's `usize` is a `nat` no larger than `USIZE_MAX` = 2^64 − 1, which assumes a 64-bit target. `i128` is an integer in its 128-bit two's-complement range. `Row` is a value wrapping its text, and `EmptyRow` is `Row::from("")`. `Position` is a pair of `usize` coordinates. `Box` indirection is dropped, because every payload is already a value here.

`append` also adds to the history, so `commit` is not the only way a patch enters it.

`SpliceUp` and `SplitDown` both reverse to `SplitDown`, so the pair is not symmetric. This is preserved exactly as written, and `Inversion.SpliceSplitAsymmetry` states it.

## Model

| member | source | states |
|---|---|---|
| `Inversion.SaturatingAdd` | src/undo.rs:87 | the result is the sum when it fits in `usize` and `USIZE_MAX` otherwise (never above the sum, and equal to the sum or to the maximum) |
| `Inversion.Reverse` | src/undo.rs:80-95 | there is no inverse exactly for Store, Load, MoveCursor, GotoCursor, New, Open, Save, SaveAll, Undo, Redo, Commit, Quit, QuitAll, NextTab and PrevTab; any inverse it does produce is itself a content edit |
| `Inversion.ReverseSwapsPayloads` | src/undo.rs:88-92 | Insertion and Deletion invert to each other at the same position and character; UpdateLine and Overwrite invert by exchanging their before and after images |
| `Inversion.ReverseInvolutiveOnSwaps` | src/undo.rs:88-92 | for Insertion, Deletion, UpdateLine and Overwrite, reversing twice returns the original event |
| `Inversion.ReverseInsertLineBelow` | src/undo.rs:87 | InsertLineBelow(y) inverts to DeleteLine(y + 1, empty row) below the maximum index, and to DeleteLine(USIZE_MAX, empty row) at it |
| `Inversion.ReverseLineLifecycle` | src/undo.rs:86-90 | InsertLineAbove(y) inverts to DeleteLine(y, empty row); DeleteLine(y, r) inverts to UpdateLine(y, empty row, r) |
| `Inversion.SpliceSplitAsymmetry` | src/undo.rs:84-85 | SpliceUp(p) and SplitDown(p) both invert to SplitDown(p), so reversing SpliceUp twice does not give it back |
| `Inversion.ReverseOfInverseDefined` | src/undo.rs:83-94 | every inverse the table produces has an inverse of its own |
| `StackModel.PushAllNewestFirst` | src/undo.rs:56-59 | pushing e1..en leaves history unchanged and makes the pending patch en..e1 followed by what was pending before |
| `StackModel.CommitSeals` | src/undo.rs:71-77 | with a non-empty pending patch, commit adds exactly that patch as the new last history entry, keeps all earlier entries and empties the pending patch; with an empty one it changes nothing |
| `StackModel.CommitIdempotent` | src/undo.rs:73 | two commits in a row leave the stack as the first one did |
| `StackModel.CommitIsAppendOfPending` | src/undo.rs:60-77 | committing a non-empty pending patch equals appending that patch and clearing the pending patch |
| `StackModel.PopAfterAppend` | src/undo.rs:60-66 | pop right after append(p) returns Some(p) and restores the stack exactly |
| `StackModel.PopReturnsNewest` | src/undo.rs:63-66 | pop returns None exactly when history is empty (and then changes nothing); otherwise the shortened history plus the returned patch is the old history; the pending patch is never touched |
| `StackModel.LastInFirstOut` | src/undo.rs:60-66 | after appending P1..Pn, n pops return Pn..P1 in that order and leave the stack as it was before the appends |
| `StackModel.EmptyKeepsPending` | src/undo.rs:67-77 | emptying keeps the pending patch, so emptying and then committing leaves exactly the pending patch (if any) as the only history entry |
| `Undo.EventStack.constructor` | src/undo.rs:49-55 | a new stack has an empty history and an empty pending patch |
| `Undo.EventStack.Push` | src/undo.rs:56-59 | the new state is the old one with the event at the front of the pending patch |
| `Undo.EventStack.Append` | src/undo.rs:60-62 | the new state is the old one with the patch added as the last history entry |
| `Undo.EventStack.Pop` | src/undo.rs:63-66 | the result and new state are those of the model's pop on the old state |
| `Undo.EventStack.Empty` | src/undo.rs:67-70 | the new state has an empty history and the old pending patch |
| `Undo.EventStack.Commit` | src/undo.rs:71-77 | the new state is the model's commit of the old state |
| `UndoScenarios.RecordCommitPop` | src/undo.rs:56-77 | push A, B, C, then commit, then pop returns the single patch [C, B, A] and leaves the history empty |
| `UndoScenarios.CommitTwice` | src/undo.rs:71-77 | push A then commit gives history [[A]], and a second commit keeps it |
| `UndoScenarios.RecordEmptyCommit` | src/undo.rs:60-77 | append P, push X, empty, then commit gives history exactly [[X]] |
| `UndoScenarios.PopFresh` | src/undo.rs:49-66 | pop on a new stack returns None |
| `UndoScenarios.ThreeInThreeOut` | src/undo.rs:56-77 | append P1, then commit [E], then append P3: the pops return P3, [E], P1 and then None, and the pending patch survives them |

## Left out

- The internals of `Row`, `Position` and `Direction` (imported at src/undo.rs:2) are not part of this model. Rows are compared only as values, and only the empty row is ever built.
- `Direction` is an assumed stand-in: a four-way enum (`Up`, `Down`, `Left`, `Right`). The editor's own definition is not part of this model. Nothing depends on its shape, because `MoveCursor` has no inverse.
- `Box` indirection and the `Clone`/`Debug` derives have no observable meaning here. `commit` pushes a clone of the pending patch and then clears the pending patch. With value semantics, that is the same as moving the patch.
- The undo/redo orchestration that applies events to the live document, and the meaning of the `Open`/`Save` paths, are outside this file. Paths are kept as opaque `Option<string>` values.
- The cost of inserting at the front of a `Vec` is not modelled; only the resulting order is.
- Memory exhaustion when a `Vec` grows is not modelled: the history and patches are unbounded sequences.
