/** Clients of the event stack that drive one concrete sequence of calls and
    state what the caller observes at the end. */
module UndoScenarios {
  import opened Events
  import M = StackModel
  import opened Undo

  /** Recording A, B, C and committing yields one patch, newest first. */
  method RecordCommitPop(a: Event, b: Event, c: Event) returns (undone: Option<Patch>, left: seq<Patch>)
    ensures undone == Some([c, b, a])
    ensures left == []
  {
    var stack := new EventStack();
    stack.Push(a);
    stack.Push(b);
    stack.Push(c);
    assert stack.currentPatch == [c, b, a];
    stack.Commit();
    assert stack.history == [[c, b, a]];
    undone := stack.Pop();
    left := stack.history;
  }

  /** A second commit with nothing recorded leaves the history as the first
      one made it. */
  method CommitTwice(a: Event) returns (once: seq<Patch>, twice: seq<Patch>)
    ensures once == [[a]]
    ensures twice == once
  {
    var stack := new EventStack();
    stack.Push(a);
    assert stack.currentPatch == [a];
    stack.Commit();
    once := stack.history;
    stack.Commit();
    twice := stack.history;
  }

  /** Clearing the history does not drop what is still pending. */
  method RecordEmptyCommit(x: Event, earlier: Patch) returns (h: seq<Patch>)
    ensures h == [[x]]
  {
    var stack := new EventStack();
    stack.Append(earlier);
    stack.Push(x);
    assert stack.currentPatch == [x];
    stack.Empty();
    stack.Commit();
    h := stack.history;
  }

  /** A fresh stack has nothing to undo. */
  method PopFresh() returns (r: Option<Patch>)
    ensures r == None
  {
    var stack := new EventStack();
    r := stack.Pop();
  }

  /** Patches come off in the reverse of the order they went in, whether
      they were appended or committed, and the pending patch is not popped. */
  method ThreeInThreeOut(p1: Patch, e: Event, p3: Patch, pending: Event)
    returns (first: Option<Patch>, second: Option<Patch>, third: Option<Patch>, fourth: Option<Patch>, kept: Patch)
    ensures first == Some(p3) && second == Some([e]) && third == Some(p1)
    ensures fourth == None
    ensures kept == [pending]
  {
    var stack := new EventStack();
    stack.Append(p1);
    assert stack.history == [p1];
    stack.Push(e);
    assert stack.currentPatch == [e];
    stack.Commit();
    assert stack.history == [p1, [e]] && stack.currentPatch == [];
    stack.Append(p3);
    assert stack.history == [p1, [e], p3];
    stack.Push(pending);
    assert stack.currentPatch == [pending];
    first := stack.Pop();
    assert stack.history == [p1, [e]];
    second := stack.Pop();
    assert stack.history == [p1];
    third := stack.Pop();
    fourth := stack.Pop();
    kept := stack.currentPatch;
  }
}
