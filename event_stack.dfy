/** The undo history as a value: committed patches plus the pending patch,
    with one transition per operation of the event stack. */
module StackModel {
  import opened Events

  datatype StackState = StackState(history: seq<Patch>, currentPatch: Patch)

  /** A fresh stack: no history and nothing pending. */
  function Init(): StackState
  {
    StackState([], [])
  }

  /** Records `e` at the front of the pending patch. */
  function Push(s: StackState, e: Event): StackState
  {
    s.(currentPatch := [e] + s.currentPatch)
  }

  /** Adds a ready-made patch as the newest history entry. */
  function Append(s: StackState, patch: Patch): StackState
  {
    s.(history := s.history + [patch])
  }

  /** Takes the newest history entry off, if there is one. */
  function Pop(s: StackState): (Option<Patch>, StackState)
  {
    if s.history == [] then (None, s)
    else (Some(s.history[|s.history| - 1]), s.(history := s.history[..|s.history| - 1]))
  }

  /** Discards the history; the pending patch stays. */
  function Empty(s: StackState): StackState
  {
    s.(history := [])
  }

  /** Seals a non-empty pending patch into history and starts a new one. */
  function Commit(s: StackState): StackState
  {
    if s.currentPatch != [] then StackState(s.history + [s.currentPatch], []) else s
  }

  /** Pushes the events of `es` one after the other, first to last. */
  function PushAll(s: StackState, es: seq<Event>): StackState
  {
    if es == [] then s else Push(PushAll(s, es[..|es| - 1]), es[|es| - 1])
  }

  /** Appends the patches of `ps` one after the other, first to last. */
  function AppendAll(s: StackState, ps: seq<Patch>): StackState
  {
    if ps == [] then s else Append(AppendAll(s, ps[..|ps| - 1]), ps[|ps| - 1])
  }

  /** Pops `n` times, collecting what each pop returned, in call order. */
  function PopMany(s: StackState, n: nat): (seq<Option<Patch>>, StackState)
    decreases n
  {
    if n == 0 then ([], s)
    else
      var (got, t) := Pop(s);
      var (rest, u) := PopMany(t, n - 1);
      ([got] + rest, u)
  }

  /** Pushing a sequence of events leaves the history alone and puts the
      events in front of the pending patch, newest first. */
  lemma {:induction false} PushAllNewestFirst(s: StackState, es: seq<Event>)
    ensures PushAll(s, es).history == s.history
    ensures |PushAll(s, es).currentPatch| == |es| + |s.currentPatch|
    ensures forall i :: 0 <= i < |es| ==> PushAll(s, es).currentPatch[i] == es[|es| - 1 - i]
    ensures PushAll(s, es).currentPatch[|es|..] == s.currentPatch
  {
    if es != [] {
      var init := es[..|es| - 1];
      PushAllNewestFirst(s, init);
      var t := PushAll(s, init);
      var p := PushAll(s, es).currentPatch;
      assert p == [es[|es| - 1]] + t.currentPatch;
      forall i | 0 <= i < |es|
        ensures p[i] == es[|es| - 1 - i]
      {
        if i > 0 {
          assert p[i] == t.currentPatch[i - 1] == init[|init| - 1 - (i - 1)];
        }
      }
      assert p[|es|..] == t.currentPatch[|init|..];
    }
  }

  /** Committing a non-empty pending patch adds exactly that patch as the
      newest history entry and clears it; an empty one changes nothing. */
  lemma CommitSeals(s: StackState)
    ensures s.currentPatch != [] ==>
      |Commit(s).history| == |s.history| + 1 &&
      Commit(s).history[..|s.history|] == s.history &&
      Commit(s).history[|s.history|] == s.currentPatch &&
      Commit(s).currentPatch == []
    ensures s.currentPatch == [] ==> Commit(s) == s
  {
  }

  /** A second commit with nothing recorded in between changes nothing. */
  lemma CommitIdempotent(s: StackState)
    ensures Commit(Commit(s)) == Commit(s)
  {
  }

  /** Committing a non-empty pending patch is appending it to a stack whose
      pending patch has been cleared. */
  lemma CommitIsAppendOfPending(s: StackState)
    requires s.currentPatch != []
    ensures Commit(s) == Append(StackState(s.history, []), s.currentPatch)
  {
  }

  /** Pop hands back the patch just appended and restores the stack. */
  lemma PopAfterAppend(s: StackState, patch: Patch)
    ensures Pop(Append(s, patch)) == (Some(patch), s)
  {
    assert (s.history + [patch])[..|s.history|] == s.history;
  }

  /** Pop returns the newest entry and shortens history by it, returns
      nothing on an empty history, and never touches the pending patch. */
  lemma PopReturnsNewest(s: StackState)
    ensures Pop(s).1.currentPatch == s.currentPatch
    ensures s.history == [] <==> Pop(s).0.None?
    ensures s.history == [] ==> Pop(s).1 == s
    ensures s.history != [] ==> Pop(s).1.history + [Pop(s).0.value] == s.history
  {
  }

  /** Appended patches come back in reverse order: popping as many times as
      patches were appended returns the newest first and restores the stack. */
  lemma {:induction false} LastInFirstOut(s: StackState, ps: seq<Patch>)
    ensures |PopMany(AppendAll(s, ps), |ps|).0| == |ps|
    ensures forall i :: 0 <= i < |ps| ==> PopMany(AppendAll(s, ps), |ps|).0[i] == Some(ps[|ps| - 1 - i])
    ensures PopMany(AppendAll(s, ps), |ps|).1 == s
  {
    if ps != [] {
      var init := ps[..|ps| - 1];
      var last := ps[|ps| - 1];
      LastInFirstOut(s, init);
      PopAfterAppend(AppendAll(s, init), last);
      var got := PopMany(AppendAll(s, ps), |ps|).0;
      var rest := PopMany(AppendAll(s, init), |init|).0;
      assert got == [Some(last)] + rest;
      forall i | 0 <= i < |ps|
        ensures got[i] == Some(ps[|ps| - 1 - i])
      {
        if i > 0 {
          assert got[i] == rest[i - 1] == Some(init[|init| - 1 - (i - 1)]);
        }
      }
    }
  }

  /** Emptying the history and then committing leaves exactly the pending
      patch, if any, as the only history entry. */
  lemma EmptyKeepsPending(s: StackState)
    ensures Empty(s).currentPatch == s.currentPatch
    ensures Commit(Empty(s)).history == if s.currentPatch == [] then [] else [s.currentPatch]
  {
  }
}

/** The editor's event stack: an object whose two sequences are updated in
    place by each operation. */
module Undo {
  import opened Events
  import M = StackModel

  class EventStack {
    var history: seq<Patch>
    var currentPatch: Patch

    /** The abstract value of this stack. */
    function State(): M.StackState
      reads this
    {
      M.StackState(history, currentPatch)
    }

    constructor ()
      ensures State() == M.Init()
    {
      history := [];
      currentPatch := [];
    }

    method Push(event: Event)
      modifies this
      ensures State() == M.Push(old(State()), event)
    {
      currentPatch := [event] + currentPatch;
    }

    method Append(patch: Patch)
      modifies this
      ensures State() == M.Append(old(State()), patch)
    {
      history := history + [patch];
    }

    method Pop() returns (r: Option<Patch>)
      modifies this
      ensures (r, State()) == M.Pop(old(State()))
    {
      if history == [] {
        r := None;
      } else {
        r := Some(history[|history| - 1]);
        history := history[..|history| - 1];
      }
    }

    method Empty()
      modifies this
      ensures State() == M.Empty(old(State()))
    {
      history := [];
    }

    method Commit()
      modifies this
      ensures State() == M.Commit(old(State()))
    {
      if currentPatch != [] {
        history := history + [currentPatch];
        currentPatch := [];
      }
    }
  }
}
