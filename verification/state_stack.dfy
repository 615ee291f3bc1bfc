/**
  The per-thread stack of active states. A frame pushes its state when it is made and
  removes the newest entry for that state when it is destroyed.
 */
module StateStack {
  import opened Core

  /** The address of a state object. */
  type Ref = nat

  predicate LastAt(s: seq<Ref>, v: Ref, i: nat) {
    i < |s| && s[i] == v && forall j :: i < j < |s| ==> s[j] != v
  }

  /** The stack without its newest entry for a state. */
  function Popped(s: seq<Ref>, v: Ref): seq<Ref> {
    if s == [] then []
    else if s[|s| - 1] == v then s[..|s| - 1]
    else Popped(s[..|s| - 1], v) + [s[|s| - 1]]
  }

  function Top(s: seq<Ref>): Option<Ref> {
    if s == [] then None else Some(s[|s| - 1])
  }

  lemma {:induction false} PoppedRemovesLast(s: seq<Ref>, v: Ref, i: nat)
    requires LastAt(s, v, i)
    ensures Popped(s, v) == RemoveAt(s, i)
  {
    if i < |s| - 1 {
      PoppedRemovesLast(s[..|s| - 1], v, i);
      assert RemoveAt(s, i) == RemoveAt(s[..|s| - 1], i) + [s[|s| - 1]];
    } else {
      assert RemoveAt(s, i) == s[..|s| - 1];
    }
  }

  lemma {:induction false} PoppedMissing(s: seq<Ref>, v: Ref)
    requires v !in s
    ensures Popped(s, v) == s
  {
    if s != [] {
      PoppedMissing(s[..|s| - 1], v);
    }
  }

  // ---------------------------------------------------------------- the stack of one thread

  class ThreadStack {
    var entries: seq<Ref>

    constructor ()
      ensures entries == []
    {
      entries := [];
    }

    method Push(v: Ref)
      modifies this
      ensures entries == old(entries) + [v]
    {
      entries := entries + [v];
    }

    /** The common case drops the newest entry; otherwise the entry is searched for from the back. */
    method Pop(v: Ref)
      modifies this
      ensures entries == Popped(old(entries), v)
    {
      if entries == [] {
        return;
      }
      if entries[|entries| - 1] == v {
        entries := entries[..|entries| - 1];
        return;
      }
      var i := |entries| - 1;
      while i >= 0 && entries[i] != v
        invariant -1 <= i < |entries| && entries == old(entries)
        invariant forall j :: i < j < |entries| ==> entries[j] != v
      {
        i := i - 1;
      }
      if i >= 0 {
        PoppedRemovesLast(entries, v, i);
        entries := RemoveAt(entries, i);
      } else {
        PoppedMissing(entries, v);
      }
    }
  }

  // ---------------------------------------------------------------- frames destroyed in any order

  datatype Frame = Frame(id: nat, state: Ref)

  datatype FrameStep = Enter(frame: Frame) | Leave(index: nat)

  /** The live frames in the order they were made, and the stack they left. */
  datatype Thread = Thread(live: seq<Frame>, entries: seq<Ref>)

  function States(live: seq<Frame>): seq<Ref> {
    seq(|live|, i requires 0 <= i < |live| => live[i].state)
  }

  predicate Distinct(s: seq<Ref>) {
    forall i, j :: 0 <= i < j < |s| ==> s[i] != s[j]
  }

  function TakeStep(t: Thread, step: FrameStep): Thread {
    match step
    case Enter(frame) => Thread(t.live + [frame], t.entries + [frame.state])
    case Leave(index) =>
      if index < |t.live| then Thread(RemoveAt(t.live, index), Popped(t.entries, t.live[index].state)) else t
  }

  function TakeSteps(steps: seq<FrameStep>): Thread {
    if steps == [] then Thread([], [])
    else TakeStep(TakeSteps(steps[..|steps| - 1]), steps[|steps| - 1])
  }

  /** At every moment of a run the live frames are over different states. */
  predicate AlwaysDistinct(steps: seq<FrameStep>) {
    Distinct(States(TakeSteps(steps).live)) && (steps != [] ==> AlwaysDistinct(steps[..|steps| - 1]))
  }

  lemma LeaveDistinct(live: seq<Frame>, i: nat)
    requires i < |live| && Distinct(States(live))
    ensures Popped(States(live), live[i].state) == States(RemoveAt(live, i))
  {
    assert States(live)[i] == live[i].state;
    PoppedRemovesLast(States(live), live[i].state, i);
    assert States(RemoveAt(live, i)) == RemoveAt(States(live), i);
  }

  lemma EnterExtends(live: seq<Frame>, frame: Frame)
    ensures States(live + [frame]) == States(live) + [frame.state]
  {
  }

  lemma {:induction false} EntriesAreLiveFrames(steps: seq<FrameStep>)
    requires AlwaysDistinct(steps)
    ensures TakeSteps(steps).entries == States(TakeSteps(steps).live)
  {
    if steps != [] {
      var init, last := steps[..|steps| - 1], steps[|steps| - 1];
      EntriesAreLiveFrames(init);
      var live := TakeSteps(init).live;
      if last.Enter? {
        EnterExtends(live, last.frame);
      } else if last.index < |live| {
        assert Distinct(States(live));
        LeaveDistinct(live, last.index);
      }
    }
  }

  /** Frames over different states may be destroyed in any order: the stack is always the live frames, oldest first. */
  lemma StackIsLiveFrames(steps: seq<FrameStep>)
    requires AlwaysDistinct(steps)
    ensures var t := TakeSteps(steps);
            && t.entries == States(t.live)
            && Top(t.entries) == if t.live == [] then None else Some(t.live[|t.live| - 1].state)
  {
    EntriesAreLiveFrames(steps);
    NewestState(TakeSteps(steps).live);
  }

  lemma NewestState(live: seq<Frame>)
    ensures Top(States(live)) == if live == [] then None else Some(live[|live| - 1].state)
  {
  }

  lemma {:induction false} SameRemoval(s: seq<Ref>, i: nat, m: nat)
    requires i <= m < |s|
    ensures RemoveAt(s, i) == RemoveAt(s, m) <==> forall j :: i <= j <= m ==> s[j] == s[m]
    decreases m - i
  {
    if RemoveAt(s, i) == RemoveAt(s, m) {
      var k := m;
      while k > i
        invariant i <= k <= m
        invariant forall j :: k <= j <= m ==> s[j] == s[m]
      {
        k := k - 1;
        assert RemoveAt(s, i)[k] == s[k + 1] && RemoveAt(s, m)[k] == s[k];
      }
    }
  }

  /**
    Without distinct states the stack stays right exactly when the frames from the destroyed
    one up to the newest over its state are all over that state; otherwise the older frame's
    entry stays in place of the newer one's.
   */
  lemma PopIsExact(live: seq<Frame>, i: nat, m: nat)
    requires i <= m < |live| && LastAt(States(live), live[i].state, m)
    ensures Popped(States(live), live[i].state) == States(RemoveAt(live, i))
            <==> forall j :: i <= j <= m ==> live[j].state == live[i].state
  {
    PoppedRemovesLast(States(live), live[i].state, m);
    SameRemoval(States(live), i, m);
    assert States(RemoveAt(live, i)) == RemoveAt(States(live), i);
    if forall j :: i <= j <= m ==> States(live)[j] == States(live)[m] {
      forall j | i <= j <= m ensures live[j].state == live[i].state {
        assert States(live)[j] == States(live)[m] == live[m].state;
      }
    }
    if forall j :: i <= j <= m ==> live[j].state == live[i].state {
      assert forall j :: i <= j <= m ==> States(live)[j] == States(live)[m];
    }
  }

  /** Two frames over one state with another between: destroying the older leaves the wrong state active. */
  lemma OutOfOrderExample()
    ensures var steps := [Enter(Frame(0, 7)), Enter(Frame(1, 8)), Enter(Frame(2, 7)), Leave(0)];
            var t := TakeSteps(steps);
            States(t.live) == [8, 7] && t.entries == [7, 8] && Top(t.entries) == Some(8)
  {
    var a, b, c := Frame(0, 7), Frame(1, 8), Frame(2, 7);
    var steps := [Enter(a), Enter(b), Enter(c), Leave(0)];
    assert steps[..3] == [Enter(a), Enter(b), Enter(c)];
    ThreeFrames(a, b, c);
    assert RemoveAt([a, b, c], 0) == [b, c];
  }

  lemma ThreeFrames(a: Frame, b: Frame, c: Frame)
    ensures TakeSteps([Enter(a), Enter(b), Enter(c)]) == Thread([a, b, c], [a.state, b.state, c.state])
  {
    var steps := [Enter(a), Enter(b), Enter(c)];
    assert steps[..2] == [Enter(a), Enter(b)] && steps[..2][..1] == [Enter(a)] && steps[..2][..1][..0] == [];
    assert TakeSteps(steps[..2][..1]) == Thread([a], [a.state]);
    assert TakeSteps(steps[..2]) == Thread([a, b], [a.state, b.state]);
  }

  // ---------------------------------------------------------------- lexically nested frames

  /** What a thread does inside stages: reading the active state, throwing, catching, and running under a frame. */
  datatype Action =
    | Read
    | Raise
    | Catch(guarded: seq<Action>)
    | Under(state: Ref, body: seq<Action>)

  datatype Execution = Execution(entries: seq<Ref>, seen: seq<Option<Ref>>, raised: bool)

  function RunAction(a: Action, entries: seq<Ref>): Execution
    decreases a
  {
    match a
    case Read => Execution(entries, [Top(entries)], false)
    case Raise => Execution(entries, [], true)
    case Catch(guarded) => RunActions(guarded, entries).(raised := false)
    case Under(state, body) =>
      var inner := RunActions(body, entries + [state]);
      inner.(entries := Popped(inner.entries, state))
  }

  function RunActions(actions: seq<Action>, entries: seq<Ref>): Execution
    decreases actions
  {
    if actions == [] then Execution(entries, [], false)
    else
      var first := RunAction(actions[0], entries);
      if first.raised then first
      else
        var rest := RunActions(actions[1..], first.entries);
        rest.(seen := first.seen + rest.seen)
  }

  /** The reads of a program by its text alone: each sees the state of the frame around it. */
  function Meaning(a: Action, around: Option<Ref>): (seq<Option<Ref>>, bool)
    decreases a
  {
    match a
    case Read => ([around], false)
    case Raise => ([], true)
    case Catch(guarded) => (Meanings(guarded, around).0, false)
    case Under(state, body) => Meanings(body, Some(state))
  }

  function Meanings(actions: seq<Action>, around: Option<Ref>): (seq<Option<Ref>>, bool)
    decreases actions
  {
    if actions == [] then ([], false)
    else
      var first := Meaning(actions[0], around);
      if first.1 then first
      else
        var rest := Meanings(actions[1..], around);
        (first.0 + rest.0, rest.1)
  }

  lemma {:induction false} ActionRestoresStack(a: Action, entries: seq<Ref>)
    ensures RunAction(a, entries) == Execution(entries, Meaning(a, Top(entries)).0, Meaning(a, Top(entries)).1)
    decreases a
  {
    match a {
      case Read =>
      case Raise =>
      case Catch(guarded) => NestedFramesRestoreStack(guarded, entries);
      case Under(state, body) =>
        NestedFramesRestoreStack(body, entries + [state]);
        assert (entries + [state])[..|entries|] == entries;
    }
  }

  /**
    Lexically nested frames, whether or not they repeat a state and however they are left:
    the stack on exit is the stack on entry, and every read sees the frame around it.
   */
  lemma {:induction false} NestedFramesRestoreStack(actions: seq<Action>, entries: seq<Ref>)
    ensures var meaning := Meanings(actions, Top(entries));
            RunActions(actions, entries) == Execution(entries, meaning.0, meaning.1)
    decreases actions
  {
    if actions != [] {
      ActionRestoresStack(actions[0], entries);
      if !RunAction(actions[0], entries).raised {
        NestedFramesRestoreStack(actions[1..], entries);
      }
    }
  }
}
