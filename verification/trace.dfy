/**
  The observer trace of a run as a word of starts and closes: it is well nested, and
  its outermost events walk through the stage list.
 */
module Trace {
  import opened Core
  import opened FanIn
  import opened FanInRefinement
  import opened SelectedBranch
  import opened Engine

  import P = ParallelFanIn

  predicate Opens(e: Event) {
    e.StageStart?
  }

  predicate Closes(e: Event) {
    e.StageSuccess? || e.StageFailure? || e.StageException?
  }

  /** Reads a trace on a stack of open stages; a close that does not match the newest one is refused. */
  function Nest(log: seq<Event>, open: seq<StageId>): Option<seq<StageId>> {
    if log == [] then Some(open)
    else
      var e, rest := log[0], log[1..];
      if Opens(e) then Nest(rest, open + [e.id])
      else if !Closes(e) then Nest(rest, open)
      else if open == [] || open[|open| - 1] != e.id then None
      else Nest(rest, open[..|open| - 1])
  }

  /** Every start is closed once, by an event of the same stage, innermost first. */
  predicate WellNested(log: seq<Event>) {
    Nest(log, []) == Some([])
  }

  /** The starts and closes outside every other stage. */
  function Outermost(log: seq<Event>, depth: int): seq<Event> {
    if log == [] then []
    else
      var e, rest := log[0], log[1..];
      if Opens(e) then (if depth == 0 then [e] else []) + Outermost(rest, depth + 1)
      else if Closes(e) then (if depth == 1 then [e] else []) + Outermost(rest, depth - 1)
      else Outermost(rest, depth)
  }

  // ---------------------------------------------------------------- composing well-nested traces

  lemma {:induction false} NestConcat(a: seq<Event>, b: seq<Event>, open: seq<StageId>)
    requires Nest(a, open).Some?
    ensures Nest(a + b, open) == Nest(b, Nest(a, open).value)
  {
    if a == [] {
      assert a + b == b;
    } else {
      var e := a[0];
      assert (a + b)[1..] == a[1..] + b;
      NestConcat(a[1..], b, if Opens(e) then open + [e.id] else if Closes(e) then open[..|open| - 1] else open);
    }
  }

  /** What is already open does not matter to a trace that closes all it opens. */
  lemma {:induction false} NestBelow(log: seq<Event>, below: seq<StageId>, open: seq<StageId>)
    requires Nest(log, open).Some?
    ensures Nest(log, below + open) == Some(below + Nest(log, open).value)
  {
    if log != [] {
      var e := log[0];
      if Opens(e) {
        assert below + (open + [e.id]) == (below + open) + [e.id];
        NestBelow(log[1..], below, open + [e.id]);
      } else if Closes(e) {
        assert (below + open)[..|below + open| - 1] == below + open[..|open| - 1];
        NestBelow(log[1..], below, open[..|open| - 1]);
      } else {
        NestBelow(log[1..], below, open);
      }
    }
  }

  lemma WellNestedConcat(a: seq<Event>, b: seq<Event>)
    requires WellNested(a) && WellNested(b)
    ensures WellNested(a + b)
  {
    NestConcat(a, b, []);
  }

  /** A stage around a well-nested trace. */
  lemma WellNestedStage(start: Event, inner: seq<Event>, close: Event)
    requires Opens(start) && Closes(close) && start.id == close.id && WellNested(inner)
    ensures WellNested([start] + inner + [close])
  {
    var word := [start] + inner + [close];
    assert word[0] == start && word[1..] == inner + [close];
    NestBelow(inner, [start.id], []);
    assert [start.id] + [] == [start.id];
    NestConcat(inner, [close], [start.id]);
    assert [] + [start.id] == [start.id];
    assert Nest([close], [start.id]) == Some([]);
  }

  lemma WellNestedNote(note: Event)
    requires !Opens(note) && !Closes(note)
    ensures WellNested([note])
  {
  }

  lemma WellNestedPair(start: Event, close: Event)
    requires Opens(start) && Closes(close) && start.id == close.id
    ensures WellNested([start, close])
  {
    WellNestedStage(start, [], close);
    assert [start] + [] + [close] == [start, close];
  }

  // ---------------------------------------------------------------- outermost events

  /** Below an open stage a trace that closes no more than it opens contributes nothing. */
  lemma {:induction false} OutermostInside(a: seq<Event>, b: seq<Event>, depth: int, open: seq<StageId>)
    requires depth >= 1 && Nest(a, open).Some?
    ensures Outermost(a + b, depth + |open|) == Outermost(b, depth + |Nest(a, open).value|)
  {
    if a == [] {
      assert a + b == b;
    } else {
      var e := a[0];
      assert (a + b)[1..] == a[1..] + b;
      OutermostInside(a[1..], b, depth,
                      if Opens(e) then open + [e.id] else if Closes(e) then open[..|open| - 1] else open);
    }
  }

  /** A stage in front of a trace contributes its start and its close. */
  lemma OutermostStage(start: Event, inner: seq<Event>, close: Event, rest: seq<Event>)
    requires Opens(start) && Closes(close) && WellNested(inner)
    ensures Outermost([start] + inner + [close] + rest, 0) == [start, close] + Outermost(rest, 0)
  {
    var word := [start] + inner + [close] + rest;
    assert word[0] == start && word[1..] == inner + ([close] + rest);
    OutermostInside(inner, [close] + rest, 1, []);
    assert ([close] + rest)[1..] == rest;
    assert [start] + ([close] + Outermost(rest, 0)) == [start, close] + Outermost(rest, 0);
  }

  // ---------------------------------------------------------------- branches

  lemma PredicateIsNested(br: Branch, i: nat)
    requires i < |br.cases|
    ensures WellNested(PredicateEvents(br, i))
  {
    WellNestedPair(StageStart(Pid(br, i)), PredicateClose(Pid(br, i), VerdictOf(br, i)));
  }

  lemma VisitIsNested(br: Branch, i: nat)
    requires i < |br.cases|
    ensures WellNested(VisitEvents(br, i))
  {
    var verdict := VerdictOf(br, i);
    var pair := PredicateEvents(br, i);
    PredicateIsNested(br, i);
    if !verdict.Says? {
      assert pair + [] == pair;
    } else if verdict.answer {
      var note := CaseSelected(br.id, i, Pid(br, i));
      WellNestedNote(note);
      WellNestedPair(StageStart(Sid(br, i)), StageClose(Sid(br, i), OutcomeOf(br, i)));
      WellNestedConcat([note], StagePair(br, i));
      WellNestedConcat(pair, [note] + StagePair(br, i));
    } else {
      var note := CaseSkipped(br.id, i, Pid(br, i));
      WellNestedNote(note);
      WellNestedConcat(pair, [note]);
    }
  }

  lemma {:induction false} SelectedBranchIsNested(br: Branch, i: nat)
    requires i <= |br.cases|
    ensures WellNested(RunCases(br, i).log)
    decreases |br.cases| - i
  {
    if i < |br.cases| {
      RunCasesVisits(br, i);
      VisitIsNested(br, i);
      if VerdictOf(br, i) == Says(false) {
        SelectedBranchIsNested(br, i + 1);
        WellNestedConcat(VisitEvents(br, i), RunCases(br, i + 1).log);
      } else {
        assert VisitEvents(br, i) + [] == VisitEvents(br, i);
      }
    }
  }

  lemma StageEventsAreNested(br: Branch, j: nat)
    requires j < |br.cases|
    ensures WellNested(StageEvents(br, j))
  {
    var outcome := OutcomeOf(br, j);
    var pair := [StageStart(Sid(br, j)), StageClose(Sid(br, j), outcome)];
    WellNestedPair(pair[0], pair[1]);
    if outcome.Yield? {
      assert pair + [] == pair;
    } else {
      var note := CaseFailed(br.id, j, Sid(br, j), OutcomeError(Sid(br, j), outcome));
      WellNestedNote(note);
      WellNestedConcat(pair, [note]);
    }
  }

  /** The events of one fan-in case, on any thread, are well nested. */
  lemma FanInCaseIsNested(br: Branch, j: nat, cut: nat)
    requires j < |br.cases|
    ensures WellNested(P.CaseEvents(br, j, cut))
  {
    PredicateIsNested(br, j);
    if !VerdictOf(br, j).Says? {
      var note := CaseFailed(br.id, j, Pid(br, j), PredicateError(Pid(br, j), VerdictOf(br, j)));
      WellNestedNote(note);
      WellNestedConcat(PredicateEvents(br, j), [note]);
    } else if P.Selected(br, j, cut) {
      var selected, scheduled := CaseSelected(br.id, j, Pid(br, j)), FanInCaseScheduled(br.id, j, Sid(br, j));
      var report := ReportEvent(br, j, OutcomeOf(br, j).Yield?);
      WellNestedNote(selected);
      WellNestedNote(scheduled);
      WellNestedConcat([selected], [scheduled]);
      assert [selected] + [scheduled] == [selected, scheduled];
      StageEventsAreNested(br, j);
      WellNestedNote(report);
      WellNestedConcat([selected, scheduled], StageEvents(br, j));
      WellNestedConcat([selected, scheduled] + StageEvents(br, j), [report]);
      WellNestedConcat(PredicateEvents(br, j), [selected, scheduled] + StageEvents(br, j) + [report]);
    } else {
      var note := CaseSkipped(br.id, j, Pid(br, j));
      WellNestedNote(note);
      WellNestedConcat(PredicateEvents(br, j), [note]);
    }
  }

  lemma EventsOfOwn(log: seq<Entry>, j: int, events: seq<Event>)
    ensures Events(log + Own(j, events)) == Events(log) + events
  {
  }

  lemma {:induction false} FanInCasesAreNested(br: Branch, j: nat, p: Progress)
    requires j <= |br.cases| == |p.slots| && WellNested(Events(p.log))
    requires forall i :: j <= i < |br.cases| ==> p.slots[i] == EMPTY_SLOT
    ensures WellNested(Events(RunFanInCases(br, j, p).log))
    decreases |br.cases| - j
  {
    if j < |br.cases| {
      RunFanInCaseTable(br, j, p);
      EventsOfOwn(p.log, j, P.CaseEvents(br, j, |br.cases|));
      FanInCaseIsNested(br, j, |br.cases|);
      WellNestedConcat(Events(p.log), P.CaseEvents(br, j, |br.cases|));
      FanInCasesAreNested(br, j + 1, RunFanInCase(br, j, p));
    }
  }

  lemma OpenedIsNested(br: Branch)
    ensures WellNested(Events(Opened(br).log))
  {
    var started := FanInStarted(br.id, |br.cases|);
    WellNestedNote(started);
    assert Events(Opened(br).log) == [started];
  }

  /** A report of the node itself keeps a trace well nested. */
  lemma NodeNoteIsNested(log: seq<Entry>, note: Event)
    requires WellNested(Events(log)) && !Opens(note) && !Closes(note)
    ensures WellNested(Events(log + Own(NODE, [note])))
  {
    EventsOfOwn(log, NODE, [note]);
    WellNestedNote(note);
    WellNestedConcat(Events(log), [note]);
  }

  lemma FanInIsNested(br: Branch)
    ensures WellNested(Events(RunFanInBranch(br).log))
  {
    OpenedIsNested(br);
    FanInCasesAreNested(br, 0, Opened(br));
    var p := RunFanInCases(br, 0, Opened(br));
    NodeNoteIsNested(p.log, CompletedEvent(br, p.tally));
  }

  // ---------------------------------------------------------------- runs

  lemma InvocationIsNested(stage: Stage, k: nat, v: Value)
    ensures WellNested(Invoke(stage, k, v).log)
  {
    match stage {
      case Simple(_, _, _, _) =>
      case SelectedBranch(_) => SelectedBranchIsNested(BranchFor(stage, k, v), 0);
      case FanInBranch(_) => FanInIsNested(BranchFor(stage, k, v));
    }
  }

  /** The outermost events of a run: the stages k, k + 1, ... in order, all but the last of them successful. */
  ghost predicate Walks(stages: seq<Stage>, k: nat, top: seq<Event>, result: Result)
    requires k <= |stages|
  {
    var n := |top| / 2;
    && |top| % 2 == 0
    && k + n <= |stages|
    && (forall i :: 0 <= i < n ==>
          && top[2 * i] == StageStart(StageIdFor(stages[k + i], k + i))
          && Closes(top[2 * i + 1]) && top[2 * i + 1].id == StageIdFor(stages[k + i], k + i))
    && (forall i :: 0 <= i < n - 1 ==> top[2 * i + 1].StageSuccess?)
    && (result.Ok? ==> k + n == |stages|)
    && (result.Fail? <==> n > 0 && !top[2 * n - 1].StageSuccess?)
  }

  lemma WalksFurther(stages: seq<Stage>, k: nat, top: seq<Event>, result: Result)
    requires k < |stages| && Walks(stages, k + 1, top, result)
    ensures var id := StageIdFor(stages[k], k);
            Walks(stages, k, [StageStart(id), StageSuccess(id)] + top, result)
  {
    var id := StageIdFor(stages[k], k);
    var whole := [StageStart(id), StageSuccess(id)] + top;
    var n := |whole| / 2;
    forall i | 0 <= i < n
      ensures whole[2 * i] == StageStart(StageIdFor(stages[k + i], k + i))
      ensures Closes(whole[2 * i + 1]) && whole[2 * i + 1].id == StageIdFor(stages[k + i], k + i)
      ensures i < n - 1 ==> whole[2 * i + 1].StageSuccess?
    {
      if i > 0 {
        assert whole[2 * i] == top[2 * (i - 1)] && whole[2 * i + 1] == top[2 * (i - 1) + 1];
      }
    }
  }

  /**
    Main result on traces. Every try_run reports a well-nested word whose outermost stages
    are a prefix of the list, each started after the previous one succeeded; the result is
    an error exactly when the last one did not succeed, and a value only after all of them.
   */
  lemma {:induction false} TryRunIsNested(stages: seq<Stage>, k: nat, v: Value)
    requires k <= |stages|
    ensures var r := TryRun(stages, k, v);
            WellNested(r.log) && Walks(stages, k, Outermost(r.log, 0), r.result)
    decreases |stages| - k
  {
    if k < |stages| {
      var id, call := StageIdFor(stages[k], k), Invoke(stages[k], k, v);
      InvocationIsNested(stages[k], k, v);
      WellNestedStage(StageStart(id), call.log, StageClose(id, call.outcome));
      if call.outcome.Yield? {
        TryRunIsNested(stages, k + 1, call.outcome.value);
        YieldingStageIsNested(stages, k, v);
      } else {
        StoppingStageIsNested(stages, k, v);
      }
    }
  }

  lemma YieldingStageIsNested(stages: seq<Stage>, k: nat, v: Value)
    requires k < |stages| && Invoke(stages[k], k, v).outcome.Yield?
    requires WellNested(Invoke(stages[k], k, v).log)
    requires WellNested(StageLog(StageIdFor(stages[k], k), Invoke(stages[k], k, v)))
    requires var rest := TryRun(stages, k + 1, Invoke(stages[k], k, v).outcome.value);
             WellNested(rest.log) && Walks(stages, k + 1, Outermost(rest.log, 0), rest.result)
    ensures var r := TryRun(stages, k, v);
            WellNested(r.log) && Walks(stages, k, Outermost(r.log, 0), r.result)
  {
    var id, call := StageIdFor(stages[k], k), Invoke(stages[k], k, v);
    var rest := TryRun(stages, k + 1, call.outcome.value);
    WellNestedConcat(StageLog(id, call), rest.log);
    OutermostStage(StageStart(id), call.log, StageClose(id, call.outcome), rest.log);
    WalksFurther(stages, k, Outermost(rest.log, 0), rest.result);
  }

  lemma StoppingStageIsNested(stages: seq<Stage>, k: nat, v: Value)
    requires k < |stages| && !Invoke(stages[k], k, v).outcome.Yield?
    requires WellNested(Invoke(stages[k], k, v).log)
    requires WellNested(StageLog(StageIdFor(stages[k], k), Invoke(stages[k], k, v)))
    ensures var r := TryRun(stages, k, v);
            WellNested(r.log) && Walks(stages, k, Outermost(r.log, 0), r.result)
  {
    var id, call := StageIdFor(stages[k], k), Invoke(stages[k], k, v);
    var start, close := StageStart(id), StageClose(id, call.outcome);
    OutermostStage(start, call.log, close, []);
    assert StageLog(id, call) + [] == StageLog(id, call);
    assert Outermost(StageLog(id, call), 0) == [start, close];
    assert TryRun(stages, k, v) == Report(Fail(OutcomeError(id, call.outcome)), StageLog(id, call));
  }

  lemma {:induction false} RecategorizedNests(log: seq<Event>, open: seq<StageId>)
    ensures Nest(RecategorizedLog(log), open) == Nest(log, open)
  {
    if log != [] {
      var e := log[0];
      assert RecategorizedLog(log)[1..] == RecategorizedLog(log[1..]);
      if Opens(e) {
        RecategorizedNests(log[1..], open + [e.id]);
      } else if !Closes(e) {
        RecategorizedNests(log[1..], open);
      } else if open != [] {
        RecategorizedNests(log[1..], open[..|open| - 1]);
      }
    }
  }

  lemma {:induction false} EchoesAreCloses(stages: seq<Stage>, k: nat, at: nat, t: Thrown)
    requires k < at < |stages|
    ensures var echoes := Echoes(stages, k, at, t); echoes != [] && Closes(echoes[0])
    decreases at - k
  {
    if k + 1 < at {
      EchoesAreCloses(stages, k + 1, at, t);
    } else {
      assert Echoes(stages, k + 1, at, t) == [];
    }
  }

  /** The trace of a run with a foreign error type is well nested unless a stage after the first throws. */
  lemma ForeignTraceNesting(stages: seq<Stage>, v: Value)
    requires UniformErrors(stages, ForeignErrors)
    ensures var stop := StopOf(stages, 0, v);
            WellNested(RunAfter(stages, 0, v, ForeignErrors).log)
            <==> !(stop.StopsAt? && stop.index > 0 && stop.outcome.Throw?)
  {
    var stop, log := StopOf(stages, 0, v), TryRun(stages, 0, v).log;
    ForeignRun(stages, 0, v);
    TryRunIsNested(stages, 0, v);
    RecategorizedNests(log, []);
    if stop.StopsAt? && stop.outcome.Throw? {
      var echoes := Echoes(stages, 0, stop.index, stop.outcome.thrown);
      NestConcat(log, echoes, []);
      if stop.index > 0 {
        EchoesAreCloses(stages, 0, stop.index, stop.outcome.thrown);
      } else {
        assert log + echoes == log;
      }
    }
  }

  // ---------------------------------------------------------------- an instance

  /** A stage whose error type is foreign and which passes its input on. */
  const PASSING := Simple(Meta("first", "first"), Base(0), Base(0),
                          Callable(t => t == Base(0), Expected(v => Yield(v))))

  /** A stage that throws on every input. */
  const THROWING := Simple(Meta("second", "second"), Base(0), Base(0),
                           Callable(t => t == Base(0), Plain(v => Raise(UnknownException))))

  /** Two stages, the second of which throws: run reports the first one's end twice, try_run does not. */
  lemma ForeignTraceExample(v: Value)
    ensures var stages := [PASSING, THROWING];
            && UniformErrors(stages, ForeignErrors)
            && |TryRun(stages, 0, v).log| == 4 && |Run(stages, v, ForeignErrors).log| == 5
            && Run(stages, v, ForeignErrors).result == Escaped(UnknownException)
            && !WellNested(Run(stages, v, ForeignErrors).log)
  {
    var stages := [PASSING, THROWING];
    assert Invoke(stages[0], 0, v) == Invocation(Yield(v), []);
    assert Invoke(stages[1], 1, v) == Invocation(Throw(UnknownException), []);
    assert StopOf(stages, 1, v) == StopsAt(1, Throw(UnknownException));
    assert StopOf(stages, 0, v) == StopsAt(1, Throw(UnknownException));
    assert ReturnsResult(stages[0]);
    ForeignRun(stages, 0, v);
    ForeignTraceNesting(stages, v);
    EchoesCount(stages, 0, 1, UnknownException);
    assert |TryRun(stages, 1, v).log| == 2;
  }
}
