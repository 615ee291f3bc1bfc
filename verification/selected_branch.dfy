/**
  Selected-output branches: the first case whose predicate passes consumes the
  input. The library has two implementations, a recursion over stored cases and a
  fold with flags; a third component, route selection, states the choice alone.
 */
module SelectedBranch {
  import opened Core
  import opened FanIn

  /** The result of a run and the events it reported. */
  datatype Report = Report(result: Result, log: seq<Event>)

  predicate Homogeneous(cases: seq<Case>) {
    forall i :: 0 <= i < |cases| ==> cases[i].out == cases[0].out
  }

  /** A heterogeneous branch wraps its output at the variant index of the case. */
  function SuccessValue(cases: seq<Case>, i: nat, v: Value): Value {
    if Homogeneous(cases) then v else Variant(i, v)
  }

  function UnselectedError(id: StageId): Error {
    Error(id, ContractViolationCategory, "no branch predicate selected a case")
  }

  function StagePair(br: Branch, i: nat): seq<Event>
    requires i < |br.cases|
  {
    [StageStart(Sid(br, i)), StageClose(Sid(br, i), OutcomeOf(br, i))]
  }

  function StageResult(br: Branch, i: nat): Result
    requires i < |br.cases|
  {
    var outcome := OutcomeOf(br, i);
    if outcome.Yield? then Ok(SuccessValue(br.cases, i, outcome.value)) else Fail(OutcomeError(Sid(br, i), outcome))
  }

  /** The recursion over the cases from i on. */
  function RunCases(br: Branch, i: nat): Report
    requires i <= |br.cases|
    decreases |br.cases| - i
  {
    if i == |br.cases| then Report(Fail(UnselectedError(br.id)), [])
    else
      var verdict := VerdictOf(br, i);
      if !verdict.Says? then Report(Fail(PredicateError(Pid(br, i), verdict)), PredicateEvents(br, i))
      else if verdict.answer then
        Report(StageResult(br, i), PredicateEvents(br, i) + [CaseSelected(br.id, i, Pid(br, i))] + StagePair(br, i))
      else
        var rest := RunCases(br, i + 1);
        Report(rest.result, PredicateEvents(br, i) + [CaseSkipped(br.id, i, Pid(br, i))] + rest.log)
  }

  /** A branch error that carries a message is prefixed with the node's name. */
  function Prefixed(name: string, r: Result): Result {
    if r.Fail? && r.error.message != "" then Fail(r.error.(message := "[" + name + "] " + r.error.message)) else r
  }

  // ---------------------------------------------------------------- the fold

  class EventSink {
    var log: seq<Event>

    constructor ()
      ensures log == []
    {
      log := [];
    }

    method Notify(event: Event)
      modifies this
      ensures log == old(log) + [event]
    {
      log := log + [event];
    }
  }

  method EvaluatePredicate(br: Branch, i: nat, sink: EventSink) returns (verdict: Verdict)
    requires i < |br.cases|
    modifies sink
    ensures verdict == VerdictOf(br, i) && sink.log == old(sink.log) + PredicateEvents(br, i)
  {
    sink.Notify(StageStart(Pid(br, i)));
    verdict := br.cases[i].test.judge(br.input);
    sink.Notify(PredicateClose(Pid(br, i), verdict));
  }

  method RunBranchStage(br: Branch, i: nat, sink: EventSink) returns (result: Result)
    requires i < |br.cases|
    modifies sink
    ensures result == StageResult(br, i) && sink.log == old(sink.log) + StagePair(br, i)
  {
    sink.Notify(StageStart(Sid(br, i)));
    var outcome := Call(br.cases[i].action.body, br.input);
    sink.Notify(StageClose(Sid(br, i), outcome));
    if outcome.Yield? {
      result := Ok(SuccessValue(br.cases, i, outcome.value));
    } else {
      result := Fail(OutcomeError(Sid(br, i), outcome));
    }
  }

  /** The events of one visit to an undecided case. */
  function VisitEvents(br: Branch, i: nat): seq<Event>
    requires i < |br.cases|
  {
    var verdict := VerdictOf(br, i);
    PredicateEvents(br, i)
    + if !verdict.Says? then []
      else if verdict.answer then [CaseSelected(br.id, i, Pid(br, i))] + StagePair(br, i)
      else [CaseSkipped(br.id, i, Pid(br, i))]
  }

  /** One visit of the fold to a case that is reached undecided. */
  method ProcessCase(br: Branch, i: nat, sink: EventSink) returns (matched: bool, hasError: bool, output: Result)
    requires i < |br.cases|
    modifies sink
    ensures matched <==> VerdictOf(br, i) == Says(true)
    ensures hasError <==> !VerdictOf(br, i).Says?
    ensures matched ==> output == StageResult(br, i)
    ensures hasError ==> output == Fail(PredicateError(Pid(br, i), VerdictOf(br, i)))
    ensures !matched && !hasError ==> output == Fail(UnselectedError(br.id))
    ensures sink.log == old(sink.log) + VisitEvents(br, i)
  {
    var verdict := EvaluatePredicate(br, i, sink);
    matched, hasError, output := false, false, Fail(UnselectedError(br.id));
    if !verdict.Says? {
      hasError := true;
      output := Fail(PredicateError(Pid(br, i), verdict));
    } else if verdict.answer {
      matched := true;
      sink.Notify(CaseSelected(br.id, i, Pid(br, i)));
      output := RunBranchStage(br, i, sink);
    } else {
      sink.Notify(CaseSkipped(br.id, i, Pid(br, i)));
    }
  }

  lemma RunCasesVisits(br: Branch, i: nat)
    requires i < |br.cases|
    ensures RunCases(br, i).log ==
            VisitEvents(br, i) + if VerdictOf(br, i) == Says(false) then RunCases(br, i + 1).log else []
    ensures RunCases(br, i).result ==
            if !VerdictOf(br, i).Says? then Fail(PredicateError(Pid(br, i), VerdictOf(br, i)))
            else if VerdictOf(br, i).answer then StageResult(br, i)
            else RunCases(br, i + 1).result
  {
  }

  /** Undecided before case i, the run is still to come from there; decided, it is all there. */
  ghost predicate FoldedTo(br: Branch, i: nat, start: seq<Event>, decided: bool, output: Result, log: seq<Event>)
    requires i <= |br.cases|
  {
    var whole, rest := RunCases(br, 0), RunCases(br, i);
    if decided then output == whole.result && log == start + whole.log
    else output == Fail(UnselectedError(br.id)) && whole.result == rest.result && start + whole.log == log + rest.log
  }

  lemma VisitFolds(br: Branch, i: nat, start: seq<Event>, log: seq<Event>, output: Result)
    requires i < |br.cases| && FoldedTo(br, i, start, false, Fail(UnselectedError(br.id)), log)
    requires output == if VerdictOf(br, i) == Says(false) then Fail(UnselectedError(br.id)) else RunCases(br, i).result
    ensures FoldedTo(br, i + 1, start, VerdictOf(br, i) != Says(false), output, log + VisitEvents(br, i))
  {
    RunCasesVisits(br, i);
    if VerdictOf(br, i) == Says(false) {
      assert log + (VisitEvents(br, i) + RunCases(br, i + 1).log) == log + VisitEvents(br, i) + RunCases(br, i + 1).log;
    } else {
      assert VisitEvents(br, i) + [] == VisitEvents(br, i);
    }
  }

  /** Every case is visited; the flags make the visits after a match or an error empty. */
  method FoldCases(br: Branch, sink: EventSink) returns (output: Result)
    modifies sink
    ensures Report(output, sink.log) == Report(RunCases(br, 0).result, old(sink.log) + RunCases(br, 0).log)
  {
    var matched, hasError := false, false;
    output := Fail(UnselectedError(br.id));
    for i := 0 to |br.cases|
      invariant FoldedTo(br, i, old(sink.log), matched || hasError, output, sink.log)
    {
      if !matched && !hasError {
        ghost var log := sink.log;
        matched, hasError, output := ProcessCase(br, i, sink);
        RunCasesVisits(br, i);
        VisitFolds(br, i, old(sink.log), log, output);
      }
    }
  }

  // ---------------------------------------------------------------- route selection

  datatype Route<T> = Selection(selected: T) | NoRoute(message: string)

  function FirstMatch(matches: seq<bool>, i: nat): Option<nat>
    requires i <= |matches|
    decreases |matches| - i
  {
    if i == |matches| then None else if matches[i] then Some(i) else FirstMatch(matches, i + 1)
  }

  /** The index loop with early return; a wrong number of answers is refused. */
  method SelectRoute<T>(cases: seq<T>, matches: seq<bool>) returns (route: Route<T>)
    ensures |matches| != |cases| ==> route == NoRoute("branch route predicate count mismatch")
    ensures |matches| == |cases| ==>
              match FirstMatch(matches, 0)
              case Some(i) => i < |cases| && route == Selection(cases[i])
              case None => route == NoRoute("no branch route matched")
  {
    FirstMatchIsFirst(matches, 0);
    if |matches| != |cases| {
      return NoRoute("branch route predicate count mismatch");
    }
    for index := 0 to |cases|
      invariant FirstMatch(matches, 0) == FirstMatch(matches, index)
    {
      if matches[index] {
        return Selection(cases[index]);
      }
    }
    return NoRoute("no branch route matched");
  }

  lemma {:induction false} FirstMatchIsFirst(matches: seq<bool>, i: nat)
    requires i <= |matches|
    ensures FirstMatch(matches, i).None? <==> forall j :: i <= j < |matches| ==> !matches[j]
    ensures FirstMatch(matches, i).Some? ==>
              var k := FirstMatch(matches, i).value;
              i <= k < |matches| && matches[k] && forall j :: i <= j < k ==> !matches[j]
    decreases |matches| - i
  {
    if i < |matches| && !matches[i] {
      FirstMatchIsFirst(matches, i + 1);
    }
  }

  // ---------------------------------------------------------------- what a branch run does

  /** The answers of all predicates, as route selection would be given them. */
  function Answers(br: Branch): seq<bool> {
    seq(|br.cases|, j requires 0 <= j < |br.cases| => VerdictOf(br, j) == Says(true))
  }

  /** The first case whose predicate does not say no. */
  function Decisive(br: Branch, i: nat): (k: nat)
    requires i <= |br.cases|
    ensures i <= k <= |br.cases|
    ensures forall j :: i <= j < k ==> VerdictOf(br, j) == Says(false)
    ensures k < |br.cases| ==> VerdictOf(br, k) != Says(false)
    decreases |br.cases| - i
  {
    if i == |br.cases| || VerdictOf(br, i) != Says(false) then i else Decisive(br, i + 1)
  }

  function SkippedEvents(br: Branch, i: nat, k: nat): seq<Event>
    requires i <= k <= |br.cases|
    decreases k - i
  {
    if i == k then []
    else PredicateEvents(br, i) + [CaseSkipped(br.id, i, Pid(br, i))] + SkippedEvents(br, i + 1, k)
  }

  lemma {:induction false} RunCasesClosed(br: Branch, i: nat)
    requires i <= |br.cases|
    ensures var k := Decisive(br, i);
            && RunCases(br, i).result == RunCases(br, k).result
            && RunCases(br, i).log == SkippedEvents(br, i, k) + RunCases(br, k).log
    decreases |br.cases| - i
  {
    var k := Decisive(br, i);
    if i < k {
      RunCasesVisits(br, i);
      RunCasesClosed(br, i + 1);
      assert VisitEvents(br, i) + (SkippedEvents(br, i + 1, k) + RunCases(br, k).log)
          == (VisitEvents(br, i) + SkippedEvents(br, i + 1, k)) + RunCases(br, k).log;
    }
  }

  /**
    A branch run evaluates the predicates up to the decisive one and none after it. A
    passing decisive predicate is the case route selection picks, and its success sits at
    that case's variant index; a failing one is the result; without one nothing was selected.
   */
  lemma BranchRunsTheRoutedCase(br: Branch)
    ensures var k, r := Decisive(br, 0), RunCases(br, 0);
            if k == |br.cases| then
              && FirstMatch(Answers(br), 0).None?
              && r == Report(Fail(UnselectedError(br.id)), SkippedEvents(br, 0, k))
            else if VerdictOf(br, k).Says? then
              && FirstMatch(Answers(br), 0) == Some(k)
              && r.log == SkippedEvents(br, 0, k) + PredicateEvents(br, k)
                          + [CaseSelected(br.id, k, Pid(br, k))] + StagePair(br, k)
              && (r.result.Ok? <==> OutcomeOf(br, k).Yield?)
              && (r.result.Ok? && !Homogeneous(br.cases) ==> r.result.value == Variant(k, OutcomeOf(br, k).value))
              && (r.result.Ok? && Homogeneous(br.cases) ==> r.result.value == OutcomeOf(br, k).value)
            else
              r == Report(Fail(PredicateError(Pid(br, k), VerdictOf(br, k))),
                          SkippedEvents(br, 0, k) + PredicateEvents(br, k))
  {
    var k := Decisive(br, 0);
    RunCasesClosed(br, 0);
    FirstMatchIsFirst(Answers(br), 0);
    if k == |br.cases| {
      assert SkippedEvents(br, 0, k) + [] == SkippedEvents(br, 0, k);
    } else if VerdictOf(br, k).Says? {
      assert Answers(br)[k];
      assert forall j :: 0 <= j < k ==> !Answers(br)[j];
    }
  }
}
