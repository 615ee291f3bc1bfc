/**
  Traces by their rules: what a run reports, event by event, on the fields of the events.
 */
module TraceRules {
  import opened Core
  import opened FanIn
  import opened SelectedBranch
  import opened Engine
  import opened Rules
  import opened RunRules

  import FanInRules

  // ---------------------------------------------------------------- one stage of a list

  /** A stage reports its start, then what happens inside it, then how it ended; the later stages follow a success. */
  lemma StageTraceByRules(stages: seq<Stage>, k: nat, v: Value) returns (id: StageId, close: Event)
    requires k < |stages|
    ensures IsStageId(stages[k], k, id) && ClosesCall(id, Invoke(stages[k], k, v).outcome, close)
    ensures var call := Invoke(stages[k], k, v);
            TryRun(stages, k, v).log
            == [StageStart(id)] + call.log + [close]
               + if call.outcome.Yield? then TryRun(stages, k + 1, call.outcome.value).log else []
  {
    var call := Invoke(stages[k], k, v);
    id := StageIdFor(stages[k], k);
    close := StageClose(id, call.outcome);
    StageIdIs(stages[k], k, id);
    CallIsClosed(id, call.outcome, close);
    assert StageLog(id, call) == [StageStart(id)] + call.log + [close];
    assert StageLog(id, call) + [] == StageLog(id, call);
  }

  /** A simple stage reports nothing from inside. */
  lemma SimpleStageIsQuiet(stage: Stage, k: nat, v: Value)
    requires stage.Simple?
    ensures Invoke(stage, k, v).log == []
  {
  }

  // ---------------------------------------------------------------- inside a selected branch

  /** The three events of a case that declines. */
  predicate SkipTrace(branch: StageId, j: nat, pid: StageId, events: seq<Event>) {
    events == [StageStart(pid), StageSuccess(pid), CaseSkipped(branch, j, pid)]
  }

  /** The events of the case that decides: its predicate, then its selection and its stage if it says yes. */
  predicate DecisionTrace(branch: StageId, k: nat, pid: StageId, sid: StageId,
                          verdict: Verdict, inner: Outcome, events: seq<Event>) {
    && |events| == (if verdict.Says? then 5 else 2)
    && events[0] == StageStart(pid)
    && ClosesPredicate(pid, verdict, events[1])
    && (verdict.Says? ==>
          && events[2] == CaseSelected(branch, k, pid)
          && events[3] == StageStart(sid)
          && ClosesCall(sid, inner, events[4]))
  }

  lemma {:induction false} SkippedTrace(br: Branch, i: nat, k: nat, j: nat)
    requires i <= j < k <= |br.cases| && forall m :: i <= m < k ==> VerdictOf(br, m) == Says(false)
    ensures |SkippedEvents(br, i, k)| == 3 * (k - i)
    ensures SkipTrace(br.id, j, br.predicateIds(j), SkippedEvents(br, i, k)[3 * (j - i)..3 * (j - i) + 3])
    decreases k - i
  {
    var head := PredicateEvents(br, i) + [CaseSkipped(br.id, i, Pid(br, i))];
    var rest := SkippedEvents(br, i + 1, k);
    assert SkippedEvents(br, i, k) == head + rest;
    SkippedLength(br, i + 1, k);
    if i < j {
      SkippedTrace(br, i + 1, k, j);
      var at := 3 * (j - i - 1);
      assert (head + rest)[at + 3..at + 6] == rest[at..at + 3];
    } else {
      assert (head + rest)[..3] == head;
    }
  }

  lemma {:induction false} SkippedLength(br: Branch, i: nat, k: nat)
    requires i <= k <= |br.cases|
    ensures |SkippedEvents(br, i, k)| == 3 * (k - i)
    decreases k - i
  {
    if i < k {
      SkippedLength(br, i + 1, k);
    }
  }

  /** What the deciding case adds to the trace of a branch. */
  lemma DecisionTraceIs(br: Branch, k: nat)
    requires k < |br.cases| && VerdictOf(br, k) != Says(false)
    ensures DecisionTrace(br.id, k, br.predicateIds(k), br.stageIds(k), VerdictOf(br, k), OutcomeOf(br, k),
                          RunCases(br, k).log)
  {
    RunCasesVisits(br, k);
    PredicateIsClosed(Pid(br, k), VerdictOf(br, k), PredicateClose(Pid(br, k), VerdictOf(br, k)));
    CallIsClosed(Sid(br, k), OutcomeOf(br, k), StageClose(Sid(br, k), OutcomeOf(br, k)));
  }

  /** The trace of a branch cut after each declining case. */
  lemma BranchParts(br: Branch, k: nat)
    requires k <= |br.cases| && forall j :: 0 <= j < k ==> VerdictOf(br, j) == Says(false)
    requires k < |br.cases| ==> VerdictOf(br, k) != Says(false)
    ensures var log := RunCases(br, 0).log;
            && |log| >= 3 * k && log[3 * k..] == RunCases(br, k).log
            && forall j :: 0 <= j < k ==> SkipTrace(br.id, j, br.predicateIds(j), log[3 * j..3 * j + 3])
  {
    DecidedAt(br, 0, k);
    RunCasesClosed(br, 0);
    SkippedLength(br, 0, k);
    var skipped, rest := SkippedEvents(br, 0, k), RunCases(br, k).log;
    forall j | 0 <= j < k ensures SkipTrace(br.id, j, br.predicateIds(j), (skipped + rest)[3 * j..3 * j + 3]) {
      SkippedTrace(br, 0, k, j);
      WithinFirst(skipped, rest, 3 * j, 3 * j + 3);
    }
    assert (skipped + rest)[3 * k..] == rest;
  }

  lemma WithinFirst(a: seq<Event>, b: seq<Event>, from: nat, to: nat)
    requires from <= to <= |a|
    ensures (a + b)[from..to] == a[from..to]
  {
  }

  /** All a selected branch reports from inside: the cases that decline, in order, then the one that decides. */
  lemma BranchTraceByRules(stage: Stage, i: nat, v: Value, k: nat, inner: Outcome)
    requires stage.SelectedBranch? && k <= |stage.cases| && DeclinedBefore(stage.cases, v, k)
    requires k < |stage.cases| ==>
               stage.cases[k].test.judge(v) != Says(false) && Ends(stage.cases[k].action.body, v, inner)
    ensures var br, log := BranchFor(stage, i, v), Invoke(stage, i, v).log;
            && |log| >= 3 * k
            && (forall j :: 0 <= j < k ==> SkipTrace(br.id, j, br.predicateIds(j), log[3 * j..3 * j + 3]))
            && if k == |stage.cases| then |log| == 3 * k
               else DecisionTrace(br.id, k, br.predicateIds(k), br.stageIds(k), stage.cases[k].test.judge(v), inner,
                                  log[3 * k..])
  {
    var br := BranchFor(stage, i, v);
    forall j | 0 <= j < k ensures VerdictOf(br, j) == Says(false) {
      assert stage.cases[j].test.judge(v) == Says(false);
    }
    BranchParts(br, k);
    if k < |stage.cases| {
      CallEnds(stage.cases[k].action.body, v, inner);
      DecisionTraceIs(br, k);
    }
  }

  // ---------------------------------------------------------------- inside a fan-in

  /** A fan-in reports its case count first and its completion last, and each case by its rule in between. */
  lemma FanInTraceByRules(stage: Stage, k: nat, v: Value)
    requires stage.FanInBranch?
    ensures var br, log := BranchFor(stage, k, v), Invoke(stage, k, v).log;
            var r := RunFanInBranch(br);
            && |log| == |r.log| >= 2 && (forall i :: 0 <= i < |log| ==> log[i] == r.log[i].event)
            && log[0] == FanInStarted(StageId("fan_in", "fan_in"), |stage.cases|)
            && log[|log| - 1].FanInCompleted?
            && log[|log| - 1].branch == StageId("fan_in", "fan_in")
            && log[|log| - 1].completed == |FanInRules.InState(r.slots, Completed)|
            && log[|log| - 1].failed == |FanInRules.InState(r.slots, Failed)|
    ensures forall j, inner: Outcome :: 0 <= j < |stage.cases| && Ends(stage.cases[j].action.body, v, inner) ==>
              var br := BranchFor(stage, k, v);
              FanInRules.CaseTrace(br.id, j, br.predicateIds(j), br.stageIds(j), stage.cases[j].test.judge(v), inner,
                                   true, Project(RunFanInBranch(br).log, j))
  {
    var br := BranchFor(stage, k, v);
    StageIdIs(stage, k, br.id);
    FanInRules.SequentialNodeReports(br);
    forall j, inner: Outcome | 0 <= j < |stage.cases| && Ends(stage.cases[j].action.body, v, inner)
      ensures FanInRules.CaseTrace(br.id, j, br.predicateIds(j), br.stageIds(j), stage.cases[j].test.judge(v), inner,
                                   true, Project(RunFanInBranch(br).log, j))
    {
      FanInRules.SequentialCaseByRules(br, j, inner);
    }
  }

  // ---------------------------------------------------------------- runs with a foreign error type

  /** A foreign error is handed back as it is and reported under its stage as a stage failure. */
  lemma ForeignRejectByRules(stages: seq<Stage>, v: Value, text: string)
    requires UniformErrors(stages, ForeignErrors) && !Engine.Plain(stages)
    requires StopOf(stages, 0, v).StopsAt? && StopOf(stages, 0, v).outcome == Reject(ForeignError(text))
    ensures var at, r := StopOf(stages, 0, v).index, Run(stages, v, ForeignErrors);
            && at < |stages| && r.result == Rejected(ForeignError(text)) && |r.log| > 0
            && var last := r.log[|r.log| - 1];
               && last.StageFailure? && IsStageId(stages[at], at, last.id)
               && last.error == Error(last.id, StageFailureCategory, text)
  {
    LastForeignEvent(stages, 0, v);
    StageIdIs(stages[StopOf(stages, 0, v).index], StopOf(stages, 0, v).index,
              StageIdFor(stages[StopOf(stages, 0, v).index], StopOf(stages, 0, v).index));
  }

  /** An exception escapes as it is, and the first stage is the last to report it. */
  lemma ForeignThrowByRules(stages: seq<Stage>, v: Value, t: Thrown)
    requires UniformErrors(stages, ForeignErrors) && !Engine.Plain(stages)
    requires StopOf(stages, 0, v).StopsAt? && StopOf(stages, 0, v).outcome == Throw(t)
    ensures var r := Run(stages, v, ForeignErrors);
            && |stages| > 0 && r.result == Escaped(t) && |r.log| > 0
            && var last := r.log[|r.log| - 1];
               && last.StageException? && IsStageId(stages[0], 0, last.id) && ThrownError(last.id, t, last.error)
  {
    LastForeignEvent(stages, 0, v);
    StageIdIs(stages[0], 0, StageIdFor(stages[0], 0));
    ThrownErrorIs(StageIdFor(stages[0], 0), t, ExceptionError(StageIdFor(stages[0], 0), t));
  }

  lemma {:induction false} LastForeignEvent(stages: seq<Stage>, k: nat, v: Value)
    requires k <= |stages| && UniformErrors(stages, ForeignErrors) && StopOf(stages, k, v).StopsAt?
    ensures var stop, r := StopOf(stages, k, v), RunAfter(stages, k, v, ForeignErrors);
            && |r.log| > 0
            && var last := r.log[|r.log| - 1];
               match stop.outcome
               case Reject(ForeignError(text)) =>
                 var id := StageIdFor(stages[stop.index], stop.index);
                 && r.result == Rejected(ForeignError(text))
                 && last == StageFailure(id, Error(id, StageFailureCategory, text))
               case Reject(RuntimeError(_)) => false
               case Throw(t) =>
                 var id := StageIdFor(stages[k], k);
                 r.result == Escaped(t) && last == StageException(id, ExceptionError(id, t))
               case Yield(_) => false
    decreases |stages| - k
  {
    var outcome := Invoke(stages[k], k, v).outcome;
    if outcome.Yield? {
      LastForeignEvent(stages, k + 1, outcome.value);
    } else {
      UniformRejects(stages[k], k, v, ForeignErrors);
    }
  }
}
