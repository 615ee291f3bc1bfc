/**
  The fan-in by its rules: what each slot holds, what each case reports and what the node
  reports, in the sequential recursion and in every interleaving of the parallel run.
 */
module FanInRules {
  import opened Core
  import opened FanIn
  import opened ParallelFanIn
  import opened ParallelFanInInvariant
  import opened FanInRefinement
  import opened Rules

  import FanInShutdown

  /** The node a stage stands for: its own cases and input under its own identities. */
  lemma BranchForMeans(stage: Stage, k: nat, v: Value, j: nat)
    requires !stage.Simple? && j < |stage.cases|
    ensures var br := BranchFor(stage, k, v);
            && IsStageId(stage, k, br.id) && br.cases == stage.cases && br.input == v
            && IsPredicateId(br.id, j, stage.cases[j], br.predicateIds(j))
            && IsCaseStageId(br.id, j, stage.cases[j], br.stageIds(j))
  {
    var br := BranchFor(stage, k, v);
    StageIdIs(stage, k, br.id);
    CaseIdsAre(br.id, j, stage.cases[j], br.predicateIds(j));
    CaseIdsAre(br.id, j, stage.cases[j], br.stageIds(j));
  }

  // ---------------------------------------------------------------- what a case reports

  /** A case whose stage ran: selected, scheduled, its stage's start and close, its failure, its completion. */
  predicate RunTrace(branch: StageId, j: nat, pid: StageId, sid: StageId, o: Outcome, events: seq<Event>) {
    && |events| == (if o.Yield? then 7 else 8)
    && events[2] == CaseSelected(branch, j, pid)
    && events[3] == FanInCaseScheduled(branch, j, sid)
    && events[4] == StageStart(sid)
    && ClosesCall(sid, o, events[5])
    && (!o.Yield? ==> IsCaseFailure(branch, j, sid, events[6]) && Reported(sid, o, events[6].error))
    && events[|events| - 1] == FanInCaseCompleted(branch, j, sid, o.Yield?)
  }

  predicate IsCaseFailure(branch: StageId, j: nat, id: StageId, event: Event) {
    event.CaseFailed? && event.branch == branch && event.caseIndex == j && event.caseId == id
  }

  /** All a case reports, from its predicate's verdict, how its stage ends, and whether it was let run. */
  predicate CaseTrace(branch: StageId, j: nat, pid: StageId, sid: StageId,
                      verdict: Verdict, o: Outcome, runs: bool, events: seq<Event>) {
    && |events| >= 3
    && events[0] == StageStart(pid)
    && ClosesPredicate(pid, verdict, events[1])
    && if !verdict.Says? then
         |events| == 3 && IsCaseFailure(branch, j, pid, events[2]) && VerdictReported(pid, verdict, events[2].error)
       else if verdict.answer && runs then RunTrace(branch, j, pid, sid, o, events)
       else |events| == 3 && events[2] == CaseSkipped(branch, j, pid)
  }

  /** A case that was scheduled and whose post was refused. */
  predicate RefusedTrace(branch: StageId, j: nat, pid: StageId, sid: StageId, events: seq<Event>) {
    events == [StageStart(pid), StageSuccess(pid), CaseSelected(branch, j, pid), FanInCaseScheduled(branch, j, sid)]
  }

  lemma CaseTraceIs(br: Branch, j: nat, cut: nat)
    requires j < |br.cases|
    ensures CaseTrace(br.id, j, br.predicateIds(j), br.stageIds(j),
                      br.cases[j].test.judge(br.input), OutcomeOf(br, j), j < cut, CaseEvents(br, j, cut))
  {
    var pid, verdict := Pid(br, j), VerdictOf(br, j);
    PredicateIsClosed(pid, verdict, PredicateClose(pid, verdict));
    if !verdict.Says? {
      VerdictIsReported(pid, verdict, PredicateError(pid, verdict));
    } else if Selected(br, j, cut) {
      RunTraceIs(br, j, cut);
    }
  }

  lemma RunTraceIs(br: Branch, j: nat, cut: nat)
    requires j < |br.cases| && Selected(br, j, cut)
    ensures RunTrace(br.id, j, br.predicateIds(j), br.stageIds(j), OutcomeOf(br, j), CaseEvents(br, j, cut))
  {
    var sid, o := Sid(br, j), OutcomeOf(br, j);
    CallIsClosed(sid, o, StageClose(sid, o));
    if !o.Yield? {
      ErrorIsReported(sid, o, OutcomeError(sid, o));
    }
  }

  // ---------------------------------------------------------------- one case of a run

  lemma FinalSlotIs(br: Branch, j: nat, cut: nat)
    requires j < |br.cases|
    ensures SlotRule(br.cases[j].test.judge(br.input), OutcomeOf(br, j), j < cut, FinalSlot(br, j, cut))
  {
    if VerdictOf(br, j).Says? {
      StageSlotIs(Sid(br, j), OutcomeOf(br, j), FinalSlot(br, j, cut));
    } else {
      FailedPredicateSlotIs(Pid(br, j), VerdictOf(br, j), OutcomeOf(br, j), j < cut, FinalSlot(br, j, cut));
    }
  }

  /** The slot and the events of a case in the sequential run. */
  lemma SequentialCaseByRules(br: Branch, j: nat, o: Outcome)
    requires j < |br.cases| && Ends(br.cases[j].action.body, br.input, o)
    ensures var r, verdict := RunFanInBranch(br), br.cases[j].test.judge(br.input);
            && SlotRule(verdict, o, true, r.slots[j])
            && CaseTrace(br.id, j, br.predicateIds(j), br.stageIds(j), verdict, o, true, Project(r.log, j))
  {
    CallEnds(br.cases[j].action.body, br.input, o);
    SequentialRun(br);
    FinalSlotIs(br, j, |br.cases|);
    CaseTraceIs(br, j, |br.cases|);
  }

  /** The same in every returned parallel run: a case runs unless it is past the cut or its post was refused. */
  lemma ParallelCaseByRules(br: Branch, steps: seq<Step>, t: State, j: nat, o: Outcome)
    requires Runs(br, Init(br), steps, t) && t.phase.Returned?
    requires j < |br.cases| && Ends(br.cases[j].action.body, br.input, o)
    ensures |t.slots| == |t.tasks| == |br.cases|
    ensures var verdict, refused := br.cases[j].test.judge(br.input), t.tasks[j].Refused?;
            && SlotRule(verdict, o, j < t.cut && !refused, t.slots[j])
            && if refused then RefusedTrace(br.id, j, br.predicateIds(j), br.stageIds(j), Project(t.log, j))
               else CaseTrace(br.id, j, br.predicateIds(j), br.stageIds(j), verdict, o, j < t.cut, Project(t.log, j))
  {
    RunsInv(br, steps, t);
    CallEnds(br.cases[j].action.body, br.input, o);
    if t.tasks[j].Refused? {
      assert CaseInv(br, t, j);
      FanInShutdown.ShutdownEvents(br, steps, t, j);
    } else {
      ReturnedCase(br, t, j);
      FinalSlotIs(br, j, t.cut);
      CaseTraceIs(br, j, t.cut);
    }
  }

  /**
    What the caller gets: without a stop or a shutdown every slot of the returned aggregate
    is filled by its own case's rule.
   */
  lemma ParallelValueByRules(br: Branch, steps: seq<Step>, t: State, j: nat, o: Outcome)
    requires Runs(br, Init(br), steps, t) && t.phase.Returned? && StopPool !in steps && RequestStop !in steps
    requires j < |br.cases| && Ends(br.cases[j].action.body, br.input, o)
    ensures t.phase.result.Ok? && t.phase.result.value.Aggregate?
    ensures |t.phase.result.value.slots| == |br.cases|
    ensures SlotRule(br.cases[j].test.judge(br.input), o, true, t.phase.result.value.slots[j])
  {
    UncancelledRunIsSequential(br, steps, t);
    SequentialCaseByRules(br, j, o);
  }

  /** The value a case's stage yields is the value its slot holds, on either backend. */
  lemma CompletedCaseKeepsItsValue(br: Branch, steps: seq<Step>, t: State, j: nat, w: Value)
    requires Runs(br, Init(br), steps, t) && t.phase.Returned? && StopPool !in steps
    requires j < |br.cases| && br.cases[j].test.judge(br.input) == Says(true)
    requires Ends(br.cases[j].action.body, br.input, Yield(w))
    ensures RunFanInBranch(br).slots[j].state == Completed && RunFanInBranch(br).slots[j].value == Some(w)
    ensures RunFanInBranch(br).slots[j].diagnostic == None
    ensures |t.slots| == |br.cases| && t.phase.result.Ok?
    ensures j < t.cut ==>
              && t.slots[j].state == Completed && t.slots[j].value == Some(w) && t.slots[j].diagnostic == None
              && t.phase.result.value.Aggregate? && t.phase.result.value.slots == t.slots
  {
    SequentialCaseByRules(br, j, Yield(w));
    ParallelCaseByRules(br, steps, t, j, Yield(w));
    EveryInterleavingIsSequential(br, steps, t);
    RunningPoolRefusesNothing(br, steps, t);
  }

  lemma RunningPoolRefusesNothing(br: Branch, steps: seq<Step>, t: State)
    requires Runs(br, Init(br), steps, t) && t.phase.Returned? && StopPool !in steps
    ensures |t.tasks| == |br.cases| && forall j :: 0 <= j < |t.tasks| ==> !t.tasks[j].Refused?
    ensures t.phase.result == Ok(Aggregate(t.slots))
  {
    RunsInv(br, steps, t);
    RunsFlags(br, steps, t);
    forall j | 0 <= j < |t.tasks| ensures !t.tasks[j].Refused? {
      assert CaseInv(br, t, j);
    }
  }

  /** A run fails exactly if a post was refused, with the error of a post on a stopped pool and no stage. */
  lemma RefusedRunError(br: Branch, steps: seq<Step>, t: State)
    requires Runs(br, Init(br), steps, t) && t.phase.Returned?
    ensures t.phase.result.Fail? <==> exists j :: 0 <= j < |t.tasks| && t.tasks[j].Refused?
    ensures t.phase.result.Fail? ==>
              var e := t.phase.result.error;
              && e.stage.key == "" && e.stage.name == ""
              && e.category == ExceptionCategory && e.message == "post on stopped thread_pool"
  {
    RunsInv(br, steps, t);
  }

  // ---------------------------------------------------------------- counting

  /** The cases below k whose predicate passes and that come before the cut. */
  ghost function Passing(br: Branch, k: nat, cut: nat): set<nat>
    requires k <= |br.cases|
  {
    set j: nat | j < k && j < cut && br.cases[j].test.judge(br.input) == Says(true)
  }

  ghost function InState(slots: seq<Slot>, state: CaseState): set<nat> {
    set j: nat | j < |slots| && slots[j].state == state
  }

  ghost function RefusedCases(tasks: seq<TaskPc>): set<nat> {
    set j: nat | j < |tasks| && tasks[j].Refused?
  }

  lemma {:induction false} PassingCount(br: Branch, k: nat, cut: nat)
    requires k <= |br.cases|
    ensures |Passing(br, k, cut)| == SelectedCount(br, k, cut)
  {
    if k > 0 {
      PassingCount(br, k - 1, cut);
      var last: set<nat> := if Selected(br, k - 1, cut) then {k - 1} else {};
      assert Passing(br, k, cut) == Passing(br, k - 1, cut) + last;
    }
  }

  lemma {:induction false} InStateCount(slots: seq<Slot>, state: CaseState)
    ensures |InState(slots, state)| == SlotsIn(slots, state)
  {
    if slots != [] {
      var n := |slots| - 1;
      InStateCount(slots[..n], state);
      var last: set<nat> := if slots[n].state == state then {n} else {};
      assert InState(slots, state) == InState(slots[..n], state) + last;
    }
  }

  lemma {:induction false} RefusedCount(tasks: seq<TaskPc>)
    ensures |RefusedCases(tasks)| == RefusedTasks(tasks)
  {
    if tasks != [] {
      var n := |tasks| - 1;
      RefusedCount(tasks[..n]);
      var last: set<nat> := if tasks[n].Refused? then {n} else {};
      assert RefusedCases(tasks) == RefusedCases(tasks[..n]) + last;
    }
  }

  lemma SelectedTally(br: Branch, t: State)
    requires Inv(br, t) && t.phase.Returned?
    ensures t.tally.selected == |Passing(br, |br.cases|, t.cut)|
  {
    PassingCount(br, |br.cases|, t.cut);
  }

  /** What the node reports around its cases, with the numbers as sizes of sets of cases. */
  lemma NodeReports(br: Branch, steps: seq<Step>, t: State)
    requires Runs(br, Init(br), steps, t) && t.phase.Returned?
    ensures |t.log| >= 2 && t.log[0].event == FanInStarted(br.id, |br.cases|)
    ensures var e := t.log[|t.log| - 1].event;
            && e.FanInCompleted? && e.branch == br.id
            && e.selected == |Passing(br, |br.cases|, t.cut)|
            && e.completed == |InState(t.slots, Completed)|
            && e.failed == |InState(t.slots, Failed)| + |RefusedCases(t.tasks)|
  {
    LogIsBracketed(br, steps, t);
    TallyConservation(br, steps, t);
    RunsInv(br, steps, t);
    SelectedTally(br, t);
    InStateCount(t.slots, Completed);
    InStateCount(t.slots, Failed);
    RefusedCount(t.tasks);
  }

  // ---------------------------------------------------------------- the node's own reports in sequence

  lemma {:induction false} LogGrows(br: Branch, j: nat, p: Progress)
    requires j <= |br.cases| == |p.slots|
    ensures p.log <= RunFanInCases(br, j, p).log
    decreases |br.cases| - j
  {
    if j < |br.cases| {
      CaseLogGrows(br, j, p);
      LogGrows(br, j + 1, RunFanInCase(br, j, p));
    }
  }

  lemma CaseLogGrows(br: Branch, j: nat, p: Progress)
    requires j < |br.cases| == |p.slots|
    ensures |RunFanInCase(br, j, p).slots| == |p.slots| && p.log <= RunFanInCase(br, j, p).log
  {
  }

  lemma {:induction false} SequentialPrefix(br: Branch, slots: seq<Slot>, k: nat)
    requires k <= |br.cases| == |slots|
    requires forall j :: 0 <= j < |slots| ==> slots[j] == FinalSlot(br, j, |br.cases|)
    ensures SlotsIn(slots[..k], Completed) == YieldCount(br, k, |br.cases|)
    ensures SlotsIn(slots[..k], Failed)
            == RejectedCount(br, k) + SelectedCount(br, k, |br.cases|) - YieldCount(br, k, |br.cases|)
  {
    if k > 0 {
      SequentialPrefix(br, slots, k - 1);
      assert slots[..k][..k - 1] == slots[..k - 1];
    }
  }

  lemma SequentialCounts(br: Branch)
    ensures var r := RunFanInBranch(br);
            && r.tally.selected == |Passing(br, |br.cases|, |br.cases|)|
            && r.tally.completed == |InState(r.slots, Completed)|
            && r.tally.failed == |InState(r.slots, Failed)|
  {
    var slots := RunFanInBranch(br).slots;
    SequentialRun(br);
    PassingCount(br, |br.cases|, |br.cases|);
    SequentialPrefix(br, slots, |br.cases|);
    assert slots[..|br.cases|] == slots;
    InStateCount(slots, Completed);
    InStateCount(slots, Failed);
  }

  lemma SequentialEnds(br: Branch)
    ensures var r := RunFanInBranch(br);
            && |r.log| >= 2 && r.log[0].event == FanInStarted(br.id, |br.cases|)
            && r.log[|r.log| - 1].event == FanInCompleted(br.id, r.tally.selected, r.tally.completed, r.tally.failed)
  {
    OpenedLog(br, NODE);
    LogGrows(br, 0, Opened(br));
    var p := RunFanInCases(br, 0, Opened(br));
    assert p.log[0] == Opened(br).log[0];
    Closes(p.log, CompletedEvent(br, p.tally));
  }

  lemma Closes(log: seq<Entry>, event: Event)
    ensures var closed := log + Own(NODE, [event]);
            |closed| == |log| + 1 && closed[|closed| - 1].event == event && (log != [] ==> closed[0] == log[0])
  {
  }

  /** The sequential run reports its start first and its completion, with the same numbers, last. */
  lemma SequentialNodeReports(br: Branch)
    ensures var r := RunFanInBranch(br);
            && |r.log| >= 2 && r.log[0].event == FanInStarted(br.id, |br.cases|)
            && var e := r.log[|r.log| - 1].event;
               && e.FanInCompleted? && e.branch == br.id
               && e.selected == |Passing(br, |br.cases|, |br.cases|)|
               && e.completed == |InState(r.slots, Completed)|
               && e.failed == |InState(r.slots, Failed)|
  {
    SequentialEnds(br);
    SequentialCounts(br);
  }
}
