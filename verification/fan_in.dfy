/**
  Sequential fan-in: every predicate is evaluated in declaration order and every
  passing case stage runs at once. This recursion is the specification that the
  thread-pool backend has to meet.
 */
module FanIn {
  import opened Core

  /** One fan-in node applied to one input, with the identities its cases are reported under. */
  datatype Branch = Branch(id: StageId, cases: seq<Case>, input: Value,
                           predicateIds: nat -> StageId, stageIds: nat -> StageId)

  function BranchFor(stage: Stage, index: nat, input: Value): Branch
    requires !stage.Simple?
  {
    var id := StageIdFor(stage, index);
    var n := |stage.cases|;
    Branch(id, stage.cases, input,
           (j: nat) => if j < n then PredicateId(id, j, stage.cases[j]) else NO_STAGE,
           (j: nat) => if j < n then CaseStageId(id, j, stage.cases[j]) else NO_STAGE)
  }

  /** A logged observer event with the case that emitted it; NODE marks events of the node itself. */
  datatype Entry = Entry(owner: int, event: Event)

  const NODE := -1

  datatype Tally = Tally(selected: int, completed: int, failed: int)

  datatype Progress = Progress(slots: seq<Slot>, tally: Tally, log: seq<Entry>)

  // ---------------------------------------------------------------- one case

  function VerdictOf(br: Branch, j: nat): Verdict
    requires j < |br.cases|
  {
    br.cases[j].test.judge(br.input)
  }

  function OutcomeOf(br: Branch, j: nat): Outcome
    requires j < |br.cases|
  {
    Call(br.cases[j].action.body, br.input)
  }

  function Pid(br: Branch, j: nat): StageId
    requires j < |br.cases|
  {
    br.predicateIds(j)
  }

  function Sid(br: Branch, j: nat): StageId
    requires j < |br.cases|
  {
    br.stageIds(j)
  }

  function StageSlot(br: Branch, j: nat): Slot
    requires j < |br.cases|
  {
    var outcome := OutcomeOf(br, j);
    if outcome.Yield? then MarkCompleted(outcome.value) else MarkFailed(OutcomeError(Sid(br, j), outcome).message)
  }

  function PredicateEvents(br: Branch, j: nat): seq<Event>
    requires j < |br.cases|
  {
    [StageStart(Pid(br, j)), PredicateClose(Pid(br, j), VerdictOf(br, j))]
  }

  function StageEvents(br: Branch, j: nat): seq<Event>
    requires j < |br.cases|
  {
    var outcome := OutcomeOf(br, j);
    [StageStart(Sid(br, j)), StageClose(Sid(br, j), outcome)]
    + if outcome.Yield? then [] else [CaseFailed(br.id, j, Sid(br, j), OutcomeError(Sid(br, j), outcome))]
  }

  function ReportEvent(br: Branch, j: nat, success: bool): Event
    requires j < |br.cases|
  {
    FanInCaseCompleted(br.id, j, Sid(br, j), success)
  }

  // ---------------------------------------------------------------- the log by owner

  function Own(j: int, events: seq<Event>): seq<Entry> {
    seq(|events|, i requires 0 <= i < |events| => Entry(j, events[i]))
  }

  /** The events one owner emitted, in order. */
  function Project(log: seq<Entry>, owner: int): seq<Event> {
    if log == [] then []
    else
      var last := log[|log| - 1];
      Project(log[..|log| - 1], owner) + if last.owner == owner then [last.event] else []
  }

  lemma ProjectAppend(log: seq<Entry>, e: Entry, owner: int)
    ensures Project(log + [e], owner) == Project(log, owner) + if e.owner == owner then [e.event] else []
  {
    assert (log + [e])[..|log|] == log;
  }

  lemma {:induction false} ProjectConcat(a: seq<Entry>, b: seq<Entry>, owner: int)
    ensures Project(a + b, owner) == Project(a, owner) + Project(b, owner)
  {
    if b == [] {
      assert a + b == a;
    } else {
      var last := b[|b| - 1];
      assert a + b == (a + b[..|b| - 1]) + [last];
      assert b == b[..|b| - 1] + [last];
      ProjectConcat(a, b[..|b| - 1], owner);
      ProjectAppend(a + b[..|b| - 1], last, owner);
    }
  }

  lemma {:induction false} ProjectOwn(j: int, events: seq<Event>, owner: int)
    ensures Project(Own(j, events), owner) == if owner == j then events else []
  {
    if events != [] {
      var init := events[..|events| - 1];
      assert Own(j, events) == Own(j, init) + [Entry(j, events[|events| - 1])];
      assert events == init + [events[|events| - 1]];
      ProjectAppend(Own(j, init), Entry(j, events[|events| - 1]), owner);
      ProjectOwn(j, init, owner);
    }
  }

  // ---------------------------------------------------------------- the recursion

  function Emit(p: Progress, j: int, events: seq<Event>): Progress {
    p.(log := p.log + Own(j, events))
  }

  /** Runs the branch stage of a selected case and files its slot. */
  function RunCaseStage(br: Branch, j: nat, p: Progress): Progress
    requires j < |br.cases| == |p.slots|
  {
    Emit(p.(slots := p.slots[j := StageSlot(br, j)]), j, StageEvents(br, j))
  }

  function RunSelectedCase(br: Branch, j: nat, p: Progress): Progress
    requires j < |br.cases| == |p.slots|
  {
    var selected := p.(tally := p.tally.(selected := p.tally.selected + 1));
    var announced := Emit(selected, j, [CaseSelected(br.id, j, Pid(br, j)), FanInCaseScheduled(br.id, j, Sid(br, j))]);
    var ran := RunCaseStage(br, j, announced);
    var success := ran.slots[j].state != Failed;
    var tallied := ran.(tally :=
                        if success then ran.tally.(completed := ran.tally.completed + 1)
                        else ran.tally.(failed := ran.tally.failed + 1));
    Emit(tallied, j, [ReportEvent(br, j, success)])
  }

  function RunFanInCase(br: Branch, j: nat, p: Progress): Progress
    requires j < |br.cases| == |p.slots|
  {
    var evaluated := Emit(p, j, PredicateEvents(br, j));
    var verdict := VerdictOf(br, j);
    if !verdict.Says? then
      var error := PredicateError(Pid(br, j), verdict);
      var marked := evaluated.(slots := evaluated.slots[j := MarkFailed(error.message)],
                               tally := evaluated.tally.(failed := evaluated.tally.failed + 1));
      Emit(marked, j, [CaseFailed(br.id, j, Pid(br, j), error)])
    else if verdict.answer then RunSelectedCase(br, j, evaluated)
    else Emit(evaluated, j, [CaseSkipped(br.id, j, Pid(br, j))])
  }

  function RunFanInCases(br: Branch, j: nat, p: Progress): (r: Progress)
    requires j <= |br.cases| == |p.slots|
    ensures |r.slots| == |br.cases|
    decreases |br.cases| - j
  {
    if j == |br.cases| then p else RunFanInCases(br, j + 1, RunFanInCase(br, j, p))
  }

  function Opened(br: Branch): Progress {
    Emit(Progress(seq(|br.cases|, _ => EMPTY_SLOT), Tally(0, 0, 0), []), NODE, [FanInStarted(br.id, |br.cases|)])
  }

  function CompletedEvent(br: Branch, t: Tally): Event {
    FanInCompleted(br.id, t.selected, t.completed, t.failed)
  }

  function RunFanInBranch(br: Branch): (r: Progress)
    ensures |r.slots| == |br.cases|
  {
    var p := RunFanInCases(br, 0, Opened(br));
    Emit(p, NODE, [CompletedEvent(br, p.tally)])
  }
}
