/**
  The mutable parts of fan-in execution: the observer, the countdown barrier, the
  cancellation flag, the recursion over an aggregate in place, the completion tally
  and the error envelope.
 */
module FanInRuntime {
  import opened Core
  import opened FanIn
  import opened FanInEnvelope
  import ParallelFanIn

  // ---------------------------------------------------------------- observer

  class Recorder {
    var log: seq<Entry>

    constructor ()
      ensures log == []
    {
      log := [];
    }

    method Emit(owner: int, event: Event)
      modifies this
      ensures log == old(log) + Own(owner, [event])
    {
      log := log + [Entry(owner, event)];
    }
  }

  // ---------------------------------------------------------------- countdown barrier

  /** The error of the earliest failing outcome. */
  function FirstFailure(outcomes: seq<Option<Error>>): Option<Error> {
    if outcomes == [] then None
    else
      var earlier := FirstFailure(outcomes[..|outcomes| - 1]);
      if earlier.Some? then earlier else outcomes[|outcomes| - 1]
  }

  lemma {:induction false} FirstFailureIsEarliest(outcomes: seq<Option<Error>>, k: nat)
    requires k < |outcomes| && outcomes[k].Some?
    requires forall i :: 0 <= i < k ==> outcomes[i].None?
    ensures FirstFailure(outcomes) == outcomes[k]
  {
    var n := |outcomes| - 1;
    if k < n {
      FirstFailureIsEarliest(outcomes[..n], k);
    } else {
      NoFailure(outcomes[..n]);
    }
  }

  lemma {:induction false} NoFailure(outcomes: seq<Option<Error>>)
    requires forall i :: 0 <= i < |outcomes| ==> outcomes[i].None?
    ensures FirstFailure(outcomes) == None
  {
    if outcomes != [] {
      NoFailure(outcomes[..|outcomes| - 1]);
    }
  }

  class TaskGroup {
    var pending: nat
    var firstError: Option<Error>
    ghost var added: nat
    ghost var outcomes: seq<Option<Error>>

    /** The count is exact and the kept error is the earliest one. */
    ghost predicate Valid()
      reads this
    {
      added == pending + |outcomes| && firstError == FirstFailure(outcomes)
    }

    constructor ()
      ensures Valid() && added == 0 && outcomes == []
    {
      pending, firstError, added, outcomes := 0, None, 0, [];
    }

    method Add()
      requires Valid()
      modifies this
      ensures Valid() && added == old(added) + 1 && outcomes == old(outcomes)
    {
      pending := pending + 1;
      added := added + 1;
    }

    /** A finish always finds an added task, so the guard on the count never takes effect. */
    method Finish(outcome: Option<Error>)
      requires Valid() && |outcomes| < added
      modifies this
      ensures Valid() && added == old(added) && outcomes == old(outcomes) + [outcome]
      ensures pending == old(pending) - 1
    {
      if outcome.Some? && firstError.None? {
        firstError := outcome;
      }
      if pending > 0 {
        pending := pending - 1;
      }
      outcomes := outcomes + [outcome];
      assert outcomes[..|outcomes| - 1] == old(outcomes);
    }

    /** The test a waiter makes under the lock. */
    method TryWait() returns (open: bool, result: Option<Error>)
      requires Valid()
      ensures open <==> |outcomes| == added
      ensures open ==> result == FirstFailure(outcomes)
    {
      open, result := pending == 0, firstError;
    }
  }

  // ---------------------------------------------------------------- cancellation

  /** The flag shared by a source and its tokens, with the number of stop requests made so far. */
  class StopFlag {
    var raised: bool
    ghost var requests: nat

    ghost predicate Valid()
      reads this
    {
      raised <==> requests > 0
    }

    constructor ()
      ensures Valid() && requests == 0
    {
      raised, requests := false, 0;
    }

    method Raise()
      modifies this
      ensures Valid() && requests == old(requests) + 1
    {
      raised := true;
      requests := requests + 1;
    }
  }

  /** A view onto a flag; a default token holds none. */
  datatype CancellationToken = CancellationToken(flag: Option<StopFlag>) {
    ghost predicate Valid()
      reads if flag.Some? then {flag.value} else {}
    {
      flag.Some? ==> flag.value.Valid()
    }

    /** Whether a stop was ever requested through the source the token came from. */
    ghost predicate Requested()
      reads if flag.Some? then {flag.value} else {}
    {
      flag.Some? && flag.value.requests > 0
    }

    /** A token reports a stop exactly when one was requested before, however long ago. */
    method StopRequested() returns (r: bool)
      requires Valid()
      ensures r <==> Requested()
    {
      r := flag.Some? && flag.value.raised;
    }

    /** A token that cannot be cancelled never reports a stop, whatever is requested. */
    method CanBeCancelled() returns (r: bool)
      ensures !r ==> !Requested()
      ensures r <==> flag.Some?
    {
      r := flag.Some?;
    }
  }

  class CancellationSource {
    const flag: StopFlag

    ghost predicate Valid()
      reads this, flag
    {
      flag.Valid()
    }

    constructor ()
      ensures Valid() && fresh(flag) && flag.requests == 0
    {
      flag := new StopFlag();
    }

    /** Requests only add up: every token of the source, handed out before or after, stays requested to stop. */
    method RequestStop()
      modifies flag
      ensures Valid() && flag.requests == old(flag.requests) + 1
      ensures CancellationToken(Some(flag)).Requested()
    {
      flag.Raise();
    }

    method Token() returns (token: CancellationToken)
      requires Valid()
      ensures token.Valid() && token == CancellationToken(Some(flag))
      ensures token.Requested() <==> flag.requests > 0
    {
      token := CancellationToken(Some(flag));
    }
  }

  // ---------------------------------------------------------------- sequential fan-in, in place

  class Counters {
    var selected: int
    var completed: int
    var failed: int

    function Value(): Tally
      reads this
    {
      Tally(selected, completed, failed)
    }

    constructor ()
      ensures Value() == Tally(0, 0, 0)
    {
      selected, completed, failed := 0, 0, 0;
    }
  }

  /** One slot as the object the case stage updates. */
  class CaseResult {
    var state: CaseState
    var value: Option<Value>
    var diagnostic: Option<string>

    function AsSlot(): Slot
      reads this
    {
      Slot(state, value, diagnostic)
    }

    constructor ()
      ensures AsSlot() == EMPTY_SLOT
      ensures state == Skipped && value == None && diagnostic == None
    {
      state, value, diagnostic := Skipped, None, None;
    }

    /** Whatever the slot held, a completion leaves the value and no diagnostic. */
    method Complete(nextValue: Value)
      modifies this
      ensures AsSlot() == MarkCompleted(nextValue)
      ensures state == Completed && value == Some(nextValue) && diagnostic == None
    {
      state := Completed;
      value := Some(nextValue);
      diagnostic := None;
    }

    /** Whatever the slot held, a failure leaves the message and no value. */
    method Fail(message: string)
      modifies this
      ensures AsSlot() == MarkFailed(message)
      ensures state == Failed && value == None && diagnostic == Some(message)
    {
      state := Failed;
      value := None;
      diagnostic := Some(message);
    }
  }

  /** The slots of an aggregate are different objects. */
  ghost predicate Distinct(aggregate: seq<CaseResult>) {
    forall i, j :: 0 <= i < j < |aggregate| ==> aggregate[i] != aggregate[j]
  }

  function Slots(aggregate: seq<CaseResult>): (slots: seq<Slot>)
    reads aggregate
    ensures |slots| == |aggregate| && forall i :: 0 <= i < |slots| ==> slots[i] == aggregate[i].AsSlot()
  {
    seq(|aggregate|, i requires 0 <= i < |aggregate| reads aggregate => aggregate[i].AsSlot())
  }

  method NewAggregate(n: nat) returns (aggregate: seq<CaseResult>)
    ensures |aggregate| == n && Distinct(aggregate) && fresh(aggregate)
    ensures Slots(aggregate) == seq(n, _ => EMPTY_SLOT)
  {
    aggregate := [];
    for i := 0 to n
      invariant |aggregate| == i && Distinct(aggregate) && fresh(aggregate)
      invariant forall j :: 0 <= j < i ==> aggregate[j].AsSlot() == EMPTY_SLOT
    {
      var slot := new CaseResult();
      aggregate := aggregate + [slot];
    }
  }

  method CompleteSlot(aggregate: seq<CaseResult>, j: nat, value: Value)
    requires j < |aggregate| && Distinct(aggregate)
    modifies aggregate[j]
    ensures Slots(aggregate) == old(Slots(aggregate))[j := MarkCompleted(value)]
  {
    aggregate[j].Complete(value);
  }

  method FailSlot(aggregate: seq<CaseResult>, j: nat, message: string)
    requires j < |aggregate| && Distinct(aggregate)
    modifies aggregate[j]
    ensures Slots(aggregate) == old(Slots(aggregate))[j := MarkFailed(message)]
  {
    aggregate[j].Fail(message);
  }

  ghost function Gathered(aggregate: seq<CaseResult>, tally: Counters, sink: Recorder): Progress
    reads aggregate, tally, sink
  {
    Progress(Slots(aggregate), tally.Value(), sink.log)
  }

  method EvaluatePredicate(br: Branch, j: nat, sink: Recorder) returns (verdict: Verdict)
    requires j < |br.cases|
    modifies sink
    ensures verdict == VerdictOf(br, j) && sink.log == old(sink.log) + Own(j, PredicateEvents(br, j))
  {
    sink.Emit(j, StageStart(Pid(br, j)));
    verdict := br.cases[j].test.judge(br.input);
    sink.Emit(j, PredicateClose(Pid(br, j), verdict));
  }

  lemma OwnConcat(j: int, a: seq<Event>, b: seq<Event>)
    ensures Own(j, a + b) == Own(j, a) + Own(j, b)
  {
  }

  /** How a stage call ends: its slot is filed and its close reported, a failure with the case's failure after it. */
  method FileOutcome(br: Branch, j: nat, called: Outcome, aggregate: seq<CaseResult>, sink: Recorder)
    requires j < |br.cases| == |aggregate| && Distinct(aggregate) && called == OutcomeOf(br, j)
    modifies aggregate[j], sink
    ensures Slots(aggregate) == old(Slots(aggregate))[j := StageSlot(br, j)]
    ensures sink.log == old(sink.log) + Own(j, StageEvents(br, j)[1..])
  {
    ghost var close := StageClose(Sid(br, j), called);
    if called.Yield? {
      CompleteSlot(aggregate, j, called.value);
      sink.Emit(j, StageClose(Sid(br, j), called));
      assert StageEvents(br, j)[1..] == [close];
    } else {
      var error := OutcomeError(Sid(br, j), called);
      FailSlot(aggregate, j, error.message);
      sink.Emit(j, StageClose(Sid(br, j), called));
      sink.Emit(j, CaseFailed(br.id, j, Sid(br, j), error));
      OwnConcat(j, [close], [CaseFailed(br.id, j, Sid(br, j), error)]);
      assert StageEvents(br, j)[1..] == [close] + [CaseFailed(br.id, j, Sid(br, j), error)];
    }
  }

  /** The failure of a stage is filed in its slot and reported; the outcome handed back is always a success. */
  method RunCaseStage(br: Branch, j: nat, aggregate: seq<CaseResult>, sink: Recorder) returns (outcome: Option<Error>)
    requires j < |br.cases| == |aggregate| && Distinct(aggregate)
    modifies aggregate[j], sink
    ensures outcome == None
    ensures Slots(aggregate) == old(Slots(aggregate))[j := StageSlot(br, j)]
    ensures sink.log == old(sink.log) + Own(j, StageEvents(br, j))
  {
    sink.Emit(j, StageStart(Sid(br, j)));
    var called := Call(br.cases[j].action.body, br.input);
    FileOutcome(br, j, called, aggregate, sink);
    OwnConcat(j, [StageStart(Sid(br, j))], StageEvents(br, j)[1..]);
    assert StageEvents(br, j) == [StageStart(Sid(br, j))] + StageEvents(br, j)[1..];
    outcome := None;
  }

  /** A selected case is counted, and reported selected and scheduled, before its stage runs. */
  method Announce(br: Branch, j: nat, tally: Counters, sink: Recorder)
    requires j < |br.cases|
    modifies tally, sink
    ensures tally.Value() == old(tally.Value()).(selected := old(tally.selected) + 1)
    ensures sink.log == old(sink.log)
                        + Own(j, [CaseSelected(br.id, j, Pid(br, j)), FanInCaseScheduled(br.id, j, Sid(br, j))])
  {
    tally.selected := tally.selected + 1;
    sink.Emit(j, CaseSelected(br.id, j, Pid(br, j)));
    sink.Emit(j, FanInCaseScheduled(br.id, j, Sid(br, j)));
    OwnConcat(j, [CaseSelected(br.id, j, Pid(br, j))], [FanInCaseScheduled(br.id, j, Sid(br, j))]);
    assert [CaseSelected(br.id, j, Pid(br, j))] + [FanInCaseScheduled(br.id, j, Sid(br, j))]
        == [CaseSelected(br.id, j, Pid(br, j)), FanInCaseScheduled(br.id, j, Sid(br, j))];
  }

  method CountCase(tally: Counters, success: bool)
    modifies tally
    ensures tally.Value() == if success then old(tally.Value()).(completed := old(tally.completed) + 1)
                             else old(tally.Value()).(failed := old(tally.failed) + 1)
  {
    if success {
      tally.completed := tally.completed + 1;
    } else {
      tally.failed := tally.failed + 1;
    }
  }

  method RunSelected(br: Branch, j: nat, aggregate: seq<CaseResult>, tally: Counters, sink: Recorder)
    returns (outcome: Option<Error>)
    requires j < |br.cases| == |aggregate| && Distinct(aggregate)
    modifies aggregate[j], tally, sink
    ensures outcome == None
    ensures Gathered(aggregate, tally, sink) == RunSelectedCase(br, j, old(Gathered(aggregate, tally, sink)))
  {
    Announce(br, j, tally, sink);
    outcome := RunCaseStage(br, j, aggregate, sink);
    var success := aggregate[j].state != Failed;
    CountCase(tally, success);
    sink.Emit(j, ReportEvent(br, j, success));
  }

  method RunOneCase(br: Branch, j: nat, aggregate: seq<CaseResult>, tally: Counters, sink: Recorder)
    returns (outcome: Option<Error>)
    requires j < |br.cases| == |aggregate| && Distinct(aggregate)
    modifies aggregate[j], tally, sink
    ensures outcome == None
    ensures Gathered(aggregate, tally, sink) == RunFanInCase(br, j, old(Gathered(aggregate, tally, sink)))
  {
    outcome := None;
    var verdict := EvaluatePredicate(br, j, sink);
    if !verdict.Says? {
      var error := PredicateError(Pid(br, j), verdict);
      FailSlot(aggregate, j, error.message);
      tally.failed := tally.failed + 1;
      sink.Emit(j, CaseFailed(br.id, j, Pid(br, j), error));
    } else if verdict.answer {
      outcome := RunSelected(br, j, aggregate, tally, sink);
    } else {
      sink.Emit(j, CaseSkipped(br.id, j, Pid(br, j)));
    }
  }

  /** The recursion over the remaining cases, filling the aggregate in place; its early return is never taken. */
  method RunCases(br: Branch, j: nat, aggregate: seq<CaseResult>, tally: Counters, sink: Recorder)
    returns (outcome: Option<Error>)
    requires j <= |br.cases| == |aggregate| && Distinct(aggregate)
    modifies aggregate, tally, sink
    ensures outcome == None
    ensures Gathered(aggregate, tally, sink) == RunFanInCases(br, j, old(Gathered(aggregate, tally, sink)))
    decreases |br.cases| - j
  {
    outcome := None;
    if j < |br.cases| {
      outcome := RunOneCase(br, j, aggregate, tally, sink);
      if outcome.Some? {
        return;
      }
      outcome := RunCases(br, j + 1, aggregate, tally, sink);
    }
  }

  function BranchResult(outcome: Option<Error>, slots: seq<Slot>): Result {
    match outcome
    case Some(error) => Result.Fail(error)
    case None => Ok(Aggregate(slots))
  }

  method RunBranch(br: Branch, sink: Recorder) returns (result: Result, aggregate: seq<CaseResult>, tally: Counters)
    requires sink.log == []
    modifies sink
    ensures fresh(aggregate) && fresh(tally)
    ensures Gathered(aggregate, tally, sink) == RunFanInBranch(br)
    ensures result == Ok(Aggregate(RunFanInBranch(br).slots))
  {
    aggregate := NewAggregate(|br.cases|);
    tally := new Counters();
    sink.Emit(NODE, FanInStarted(br.id, |br.cases|));
    assert Gathered(aggregate, tally, sink) == Opened(br);
    var outcome := RunCases(br, 0, aggregate, tally, sink);
    sink.Emit(NODE, CompletedEvent(br, tally.Value()));
    result := BranchResult(outcome, Slots(aggregate));
  }

  /** The parallel backend counts the completed slots after the barrier. */
  method TallyCompletions(aggregate: seq<CaseResult>, tally: Counters)
    modifies tally
    ensures tally.Value() == old(tally.Value()).(completed :=
                               old(tally.completed) + ParallelFanIn.CompletedSlots(Slots(aggregate)))
  {
    ghost var slots := Slots(aggregate);
    for i := 0 to |aggregate|
      invariant Slots(aggregate) == slots
      invariant tally.Value() == old(tally.Value()).(completed :=
                                   old(tally.completed) + ParallelFanIn.CompletedSlots(slots[..i]))
    {
      assert slots[..i + 1][..i] == slots[..i];
      if aggregate[i].state == Completed {
        tally.completed := tally.completed + 1;
      }
    }
    assert slots[..|aggregate|] == slots;
  }

  // ---------------------------------------------------------------- error envelope

  class ErrorEnvelope {
    var errors: seq<CaseError>

    constructor ()
      ensures errors == []
    {
      errors := [];
    }

    method Push(record: CaseError)
      modifies this
      ensures errors == old(errors) + [record]
    {
      errors := errors + [record];
    }
  }

  method CollectErrors(aggregate: seq<Slot>) returns (envelope: ErrorEnvelope)
    ensures fresh(envelope) && envelope.errors == FailureRecords(aggregate)
  {
    envelope := new ErrorEnvelope();
    for i := 0 to |aggregate|
      invariant fresh(envelope) && envelope.errors == FailureRecords(aggregate[..i])
    {
      assert aggregate[..i + 1][..i] == aggregate[..i];
      if aggregate[i].state == Failed {
        envelope.Push(RecordFor(aggregate[i], i));
      }
    }
    assert aggregate[..|aggregate|] == aggregate;
  }
}
