/**
  The sequential executors: the run that never throws, the run of a pipeline with
  result-returning stages and the run of one without. They are meant to give one
  meaning to a stage list.
 */
module Engine {
  import opened Core
  import opened FanIn
  import opened SelectedBranch

  // ---------------------------------------------------------------- one stage

  /** What a stage call produced and the events reported from inside it. */
  datatype Invocation = Invocation(outcome: Outcome, log: seq<Event>)

  function Events(log: seq<Entry>): seq<Event> {
    seq(|log|, i requires 0 <= i < |log| => log[i].event)
  }

  function AsOutcome(r: Result): Outcome {
    match r
    case Ok(v) => Yield(v)
    case Fail(e) => Reject(RuntimeError(e))
  }

  /** A stage that declares a type-list input is handed the active alternative of a variant. */
  function Argument(input: Ty, v: Value): Value {
    if input.TypeList? && v.Variant? then v.inner else v
  }

  function Invoke(stage: Stage, k: nat, v: Value): Invocation {
    match stage
    case Simple(_, input, _, action) => Invocation(Call(action.body, Argument(input, v)), [])
    case SelectedBranch(_) =>
      var r := RunCases(BranchFor(stage, k, v), 0);
      Invocation(AsOutcome(Prefixed("branch", r.result)), r.log)
    case FanInBranch(_) =>
      var r := RunFanInBranch(BranchFor(stage, k, v));
      Invocation(Yield(Aggregate(r.slots)), Events(r.log))
  }

  predicate ReturnsResult(stage: Stage) {
    !stage.Simple? || stage.action.body.Expected?
  }

  // ---------------------------------------------------------------- try_run

  /** The events of one top-level stage, from its start to its close. */
  function StageLog(id: StageId, call: Invocation): seq<Event> {
    [StageStart(id)] + call.log + [StageClose(id, call.outcome)]
  }

  function TryRun(stages: seq<Stage>, k: nat, v: Value): Report
    requires k <= |stages|
    decreases |stages| - k
  {
    if k == |stages| then Report(Ok(v), [])
    else
      var id, call := StageIdFor(stages[k], k), Invoke(stages[k], k, v);
      if call.outcome.Yield? then
        var rest := TryRun(stages, k + 1, call.outcome.value);
        Report(rest.result, StageLog(id, call) + rest.log)
      else Report(Fail(OutcomeError(id, call.outcome)), StageLog(id, call))
  }

  // ---------------------------------------------------------------- run

  /** A run returns a value, returns its error type, or lets an exception escape. */
  datatype RunResult = Produced(value: Value) | Rejected(error: StageError) | Escaped(thrown: Thrown)

  datatype RunReport = RunReport(result: RunResult, log: seq<Event>)

  /** The error type of a run, fixed by its first result-returning stage. */
  datatype ErrorKind = RuntimeErrors | ForeignErrors

  /** What a rejected stage is reported with: a foreign error never becomes a runtime error. */
  function FailureEvent(id: StageId, e: StageError): Event {
    match e
    case RuntimeError(error) => StageFailure(id, Annotate(id, error))
    case ForeignError(text) => StageFailure(id, Error(id, StageFailureCategory, text))
  }

  function AnnotateStage(id: StageId, e: StageError): StageError {
    match e
    case RuntimeError(error) => RuntimeError(Annotate(id, error))
    case ForeignError(_) => e
  }

  /**
    The run of a pipeline with result-returning stages. With runtime errors an exception
    becomes an error where it is caught; with a foreign error type it is thrown again
    through the frames of all earlier stages, and each of them reports it.
   */
  function RunAfter(stages: seq<Stage>, k: nat, v: Value, kind: ErrorKind): RunReport
    requires k <= |stages|
    decreases |stages| - k
  {
    if k == |stages| then RunReport(Produced(v), [])
    else
      var id, call := StageIdFor(stages[k], k), Invoke(stages[k], k, v);
      var opening := [StageStart(id)] + call.log;
      match call.outcome
      case Reject(e) => RunReport(Rejected(AnnotateStage(id, e)), opening + [FailureEvent(id, e)])
      case Throw(t) => Caught(id, t, opening, kind)
      case Yield(w) =>
        var rest := RunAfter(stages, k + 1, w, kind);
        var through := opening + [StageSuccess(id)] + rest.log;
        if rest.result.Escaped? then Caught(id, rest.result.thrown, through, kind)
        else RunReport(rest.result, through)
  }

  /** A frame that catches an exception reports it, then converts it or throws it again. */
  function Caught(id: StageId, t: Thrown, log: seq<Event>, kind: ErrorKind): RunReport {
    RunReport(if kind == RuntimeErrors then Rejected(RuntimeError(ExceptionError(id, t))) else Escaped(t),
              log + [StageException(id, ExceptionError(id, t))])
  }

  /** The run of a pipeline without result-returning stages: only the throwing stage reports. */
  function RunPlain(stages: seq<Stage>, k: nat, v: Value): RunReport
    requires k <= |stages|
    requires forall i :: 0 <= i < |stages| ==> !ReturnsResult(stages[i])
    decreases |stages| - k
  {
    if k == |stages| then RunReport(Produced(v), [])
    else
      var id, call := StageIdFor(stages[k], k), Invoke(stages[k], k, v);
      assert !ReturnsResult(stages[k]);
      var opening := [StageStart(id)] + call.log;
      if call.outcome.Throw? then
        RunReport(Escaped(call.outcome.thrown),
                  opening + [StageException(id, ExceptionError(id, call.outcome.thrown))])
      else
        var rest := RunPlain(stages, k + 1, call.outcome.value);
        RunReport(rest.result, opening + [StageSuccess(id)] + rest.log)
  }

  predicate Plain(stages: seq<Stage>) {
    forall i :: 0 <= i < |stages| ==> !ReturnsResult(stages[i])
  }

  function Run(stages: seq<Stage>, v: Value, kind: ErrorKind): RunReport {
    if Plain(stages) then RunPlain(stages, 0, v) else RunAfter(stages, 0, v, kind)
  }

  /** All result-returning stages of a pipeline reject with the error type of its run. */
  ghost predicate Uniform(stage: Stage, kind: ErrorKind) {
    if stage.Simple? then
      forall v: Value ::
        Call(stage.action.body, v).Reject? ==>
          (Call(stage.action.body, v).error.RuntimeError? <==> kind == RuntimeErrors)
    else kind == RuntimeErrors
  }

  ghost predicate UniformErrors(stages: seq<Stage>, kind: ErrorKind) {
    forall i :: 0 <= i < |stages| ==> Uniform(stages[i], kind)
  }

  function AsRun(r: Result): RunResult {
    match r
    case Ok(v) => Produced(v)
    case Fail(e) => Rejected(RuntimeError(e))
  }

  // ---------------------------------------------------------------- the executors agree

  lemma UniformRejects(stage: Stage, k: nat, v: Value, kind: ErrorKind)
    requires Uniform(stage, kind)
    ensures var outcome := Invoke(stage, k, v).outcome;
            outcome.Reject? ==> (outcome.error.RuntimeError? <==> kind == RuntimeErrors)
  {
  }

  lemma {:induction false} RunAfterIsTryRun(stages: seq<Stage>, k: nat, v: Value)
    requires k <= |stages| && UniformErrors(stages, RuntimeErrors)
    ensures var r, t := RunAfter(stages, k, v, RuntimeErrors), TryRun(stages, k, v);
            r == RunReport(AsRun(t.result), t.log)
    decreases |stages| - k
  {
    if k < |stages| {
      var call := Invoke(stages[k], k, v);
      UniformRejects(stages[k], k, v, RuntimeErrors);
      if call.outcome.Yield? {
        RunAfterIsTryRun(stages, k + 1, call.outcome.value);
      }
    }
  }

  /** Whether and where a run stops, and how that stage ended. */
  datatype Stop = Completes | StopsAt(index: nat, outcome: Outcome)

  function StopOf(stages: seq<Stage>, k: nat, v: Value): (stop: Stop)
    requires k <= |stages|
    ensures stop.StopsAt? ==> k <= stop.index < |stages| && !stop.outcome.Yield?
    decreases |stages| - k
  {
    if k == |stages| then Completes
    else
      var outcome := Invoke(stages[k], k, v).outcome;
      if outcome.Yield? then StopOf(stages, k + 1, outcome.value) else StopsAt(k, outcome)
  }

  /** try_run returns an error exactly when a stage stops it, and then that stage's error. */
  lemma {:induction false} TryRunStops(stages: seq<Stage>, k: nat, v: Value)
    requires k <= |stages|
    ensures var stop, r := StopOf(stages, k, v), TryRun(stages, k, v).result;
            match stop
            case Completes => r.Ok?
            case StopsAt(at, outcome) => r == Fail(OutcomeError(StageIdFor(stages[at], at), outcome))
    decreases |stages| - k
  {
    if k < |stages| {
      var outcome := Invoke(stages[k], k, v).outcome;
      if outcome.Yield? {
        TryRunStops(stages, k + 1, outcome.value);
      }
    }
  }

  /** An error that already names a stage passes through try_run unchanged: the innermost identity wins. */
  lemma InnermostIdentityIsKept(stages: seq<Stage>, v: Value, e: Error)
    requires StopOf(stages, 0, v).StopsAt? && StopOf(stages, 0, v).outcome == Reject(RuntimeError(e))
    requires HasStage(e.stage)
    ensures TryRun(stages, 0, v).result == Fail(e)
  {
    TryRunStops(stages, 0, v);
  }

  /** The error a selected branch stops with before the branch's name is put in front. */
  function BranchError(br: Branch): Error
    requires RunCases(br, 0).result.Fail?
  {
    var k := Decisive(br, 0);
    RunCasesClosed(br, 0);
    if k == |br.cases| then UnselectedError(br.id)
    else if !VerdictOf(br, k).Says? then PredicateError(Pid(br, k), VerdictOf(br, k))
    else OutcomeError(Sid(br, k), OutcomeOf(br, k))
  }

  predicate EndsWith(s: string, tail: string) {
    |tail| <= |s| && s[|s| - |tail|..] == tail
  }

  /**
    A failing branch reports the error of its decisive predicate, of the selected stage or
    of having selected nothing: its identity and category are kept, its message is kept as
    an ending, and only a message that is there gets the branch's name.
   */
  lemma BranchErrorKeepsItsSource(stage: Stage, k: nat, v: Value)
    requires stage.SelectedBranch? && Invoke(stage, k, v).outcome.Reject?
    ensures var br := BranchFor(stage, k, v);
            && RunCases(br, 0).result.Fail?
            && Invoke(stage, k, v).outcome.error.RuntimeError?
            && var e, source := Invoke(stage, k, v).outcome.error.error, BranchError(br);
               && e.stage == source.stage && e.category == source.category
               && EndsWith(e.message, source.message)
               && (e.message == source.message <==> source.message == "")
  {
    var br := BranchFor(stage, k, v);
    RunCasesClosed(br, 0);
    var source := BranchError(br);
    assert RunCases(br, 0).result == Fail(source);
    var name := "[" + "branch" + "] ";
    assert (name + source.message)[|name|..] == source.message;
  }

  /** Every error of try_run names a stage, if only every stage has a key or a name. */
  lemma ErrorsNameAStage(stages: seq<Stage>, v: Value)
    requires forall i :: 0 <= i < |stages| ==> HasStage(StageIdFor(stages[i], i))
    ensures var r := TryRun(stages, 0, v).result; r.Fail? ==> HasStage(r.error.stage)
  {
    TryRunStops(stages, 0, v);
    var stop := StopOf(stages, 0, v);
    if stop.StopsAt? {
      assert HasStage(StageIdFor(stages[stop.index], stop.index));
    }
  }

  /** Without result-returning stages both runs report the same events; one throws where the other returns an error. */
  lemma {:induction false} RunPlainIsTryRun(stages: seq<Stage>, k: nat, v: Value)
    requires k <= |stages| && Plain(stages)
    ensures var stop, r, t := StopOf(stages, k, v), RunPlain(stages, k, v), TryRun(stages, k, v);
            && r.log == t.log
            && (match stop
                case Completes => t.result.Ok? && r.result == Produced(t.result.value)
                case StopsAt(at, outcome) =>
                  && outcome.Throw?
                  && r.result == Escaped(outcome.thrown)
                  && t.result == Fail(ExceptionError(StageIdFor(stages[at], at), outcome.thrown)))
    decreases |stages| - k
  {
    if k < |stages| {
      var outcome := Invoke(stages[k], k, v).outcome;
      assert !ReturnsResult(stages[k]);
      if outcome.Yield? {
        RunPlainIsTryRun(stages, k + 1, outcome.value);
      }
    }
  }

  /** Main result on run: with runtime errors it is try_run, event for event. */
  lemma RunMeetsTryRun(stages: seq<Stage>, v: Value)
    requires UniformErrors(stages, RuntimeErrors)
    ensures var r, t := Run(stages, v, RuntimeErrors), TryRun(stages, 0, v);
            && r.log == t.log
            && (t.result.Ok? <==> r.result.Produced?)
            && (t.result.Ok? ==> r.result == Produced(t.result.value))
            && (t.result.Fail? && !Plain(stages) ==> r.result == Rejected(RuntimeError(t.result.error)))
            && (t.result.Fail? && Plain(stages) ==> r.result.Escaped? && t.result.error.category == ExceptionCategory)
  {
    if Plain(stages) {
      RunPlainIsTryRun(stages, 0, v);
    } else {
      RunAfterIsTryRun(stages, 0, v);
    }
  }

  // ---------------------------------------------------------------- a foreign error type

  /** The category a foreign error is reported with depends on the executor. */
  function Recategorized(e: Event): Event {
    if e.StageFailure? then StageFailure(e.id, e.error.(category := StageFailureCategory)) else e
  }

  function RecategorizedLog(log: seq<Event>): seq<Event> {
    seq(|log|, i requires 0 <= i < |log| => Recategorized(log[i]))
  }

  /** An exception of stage `at` reported again by the stages before it, innermost first. */
  function Echoes(stages: seq<Stage>, k: nat, at: nat, t: Thrown): seq<Event>
    requires k <= at < |stages|
    decreases at - k
  {
    if k == at then []
    else
      var id := StageIdFor(stages[k], k);
      Echoes(stages, k + 1, at, t) + [StageException(id, ExceptionError(id, t))]
  }

  /** How a run with a foreign error type relates to try_run. */
  ghost predicate ForeignAgreement(stages: seq<Stage>, k: nat, stop: Stop, r: RunReport, t: Report)
    requires k <= |stages| && (stop.StopsAt? ==> k <= stop.index < |stages|)
  {
    match stop
    case Completes => t.result.Ok? && r == RunReport(Produced(t.result.value), t.log)
    case StopsAt(at, Reject(e)) => r == RunReport(Rejected(e), RecategorizedLog(t.log))
    case StopsAt(at, Throw(thrown)) => r == RunReport(Escaped(thrown), t.log + Echoes(stages, k, at, thrown))
    case StopsAt(at, Yield(_)) => false
  }

  /** A log without failures reads the same under both executors. */
  lemma RecategorizedHead(head: seq<Event>, tail: seq<Event>)
    requires forall e :: e in head ==> !e.StageFailure?
    ensures RecategorizedLog(head + tail) == head + RecategorizedLog(tail)
  {
  }

  /** A frame around a run: its own events come first, and what escapes is reported once more. */
  function Framed(id: StageId, head: seq<Event>, r: RunReport): RunReport {
    RunReport(r.result, head + r.log +
              if r.result.Escaped? then [StageException(id, ExceptionError(id, r.result.thrown))] else [])
  }

  lemma FrameAgreement(stages: seq<Stage>, k: nat, stop: Stop, r: RunReport, t: Report, head: seq<Event>)
    requires k < |stages| && (stop.StopsAt? ==> k < stop.index < |stages|)
    requires ForeignAgreement(stages, k + 1, stop, r, t)
    requires forall e :: e in head ==> !e.StageFailure?
    ensures ForeignAgreement(stages, k, stop, Framed(StageIdFor(stages[k], k), head, r), Report(t.result, head + t.log))
  {
    RecategorizedHead(head, t.log);
    var framed := Framed(StageIdFor(stages[k], k), head, r);
    if r.result.Escaped? {
      var id, thrown := StageIdFor(stages[k], k), r.result.thrown;
      var echoes, echo := Echoes(stages, k + 1, stop.index, thrown), [StageException(id, ExceptionError(id, thrown))];
      assert head + (t.log + echoes) + echo == (head + t.log) + (echoes + echo);
    } else {
      assert framed.log == head + r.log;
    }
  }

  /**
    A foreign-error run: the trace of try_run, with the exception of a late stage reported
    again by every stage before it.
   */
  lemma {:induction false} ForeignRun(stages: seq<Stage>, k: nat, v: Value)
    requires k <= |stages| && UniformErrors(stages, ForeignErrors)
    ensures ForeignAgreement(stages, k, StopOf(stages, k, v), RunAfter(stages, k, v, ForeignErrors),
                             TryRun(stages, k, v))
    decreases |stages| - k
  {
    if k < |stages| {
      assert Uniform(stages[k], ForeignErrors);
      var id, call := StageIdFor(stages[k], k), Invoke(stages[k], k, v);
      if call.outcome.Yield? {
        var w, head := call.outcome.value, StageLog(id, call);
        ForeignRun(stages, k + 1, w);
        FrameAgreement(stages, k, StopOf(stages, k + 1, w), RunAfter(stages, k + 1, w, ForeignErrors),
                       TryRun(stages, k + 1, w), head);
        YieldingStage(stages, k, v);
      } else {
        UniformRejects(stages[k], k, v, ForeignErrors);
        StoppingStage(stages, k, v);
      }
    }
  }

  lemma YieldingStage(stages: seq<Stage>, k: nat, v: Value)
    requires k < |stages| && Invoke(stages[k], k, v).outcome.Yield?
    ensures var id, call := StageIdFor(stages[k], k), Invoke(stages[k], k, v);
            RunAfter(stages, k, v, ForeignErrors)
            == Framed(id, StageLog(id, call), RunAfter(stages, k + 1, call.outcome.value, ForeignErrors))
  {
  }

  lemma StoppingStage(stages: seq<Stage>, k: nat, v: Value)
    requires k < |stages| && stages[k].Simple? && !Invoke(stages[k], k, v).outcome.Yield?
    requires Invoke(stages[k], k, v).outcome.Reject? ==> Invoke(stages[k], k, v).outcome.error.ForeignError?
    ensures ForeignAgreement(stages, k, StopOf(stages, k, v), RunAfter(stages, k, v, ForeignErrors),
                             TryRun(stages, k, v))
  {
    var id, call := StageIdFor(stages[k], k), Invoke(stages[k], k, v);
    if call.outcome.Reject? {
      RecategorizedHead([StageStart(id)], [StageClose(id, call.outcome)]);
      assert !HasStage(NO_STAGE);
    } else {
      assert StageLog(id, call) + [] == StageLog(id, call);
    }
  }

  lemma {:induction false} EchoesCount(stages: seq<Stage>, k: nat, at: nat, t: Thrown)
    requires k <= at < |stages|
    ensures |Echoes(stages, k, at, t)| == at - k
    decreases at - k
  {
    if k < at {
      EchoesCount(stages, k + 1, at, t);
    }
  }

  /** Exactly the runs that a stage other than the first ends by throwing report more events than try_run. */
  lemma ForeignTraceDiffers(stages: seq<Stage>, v: Value)
    requires UniformErrors(stages, ForeignErrors)
    ensures var stop := StopOf(stages, 0, v);
            |RunAfter(stages, 0, v, ForeignErrors).log| > |TryRun(stages, 0, v).log|
            <==> stop.StopsAt? && stop.index > 0 && stop.outcome.Throw?
    ensures |RunAfter(stages, 0, v, ForeignErrors).log| >= |TryRun(stages, 0, v).log|
  {
    ForeignRun(stages, 0, v);
    var stop := StopOf(stages, 0, v);
    if stop.StopsAt? && stop.outcome.Throw? {
      EchoesCount(stages, 0, stop.index, stop.outcome.thrown);
    }
  }

  // ---------------------------------------------------------------- a range of inputs

  /** The events of runs over a range of inputs, one run after another. */
  function RangeLog(run: Value -> Report, inputs: seq<Value>): seq<Event> {
    if inputs == [] then [] else RangeLog(run, inputs[..|inputs| - 1]) + run(inputs[|inputs| - 1]).log
  }

  /** The loop over a range of inputs: one result for each, in order. */
  method RunRange(run: Value -> Report, inputs: seq<Value>, sink: EventSink) returns (results: seq<Result>)
    modifies sink
    ensures |results| == |inputs|
    ensures forall i :: 0 <= i < |inputs| ==> results[i] == run(inputs[i]).result
    ensures sink.log == old(sink.log) + RangeLog(run, inputs)
  {
    results := [];
    for i := 0 to |inputs|
      invariant |results| == i
      invariant forall j :: 0 <= j < i ==> results[j] == run(inputs[j]).result
      invariant sink.log == old(sink.log) + RangeLog(run, inputs[..i])
    {
      assert inputs[..i + 1][..i] == inputs[..i];
      var report := run(inputs[i]);
      sink.log := sink.log + report.log;
      results := results + [report.result];
    }
    assert inputs[..|inputs|] == inputs;
  }

  method TryRunRange(stages: seq<Stage>, inputs: seq<Value>, sink: EventSink) returns (results: seq<Result>)
    modifies sink
    ensures |results| == |inputs|
    ensures forall i :: 0 <= i < |inputs| ==> results[i] == TryRun(stages, 0, inputs[i]).result
    ensures sink.log == old(sink.log) + RangeLog(v => TryRun(stages, 0, v), inputs)
  {
    results := RunRange(v => TryRun(stages, 0, v), inputs, sink);
  }
}
