/**
  Values, types, errors, observer events and stage descriptions shared by the
  executors, the thread-pool backend, the builder and the exporters.
 */
module Core {
  import opened Decimal

  datatype Option<+T> = None | Some(value: T)

  /** A sequence without the element at one position. */
  function RemoveAt<T>(s: seq<T>, i: nat): seq<T>
    requires i < |s|
  {
    s[..i] + s[i + 1..]
  }

  // ---------------------------------------------------------------- types and values

  /** A C++ type as far as the pipeline builder compares types. */
  datatype Ty =
    | Base(tag: nat)
    | VariantOf(alternatives: seq<Ty>)
    | ResultsOf(outputs: seq<Ty>)
    | TypeList(members: seq<Ty>)

  datatype CaseState = Skipped | Completed | Failed

  /** One slot of a fan-in aggregate. */
  datatype Slot = Slot(state: CaseState, value: Option<Value>, diagnostic: Option<string>)

  datatype Value =
    | Scalar(tag: nat, payload: int)
    | Variant(index: nat, inner: Value)
    | Aggregate(slots: seq<Slot>)

  predicate HasType(v: Value, t: Ty)
    decreases v
  {
    match t
    case Base(tag) => v.Scalar? && v.tag == tag
    case VariantOf(ts) => v.Variant? && v.index < |ts| && HasType(v.inner, ts[v.index])
    case ResultsOf(ts) =>
      && v.Aggregate?
      && |v.slots| == |ts|
      && forall i :: 0 <= i < |ts| && v.slots[i].value.Some? ==> HasType(v.slots[i].value.value, ts[i])
    case TypeList(_) => false
  }

  const EMPTY_SLOT := Slot(Skipped, None, None)

  function MarkCompleted(v: Value): Slot {
    Slot(Completed, Some(v), None)
  }

  function MarkFailed(message: string): Slot {
    Slot(Failed, None, Some(message))
  }

  // ---------------------------------------------------------------- errors

  datatype Category = StageFailureCategory | ExpectedErrorCategory | ExceptionCategory | ContractViolationCategory

  datatype StageId = StageId(key: string, name: string)

  datatype Error = Error(stage: StageId, category: Category, message: string)

  /** The error a result-like stage returns: the runtime error itself or a type of the user's own. */
  datatype StageError = RuntimeError(error: Error) | ForeignError(text: string)

  /** A thrown object: derived from std::exception or not. */
  datatype Thrown = StdException(what: string) | UnknownException

  const NO_STAGE := StageId("", "")

  predicate HasStage(id: StageId) {
    id.key != "" || id.name != ""
  }

  function NormalizeExpectedError(e: StageError): Error {
    match e
    case RuntimeError(error) => error
    case ForeignError(text) => Error(NO_STAGE, ExpectedErrorCategory, text)
  }

  function Annotate(id: StageId, e: Error): Error {
    if HasStage(e.stage) then e else e.(stage := id)
  }

  function NormalizeStageError(id: StageId, e: StageError): Error {
    Annotate(id, NormalizeExpectedError(e))
  }

  function ExceptionError(id: StageId, t: Thrown): Error {
    match t
    case StdException(what) => Error(id, ExceptionCategory, what)
    case UnknownException => Error(id, ExceptionCategory, "stage threw an unknown exception")
  }

  datatype Result = Ok(value: Value) | Fail(error: Error)

  // ---------------------------------------------------------------- callables

  /** What one call of a stage produces. */
  datatype Outcome = Yield(value: Value) | Reject(error: StageError) | Throw(thrown: Thrown)

  datatype PlainOutcome = Return(value: Value) | Raise(thrown: Thrown)

  /** A stage body either returns its output directly or returns a result-like object. */
  datatype Body = Plain(run: Value -> PlainOutcome) | Expected(attempt: Value -> Outcome)

  function Call(body: Body, v: Value): Outcome {
    match body
    case Plain(run) => (match run(v) case Return(w) => Yield(w) case Raise(t) => Throw(t))
    case Expected(attempt) => attempt(v)
  }

  /** What one call of a predicate produces. */
  datatype Verdict = Says(answer: bool) | PredicateReject(error: StageError) | PredicateThrow(thrown: Thrown)

  /** A stage body together with the argument types it can be invoked with. */
  datatype Callable = Callable(accepts: Ty -> bool, body: Body)

  datatype Predicate = Predicate(accepts: Ty -> bool, judge: Value -> Verdict)

  // ---------------------------------------------------------------- stages

  const UNNAMED := "<unnamed>"

  /** The declared key and name of a stage type; both read UNNAMED when the type declares neither. */
  datatype Meta = Meta(key: string, name: string)

  /** A case of a branch; its title, the label it was declared with, may be empty. */
  datatype Case = Case(predicateMeta: Meta, stageMeta: Meta, predicateIn: Ty, stageIn: Ty, out: Ty,
                       test: Predicate, action: Callable, title: string)

  datatype Stage =
    | Simple(meta: Meta, input: Ty, output: Ty, action: Callable)
    | SelectedBranch(cases: seq<Case>)
    | FanInBranch(cases: seq<Case>)

  function IdOr(meta: Meta, fallback: string): StageId {
    StageId(if meta.key != UNNAMED then meta.key else fallback, meta.name)
  }

  function MetaOf(stage: Stage): Meta {
    match stage
    case Simple(meta, _, _, _) => meta
    case SelectedBranch(_) => Meta("branch", "branch")
    case FanInBranch(_) => Meta("fan_in", "fan_in")
  }

  function StageIdFor(stage: Stage, index: nat): StageId {
    IdOr(MetaOf(stage), Render(index))
  }

  function ChildId(branch: StageId, caseIndex: nat, role: string, meta: Meta): StageId {
    IdOr(meta, branch.key + ".case." + Render(caseIndex) + "." + role)
  }

  function PredicateId(branch: StageId, caseIndex: nat, c: Case): StageId {
    ChildId(branch, caseIndex, "predicate", c.predicateMeta)
  }

  function CaseStageId(branch: StageId, caseIndex: nat, c: Case): StageId {
    ChildId(branch, caseIndex, "stage", c.stageMeta)
  }

  // ---------------------------------------------------------------- observer events

  datatype Event =
    | StageStart(id: StageId)
    | StageSuccess(id: StageId)
    | StageFailure(id: StageId, error: Error)
    | StageException(id: StageId, error: Error)
    | CaseSelected(branch: StageId, caseIndex: nat, predicateId: StageId)
    | CaseSkipped(branch: StageId, caseIndex: nat, predicateId: StageId)
    | CaseFailed(branch: StageId, caseIndex: nat, caseId: StageId, error: Error)
    | FanInStarted(branch: StageId, caseCount: nat)
    | FanInCaseScheduled(branch: StageId, caseIndex: nat, caseId: StageId)
    | FanInCaseCompleted(branch: StageId, caseIndex: nat, caseId: StageId, success: bool)
    | FanInCompleted(branch: StageId, selected: int, completed: int, failed: int)

  /** The event a predicate call ends with. */
  function PredicateClose(id: StageId, verdict: Verdict): Event {
    match verdict
    case Says(_) => StageSuccess(id)
    case PredicateReject(e) => StageFailure(id, NormalizeStageError(id, e))
    case PredicateThrow(t) => StageException(id, ExceptionError(id, t))
  }

  /** The error a failing predicate is reported with. */
  function PredicateError(id: StageId, verdict: Verdict): Error
    requires !verdict.Says?
  {
    match verdict
    case PredicateReject(e) => NormalizeStageError(id, e)
    case PredicateThrow(t) => ExceptionError(id, t)
  }

  /** The event a stage call ends with. */
  function StageClose(id: StageId, outcome: Outcome): Event {
    match outcome
    case Yield(_) => StageSuccess(id)
    case Reject(e) => StageFailure(id, NormalizeStageError(id, e))
    case Throw(t) => StageException(id, ExceptionError(id, t))
  }

  function OutcomeError(id: StageId, outcome: Outcome): Error
    requires !outcome.Yield?
  {
    match outcome
    case Reject(e) => NormalizeStageError(id, e)
    case Throw(t) => ExceptionError(id, t)
  }
}
