/**
  What single calls promise, stated on the fields of what they produce: how a callable
  ends, the error and the events it is reported with, the identities of stages and cases,
  and the slot of a fan-in case. The runs are compared with these rules.
 */
module Rules {
  import opened Core
  import opened Decimal

  // ---------------------------------------------------------------- callables

  /** How a stage body ends on a value. */
  predicate Ends(body: Body, v: Value, o: Outcome) {
    match body
    case Expected(attempt) => attempt(v) == o
    case Plain(run) => (o.Yield? && run(v) == Return(o.value)) || (o.Throw? && run(v) == Raise(o.thrown))
  }

  lemma CallEnds(body: Body, v: Value, o: Outcome)
    ensures Ends(body, v, o) <==> o == Call(body, v)
  {
  }

  // ---------------------------------------------------------------- errors

  predicate ThrownError(id: StageId, t: Thrown, e: Error) {
    && e.stage == id
    && e.category == ExceptionCategory
    && (t.StdException? ==> e.message == t.what)
    && (t.UnknownException? ==> e.message == "stage threw an unknown exception")
  }

  /** A runtime error keeps what it says and is given the stage only if it names none; others are made one. */
  predicate ReturnedError(id: StageId, source: StageError, e: Error) {
    match source
    case RuntimeError(own) =>
      && e.category == own.category
      && e.message == own.message
      && e.stage == if own.stage.key == "" && own.stage.name == "" then id else own.stage
    case ForeignError(text) => e.stage == id && e.category == ExpectedErrorCategory && e.message == text
  }

  /** The error a stage that ends this way is reported with. */
  predicate Reported(id: StageId, o: Outcome, e: Error) {
    match o
    case Yield(_) => false
    case Reject(source) => ReturnedError(id, source, e)
    case Throw(t) => ThrownError(id, t, e)
  }

  predicate VerdictReported(id: StageId, verdict: Verdict, e: Error) {
    match verdict
    case Says(_) => false
    case PredicateReject(source) => ReturnedError(id, source, e)
    case PredicateThrow(t) => ThrownError(id, t, e)
  }

  lemma ThrownErrorIs(id: StageId, t: Thrown, e: Error)
    ensures ThrownError(id, t, e) <==> e == ExceptionError(id, t)
  {
  }

  lemma ReturnedErrorIs(id: StageId, source: StageError, e: Error)
    ensures ReturnedError(id, source, e) <==> e == NormalizeStageError(id, source)
  {
  }

  /** Exactly one error fits the rule, and it is the one the executors report. */
  lemma ErrorIsReported(id: StageId, o: Outcome, e: Error)
    ensures Reported(id, o, e) <==> !o.Yield? && e == OutcomeError(id, o)
  {
    if o.Reject? {
      ReturnedErrorIs(id, o.error, e);
    } else if o.Throw? {
      ThrownErrorIs(id, o.thrown, e);
    }
  }

  lemma VerdictIsReported(id: StageId, verdict: Verdict, e: Error)
    ensures VerdictReported(id, verdict, e) <==> !verdict.Says? && e == PredicateError(id, verdict)
  {
    if verdict.PredicateReject? {
      ReturnedErrorIs(id, verdict.error, e);
    } else if verdict.PredicateThrow? {
      ThrownErrorIs(id, verdict.thrown, e);
    }
  }

  // ---------------------------------------------------------------- closing events

  /** The event a stage call ends with. */
  predicate ClosesCall(id: StageId, o: Outcome, event: Event) {
    match o
    case Yield(_) => event == StageSuccess(id)
    case Reject(_) => event.StageFailure? && event.id == id && Reported(id, o, event.error)
    case Throw(_) => event.StageException? && event.id == id && Reported(id, o, event.error)
  }

  predicate ClosesPredicate(id: StageId, verdict: Verdict, event: Event) {
    match verdict
    case Says(_) => event == StageSuccess(id)
    case PredicateReject(_) => event.StageFailure? && event.id == id && VerdictReported(id, verdict, event.error)
    case PredicateThrow(_) => event.StageException? && event.id == id && VerdictReported(id, verdict, event.error)
  }

  lemma CallIsClosed(id: StageId, o: Outcome, event: Event)
    ensures ClosesCall(id, o, event) <==> event == StageClose(id, o)
  {
    if event.StageFailure? || event.StageException? {
      ErrorIsReported(id, o, event.error);
    }
  }

  lemma PredicateIsClosed(id: StageId, verdict: Verdict, event: Event)
    ensures ClosesPredicate(id, verdict, event) <==> event == PredicateClose(id, verdict)
  {
    if event.StageFailure? || event.StageException? {
      VerdictIsReported(id, verdict, event.error);
    }
  }

  // ---------------------------------------------------------------- identities

  /** The declared key, or a fallback where the type declares none; the declared name. */
  predicate Named(meta: Meta, fallback: string, id: StageId) {
    && id.key == (if meta.key == "<unnamed>" then fallback else meta.key)
    && id.name == meta.name
  }

  predicate IsStageId(stage: Stage, i: nat, id: StageId) {
    match stage
    case Simple(meta, _, _, _) => Named(meta, Render(i), id)
    case SelectedBranch(_) => id == StageId("branch", "branch")
    case FanInBranch(_) => id == StageId("fan_in", "fan_in")
  }

  predicate IsPredicateId(branch: StageId, j: nat, c: Case, id: StageId) {
    Named(c.predicateMeta, branch.key + ".case." + Render(j) + ".predicate", id)
  }

  predicate IsCaseStageId(branch: StageId, j: nat, c: Case, id: StageId) {
    Named(c.stageMeta, branch.key + ".case." + Render(j) + ".stage", id)
  }

  lemma StageIdIs(stage: Stage, i: nat, id: StageId)
    ensures IsStageId(stage, i, id) <==> id == StageIdFor(stage, i)
  {
    assert "branch"[0] != UNNAMED[0] && "fan_in"[0] != UNNAMED[0];
  }

  lemma CaseIdsAre(branch: StageId, j: nat, c: Case, id: StageId)
    ensures IsPredicateId(branch, j, c, id) <==> id == PredicateId(branch, j, c)
    ensures IsCaseStageId(branch, j, c, id) <==> id == CaseStageId(branch, j, c)
  {
  }

  // ---------------------------------------------------------------- slots

  predicate IsSkipped(slot: Slot) {
    slot.state == Skipped && slot.value == None && slot.diagnostic == None
  }

  predicate IsFailed(slot: Slot, message: string) {
    slot.state == Failed && slot.value == None && slot.diagnostic == Some(message)
  }

  predicate ThrownSlot(t: Thrown, slot: Slot) {
    match t
    case StdException(what) => IsFailed(slot, what)
    case UnknownException => IsFailed(slot, "stage threw an unknown exception")
  }

  predicate ReturnedSlot(source: StageError, slot: Slot) {
    match source
    case RuntimeError(own) => IsFailed(slot, own.message)
    case ForeignError(text) => IsFailed(slot, text)
  }

  /** The slot of a case whose stage ran. */
  predicate StageSlotRule(o: Outcome, slot: Slot) {
    match o
    case Yield(w) => slot.state == Completed && slot.value == Some(w) && slot.diagnostic == None
    case Reject(source) => ReturnedSlot(source, slot)
    case Throw(t) => ThrownSlot(t, slot)
  }

  /** The slot of a fan-in case, from its predicate's verdict, how its stage ends, and whether it was let run. */
  predicate SlotRule(verdict: Verdict, o: Outcome, runs: bool, slot: Slot) {
    match verdict
    case Says(answer) => if answer && runs then StageSlotRule(o, slot) else IsSkipped(slot)
    case PredicateReject(source) => ReturnedSlot(source, slot)
    case PredicateThrow(t) => ThrownSlot(t, slot)
  }

  lemma StageSlotIs(id: StageId, o: Outcome, slot: Slot)
    ensures StageSlotRule(o, slot)
            <==> slot == if o.Yield? then MarkCompleted(o.value) else MarkFailed(OutcomeError(id, o).message)
  {
    if o.Throw? {
      ThrownErrorIs(id, o.thrown, ExceptionError(id, o.thrown));
    }
  }

  lemma FailedPredicateSlotIs(id: StageId, verdict: Verdict, o: Outcome, runs: bool, slot: Slot)
    requires !verdict.Says?
    ensures SlotRule(verdict, o, runs, slot) <==> slot == MarkFailed(PredicateError(id, verdict).message)
  {
    if verdict.PredicateThrow? {
      ThrownErrorIs(id, verdict.thrown, ExceptionError(id, verdict.thrown));
    }
  }
}
