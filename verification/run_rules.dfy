/**
  Whole runs by their rules: a relation says what a stage may make of a value, a chain of
  such steps is a run, and try_run is exactly that. The rules name no executor.
 */
module RunRules {
  import opened Core
  import opened FanIn
  import opened SelectedBranch
  import opened Engine
  import opened Rules

  import FanInRules

  // ---------------------------------------------------------------- selected branches

  /** What the case that decides a selected branch makes of the input; no case decides when k is the case count. */
  ghost predicate BranchEnds(cases: seq<Case>, branch: StageId, v: Value, k: nat, o: Outcome, r: Result)
    requires k <= |cases|
  {
    if k == |cases| then
      && r.Fail? && r.error.stage == branch && r.error.category == ContractViolationCategory
      && r.error.message == "no branch predicate selected a case"
    else
      match cases[k].test.judge(v)
      case Says(answer) => answer && SelectedEnds(cases, branch, k, o, r)
      case PredicateReject(_) => r.Fail? && PredicateFailure(cases, branch, v, k, r.error)
      case PredicateThrow(_) => r.Fail? && PredicateFailure(cases, branch, v, k, r.error)
  }

  /** A yield stands at its case's variant index unless all cases have one output type; an error is the case's own. */
  ghost predicate SelectedEnds(cases: seq<Case>, branch: StageId, k: nat, o: Outcome, r: Result)
    requires k < |cases|
  {
    match o
    case Yield(w) => r.Ok? && r.value == if OneOutput(cases) then w else Variant(k, w)
    case _ => r.Fail? && exists sid: StageId :: IsCaseStageId(branch, k, cases[k], sid) && Reported(sid, o, r.error)
  }

  ghost predicate PredicateFailure(cases: seq<Case>, branch: StageId, v: Value, k: nat, e: Error)
    requires k < |cases|
  {
    exists pid: StageId ::
      IsPredicateId(branch, k, cases[k], pid) && VerdictReported(pid, cases[k].test.judge(v), e)
  }

  predicate OneOutput(cases: seq<Case>) {
    forall i, j :: 0 <= i < |cases| && 0 <= j < |cases| ==> cases[i].out == cases[j].out
  }

  /** All cases before k decline the input. */
  predicate DeclinedBefore(cases: seq<Case>, v: Value, k: nat)
    requires k <= |cases|
  {
    forall i :: 0 <= i < k ==> cases[i].test.judge(v) == Says(false)
  }

  /** What a stage of the list makes of a branch's result: an error with a message gets the branch's name. */
  predicate Delivers(r: Result, o: Outcome) {
    match r
    case Ok(w) => o == Yield(w)
    case Fail(e) =>
      && o.Reject? && o.error.RuntimeError?
      && o.error.error.stage == e.stage && o.error.error.category == e.category
      && o.error.error.message == if e.message == "" then "" else "[branch] " + e.message
  }

  lemma {:induction false} DeclinedRun(br: Branch, k: nat)
    requires k <= |br.cases| && DeclinedBefore(br.cases, br.input, k)
    ensures RunCases(br, 0).result == RunCases(br, k).result
  {
    if k > 0 {
      DeclinedRun(br, k - 1);
      RunCasesVisits(br, k - 1);
    }
  }

  lemma OneOutputIs(cases: seq<Case>)
    ensures OneOutput(cases) <==> Homogeneous(cases)
  {
  }

  lemma SelectedEndsExactly(stage: Stage, i: nat, v: Value, k: nat, r: Result)
    requires stage.SelectedBranch? && k < |stage.cases|
    ensures var br := BranchFor(stage, i, v);
            SelectedEnds(stage.cases, br.id, k, OutcomeOf(br, k), r) <==> r == StageResult(br, k)
  {
    var br := BranchFor(stage, i, v);
    OneOutputIs(stage.cases);
    if r.Fail? {
      CaseIdsAre(br.id, k, stage.cases[k], Sid(br, k));
      ErrorIsReported(Sid(br, k), OutcomeOf(br, k), r.error);
      forall sid: StageId | IsCaseStageId(br.id, k, stage.cases[k], sid) ensures sid == Sid(br, k) {
        CaseIdsAre(br.id, k, stage.cases[k], sid);
      }
    }
  }

  lemma PredicateFailureExactly(stage: Stage, i: nat, v: Value, k: nat, e: Error)
    requires stage.SelectedBranch? && k < |stage.cases| && !stage.cases[k].test.judge(v).Says?
    ensures var br := BranchFor(stage, i, v);
            PredicateFailure(stage.cases, br.id, v, k, e) <==> e == PredicateError(Pid(br, k), VerdictOf(br, k))
  {
    var br := BranchFor(stage, i, v);
    CaseIdsAre(br.id, k, stage.cases[k], Pid(br, k));
    VerdictIsReported(Pid(br, k), VerdictOf(br, k), e);
    forall pid: StageId | IsPredicateId(br.id, k, stage.cases[k], pid) ensures pid == Pid(br, k) {
      CaseIdsAre(br.id, k, stage.cases[k], pid);
    }
  }

  /** The rule of the deciding case fits exactly the result of the recursion from there. */
  lemma BranchEndsExactly(stage: Stage, i: nat, v: Value, k: nat, o: Outcome, r: Result)
    requires stage.SelectedBranch? && k <= |stage.cases|
    requires k < |stage.cases| ==>
               stage.cases[k].test.judge(v) != Says(false) && Ends(stage.cases[k].action.body, v, o)
    ensures var br := BranchFor(stage, i, v);
            BranchEnds(stage.cases, br.id, v, k, o, r) <==> r == RunCases(br, k).result
  {
    var br := BranchFor(stage, i, v);
    if k < |stage.cases| {
      RunCasesVisits(br, k);
      CallEnds(stage.cases[k].action.body, v, o);
      if stage.cases[k].test.judge(v).Says? {
        SelectedEndsExactly(stage, i, v, k, r);
      } else if r.Fail? {
        PredicateFailureExactly(stage, i, v, k, r.error);
      }
    }
  }

  lemma DeliversExactly(r: Result, o: Outcome)
    ensures Delivers(r, o) <==> o == AsOutcome(Prefixed("branch", r))
  {
    assert "[" + "branch" + "] " == "[branch] ";
  }

  // ---------------------------------------------------------------- one stage

  ghost predicate BranchGives(cases: seq<Case>, v: Value, k: nat, inner: Outcome, r: Result, o: Outcome) {
    && k <= |cases|
    && DeclinedBefore(cases, v, k)
    && (k < |cases| ==> cases[k].test.judge(v) != Says(false) && Ends(cases[k].action.body, v, inner))
    && BranchEnds(cases, StageId("branch", "branch"), v, k, inner, r)
    && Delivers(r, o)
  }

  ghost predicate SlotsByRule(cases: seq<Case>, v: Value, slots: seq<Slot>) {
    && |slots| == |cases|
    && forall j :: 0 <= j < |cases| ==> SlotByRule(cases[j], v, slots[j])
  }

  ghost predicate SlotByRule(c: Case, v: Value, slot: Slot) {
    exists inner: Outcome :: Ends(c.action.body, v, inner) && SlotRule(c.test.judge(v), inner, true, slot)
  }

  /** What stage i of a list may make of a value; a type-list stage is handed the variant's alternative. */
  ghost predicate StageGives(stage: Stage, i: nat, v: Value, o: Outcome) {
    match stage
    case Simple(_, input, _, action) => Ends(action.body, if input.TypeList? && v.Variant? then v.inner else v, o)
    case SelectedBranch(cases) =>
      exists k: nat, inner: Outcome, r: Result :: BranchGives(cases, v, k, inner, r, o)
    case FanInBranch(cases) => o.Yield? && o.value.Aggregate? && SlotsByRule(cases, v, o.value.slots)
  }

  lemma {:induction false} DecidedAt(br: Branch, i: nat, k: nat)
    requires i <= k <= |br.cases| && forall j :: i <= j < k ==> VerdictOf(br, j) == Says(false)
    requires k < |br.cases| ==> VerdictOf(br, k) != Says(false)
    ensures Decisive(br, i) == k
    decreases k - i
  {
    if i < k {
      DecidedAt(br, i + 1, k);
    }
  }

  lemma BranchGivesInvoke(stage: Stage, i: nat, v: Value)
    requires stage.SelectedBranch?
    ensures StageGives(stage, i, v, Invoke(stage, i, v).outcome)
  {
    var br := BranchFor(stage, i, v);
    var k, r := Decisive(br, 0), RunCases(br, 0).result;
    var inner := if k < |br.cases| then OutcomeOf(br, k) else Yield(v);
    if k < |br.cases| {
      CallEnds(stage.cases[k].action.body, v, inner);
    }
    StageIdIs(stage, i, br.id);
    forall j | 0 <= j < k ensures br.cases[j].test.judge(br.input) == Says(false) {
      assert VerdictOf(br, j) == Says(false);
    }
    DeclinedRun(br, k);
    BranchEndsExactly(stage, i, v, k, inner, r);
    DeliversExactly(r, Invoke(stage, i, v).outcome);
    assert BranchGives(stage.cases, v, k, inner, r, Invoke(stage, i, v).outcome);
  }

  lemma BranchGivesOnly(stage: Stage, i: nat, v: Value, k: nat, inner: Outcome, r: Result, o: Outcome)
    requires stage.SelectedBranch? && BranchGives(stage.cases, v, k, inner, r, o)
    ensures o == Invoke(stage, i, v).outcome
  {
    var br := BranchFor(stage, i, v);
    StageIdIs(stage, i, br.id);
    DeclinedRun(br, k);
    BranchEndsExactly(stage, i, v, k, inner, r);
    DeliversExactly(r, o);
  }

  lemma SlotsAreRule(stage: Stage, i: nat, v: Value)
    requires stage.FanInBranch?
    ensures SlotsByRule(stage.cases, v, RunFanInBranch(BranchFor(stage, i, v)).slots)
  {
    var br := BranchFor(stage, i, v);
    forall j | 0 <= j < |stage.cases| ensures SlotByRule(stage.cases[j], v, RunFanInBranch(br).slots[j]) {
      CallEnds(stage.cases[j].action.body, v, OutcomeOf(br, j));
      FanInRules.SequentialCaseByRules(br, j, OutcomeOf(br, j));
    }
  }

  lemma SlotRuleIsExact(c: Case, v: Value, a: Slot, b: Slot)
    requires SlotByRule(c, v, a) && SlotByRule(c, v, b)
    ensures a == b
  {
    var inner := Call(c.action.body, v);
    forall o: Outcome | Ends(c.action.body, v, o) ensures o == inner {
      CallEnds(c.action.body, v, o);
    }
    assert SlotRule(c.test.judge(v), inner, true, a) && SlotRule(c.test.judge(v), inner, true, b);
  }

  /** A stage makes of a value exactly what its rule says: there is one such outcome. */
  lemma StageByRules(stage: Stage, i: nat, v: Value, o: Outcome)
    ensures StageGives(stage, i, v, o) <==> o == Invoke(stage, i, v).outcome
  {
    match stage {
      case Simple(_, input, _, action) =>
        CallEnds(action.body, if input.TypeList? && v.Variant? then v.inner else v, o);
      case SelectedBranch(cases) =>
        BranchGivesInvoke(stage, i, v);
        if StageGives(stage, i, v, o) {
          var k, inner, r :| BranchGives(cases, v, k, inner, r, o);
          BranchGivesOnly(stage, i, v, k, inner, r, o);
        }
      case FanInBranch(cases) =>
        FanInByRule(stage, i, v, o);
    }
  }

  lemma FanInByRule(stage: Stage, i: nat, v: Value, o: Outcome)
    requires stage.FanInBranch?
    ensures StageGives(stage, i, v, o) <==> o == Invoke(stage, i, v).outcome
  {
    var slots := RunFanInBranch(BranchFor(stage, i, v)).slots;
    SlotsAreRule(stage, i, v);
    if StageGives(stage, i, v, o) {
      forall j | 0 <= j < |stage.cases| ensures o.value.slots[j] == slots[j] {
        SlotRuleIsExact(stage.cases[j], v, o.value.slots[j], slots[j]);
      }
      assert o.value.slots == slots;
    }
  }

  // ---------------------------------------------------------------- whole runs

  /** A run from stage k on may end with a result: the stages pass values on until one stops or none is left. */
  ghost predicate RunEnds(stages: seq<Stage>, k: nat, v: Value, r: Result)
    requires k <= |stages|
    decreases |stages| - k
  {
    if k == |stages| then r == Ok(v)
    else
      exists o: Outcome ::
        && StageGives(stages[k], k, v, o)
        && if o.Yield? then RunEnds(stages, k + 1, o.value, r) else r.Fail? && StopsWith(stages[k], k, o, r.error)
  }

  ghost predicate StopsWith(stage: Stage, k: nat, o: Outcome, e: Error) {
    exists id: StageId :: IsStageId(stage, k, id) && Reported(id, o, e)
  }

  lemma StopsExactly(stage: Stage, k: nat, o: Outcome, e: Error)
    requires !o.Yield?
    ensures StopsWith(stage, k, o, e) <==> e == OutcomeError(StageIdFor(stage, k), o)
  {
    StageIdIs(stage, k, StageIdFor(stage, k));
    ErrorIsReported(StageIdFor(stage, k), o, e);
    forall id: StageId | IsStageId(stage, k, id) ensures id == StageIdFor(stage, k) {
      StageIdIs(stage, k, id);
    }
  }

  /**
    Main result: try_run returns a result if and only if the rules let the run end with it.
    Every value, identity, category and message of its results is fixed by the rules.
   */
  lemma {:induction false} TryRunByRules(stages: seq<Stage>, k: nat, v: Value, r: Result)
    requires k <= |stages|
    ensures RunEnds(stages, k, v, r) <==> TryRun(stages, k, v).result == r
    decreases |stages| - k
  {
    if k < |stages| {
      var outcome := Invoke(stages[k], k, v).outcome;
      forall o: Outcome ensures StageGives(stages[k], k, v, o) <==> o == outcome {
        StageByRules(stages[k], k, v, o);
      }
      if outcome.Yield? {
        TryRunByRules(stages, k + 1, outcome.value, r);
      } else if r.Fail? {
        StopsExactly(stages[k], k, outcome, r.error);
      }
    }
  }

  /** The error try_run stops with, by how the stopping stage ended. */
  lemma StoppingErrorByRules(stages: seq<Stage>, v: Value)
    requires StopOf(stages, 0, v).StopsAt?
    ensures var stop, r := StopOf(stages, 0, v), TryRun(stages, 0, v).result;
            && stop.index < |stages| && r.Fail?
            && var e, id := r.error, StageIdFor(stages[stop.index], stop.index);
               && IsStageId(stages[stop.index], stop.index, id)
               && match stop.outcome
                  case Throw(StdException(what)) => e == Error(id, ExceptionCategory, what)
                  case Throw(UnknownException) =>
                    e == Error(id, ExceptionCategory, "stage threw an unknown exception")
                  case Reject(ForeignError(text)) => e == Error(id, ExpectedErrorCategory, text)
                  case Reject(RuntimeError(own)) =>
                    e == Error(if own.stage == StageId("", "") then id else own.stage, own.category, own.message)
                  case Yield(_) => false
  {
    var stop := StopOf(stages, 0, v);
    var id := StageIdFor(stages[stop.index], stop.index);
    TryRunStops(stages, 0, v);
    StageIdIs(stages[stop.index], stop.index, id);
    ErrorIsReported(id, stop.outcome, TryRun(stages, 0, v).result.error);
  }

  /** A selected branch whose predicates all say no, before and after it gets the branch's name. */
  lemma UnselectedBranch(stage: Stage, i: nat, v: Value)
    requires stage.SelectedBranch? && DeclinedBefore(stage.cases, v, |stage.cases|)
    ensures var id := StageId("branch", "branch");
            && RunCases(BranchFor(stage, i, v), 0).result
               == Fail(Error(id, ContractViolationCategory, "no branch predicate selected a case"))
            && Invoke(stage, i, v).outcome
               == Reject(RuntimeError(Error(id, ContractViolationCategory,
                                            "[branch] no branch predicate selected a case")))
  {
    var br := BranchFor(stage, i, v);
    StageIdIs(stage, i, br.id);
    DeclinedRun(br, |stage.cases|);
    BranchEndsExactly(stage, i, v, |stage.cases|, Yield(v), RunCases(br, 0).result);
    DeliversExactly(RunCases(br, 0).result, Invoke(stage, i, v).outcome);
    NamedMessage();
  }

  lemma NamedMessage()
    ensures "[branch] " + "no branch predicate selected a case" == "[branch] no branch predicate selected a case"
  {
  }
}
