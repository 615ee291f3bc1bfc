/**
  The pipeline builder as a small typed language. Each builder operation is a partial
  function whose guards are the static assertions of the source; the types it keeps
  track of are compared with what the executors hand to the stages at run time.
 */
module Typing {
  import opened Core
  import opened FanIn
  import opened FanInRefinement
  import opened SelectedBranch
  import opened Engine

  import P = ParallelFanIn

  // ---------------------------------------------------------------- the builder

  function RawOutputs(cases: seq<Case>): seq<Ty> {
    seq(|cases|, i requires 0 <= i < |cases| => cases[i].out)
  }

  /** The common type of homogeneous cases, the variant of all of them otherwise. */
  function UnifiedOutput(cases: seq<Case>): Ty
    requires |cases| > 0
  {
    if Homogeneous(cases) then cases[0].out else VariantOf(RawOutputs(cases))
  }

  /** Each case's predicate and stage agree on the input, and all cases do. */
  predicate CasesAgree(cases: seq<Case>) {
    && |cases| > 0
    && forall i :: 0 <= i < |cases| ==> cases[i].predicateIn == cases[i].stageIn == cases[0].predicateIn
  }

  /** Every predicate of a fan-in has to be callable with the node's input. */
  predicate PredicatesAccept(cases: seq<Case>) {
    forall i :: 0 <= i < |cases| ==> cases[i].test.accepts(cases[i].predicateIn)
  }

  predicate AcceptsEach(action: Callable, types: seq<Ty>) {
    forall i :: 0 <= i < |types| ==> action.accepts(types[i])
  }

  /** A type-list join names the raw outputs of the branch before it and is invocable with each. */
  predicate JoinsRawOutputs(cases: seq<Case>, stage: Stage) {
    stage.Simple? && stage.input == TypeList(RawOutputs(cases)) && AcceptsEach(stage.action, RawOutputs(cases))
  }

  datatype State = State(input: Ty, current: Ty, stages: seq<Stage>)

  datatype Op = Then(stage: Stage) | Branch(cases: seq<Case>) | Join(stage: Stage) | FanInJoin(stage: Stage)

  predicate EndsInBranch(s: State) {
    |s.stages| > 0 && s.stages[|s.stages| - 1].SelectedBranch? && |s.stages[|s.stages| - 1].cases| > 0
  }

  function LastCases(s: State): seq<Case>
    requires EndsInBranch(s)
  {
    s.stages[|s.stages| - 1].cases
  }

  /** One builder step, or nothing where a static assertion fails. */
  function Apply(s: State, op: Op): Option<State> {
    match op
    case Then(stage) =>
      if stage.Simple? && s.current == stage.input
      then Some(State(s.input, stage.output, s.stages + [stage])) else None
    case Branch(cases) =>
      if CasesAgree(cases) && s.current == cases[0].predicateIn
      then Some(State(s.input, UnifiedOutput(cases), s.stages + [SelectedBranch(cases)])) else None
    case Join(stage) =>
      if EndsInBranch(s) && stage.Simple?
         && (stage.input == UnifiedOutput(LastCases(s)) || JoinsRawOutputs(LastCases(s), stage))
      then Some(State(s.input, stage.output, s.stages + [stage])) else None
    case FanInJoin(stage) =>
      if EndsInBranch(s) && stage.Simple? && stage.input == ResultsOf(RawOutputs(LastCases(s)))
         && PredicatesAccept(LastCases(s))
      then Some(State(s.input, stage.output, s.stages[..|s.stages| - 1] + [FanInBranch(LastCases(s)), stage]))
      else None
  }

  function From(input: Ty): State {
    State(input, input, [])
  }

  function Build(input: Ty, ops: seq<Op>): Option<State> {
    if ops == [] then Some(From(input))
    else
      var before := Build(input, ops[..|ops| - 1]);
      if before.None? then None else Apply(before.value, ops[|ops| - 1])
  }

  /** The sink check: the last output is the requested one. */
  predicate Finalizes(s: State, output: Ty) {
    s.current == output
  }

  // ---------------------------------------------------------------- the stage lists it can build

  /** The type of a stage's result; meaningless for a branch without cases. */
  function OutputOf(stage: Stage): Ty {
    match stage
    case Simple(_, _, output, _) => output
    case SelectedBranch(cases) => if |cases| > 0 then UnifiedOutput(cases) else TypeList([])
    case FanInBranch(cases) => ResultsOf(RawOutputs(cases))
  }

  /** The type that reaches stage i. */
  function ReachingType(input: Ty, stages: seq<Stage>, i: nat): Ty
    requires i <= |stages|
  {
    if i == 0 then input else OutputOf(stages[i - 1])
  }

  predicate Fits(input: Ty, stages: seq<Stage>, i: nat)
    requires i < |stages|
  {
    var t := ReachingType(input, stages, i);
    match stages[i]
    case Simple(_, stageInput, _, _) =>
      t == stageInput || (i > 0 && stages[i - 1].SelectedBranch? && JoinsRawOutputs(stages[i - 1].cases, stages[i]))
    case SelectedBranch(cases) => CasesAgree(cases) && cases[0].predicateIn == t
    case FanInBranch(cases) =>
      && CasesAgree(cases) && cases[0].predicateIn == t && PredicatesAccept(cases)
      && i + 1 < |stages| && stages[i + 1].Simple?
  }

  predicate WellTyped(input: Ty, stages: seq<Stage>) {
    forall i :: 0 <= i < |stages| ==> Fits(input, stages, i)
  }

  lemma ApplyKeepsTyping(s: State, op: Op)
    requires WellTyped(s.input, s.stages) && s.current == ReachingType(s.input, s.stages, |s.stages|)
    requires Apply(s, op).Some?
    ensures var t := Apply(s, op).value;
            t.input == s.input && WellTyped(t.input, t.stages)
            && t.current == ReachingType(t.input, t.stages, |t.stages|)
  {
    var t, n := Apply(s, op).value, |s.stages|;
    forall i | 0 <= i < |t.stages| ensures Fits(t.input, t.stages, i) {
      if i < n - 1 || (i < n && !op.FanInJoin?) {
        assert t.stages[i] == s.stages[i];
        assert Fits(s.input, s.stages, i);
        assert ReachingType(t.input, t.stages, i) == ReachingType(s.input, s.stages, i);
      } else if i == n - 1 {
        assert Fits(s.input, s.stages, i);
        assert ReachingType(t.input, t.stages, i) == ReachingType(s.input, s.stages, i);
      }
    }
  }

  lemma {:induction false} BuildIsTyped(input: Ty, ops: seq<Op>)
    requires Build(input, ops).Some?
    ensures var s := Build(input, ops).value;
            s.input == input && WellTyped(input, s.stages) && s.current == ReachingType(input, s.stages, |s.stages|)
  {
    if ops != [] {
      BuildIsTyped(input, ops[..|ops| - 1]);
      ApplyKeepsTyping(Build(input, ops[..|ops| - 1]).value, ops[|ops| - 1]);
    }
  }

  lemma BuildMore(input: Ty, ops: seq<Op>, op: Op)
    requires Build(input, ops).Some?
    ensures Build(input, ops + [op]) == Apply(Build(input, ops).value, op)
  {
    assert (ops + [op])[..|ops|] == ops;
  }

  /** The prefix of a well-typed list is well typed unless it cuts a fan-in from its join. */
  lemma PrefixIsTyped(input: Ty, stages: seq<Stage>, n: nat)
    requires n <= |stages| && WellTyped(input, stages) && (n > 0 ==> !stages[n - 1].FanInBranch?)
    ensures WellTyped(input, stages[..n])
  {
    forall i | 0 <= i < n ensures Fits(input, stages[..n], i) {
      assert Fits(input, stages, i);
    }
  }

  /** A branch in place of the fan-in that ends a list. */
  lemma UndoFanIn(input: Ty, stages: seq<Stage>)
    requires |stages| >= 2 && WellTyped(input, stages) && stages[|stages| - 2].FanInBranch?
    ensures WellTyped(input, stages[..|stages| - 2] + [SelectedBranch(stages[|stages| - 2].cases)])
  {
    var n := |stages| - 2;
    var before := stages[..n] + [SelectedBranch(stages[n].cases)];
    forall i | 0 <= i < |before| ensures Fits(input, before, i) {
      assert Fits(input, stages, i);
    }
  }

  /** The list a fan-in step leaves, from the list it was applied to. */
  lemma FanInBuilds(input: Ty, stages: seq<Stage>, ops: seq<Op>)
    requires |stages| >= 2 && WellTyped(input, stages) && stages[|stages| - 2].FanInBranch?
    requires var before := stages[..|stages| - 2] + [SelectedBranch(stages[|stages| - 2].cases)];
             Build(input, ops) == Some(State(input, ReachingType(input, before, |before|), before))
    ensures Build(input, ops + [FanInJoin(stages[|stages| - 1])])
            == Some(State(input, ReachingType(input, stages, |stages|), stages))
  {
    var n := |stages| - 2;
    assert Fits(input, stages, n) && Fits(input, stages, n + 1);
    var before := stages[..n] + [SelectedBranch(stages[n].cases)];
    BuildMore(input, ops, FanInJoin(stages[n + 1]));
    assert before[..n] + [FanInBranch(stages[n].cases), stages[n + 1]] == stages;
  }

  /** The operation that adds the last stage of a well-typed list. */
  function LastOp(input: Ty, stages: seq<Stage>): Op
    requires |stages| > 0
  {
    var n := |stages| - 1;
    if !stages[n].Simple? then Op.Branch(stages[n].cases)
    else if stages[n].input == ReachingType(input, stages, n) then Then(stages[n])
    else Join(stages[n])
  }

  lemma LastOpBuilds(input: Ty, stages: seq<Stage>, ops: seq<Op>)
    requires |stages| > 0 && WellTyped(input, stages)
    requires |stages| > 1 ==> !stages[|stages| - 2].FanInBranch?
    requires var n := |stages| - 1;
             Build(input, ops) == Some(State(input, ReachingType(input, stages[..n], n), stages[..n]))
    ensures Build(input, ops + [LastOp(input, stages)])
            == Some(State(input, ReachingType(input, stages, |stages|), stages))
  {
    BuildMore(input, ops, LastOp(input, stages));
    LastOpApplies(input, stages);
  }

  lemma LastOpApplies(input: Ty, stages: seq<Stage>)
    requires |stages| > 0 && WellTyped(input, stages)
    requires |stages| > 1 ==> !stages[|stages| - 2].FanInBranch?
    ensures var n := |stages| - 1;
            Apply(State(input, ReachingType(input, stages[..n], n), stages[..n]), LastOp(input, stages))
            == Some(State(input, ReachingType(input, stages, |stages|), stages))
  {
    var n := |stages| - 1;
    assert Fits(input, stages, n) && (n > 0 ==> Fits(input, stages, n - 1));
    assert ReachingType(input, stages[..n], n) == ReachingType(input, stages, n);
    assert stages[..n] + [stages[n]] == stages;
  }

  lemma {:induction false} TypedIsBuilt(input: Ty, stages: seq<Stage>) returns (ops: seq<Op>)
    requires WellTyped(input, stages)
    ensures Build(input, ops) == Some(State(input, ReachingType(input, stages, |stages|), stages))
    decreases |stages|
  {
    if stages == [] {
      return [];
    }
    var n := |stages| - 1;
    if n > 0 && stages[n - 1].FanInBranch? {
      UndoFanIn(input, stages);
      ops := TypedIsBuilt(input, stages[..n - 1] + [SelectedBranch(stages[n - 1].cases)]);
      FanInBuilds(input, stages, ops);
      ops := ops + [FanInJoin(stages[n])];
    } else {
      PrefixIsTyped(input, stages, n);
      ops := TypedIsBuilt(input, stages[..n]);
      LastOpBuilds(input, stages, ops);
      ops := ops + [LastOp(input, stages)];
    }
  }

  /** The builder accepts exactly the well-typed stage lists. */
  lemma BuilderIsExact(input: Ty, stages: seq<Stage>, output: Ty)
    ensures (exists ops: seq<Op>, s: State ::
               Build(input, ops) == Some(s) && s.stages == stages && Finalizes(s, output))
            <==> WellTyped(input, stages) && output == ReachingType(input, stages, |stages|)
  {
    if WellTyped(input, stages) && output == ReachingType(input, stages, |stages|) {
      var ops := TypedIsBuilt(input, stages);
      var s := State(input, output, stages);
      assert Build(input, ops) == Some(s) && s.stages == stages && Finalizes(s, output);
    } else {
      forall ops: seq<Op>, s: State | Build(input, ops) == Some(s) && s.stages == stages
        ensures !Finalizes(s, output)
      {
        BuildIsTyped(input, ops);
      }
    }
  }

  // ---------------------------------------------------------------- what the executors instantiate

  /** The argument types a stage is called with when values of a type reach it. */
  function Instantiations(stage: Stage, t: Ty): seq<Ty>
    requires stage.Simple?
  {
    if stage.input.TypeList? && t.VariantOf? then t.alternatives else [t]
  }

  /** The predicates and the stages of a branch take the input they are called with. */
  predicate CasesAccept(cases: seq<Case>) {
    forall i :: 0 <= i < |cases| ==>
      cases[i].test.accepts(cases[i].predicateIn) && cases[i].action.accepts(cases[i].stageIn)
  }

  /** Every call made for stage i, with values of the type that reaches it, exists. */
  predicate Instantiates(input: Ty, stages: seq<Stage>, i: nat)
    requires i < |stages|
  {
    if stages[i].Simple?
    then AcceptsEach(stages[i].action, Instantiations(stages[i], ReachingType(input, stages, i)))
    else CasesAccept(stages[i].cases)
  }

  /** Callables can be called with their own input type where values of that type reach them. */
  predicate TakesItsInput(input: Ty, stages: seq<Stage>, i: nat)
    requires i < |stages|
  {
    match stages[i]
    case Simple(_, stageInput, _, action) => ReachingType(input, stages, i) == stageInput ==> action.accepts(stageInput)
    case SelectedBranch(cases) => CasesAccept(cases)
    case FanInBranch(cases) => forall j :: 0 <= j < |cases| ==> cases[j].action.accepts(cases[j].stageIn)
  }

  /** A type-list join behind a homogeneous branch whose common output is itself a variant. */
  predicate JoinsCommonVariant(stages: seq<Stage>, i: nat)
    requires i < |stages|
  {
    && i > 0 && stages[i].Simple? && stages[i].input.TypeList?
    && stages[i - 1].SelectedBranch? && OutputOf(stages[i - 1]).VariantOf? && Homogeneous(stages[i - 1].cases)
  }

  /**
    Main result on accepted pipelines: every call the executors instantiate exists, except
    exactly where a type-list join follows a homogeneous branch with a variant output and
    does not take each alternative: there the join is handed the alternatives, not the
    variant the builder checked.
   */
  lemma CallsExistExactly(input: Ty, stages: seq<Stage>, i: nat)
    requires WellTyped(input, stages) && i < |stages| && TakesItsInput(input, stages, i)
    ensures Instantiates(input, stages, i) <==>
            (JoinsCommonVariant(stages, i) ==>
               AcceptsEach(stages[i].action, OutputOf(stages[i - 1]).alternatives))
  {
    assert Fits(input, stages, i);
    if i > 0 {
      assert Fits(input, stages, i - 1);
    }
    var t := ReachingType(input, stages, i);
    if stages[i].Simple? && t != stages[i].input {
      var cases := stages[i - 1].cases;
      assert stages[i].input == TypeList(RawOutputs(cases));
      assert RawOutputs(cases)[0] == cases[0].out;
    }
  }

  const PAIR := VariantOf([Base(0), Base(1)])

  /** A branch with one case that returns a pair of alternatives, joined by a stage that takes the pair. */
  const PAIR_CASE := Case(Meta("p", "p"), Meta("s", "s"), Base(2), Base(2), PAIR,
                          Predicate(t => t == Base(2), v => Says(true)),
                          Callable(t => t == Base(2), Plain(v => Return(Variant(0, Scalar(0, 7))))), "")

  const PAIR_JOIN := Simple(Meta("j", "j"), TypeList([PAIR]), Base(3),
                            Callable(t => t == PAIR, Plain(v => Return(Scalar(3, 0)))))

  /** The exception is real: the builder accepts this pipeline, and its join is called with a type it does not take. */
  lemma AcceptedButNotCallable()
    ensures var stages := [SelectedBranch([PAIR_CASE]), PAIR_JOIN];
            && Build(Base(2), [Op.Branch([PAIR_CASE]), Join(PAIR_JOIN)]) == Some(State(Base(2), Base(3), stages))
            && !Instantiates(Base(2), stages, 1)
  {
    var branch, s := Op.Branch([PAIR_CASE]), State(Base(2), PAIR, [SelectedBranch([PAIR_CASE])]);
    assert CasesAgree([PAIR_CASE]) && UnifiedOutput([PAIR_CASE]) == PAIR && RawOutputs([PAIR_CASE]) == [PAIR];
    assert From(Base(2)).stages + s.stages == s.stages;
    assert Apply(From(Base(2)), branch) == Some(s);
    BuildMore(Base(2), [], branch);
    assert [] + [branch] == [branch];
    BuildMore(Base(2), [branch], Join(PAIR_JOIN));
    assert s.stages + [PAIR_JOIN] == [SelectedBranch([PAIR_CASE]), PAIR_JOIN];
    assert [branch] + [Join(PAIR_JOIN)] == [branch, Join(PAIR_JOIN)];
    assert Instantiations(PAIR_JOIN, PAIR)[0] == Base(0);
  }

  // ---------------------------------------------------------------- runs of accepted pipelines

  /** A stage returns values of its output type for the arguments it accepts. */
  ghost predicate Behaves(stage: Stage) {
    match stage
    case Simple(_, _, output, action) =>
      forall t: Ty, v: Value :: action.accepts(t) && HasType(v, t) ==> YieldsType(Call(action.body, v), output)
    case SelectedBranch(cases) => CasesBehave(cases)
    case FanInBranch(cases) => CasesBehave(cases)
  }

  ghost predicate CasesBehave(cases: seq<Case>) {
    forall i: nat, v: Value :: i < |cases| && HasType(v, cases[i].stageIn) ==>
      YieldsType(Call(cases[i].action.body, v), cases[i].out)
  }

  predicate YieldsType(outcome: Outcome, t: Ty) {
    outcome.Yield? ==> HasType(outcome.value, t)
  }

  predicate Declares(input: Ty, t: Ty) {
    t == input || (input.TypeList? && t in input.members)
  }

  /** The predicate and the stage of a case can both be called with a value. */
  predicate SafeCase(c: Case, v: Value) {
    && HasType(v, c.predicateIn) && c.test.accepts(c.predicateIn)
    && HasType(v, c.stageIn) && c.action.accepts(c.stageIn)
  }

  /** The calls made when a value reaches stage k get arguments of a declared and accepted type. */
  ghost predicate SafeCalls(input: Ty, stages: seq<Stage>, k: nat, v: Value)
    requires k < |stages|
  {
    var stage := stages[k];
    if stage.Simple? then
      exists t: Ty ::
        && HasType(Argument(stage.input, v), t)
        && stage.action.accepts(t)
        && (JoinsCommonVariant(stages, k) || Declares(stage.input, t))
    else
      forall j :: 0 <= j < |stage.cases| ==> SafeCase(stage.cases[j], v)
  }

  ghost predicate SafeRun(input: Ty, stages: seq<Stage>, k: nat, v: Value)
    requires k <= |stages|
    decreases |stages| - k
  {
    k < |stages| ==>
      && SafeCalls(input, stages, k, v)
      && var outcome := Invoke(stages[k], k, v).outcome;
         outcome.Yield? ==> SafeRun(input, stages, k + 1, outcome.value)
  }

  lemma ReachedStageIsSafe(input: Ty, stages: seq<Stage>, k: nat, v: Value)
    requires k < |stages| && WellTyped(input, stages) && Instantiates(input, stages, k)
    requires HasType(v, ReachingType(input, stages, k))
    ensures SafeCalls(input, stages, k, v)
  {
    assert Fits(input, stages, k);
    var stage, t := stages[k], ReachingType(input, stages, k);
    if stage.Simple? {
      var types := Instantiations(stage, t);
      var at := if stage.input.TypeList? && t.VariantOf? then v.index else 0;
      assert HasType(Argument(stage.input, v), types[at]);
      assert stage.action.accepts(types[at]);
      if t != stage.input && !JoinsCommonVariant(stages, k) {
        assert Fits(input, stages, k - 1);
        assert stage.input == TypeList(RawOutputs(stages[k - 1].cases));
        assert types[at] == stage.input.members[at];
      }
    }
  }

  // ---------------------------------------------------------------- results are typed

  /** A selected branch returns a value of its unified type, the variant index being the case index. */
  lemma {:induction false} SelectedBranchIsTyped(br: Branch, i: nat)
    requires i <= |br.cases| && CasesAgree(br.cases) && CasesBehave(br.cases)
    requires HasType(br.input, br.cases[0].predicateIn)
    ensures var r := RunCases(br, i).result; r.Ok? ==> HasType(r.value, UnifiedOutput(br.cases))
    decreases |br.cases| - i
  {
    if i < |br.cases| {
      RunCasesVisits(br, i);
      if VerdictOf(br, i) == Says(false) {
        SelectedBranchIsTyped(br, i + 1);
      } else if VerdictOf(br, i).Says? {
        assert HasType(br.input, br.cases[i].stageIn);
        assert YieldsType(OutcomeOf(br, i), br.cases[i].out);
        assert RawOutputs(br.cases)[i] == br.cases[i].out;
      }
    }
  }

  /** A fan-in returns an aggregate whose filled slots hold values of their cases' types. */
  lemma FanInIsTyped(br: Branch)
    requires CasesAgree(br.cases) && CasesBehave(br.cases) && HasType(br.input, br.cases[0].predicateIn)
    ensures HasType(Aggregate(RunFanInBranch(br).slots), ResultsOf(RawOutputs(br.cases)))
  {
    SequentialRun(br);
    var slots := RunFanInBranch(br).slots;
    forall j | 0 <= j < |br.cases| && slots[j].value.Some? ensures HasType(slots[j].value.value, br.cases[j].out) {
      assert slots[j] == P.FinalSlot(br, j, |br.cases|);
      assert HasType(br.input, br.cases[j].stageIn);
      assert YieldsType(OutcomeOf(br, j), br.cases[j].out);
    }
  }

  lemma InvocationIsTyped(input: Ty, stages: seq<Stage>, k: nat, v: Value)
    requires k < |stages| && WellTyped(input, stages) && Instantiates(input, stages, k) && Behaves(stages[k])
    requires HasType(v, ReachingType(input, stages, k))
    ensures YieldsType(Invoke(stages[k], k, v).outcome, OutputOf(stages[k]))
  {
    assert Fits(input, stages, k);
    match stages[k] {
      case Simple(_, _, _, _) => ReachedStageIsSafe(input, stages, k, v);
      case SelectedBranch(_) => SelectedBranchIsTyped(BranchFor(stages[k], k, v), 0);
      case FanInBranch(_) => FanInIsTyped(BranchFor(stages[k], k, v));
    }
  }

  lemma {:induction false} TypedRun(input: Ty, stages: seq<Stage>, k: nat, v: Value)
    requires k <= |stages| && WellTyped(input, stages) && HasType(v, ReachingType(input, stages, k))
    requires forall i :: 0 <= i < |stages| ==> Instantiates(input, stages, i) && Behaves(stages[i])
    ensures SafeRun(input, stages, k, v)
    ensures var r := TryRun(stages, k, v).result; r.Ok? ==> HasType(r.value, ReachingType(input, stages, |stages|))
    decreases |stages| - k
  {
    if k < |stages| {
      ReachedStageIsSafe(input, stages, k, v);
      InvocationIsTyped(input, stages, k, v);
      var outcome := Invoke(stages[k], k, v).outcome;
      if outcome.Yield? {
        TypedRun(input, stages, k + 1, outcome.value);
      }
    }
  }

  /**
    Type soundness. A pipeline built by any accepted sequence of operations, run on any
    input of its input type, hands every stage and predicate a value of a type it declares
    and accepts, and a success has the type the sink asked for. A join of a common variant
    need only accept the alternatives it is really handed.
   */
  lemma TypeSoundness(input: Ty, ops: seq<Op>, output: Ty, v: Value)
    requires Build(input, ops).Some? && Finalizes(Build(input, ops).value, output) && HasType(v, input)
    requires var stages := Build(input, ops).value.stages;
             forall i :: 0 <= i < |stages| ==>
               && TakesItsInput(input, stages, i) && Behaves(stages[i])
               && (JoinsCommonVariant(stages, i) ==>
                     AcceptsEach(stages[i].action, OutputOf(stages[i - 1]).alternatives))
    ensures var stages := Build(input, ops).value.stages;
            var r := TryRun(stages, 0, v).result;
            SafeRun(input, stages, 0, v) && (r.Ok? ==> HasType(r.value, output))
  {
    var stages := Build(input, ops).value.stages;
    BuildIsTyped(input, ops);
    forall i | 0 <= i < |stages| ensures Instantiates(input, stages, i) {
      CallsExistExactly(input, stages, i);
    }
    TypedRun(input, stages, 0, v);
  }
}
