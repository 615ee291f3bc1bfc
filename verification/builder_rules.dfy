/**
  The builder by its rules: for every operation, exactly when it is accepted and what it
  leaves, spelled out on the types of the cases and stages; and what the accepted types mean
  for the values of a run.
 */
module BuilderRules {
  import opened Core
  import opened FanIn
  import opened Engine
  import opened Typing
  import opened Rules
  import opened RunRules

  // ---------------------------------------------------------------- acceptance, operation by operation

  /** The common output of the cases, or the variant of their outputs in case order. */
  predicate IsUnified(cases: seq<Case>, t: Ty) {
    if forall i :: 0 <= i < |cases| ==> cases[i].out == cases[0].out then |cases| > 0 && t == cases[0].out
    else t.VariantOf? && AreOutputs(cases, t.alternatives)
  }

  predicate AreOutputs(cases: seq<Case>, types: seq<Ty>) {
    |types| == |cases| && forall i :: 0 <= i < |cases| ==> types[i] == cases[i].out
  }

  lemma UnifiedIs(cases: seq<Case>, t: Ty)
    requires |cases| > 0
    ensures IsUnified(cases, t) <==> t == UnifiedOutput(cases)
  {
    if t.VariantOf? {
      OutputsAre(cases, t.alternatives);
    }
  }

  lemma OutputsAre(cases: seq<Case>, types: seq<Ty>)
    ensures AreOutputs(cases, types) <==> types == RawOutputs(cases)
  {
  }

  /** A plain step is accepted exactly when the stage takes the current type. */
  lemma ThenByRules(s: State, stage: Stage)
    ensures Apply(s, Then(stage)).Some? <==> stage.Simple? && stage.input == s.current
    ensures Apply(s, Then(stage)).Some? ==>
              Apply(s, Then(stage)).value == State(s.input, stage.output, s.stages + [stage])
  {
  }

  /** A branch is accepted exactly when it has cases and every predicate and stage takes the current type. */
  lemma BranchByRules(s: State, cases: seq<Case>)
    ensures Apply(s, Op.Branch(cases)).Some?
            <==> |cases| > 0
                 && forall i :: 0 <= i < |cases| ==> cases[i].predicateIn == s.current && cases[i].stageIn == s.current
    ensures Apply(s, Op.Branch(cases)).Some? ==>
              var t := Apply(s, Op.Branch(cases)).value;
              t.input == s.input && t.stages == s.stages + [SelectedBranch(cases)] && IsUnified(cases, t.current)
  {
    if |cases| > 0 {
      assert cases[0] in cases;
      UnifiedIs(cases, UnifiedOutput(cases));
    }
    if forall i :: 0 <= i < |cases| ==> cases[i].predicateIn == s.current && cases[i].stageIn == s.current {
      assert |cases| > 0 ==> CasesAgree(cases);
    }
  }

  /** The state ends in a branch with cases. */
  ghost predicate AfterBranch(s: State, cases: seq<Case>) {
    |s.stages| > 0 && |cases| > 0 && s.stages[|s.stages| - 1] == SelectedBranch(cases)
  }

  /** Without a branch before it neither join is accepted. */
  lemma JoinsNeedABranch(s: State, stage: Stage)
    requires forall cases: seq<Case> :: !AfterBranch(s, cases)
    ensures Apply(s, Join(stage)).None? && Apply(s, FanInJoin(stage)).None?
  {
    if EndsInBranch(s) {
      assert AfterBranch(s, LastCases(s));
    }
  }

  /**
    A join is accepted exactly when the stage takes the unified output, or names every
    output in case order in a type list and can be invoked with each of them.
   */
  lemma JoinByRules(s: State, cases: seq<Case>, stage: Stage)
    requires AfterBranch(s, cases)
    ensures Apply(s, Join(stage)).Some?
            <==> stage.Simple?
                 && (IsUnified(cases, stage.input)
                     || (stage.input.TypeList? && AreOutputs(cases, stage.input.members)
                         && forall i :: 0 <= i < |cases| ==> stage.action.accepts(cases[i].out)))
    ensures Apply(s, Join(stage)).Some? ==>
              Apply(s, Join(stage)).value == State(s.input, stage.output, s.stages + [stage])
  {
    if stage.Simple? {
      UnifiedIs(cases, stage.input);
      if stage.input.TypeList? {
        OutputsAre(cases, stage.input.members);
        AcceptsOutputs(cases, stage.action);
      }
    }
  }

  lemma AcceptsOutputs(cases: seq<Case>, action: Callable)
    ensures AcceptsEach(action, RawOutputs(cases)) <==> forall i :: 0 <= i < |cases| ==> action.accepts(cases[i].out)
  {
    forall i | 0 <= i < |cases| ensures RawOutputs(cases)[i] == cases[i].out {
    }
    if forall i :: 0 <= i < |cases| ==> action.accepts(cases[i].out) {
      assert AcceptsEach(action, RawOutputs(cases));
    } else {
      var i :| 0 <= i < |cases| && !action.accepts(cases[i].out);
      assert !action.accepts(RawOutputs(cases)[i]);
    }
  }

  /**
    A fan-in join is accepted exactly when the stage takes the aggregate of all outputs in
    case order and every predicate can be invoked with its input; it turns the branch into a
    fan-in of the same cases.
   */
  lemma FanInByRules(s: State, cases: seq<Case>, stage: Stage)
    requires AfterBranch(s, cases)
    ensures Apply(s, FanInJoin(stage)).Some?
            <==> stage.Simple? && stage.input.ResultsOf? && AreOutputs(cases, stage.input.outputs)
                 && forall i :: 0 <= i < |cases| ==> cases[i].test.accepts(cases[i].predicateIn)
    ensures Apply(s, FanInJoin(stage)).Some? ==>
              Apply(s, FanInJoin(stage)).value
              == State(s.input, stage.output, s.stages[..|s.stages| - 1] + [FanInBranch(cases), stage])
  {
    if stage.Simple? && stage.input.ResultsOf? {
      OutputsAre(cases, stage.input.outputs);
    }
  }

  /** A sequence of operations is carried out from left to right, from the input type on. */
  lemma BuildByRules(input: Ty, ops: seq<Op>, op: Op)
    ensures Build(input, []) == Some(State(input, input, []))
    ensures Build(input, ops + [op])
            == if Build(input, ops).None? then None else Apply(Build(input, ops).value, op)
  {
    assert (ops + [op])[..|ops|] == ops;
  }

  /** A branch whose cases have two output types is accepted, with the variant of both. */
  lemma HeterogeneousBranch(input: Ty, c: Case, d: Case)
    requires c.predicateIn == c.stageIn == d.predicateIn == d.stageIn == input && c.out != d.out
    ensures Build(input, [Op.Branch([c, d])])
            == Some(State(input, VariantOf([c.out, d.out]), [SelectedBranch([c, d])]))
  {
    var s, cases := State(input, input, []), [c, d];
    BuildByRules(input, [], Op.Branch(cases));
    BranchByRules(s, cases);
    assert [] + [Op.Branch(cases)] == [Op.Branch(cases)];
    assert s.stages + [SelectedBranch(cases)] == [SelectedBranch(cases)];
    var t := Apply(s, Op.Branch(cases)).value;
    assert cases[1].out != cases[0].out;
    assert t.current.alternatives == [c.out, d.out];
  }

  // ---------------------------------------------------------------- what types mean for values

  /** What a success of a built pipeline looks like, by the sink's type. */
  predicate Fills(v: Value, t: Ty) {
    match t
    case Base(tag) => v.Scalar? && v.tag == tag
    case VariantOf(ts) => v.Variant? && v.index < |ts| && HasType(v.inner, ts[v.index])
    case ResultsOf(ts) => v.Aggregate? && |v.slots| == |ts|
    case TypeList(_) => false
  }

  /** A success has the sink's type: its tag, an alternative in range, or one slot for each case. */
  lemma SuccessFillsTheSink(input: Ty, ops: seq<Op>, output: Ty, v: Value, w: Value)
    requires Build(input, ops).Some? && Finalizes(Build(input, ops).value, output) && HasType(v, input)
    requires var stages := Build(input, ops).value.stages;
             && (forall i :: 0 <= i < |stages| ==>
                   && TakesItsInput(input, stages, i) && Behaves(stages[i])
                   && (JoinsCommonVariant(stages, i) ==>
                         AcceptsEach(stages[i].action, OutputOf(stages[i - 1]).alternatives)))
             && RunEnds(stages, 0, v, Ok(w))
    ensures Fills(w, output)
  {
    TryRunByRules(Build(input, ops).value.stages, 0, v, Ok(w));
    TypeSoundness(input, ops, output, v);
  }

  /** A value reaches stage k of a run. */
  ghost predicate Reaches(stages: seq<Stage>, i: nat, v: Value, k: nat, u: Value)
    requires i <= k <= |stages|
    decreases k - i
  {
    if i == k then u == v
    else exists w: Value :: StageGives(stages[i], i, v, Yield(w)) && Reaches(stages, i + 1, w, k, u)
  }

  lemma {:induction false} ReachedIsSafe(input: Ty, stages: seq<Stage>, i: nat, v: Value, k: nat, u: Value)
    requires i <= k < |stages| && SafeRun(input, stages, i, v) && Reaches(stages, i, v, k, u)
    ensures SafeCalls(input, stages, k, u)
    decreases k - i
  {
    if i < k {
      var w :| StageGives(stages[i], i, v, Yield(w)) && Reaches(stages, i + 1, w, k, u);
      StageByRules(stages[i], i, v, Yield(w));
      ReachedIsSafe(input, stages, i + 1, w, k, u);
    }
  }

  /**
    Every call of every run of a built pipeline gets an argument of a type its callable
    accepts and declares: a stage its argument, except at a join of a common variant, and
    each predicate and case stage the input.
   */
  lemma CallsAreAccepted(input: Ty, ops: seq<Op>, output: Ty, v: Value, k: nat, u: Value)
    requires Build(input, ops).Some? && Finalizes(Build(input, ops).value, output) && HasType(v, input)
    requires var stages := Build(input, ops).value.stages;
             && (forall i :: 0 <= i < |stages| ==>
                   && TakesItsInput(input, stages, i) && Behaves(stages[i])
                   && (JoinsCommonVariant(stages, i) ==>
                         AcceptsEach(stages[i].action, OutputOf(stages[i - 1]).alternatives)))
             && k < |stages| && Reaches(stages, 0, v, k, u)
    ensures var stage := Build(input, ops).value.stages[k];
            match stage
            case Simple(_, declared, _, action) =>
              exists t: Ty ::
                && action.accepts(t) && HasType(if declared.TypeList? && u.Variant? then u.inner else u, t)
                && (t == declared || (declared.TypeList? && t in declared.members)
                    || JoinsCommonVariant(Build(input, ops).value.stages, k))
            case SelectedBranch(cases) => CasesTake(cases, u)
            case FanInBranch(cases) => CasesTake(cases, u)
  {
    var stages := Build(input, ops).value.stages;
    TypeSoundness(input, ops, output, v);
    ReachedIsSafe(input, stages, 0, v, k, u);
    if stages[k].Simple? {
      var t: Ty :|
        && HasType(Argument(stages[k].input, u), t) && stages[k].action.accepts(t)
        && (JoinsCommonVariant(stages, k) || Declares(stages[k].input, t));
    } else {
      forall j | 0 <= j < |stages[k].cases| ensures CaseTakes(stages[k].cases[j], u) {
        assert SafeCase(stages[k].cases[j], u);
      }
    }
  }

  predicate CaseTakes(c: Case, u: Value) {
    && c.test.accepts(c.predicateIn) && HasType(u, c.predicateIn)
    && c.action.accepts(c.stageIn) && HasType(u, c.stageIn)
  }

  predicate CasesTake(cases: seq<Case>, u: Value) {
    forall j :: 0 <= j < |cases| ==> CaseTakes(cases[j], u)
  }
}
