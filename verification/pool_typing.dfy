/** Type soundness of the thread-pool executor, with and without stop requests. */
module PoolTyping {
  import opened Core
  import opened FanIn
  import opened FanInRefinement
  import opened SelectedBranch
  import opened Engine
  import opened Typing
  import opened PoolEngine

  /** Declining cases changes neither what the others take nor what they return. */
  lemma TruncateIsTyped(br: Branch, cut: nat)
    requires CasesAgree(br.cases) && CasesBehave(br.cases)
    ensures var cases := Truncate(br, cut).cases;
            CasesAgree(cases) && CasesBehave(cases) && RawOutputs(cases) == RawOutputs(br.cases)
            && cases[0].predicateIn == br.cases[0].predicateIn
  {
    var cases := Truncate(br, cut).cases;
    forall i: nat, v: Value | i < |cases| && HasType(v, cases[i].stageIn)
      ensures YieldsType(Call(cases[i].action.body, v), cases[i].out)
    {
      assert HasType(v, br.cases[i].stageIn);
    }
  }

  lemma CutInvocationIsTyped(input: Ty, stages: seq<Stage>, k: nat, v: Value, cut: nat)
    requires k < |stages| && WellTyped(input, stages) && Instantiates(input, stages, k) && Behaves(stages[k])
    requires HasType(v, ReachingType(input, stages, k))
    ensures YieldsType(InvokeCut(stages[k], k, v, cut).outcome, OutputOf(stages[k]))
  {
    if stages[k].FanInBranch? {
      assert Fits(input, stages, k);
      TruncateIsTyped(BranchFor(stages[k], k, v), cut);
      FanInIsTyped(Truncate(BranchFor(stages[k], k, v), cut));
    } else {
      InvocationIsTyped(input, stages, k, v);
    }
  }

  /** Every stage a run with cuts reaches gets arguments of a declared and accepted type. */
  ghost predicate SafeCutRun(input: Ty, stages: seq<Stage>, k: nat, v: Value, cuts: seq<nat>)
    requires k <= |stages| && |cuts| == |stages| - k
    decreases |stages| - k
  {
    k < |stages| ==>
      && SafeCalls(input, stages, k, v)
      && var outcome := InvokeCut(stages[k], k, v, cuts[0]).outcome;
         outcome.Yield? ==> SafeCutRun(input, stages, k + 1, outcome.value, cuts[1..])
  }

  lemma {:induction false} TypedCutRun(input: Ty, stages: seq<Stage>, k: nat, v: Value, cuts: seq<nat>)
    requires k <= |stages| && |cuts| == |stages| - k
    requires WellTyped(input, stages) && HasType(v, ReachingType(input, stages, k))
    requires forall i :: 0 <= i < |stages| ==> Instantiates(input, stages, i) && Behaves(stages[i])
    ensures SafeCutRun(input, stages, k, v, cuts)
    ensures var r := TryRunCut(stages, k, v, cuts).result;
            r.Ok? ==> HasType(r.value, ReachingType(input, stages, |stages|))
    decreases |stages| - k
  {
    if k < |stages| {
      ReachedStageIsSafe(input, stages, k, v);
      CutInvocationIsTyped(input, stages, k, v, cuts[0]);
      var outcome := InvokeCut(stages[k], k, v, cuts[0]).outcome;
      if outcome.Yield? {
        TypedCutRun(input, stages, k + 1, outcome.value, cuts[1..]);
      }
    }
  }

  /**
    Type soundness on the pool. Whatever the interleavings and whenever a stop is requested,
    a run of a pipeline the builder accepts hands every predicate and stage an argument it
    declares and accepts, and a success has the type the sink asked for.
   */
  lemma PoolRunIsTyped(input: Ty, ops: seq<Op>, output: Ty, v: Value, flags: seq<bool>, r: Report)
    returns (cuts: seq<nat>)
    requires Build(input, ops).Some? && Finalizes(Build(input, ops).value, output) && HasType(v, input)
    requires var stages := Build(input, ops).value.stages;
             && |stages| < |flags| && RunsStages(stages, 0, v, flags, r)
             && forall i :: 0 <= i < |stages| ==>
                  && TakesItsInput(input, stages, i) && Behaves(stages[i])
                  && (JoinsCommonVariant(stages, i) ==>
                        AcceptsEach(stages[i].action, OutputOf(stages[i - 1]).alternatives))
    ensures var stages := Build(input, ops).value.stages;
            && |cuts| == |stages| && SameUpToOrder(r, TryRunCut(stages, 0, v, cuts))
            && SafeCutRun(input, stages, 0, v, cuts)
    ensures r.result.Ok? ==> HasType(r.result.value, output)
  {
    var stages := Build(input, ops).value.stages;
    BuildIsTyped(input, ops);
    forall i | 0 <= i < |stages| ensures Instantiates(input, stages, i) {
      CallsExistExactly(input, stages, i);
    }
    cuts := PoolRunIsCutRun(stages, 0, v, flags, r);
    TypedCutRun(input, stages, 0, v, cuts);
  }
}
