/**
  The executor of the thread-pool backend: stages one after another on the calling
  thread, fan-in nodes on the pool. Its runs are compared with try_run.
 */
module PoolEngine {
  import opened Core
  import opened FanIn
  import opened FanInRefinement
  import opened SelectedBranch
  import opened Engine

  import P = ParallelFanIn
  import FanInOnPool

  /** A returned fan-in run on a running pool; a token stopped before it is stopped at its first step. */
  ghost predicate PoolCall(br: Branch, before: bool, after: bool, steps: seq<P.Step>, t: P.State, call: Invocation) {
    && P.Runs(br, P.Init(br), steps, t)
    && t.phase.Returned?
    && P.StopPool !in steps
    && (before ==> steps != [] && steps[0] == P.RequestStop)
    && (!after ==> P.RequestStop !in steps)
    && call == Invocation(AsOutcome(t.phase.result), Events(t.log))
  }

  /** The calls a stage can make on a running pool, with a stop requested before it and by its end, or not. */
  ghost predicate Invokes(stage: Stage, k: nat, v: Value, before: bool, after: bool, call: Invocation) {
    && (before ==> after)
    && if stage.FanInBranch? then
         exists steps: seq<P.Step>, t: P.State :: PoolCall(BranchFor(stage, k, v), before, after, steps, t, call)
       else call == Invoke(stage, k, v)
  }

  /**
    The reports run_stages can give for the stages from k on, over all interleavings of its
    fan-in nodes; flags[i] tells whether a stop was requested before stage i.
   */
  ghost predicate RunsStages(stages: seq<Stage>, k: nat, v: Value, flags: seq<bool>, r: Report)
    requires k <= |stages| < |flags|
    decreases |stages| - k
  {
    if k == |stages| then r == Report(Ok(v), [])
    else
      exists call: Invocation, rest: Report ::
        && Invokes(stages[k], k, v, flags[k], flags[k + 1], call)
        && Continues(StageIdFor(stages[k], k), call, rest, r)
        && (call.outcome.Yield? ==> RunsStages(stages, k + 1, call.outcome.value, flags, rest))
  }

  /** The report of a stage and, if it yields, of the stages after it. */
  predicate Continues(id: StageId, call: Invocation, rest: Report, r: Report) {
    if call.outcome.Yield? then r == Report(rest.result, StageLog(id, call) + rest.log)
    else r == Report(Fail(OutcomeError(id, call.outcome)), StageLog(id, call))
  }

  // ---------------------------------------------------------------- permutations of logs

  lemma RemoveAtCounts<T>(s: seq<T>, i: nat)
    requires i < |s|
    ensures multiset(s) == multiset(RemoveAt(s, i)) + multiset{s[i]}
    ensures multiset(RemoveAt(s, i)) == multiset(s) - multiset{s[i]}
  {
    assert s == s[..i] + [s[i]] + s[i + 1..];
  }

  lemma EventsRemoveAt(log: seq<Entry>, i: nat)
    requires i < |log|
    ensures Events(RemoveAt(log, i)) == RemoveAt(Events(log), i)
  {
  }

  lemma {:induction false} EventsOfPermutation(a: seq<Entry>, b: seq<Entry>)
    requires multiset(a) == multiset(b)
    ensures multiset(Events(a)) == multiset(Events(b))
    decreases |a|
  {
    if a == [] {
      assert |multiset(b)| == 0;
    } else {
      assert a[0] in multiset(b);
      var i :| 0 <= i < |b| && b[i] == a[0];
      RemoveAtCounts(a, 0);
      RemoveAtCounts(b, i);
      EventsOfPermutation(RemoveAt(a, 0), RemoveAt(b, i));
      EventsRemoveAt(a, 0);
      EventsRemoveAt(b, i);
      RemoveAtCounts(Events(a), 0);
      RemoveAtCounts(Events(b), i);
    }
  }

  // ---------------------------------------------------------------- stops

  /** Where the scheduling thread has decided about case j. */
  predicate Decided(phase: P.Phase, j: nat) {
    match phase
    case Opening => false
    case Scheduling(k, pc) => j < k || (j == k && !pc.PredicateCall? && !pc.PredicateReturn? && !pc.Decide?)
    case _ => true
  }

  /** With the token stopped from the start every passing case decided so far was skipped. */
  ghost predicate Quenched(br: Branch, s: P.State) {
    && P.Shaped(br, s) && s.cancelled
    && (s.phase.Scheduling? ==>
          !s.phase.pc.SelectReport? && !s.phase.pc.ScheduleReport? && !s.phase.pc.GroupAdd? && !s.phase.pc.PoolPost?)
    && forall j :: 0 <= j < |br.cases| && Decided(s.phase, j) && VerdictOf(br, j) == Says(true) ==> s.cut <= j
  }

  lemma NextQuenched(br: Branch, s: P.State, step: P.Step)
    requires Quenched(br, s) && P.Enabled(br, s, step)
    ensures Quenched(br, P.Next(br, s, step))
  {
    if step.SchedulerStep? && s.phase.Scheduling? {
      CaseStepQuenched(br, s, s.phase.k, s.phase.pc);
    }
  }

  lemma CaseStepQuenched(br: Branch, s: P.State, k: nat, pc: P.Pc)
    requires Quenched(br, s) && s.phase == P.Scheduling(k, pc)
    ensures Quenched(br, P.CaseStep(br, s, k, pc))
  {
  }

  lemma {:induction false} RunsQuenched(br: Branch, steps: seq<P.Step>, t: P.State)
    requires P.Runs(br, P.Init(br), steps, t) && steps != [] && steps[0] == P.RequestStop
    ensures Quenched(br, t)
  {
    var init, last := steps[..|steps| - 1], steps[|steps| - 1];
    var m: P.State :| P.Runs(br, P.Init(br), init, m) && P.Shaped(br, m) && P.Enabled(br, m, last)
                      && t == P.Next(br, m, last);
    if init != [] {
      RunsQuenched(br, init, m);
      NextQuenched(br, m, last);
    }
  }

  ghost predicate NoneSelected(br: Branch, cut: nat) {
    forall j :: 0 <= j < |br.cases| ==> !P.Selected(br, j, cut)
  }

  /** A fan-in whose token was stopped before it starts selects no case. */
  lemma StoppedBeforeSelectsNone(br: Branch, steps: seq<P.Step>, t: P.State)
    requires P.Runs(br, P.Init(br), steps, t) && t.phase.Returned?
    requires steps != [] && steps[0] == P.RequestStop
    ensures NoneSelected(br, t.cut)
  {
    RunsQuenched(br, steps, t);
  }

  // ---------------------------------------------------------------- runs with cuts

  /** The sequential call of a stage, a fan-in declining its cases from the cut on. */
  function InvokeCut(stage: Stage, k: nat, v: Value, cut: nat): Invocation {
    if stage.FanInBranch? then
      var r := RunFanInBranch(Truncate(BranchFor(stage, k, v), cut));
      Invocation(Yield(Aggregate(r.slots)), Events(r.log))
    else Invoke(stage, k, v)
  }

  /** try_run with a cut for each stage. */
  function TryRunCut(stages: seq<Stage>, k: nat, v: Value, cuts: seq<nat>): Report
    requires k <= |stages| && |cuts| == |stages| - k
    decreases |stages| - k
  {
    if k == |stages| then Report(Ok(v), [])
    else
      var id, call := StageIdFor(stages[k], k), InvokeCut(stages[k], k, v, cuts[0]);
      if call.outcome.Yield? then
        var rest := TryRunCut(stages, k + 1, call.outcome.value, cuts[1..]);
        Report(rest.result, StageLog(id, call) + rest.log)
      else Report(Fail(OutcomeError(id, call.outcome)), StageLog(id, call))
  }

  /** A cut can only come from a stop: none without a request, nothing selected after an earlier one. */
  ghost predicate CutFits(stage: Stage, k: nat, v: Value, before: bool, after: bool, cut: nat) {
    stage.FanInBranch? ==>
      && cut <= |stage.cases|
      && (!after ==> cut == |stage.cases|)
      && (before ==> NoneSelected(BranchFor(stage, k, v), cut))
  }

  ghost predicate CutsFit(stages: seq<Stage>, k: nat, v: Value, flags: seq<bool>, cuts: seq<nat>)
    requires k <= |stages| < |flags| && |cuts| == |stages| - k
    decreases |stages| - k
  {
    k < |stages| ==>
      && CutFits(stages[k], k, v, flags[k], flags[k + 1], cuts[0])
      && var outcome := InvokeCut(stages[k], k, v, cuts[0]).outcome;
         outcome.Yield? ==> CutsFit(stages, k + 1, outcome.value, flags, cuts[1..])
  }

  /** A full cut cuts nothing. */
  lemma FullCut(stage: Stage, k: nat, v: Value, cut: nat)
    requires stage.FanInBranch? ==> cut == |stage.cases|
    ensures InvokeCut(stage, k, v, cut) == Invoke(stage, k, v)
  {
    if stage.FanInBranch? {
      assert Truncate(BranchFor(stage, k, v), cut).cases == stage.cases;
    }
  }

  lemma FanInMatches(br: Branch, before: bool, after: bool, steps: seq<P.Step>, t: P.State, call: Invocation)
    requires PoolCall(br, before, after, steps, t, call)
    ensures t.cut <= |br.cases| && (!after ==> t.cut == |br.cases|) && (before ==> NoneSelected(br, t.cut))
    ensures var r := RunFanInBranch(Truncate(br, t.cut));
            call.outcome == Yield(Aggregate(r.slots)) && multiset(call.log) == multiset(Events(r.log))
  {
    EveryInterleavingIsSequential(br, steps, t);
    EventsOfPermutation(t.log, RunFanInBranch(Truncate(br, t.cut)).log);
    if before {
      StoppedBeforeSelectsNone(br, steps, t);
    }
  }

  /** A pool call has the outcome of a sequential call with some cut and, in some order, its events. */
  lemma InvokesMatches(stage: Stage, k: nat, v: Value, before: bool, after: bool, call: Invocation) returns (cut: nat)
    requires Invokes(stage, k, v, before, after, call)
    ensures CutFits(stage, k, v, before, after, cut)
    ensures call.outcome == InvokeCut(stage, k, v, cut).outcome
    ensures multiset(call.log) == multiset(InvokeCut(stage, k, v, cut).log)
    ensures !stage.FanInBranch? ==> call == Invoke(stage, k, v)
  {
    cut := 0;
    if stage.FanInBranch? {
      var br := BranchFor(stage, k, v);
      var steps, t :| PoolCall(br, before, after, steps, t, call);
      FanInMatches(br, before, after, steps, t, call);
      cut := t.cut;
    }
  }

  // ---------------------------------------------------------------- main result

  predicate SameUpToOrder(r: Report, t: Report) {
    r.result == t.result && multiset(r.log) == multiset(t.log)
  }

  lemma ContinuesAlike(id: StageId, call: Invocation, rest: Report, r: Report,
                       call': Invocation, rest': Report, r': Report)
    requires Continues(id, call, rest, r) && Continues(id, call', rest', r')
    requires call.outcome == call'.outcome && multiset(call.log) == multiset(call'.log)
    requires call.outcome.Yield? ==> SameUpToOrder(rest, rest')
    ensures SameUpToOrder(r, r')
    ensures call == call' && (call.outcome.Yield? ==> rest == rest') ==> r == r'
  {
  }

  lemma TryRunCutContinues(stages: seq<Stage>, k: nat, v: Value, cuts: seq<nat>, rest: Report)
    requires k < |stages| && |cuts| == |stages| - k
    requires var outcome := InvokeCut(stages[k], k, v, cuts[0]).outcome;
             outcome.Yield? ==> rest == TryRunCut(stages, k + 1, outcome.value, cuts[1..])
    ensures Continues(StageIdFor(stages[k], k), InvokeCut(stages[k], k, v, cuts[0]), rest,
                      TryRunCut(stages, k, v, cuts))
  {
  }

  /** The first stage of a pool run, compared with its sequential call. */
  lemma FirstCall(stages: seq<Stage>, k: nat, v: Value, flags: seq<bool>, r: Report)
    returns (call: Invocation, rest: Report, cut: nat)
    requires k < |stages| < |flags| && RunsStages(stages, k, v, flags, r)
    ensures Continues(StageIdFor(stages[k], k), call, rest, r)
    ensures CutFits(stages[k], k, v, flags[k], flags[k + 1], cut)
    ensures call.outcome == InvokeCut(stages[k], k, v, cut).outcome
    ensures multiset(call.log) == multiset(InvokeCut(stages[k], k, v, cut).log)
    ensures !stages[k].FanInBranch? ==> call == InvokeCut(stages[k], k, v, cut)
    ensures call.outcome.Yield? ==> RunsStages(stages, k + 1, call.outcome.value, flags, rest)
  {
    call, rest :|
      && Invokes(stages[k], k, v, flags[k], flags[k + 1], call)
      && Continues(StageIdFor(stages[k], k), call, rest, r)
      && (call.outcome.Yield? ==> RunsStages(stages, k + 1, call.outcome.value, flags, rest));
    cut := InvokesMatches(stages[k], k, v, flags[k], flags[k + 1], call);
  }

  /** Cuts for stages that are never reached. */
  function NoCuts(n: nat): (cuts: seq<nat>)
    ensures |cuts| == n
  {
    seq(n, _ => 0)
  }

  lemma CutsFitStep(stages: seq<Stage>, k: nat, v: Value, flags: seq<bool>, cut: nat, more: seq<nat>)
    requires k < |stages| < |flags| && |more| == |stages| - k - 1
    requires CutFits(stages[k], k, v, flags[k], flags[k + 1], cut)
    requires var outcome := InvokeCut(stages[k], k, v, cut).outcome;
             outcome.Yield? ==> CutsFit(stages, k + 1, outcome.value, flags, more)
    ensures CutsFit(stages, k, v, flags, [cut] + more)
  {
    assert ([cut] + more)[1..] == more;
  }

  /** A stage's call and what follows it on the pool, next to the same with a cut. */
  lemma CutRunStep(stages: seq<Stage>, k: nat, v: Value, cut: nat, more: seq<nat>, call: Invocation, rest: Report,
                   r: Report, rest': Report)
    requires k < |stages| && |more| == |stages| - k - 1
    requires Continues(StageIdFor(stages[k], k), call, rest, r)
    requires var own := InvokeCut(stages[k], k, v, cut);
             && call.outcome == own.outcome && multiset(call.log) == multiset(own.log)
             && (!stages[k].FanInBranch? ==> call == own)
    requires call.outcome.Yield? ==>
               rest' == TryRunCut(stages, k + 1, call.outcome.value, more) && SameUpToOrder(rest, rest')
    ensures SameUpToOrder(r, TryRunCut(stages, k, v, [cut] + more))
    ensures !stages[k].FanInBranch? && (call.outcome.Yield? ==> rest == rest') ==>
              r == TryRunCut(stages, k, v, [cut] + more)
  {
    var cuts := [cut] + more;
    assert cuts[1..] == more;
    TryRunCutContinues(stages, k, v, cuts, rest');
    ContinuesAlike(StageIdFor(stages[k], k), call, rest, r,
                   InvokeCut(stages[k], k, v, cut), rest', TryRunCut(stages, k, v, cuts));
  }

  predicate WithoutFanIn(stages: seq<Stage>) {
    forall i :: 0 <= i < |stages| ==> !stages[i].FanInBranch?
  }

  /**
    Main result. Whatever the interleavings and whenever a stop is requested, a run on the
    pool is a sequential run in which each fan-in node declines its cases from some index
    on: from none without a request by its end, and so that nothing is selected if the
    request came before it. Results are equal, events are equal up to order, and up to
    nothing when the pipeline has no fan-in node.
   */
  lemma {:induction false} PoolRunIsCutRun(stages: seq<Stage>, k: nat, v: Value, flags: seq<bool>, r: Report)
    returns (cuts: seq<nat>)
    requires k <= |stages| < |flags| && RunsStages(stages, k, v, flags, r)
    ensures |cuts| == |stages| - k && CutsFit(stages, k, v, flags, cuts)
    ensures SameUpToOrder(r, TryRunCut(stages, k, v, cuts))
    ensures WithoutFanIn(stages) ==> r == TryRunCut(stages, k, v, cuts)
    decreases |stages| - k
  {
    if k == |stages| {
      return [];
    }
    var call, rest, cut := FirstCall(stages, k, v, flags, r);
    if call.outcome.Yield? {
      var more := PoolRunIsCutRun(stages, k + 1, call.outcome.value, flags, rest);
      cuts := [cut] + more;
      CutsFitStep(stages, k, v, flags, cut, more);
      CutRunStep(stages, k, v, cut, more, call, rest, r, TryRunCut(stages, k + 1, call.outcome.value, more));
    } else {
      cuts := [cut] + NoCuts(|stages| - k - 1);
      CutsFitStep(stages, k, v, flags, cut, cuts[1..]);
      CutRunStep(stages, k, v, cut, cuts[1..], call, rest, r, rest);
    }
  }

  /** Without a stop request the cuts are full, and full cuts cut nothing. */
  lemma {:induction false} UncutIsTryRun(stages: seq<Stage>, k: nat, v: Value, flags: seq<bool>, cuts: seq<nat>)
    requires k <= |stages| < |flags| && |cuts| == |stages| - k && CutsFit(stages, k, v, flags, cuts)
    requires WithoutFanIn(stages) || forall i :: 0 <= i < |flags| ==> !flags[i]
    ensures TryRunCut(stages, k, v, cuts) == TryRun(stages, k, v)
    decreases |stages| - k
  {
    if k < |stages| {
      FullCut(stages[k], k, v, cuts[0]);
      var outcome := InvokeCut(stages[k], k, v, cuts[0]).outcome;
      if outcome.Yield? {
        UncutIsTryRun(stages, k + 1, outcome.value, flags, cuts[1..]);
      }
    }
  }

  /**
    Without a stop request every run on the pool returns what try_run returns and reports
    the same events; without fan-in nodes, stop or no stop, it reports them in the same order.
   */
  lemma PoolRunIsTryRun(stages: seq<Stage>, v: Value, flags: seq<bool>, r: Report)
    requires |stages| < |flags| && RunsStages(stages, 0, v, flags, r)
    ensures (forall i :: 0 <= i < |flags| ==> !flags[i]) ==> SameUpToOrder(r, TryRun(stages, 0, v))
    ensures WithoutFanIn(stages) ==> r == TryRun(stages, 0, v)
  {
    var cuts := PoolRunIsCutRun(stages, 0, v, flags, r);
    if WithoutFanIn(stages) || forall i :: 0 <= i < |flags| ==> !flags[i] {
      UncutIsTryRun(stages, 0, v, flags, cuts);
    }
  }

  // ---------------------------------------------------------------- runs exist

  /** A fan-in node can be called: on a fresh pool its run returns. */
  lemma FanInCallReturns(br: Branch) returns (steps: seq<P.Step>, t: P.State, call: Invocation)
    ensures PoolCall(br, false, false, steps, t, call)
  {
    steps, t := FanInOnPool.FreshRunReturns(br);
    call := Invocation(AsOutcome(t.phase.result), Events(t.log));
  }

  lemma StageCallReturns(stage: Stage, k: nat, v: Value) returns (call: Invocation)
    ensures Invokes(stage, k, v, false, false, call)
  {
    call := Invoke(stage, k, v);
    if stage.FanInBranch? {
      var steps, t;
      steps, t, call := FanInCallReturns(BranchFor(stage, k, v));
    }
  }

  /** Every pipeline has an undisturbed run on the pool, so the agreement above is never about nothing. */
  lemma {:induction false} PoolRunEnds(stages: seq<Stage>, k: nat, v: Value, flags: seq<bool>) returns (r: Report)
    requires k <= |stages| < |flags| && forall i :: 0 <= i < |flags| ==> !flags[i]
    ensures RunsStages(stages, k, v, flags, r)
    decreases |stages| - k
  {
    r := Report(Ok(v), []);
    if k < |stages| {
      var id := StageIdFor(stages[k], k);
      var call := StageCallReturns(stages[k], k, v);
      var rest := r;
      if call.outcome.Yield? {
        rest := PoolRunEnds(stages, k + 1, call.outcome.value, flags);
        r := Report(rest.result, StageLog(id, call) + rest.log);
      } else {
        r := Report(Fail(OutcomeError(id, call.outcome)), StageLog(id, call));
      }
      assert Continues(id, call, rest, r);
    }
  }
}
