/**
  A fan-in run whose pool is shut down while it posts. A post finds the pool stopped
  exactly when the shutdown came before it, so a shutdown, too, is a cut.
 */
module FanInShutdown {
  import opened Core
  import opened FanIn
  import opened ParallelFanIn
  import opened ParallelFanInInvariant
  import opened FanInRefinement
  import opened FanInTrace

  // ---------------------------------------------------------------- the step that posts a case

  /** Step i of the run posts case j. */
  ghost predicate PostsAt(br: Branch, steps: seq<Step>, i: nat, j: nat) {
    && i < |steps| && steps[i] == SchedulerStep
    && exists m: State :: Runs(br, Init(br), steps[..i], m) && m.phase == Scheduling(j, PoolPost)
  }

  /** Some case is posted after the pool has been shut down. */
  ghost predicate PostsAfterShutdown(br: Branch, steps: seq<Step>) {
    exists i: nat, j: nat :: PostsAt(br, steps, i, j) && StopPool in steps[..i]
  }

  lemma {:induction false} RunsAreDeterministic(br: Branch, s: State, steps: seq<Step>, t: State, u: State)
    requires Runs(br, s, steps, t) && Runs(br, s, steps, u)
    ensures t == u
  {
    if steps != [] {
      var init, last := steps[..|steps| - 1], steps[|steps| - 1];
      var m: State :| Runs(br, s, init, m) && Shaped(br, m) && Enabled(br, m, last) && t == Next(br, m, last);
      var n: State :| Runs(br, s, init, n) && Shaped(br, n) && Enabled(br, n, last) && u == Next(br, n, last);
      RunsAreDeterministic(br, s, init, m, n);
    }
  }

  /** The last step of a run. */
  lemma LastStep(br: Branch, steps: seq<Step>, t: State) returns (m: State)
    requires steps != [] && Runs(br, Init(br), steps, t)
    ensures Runs(br, Init(br), steps[..|steps| - 1], m) && Inv(br, m)
    ensures Enabled(br, m, steps[|steps| - 1]) && t == Next(br, m, steps[|steps| - 1])
  {
    var init, last := steps[..|steps| - 1], steps[|steps| - 1];
    m :| Runs(br, Init(br), init, m) && Shaped(br, m) && Enabled(br, m, last) && t == Next(br, m, last);
    RunsInv(br, init, m);
  }

  /** A step posts at most the case it stands at, and no later step changes whether a post was refused. */
  lemma NextPosts(br: Branch, s: State, step: Step, j: nat)
    requires Inv(br, s) && Enabled(br, s, step) && j < |br.cases|
    ensures var t := Next(br, s, step);
            && |t.tasks| == |br.cases|
            && if step == SchedulerStep && s.phase == Scheduling(j, PoolPost)
               then s.tasks[j].Absent? && t.tasks[j] == if s.poolStopped then Refused else Queued
               else (t.tasks[j].Absent? <==> s.tasks[j].Absent?) && (t.tasks[j].Refused? <==> s.tasks[j].Refused?)
  {
    assert CaseInv(br, s, j);
    if step.TaskStep? {
      TaskFrame(br, s, step.j, j);
    } else if step.SchedulerStep? && s.phase.Scheduling? && s.phase.k != j {
      CaseStepFrame(br, s, s.phase.k, s.phase.pc, j);
    }
  }

  lemma PostsEarlier(br: Branch, steps: seq<Step>, i: nat, j: nat)
    requires steps != [] && i < |steps| - 1
    ensures PostsAt(br, steps, i, j) <==> PostsAt(br, steps[..|steps| - 1], i, j)
    ensures steps[..|steps| - 1][..i] == steps[..i]
  {
    assert steps[..|steps| - 1][..i] == steps[..i];
  }

  /** Whether the last step of a run posts a case can be read off the state before it. */
  lemma PostsLast(br: Branch, steps: seq<Step>, m: State, j: nat)
    requires steps != [] && Runs(br, Init(br), steps[..|steps| - 1], m)
    ensures PostsAt(br, steps, |steps| - 1, j)
            <==> steps[|steps| - 1] == SchedulerStep && m.phase == Scheduling(j, PoolPost)
  {
    var n := |steps| - 1;
    if PostsAt(br, steps, n, j) {
      var u: State :| Runs(br, Init(br), steps[..n], u) && u.phase == Scheduling(j, PoolPost);
      RunsAreDeterministic(br, Init(br), steps[..n], m, u);
    }
  }

  ghost predicate PostsSomewhere(br: Branch, steps: seq<Step>, j: nat) {
    exists i: nat :: PostsAt(br, steps, i, j)
  }

  lemma PostsKept(br: Branch, steps: seq<Step>, j: nat)
    requires steps != [] && PostsSomewhere(br, steps[..|steps| - 1], j)
    ensures PostsSomewhere(br, steps, j)
  {
    var i: nat :| PostsAt(br, steps[..|steps| - 1], i, j);
    PostsEarlier(br, steps, i, j);
  }

  lemma PostsBefore(br: Branch, steps: seq<Step>, j: nat)
    requires steps != [] && PostsSomewhere(br, steps, j) && !PostsAt(br, steps, |steps| - 1, j)
    ensures PostsSomewhere(br, steps[..|steps| - 1], j)
  {
    var last := |steps| - 1;
    var i: nat :| PostsAt(br, steps, i, j);
    assert i != last;
    PostsBeforeAt(br, steps, i, j);
  }

  lemma PostsBeforeAt(br: Branch, steps: seq<Step>, i: nat, j: nat)
    requires steps != [] && i != |steps| - 1 && PostsAt(br, steps, i, j)
    ensures PostsSomewhere(br, steps[..|steps| - 1], j)
  {
    PostsEarlier(br, steps, i, j);
  }

  lemma PostsSomewhereStep(br: Branch, steps: seq<Step>, j: nat)
    requires steps != []
    ensures PostsSomewhere(br, steps, j)
            <==> PostsSomewhere(br, steps[..|steps| - 1], j) || PostsAt(br, steps, |steps| - 1, j)
  {
    if PostsSomewhere(br, steps[..|steps| - 1], j) {
      PostsKept(br, steps, j);
    } else if PostsSomewhere(br, steps, j) && !PostsAt(br, steps, |steps| - 1, j) {
      PostsBefore(br, steps, j);
    }
  }

  /** A case has a task exactly when some step posted it. */
  lemma {:induction false} TaskMeansPost(br: Branch, steps: seq<Step>, t: State, j: nat)
    requires Runs(br, Init(br), steps, t) && j < |br.cases|
    ensures |t.tasks| == |br.cases| && (!t.tasks[j].Absent? <==> PostsSomewhere(br, steps, j))
  {
    if steps != [] {
      var m := LastStep(br, steps, t);
      TaskMeansPost(br, steps[..|steps| - 1], m, j);
      NextPosts(br, m, steps[|steps| - 1], j);
      PostsSomewhereStep(br, steps, j);
      PostsLast(br, steps, m, j);
    }
  }

  /** The exact condition: the post of a case is refused if and only if the shutdown came before that post. */
  lemma {:induction false} RefusedExactly(br: Branch, steps: seq<Step>, t: State, i: nat, j: nat)
    requires Runs(br, Init(br), steps, t) && j < |br.cases| && PostsAt(br, steps, i, j)
    ensures |t.tasks| == |br.cases| && (t.tasks[j].Refused? <==> StopPool in steps[..i])
    decreases |steps|
  {
    RunsInv(br, steps, t);
    var n := |steps| - 1;
    var m := LastStep(br, steps, t);
    NextPosts(br, m, steps[n], j);
    if i == n {
      PostsLast(br, steps, m, j);
      RunsFlags(br, steps[..n], m);
    } else {
      PostsEarlier(br, steps, i, j);
      PostHasTask(br, steps[..n], m, i, j);
      RefusedExactly(br, steps[..n], m, i, j);
    }
  }

  lemma PostHasTask(br: Branch, steps: seq<Step>, t: State, i: nat, j: nat)
    requires Runs(br, Init(br), steps, t) && j < |br.cases| && PostsAt(br, steps, i, j)
    ensures |t.tasks| == |br.cases| && !t.tasks[j].Absent?
  {
    TaskMeansPost(br, steps, t, j);
  }

  // ---------------------------------------------------------------- a shutdown is a cut

  /** Once a post was refused every later one is. */
  ghost predicate RefusalsLast(tasks: seq<TaskPc>) {
    forall i, j :: 0 <= i < j < |tasks| && tasks[i].Refused? && !tasks[j].Absent? ==> tasks[j].Refused?
  }

  lemma NextRefusesLast(br: Branch, m: State, step: Step)
    requires Inv(br, m) && Enabled(br, m, step) && RefusalsLast(m.tasks)
    ensures RefusalsLast(Next(br, m, step).tasks)
  {
    var tasks := Next(br, m, step).tasks;
    if br.cases != [] {
      NextPosts(br, m, step, 0);
    }
    forall i, j | 0 <= i < j < |tasks| && tasks[i].Refused? && !tasks[j].Absent? ensures tasks[j].Refused? {
      assert CaseInv(br, m, i) && CaseInv(br, m, j);
      NextPosts(br, m, step, i);
      NextPosts(br, m, step, j);
    }
  }

  lemma {:induction false} RunsRefuseLast(br: Branch, steps: seq<Step>, t: State)
    requires Runs(br, Init(br), steps, t)
    ensures RefusalsLast(t.tasks)
  {
    if steps != [] {
      var m := LastStep(br, steps, t);
      RunsRefuseLast(br, steps[..|steps| - 1], m);
      NextRefusesLast(br, m, steps[|steps| - 1]);
    }
  }

  /** The first case whose post was refused; the case count if none was. */
  function FirstRefused(tasks: seq<TaskPc>, i: nat): (r: nat)
    requires i <= |tasks|
    ensures i <= r <= |tasks|
    ensures forall j :: i <= j < r ==> !tasks[j].Refused?
    ensures r < |tasks| ==> tasks[r].Refused?
    decreases |tasks| - i
  {
    if i == |tasks| || tasks[i].Refused? then i else FirstRefused(tasks, i + 1)
  }

  function Lower(a: nat, b: nat): nat {
    if a < b then a else b
  }

  /** What a returned run says about one case, given the first refused one. */
  lemma ReturnedShutdownCase(br: Branch, t: State, r: nat, j: nat)
    requires Inv(br, t) && t.phase.Returned? && RefusalsLast(t.tasks) && r == FirstRefused(t.tasks, 0)
    requires j < |br.cases|
    ensures t.tasks[j].Refused? <==> Selected(br, j, t.cut) && r <= j
    ensures t.slots[j] == FinalSlot(br, j, Lower(t.cut, r))
  {
    assert CaseInv(br, t, j);
    if r < |t.tasks| {
      assert CaseInv(br, t, r);
      if r < j {
        assert t.tasks[j].Absent? || t.tasks[j].Refused?;
      }
    }
    if !t.tasks[j].Refused? {
      ReturnedCase(br, t, j);
    }
  }

  /**
    Main result. A shutdown is a cut, like a stop request: from some case r on exactly the
    selected cases were refused, the aggregate is that of the sequential run declining the
    cases from the lower of the two cuts on, completed cases are the same, and each refused
    case counts once as selected and once as failed.
   */
  lemma ShutdownIsACut(br: Branch, steps: seq<Step>, t: State) returns (r: nat)
    requires Runs(br, Init(br), steps, t) && t.phase.Returned?
    ensures r <= |br.cases| == |t.tasks|
    ensures forall j :: 0 <= j < |br.cases| ==> (t.tasks[j].Refused? <==> Selected(br, j, t.cut) && r <= j)
    ensures var s := RunFanInBranch(Truncate(br, Lower(t.cut, r)));
            && t.slots == s.slots
            && t.tally == Tally(s.tally.selected + RefusedTasks(t.tasks), s.tally.completed,
                                s.tally.failed + RefusedTasks(t.tasks))
  {
    RunsInv(br, steps, t);
    RunsRefuseLast(br, steps, t);
    r := FirstRefused(t.tasks, 0);
    forall j | 0 <= j < |br.cases|
      ensures t.tasks[j].Refused? <==> Selected(br, j, t.cut) && r <= j
      ensures t.slots[j] == FinalSlot(br, j, Lower(t.cut, r))
    {
      ReturnedShutdownCase(br, t, r, j);
    }
    ShutdownSlots(br, t, Lower(t.cut, r));
    ShutdownTally(br, t, r);
  }

  lemma ShutdownSlots(br: Branch, t: State, cut: nat)
    requires |t.slots| == |br.cases| && forall j :: 0 <= j < |br.cases| ==> t.slots[j] == FinalSlot(br, j, cut)
    ensures t.slots == RunFanInBranch(Truncate(br, cut)).slots
  {
    SequentialRun(Truncate(br, cut));
    var slots := RunFanInBranch(Truncate(br, cut)).slots;
    forall j | 0 <= j < |br.cases| ensures t.slots[j] == slots[j] {
      TruncateCase(br, cut, j);
    }
  }

  lemma ShutdownTally(br: Branch, t: State, r: nat)
    requires Shaped(br, t) && TallyInv(br, t) && t.phase.Returned?
    requires forall j :: 0 <= j < |br.cases| ==> (t.tasks[j].Refused? <==> Selected(br, j, t.cut) && r <= j)
    requires forall j :: 0 <= j < |br.cases| ==> t.slots[j] == FinalSlot(br, j, Lower(t.cut, r))
    ensures var s := RunFanInBranch(Truncate(br, Lower(t.cut, r)));
            t.tally == Tally(s.tally.selected + RefusedTasks(t.tasks), s.tally.completed,
                             s.tally.failed + RefusedTasks(t.tasks))
  {
    var cut, n := Lower(t.cut, r), |br.cases|;
    SequentialRun(Truncate(br, cut));
    CompletedSlotsCount(br, t.slots, cut);
    TruncateCounts(br, cut, n);
    RefusedCount(br, t, r, n);
    assert t.tasks[..n] == t.tasks;
  }

  lemma {:induction false} RefusedCount(br: Branch, t: State, r: nat, k: nat)
    requires k <= |br.cases| == |t.tasks|
    requires forall j :: 0 <= j < |br.cases| ==> (t.tasks[j].Refused? <==> Selected(br, j, t.cut) && r <= j)
    ensures SelectedCount(br, k, t.cut) == SelectedCount(br, k, Lower(t.cut, r)) + RefusedTasks(t.tasks[..k])
  {
    if k > 0 {
      RefusedCount(br, t, r, k - 1);
      assert t.tasks[..k][..k - 1] == t.tasks[..k - 1];
    }
  }

  /** A refused case's events end with its being scheduled; other cases report as if nothing were shut down. */
  lemma ShutdownEvents(br: Branch, steps: seq<Step>, t: State, j: nat)
    requires Runs(br, Init(br), steps, t) && t.phase.Returned? && j < |br.cases|
    ensures |t.tasks| == |br.cases|
    ensures Project(t.log, j)
            == if t.tasks[j].Refused?
               then PredicateEvents(br, j)
                    + [CaseSelected(br.id, j, Pid(br, j)), FanInCaseScheduled(br.id, j, Sid(br, j))]
               else CaseEvents(br, j, t.cut)
  {
    RunsInv(br, steps, t);
    if t.tasks[j].Refused? {
      RefusedEvents(br, t, j);
    } else {
      ReturnedCase(br, t, j);
    }
  }

  // ---------------------------------------------------------------- the observer contract, with its exact condition

  /** A post was refused exactly when some case was posted after the shutdown. */
  lemma RefusedMeansLatePost(br: Branch, steps: seq<Step>, t: State)
    requires Runs(br, Init(br), steps, t)
    ensures RefusedTasks(t.tasks) > 0 <==> PostsAfterShutdown(br, steps)
  {
    RunsInv(br, steps, t);
    RefusedPositive(t.tasks);
    if RefusedTasks(t.tasks) > 0 {
      var j: nat :| j < |t.tasks| && t.tasks[j].Refused?;
      TaskMeansPost(br, steps, t, j);
      var i: nat :| PostsAt(br, steps, i, j);
      RefusedExactly(br, steps, t, i, j);
    }
    if PostsAfterShutdown(br, steps) {
      var i: nat, j: nat :| PostsAt(br, steps, i, j) && StopPool in steps[..i];
      PostedCaseExists(br, steps, i, j);
      RefusedExactly(br, steps, t, i, j);
    }
  }

  lemma PostedCaseExists(br: Branch, steps: seq<Step>, i: nat, j: nat)
    requires PostsAt(br, steps, i, j)
    ensures j < |br.cases|
  {
    var m: State :| Runs(br, Init(br), steps[..i], m) && m.phase == Scheduling(j, PoolPost);
    RunsInv(br, steps[..i], m);
  }

  /**
    Every scheduled case is reported completed, and the run returns a value, exactly when no
    case is posted after a shutdown of the pool.
   */
  lemma PairingHoldsExactly(br: Branch, steps: seq<Step>, t: State)
    requires Runs(br, Init(br), steps, t) && t.phase.Returned?
    ensures CountLog(t.log, IsScheduled) == CountLog(t.log, IsCompleted) <==> !PostsAfterShutdown(br, steps)
    ensures t.phase.result.Ok? <==> !PostsAfterShutdown(br, steps)
  {
    ObserverContract(br, steps, t);
    TallyConservation(br, steps, t);
    RefusedMeansLatePost(br, steps, t);
  }

  /** On a pool stopped before the run every selected case is refused: only runs that select nothing return a value. */
  lemma StoppedPoolRefusesAll(br: Branch, steps: seq<Step>, t: State)
    requires Runs(br, Init(br), steps, t) && t.phase.Returned? && steps != [] && steps[0] == StopPool
    ensures |t.tasks| == |br.cases|
    ensures forall j :: 0 <= j < |br.cases| ==> (t.tasks[j].Refused? <==> Selected(br, j, t.cut))
    ensures t.phase.result.Ok? <==> forall j :: 0 <= j < |br.cases| ==> !Selected(br, j, t.cut)
  {
    RunsInv(br, steps, t);
    forall j | 0 <= j < |br.cases| ensures t.tasks[j].Refused? <==> Selected(br, j, t.cut) {
      assert CaseInv(br, t, j);
      if Selected(br, j, t.cut) {
        TaskMeansPost(br, steps, t, j);
        var i: nat :| PostsAt(br, steps, i, j);
        RefusedExactly(br, steps, t, i, j);
        assert i == 0 || steps[..i][0] == StopPool;
      }
    }
    TallyConservation(br, steps, t);
    RefusedPositive(t.tasks);
  }

  // ---------------------------------------------------------------- an instance

  lemma RunsMore(br: Branch, steps: seq<Step>, s: State, step: Step)
    requires Runs(br, Init(br), steps, s) && Shaped(br, s) && Enabled(br, s, step)
    ensures Runs(br, Init(br), steps + [step], Next(br, s, step))
  {
    assert (steps + [step])[..|steps|] == steps;
  }

  /** The steps of the scheduling thread alone, from its first on. */
  function Alone(n: nat): seq<Step> {
    [StopPool] + seq(n, _ => SchedulerStep)
  }

  lemma OneMore(br: Branch, n: nat, s: State) returns (t: State)
    requires Runs(br, Init(br), Alone(n), s) && Shaped(br, s) && Enabled(br, s, SchedulerStep)
    ensures t == Next(br, s, SchedulerStep) && Runs(br, Init(br), Alone(n + 1), t)
  {
    t := Next(br, s, SchedulerStep);
    RunsMore(br, Alone(n), s, SchedulerStep);
    assert Alone(n) + [SchedulerStep] == Alone(n + 1);
  }

  /** What matters of a state of a run with one selected case on a stopped pool. */
  ghost predicate At(br: Branch, s: State, phase: Phase, pending: nat) {
    Shaped(br, s) && s.phase == phase && s.pending == pending && s.poolStopped && !s.cancelled
  }

  /** Where the scheduling thread goes from a phase, if the one case is selected and its post refused. */
  function Onward(phase: Phase): Phase {
    match phase
    case Opening => Scheduling(0, PredicateCall)
    case Scheduling(_, pc) =>
      (match pc
       case PredicateCall => Scheduling(0, PredicateReturn)
       case PredicateReturn => Scheduling(0, Decide)
       case Decide => Scheduling(0, SelectReport)
       case SelectReport => Scheduling(0, ScheduleReport)
       case ScheduleReport => Scheduling(0, GroupAdd)
       case GroupAdd => Scheduling(0, PoolPost)
       case PoolPost => Scheduling(0, CaseEnd)
       case _ => Waiting)
    case _ => Tallying
  }

  predicate OnTheWay(phase: Phase) {
    || phase.Opening? || phase.Waiting?
    || (phase.Scheduling? && phase.k == 0 && !phase.pc.SkipReport? && !phase.pc.FailSlot? && !phase.pc.FailReport?)
  }

  predicate AtPost(phase: Phase) {
    phase == Scheduling(0, PoolPost)
  }

  /** One step of the scheduling thread inside the case. */
  lemma CaseGoesOn(br: Branch, s: State, pc: Pc)
    requires |br.cases| == 1 && VerdictOf(br, 0) == Says(true)
    requires !pc.SkipReport? && !pc.FailSlot? && !pc.FailReport?
    requires At(br, s, Scheduling(0, pc), if pc.PoolPost? then 1 else 0)
    ensures Enabled(br, s, SchedulerStep)
    ensures At(br, Next(br, s, SchedulerStep), Onward(Scheduling(0, pc)), if pc.GroupAdd? then 1 else 0)
  {
  }

  /** One step of the scheduling thread before and after the case. */
  lemma EdgeGoesOn(br: Branch, s: State, phase: Phase)
    requires |br.cases| == 1 && (phase.Opening? || phase.Waiting?) && At(br, s, phase, 0)
    ensures Enabled(br, s, SchedulerStep) && At(br, Next(br, s, SchedulerStep), Onward(phase), 0)
  {
  }

  lemma GoOn(br: Branch, n: nat, s: State, phase: Phase) returns (t: State)
    requires |br.cases| == 1 && VerdictOf(br, 0) == Says(true) && OnTheWay(phase)
    requires Runs(br, Init(br), Alone(n), s) && At(br, s, phase, if AtPost(phase) then 1 else 0)
    ensures Runs(br, Init(br), Alone(n + 1), t) && At(br, t, Onward(phase), if AtPost(Onward(phase)) then 1 else 0)
  {
    if phase.Scheduling? {
      CaseGoesOn(br, s, phase.pc);
    } else {
      EdgeGoesOn(br, s, phase);
    }
    t := OneMore(br, n, s);
  }

  lemma StoppedBeforeStart(br: Branch) returns (t: State)
    requires |br.cases| == 1
    ensures Runs(br, Init(br), Alone(0), t) && At(br, t, Opening, 0)
  {
    assert Runs(br, Init(br), [], Init(br));
    RunsMore(br, [], Init(br), StopPool);
    assert [] + [StopPool] == Alone(0);
    t := Next(br, Init(br), StopPool);
  }

  lemma {:induction false} RefusedPostRuns(br: Branch, n: nat) returns (t: State)
    requires |br.cases| == 1 && VerdictOf(br, 0) == Says(true) && n <= 10
    ensures Runs(br, Init(br), Alone(n), t) && At(br, t, PhaseAfter(n), if AtPost(PhaseAfter(n)) then 1 else 0)
  {
    if n == 0 {
      t := StoppedBeforeStart(br);
    } else {
      t := RefusedPostRuns(br, n - 1);
      t := GoOn(br, n - 1, t, PhaseAfter(n - 1));
    }
  }

  function PhaseAfter(n: nat): (phase: Phase)
    requires n <= 10
    ensures n < 10 ==> OnTheWay(phase)
    ensures n > 0 ==> phase == Onward(PhaseAfter(n - 1))
  {
    [Opening, Scheduling(0, PredicateCall), Scheduling(0, PredicateReturn), Scheduling(0, Decide),
     Scheduling(0, SelectReport), Scheduling(0, ScheduleReport), Scheduling(0, GroupAdd), Scheduling(0, PoolPost),
     Scheduling(0, CaseEnd), Waiting, Tallying][n]
  }

  /**
    A node whose one case says yes, on a pool that was stopped before: twelve steps later the
    case is reported scheduled and never completed, its slot is skipped, the tally counts it
    failed, and the run returns the error of the refused post.
   */
  lemma RefusedPostExample(br: Branch) returns (steps: seq<Step>, t: State)
    requires |br.cases| == 1 && VerdictOf(br, 0) == Says(true)
    ensures Runs(br, Init(br), steps, t) && |steps| == 12 && steps[0] == StopPool
    ensures t.phase == Returned(Fail(REFUSED_ERROR))
    ensures CountLog(t.log, IsScheduled) == 1 && CountLog(t.log, IsCompleted) == 0
    ensures t.slots == [EMPTY_SLOT] && t.tally == Tally(1, 0, 1)
  {
    var before := RefusedPostRuns(br, 10);
    TallyingReturns(br, before);
    steps := Alone(11);
    t := OneMore(br, 10, before);
    RefusedPostOutcome(br, steps, t);
  }

  lemma TallyingReturns(br: Branch, s: State)
    requires At(br, s, Tallying, 0)
    ensures Enabled(br, s, SchedulerStep) && Next(br, s, SchedulerStep).phase.Returned?
  {
  }

  lemma RefusedPostOutcome(br: Branch, steps: seq<Step>, t: State)
    requires |br.cases| == 1 && VerdictOf(br, 0) == Says(true)
    requires Runs(br, Init(br), steps, t) && t.phase.Returned?
    requires steps != [] && steps[0] == StopPool && RequestStop !in steps
    ensures t.phase == Returned(Fail(REFUSED_ERROR))
    ensures CountLog(t.log, IsScheduled) == 1 && CountLog(t.log, IsCompleted) == 0
    ensures t.slots == [EMPTY_SLOT] && t.tally == Tally(1, 0, 1)
  {
    StoppedPoolRefusesAll(br, steps, t);
    TallyConservation(br, steps, t);
    ObserverContract(br, steps, t);
    RunsInv(br, steps, t);
    RunsFlags(br, steps, t);
    assert CaseInv(br, t, 0);
    assert RefusedTasks(t.tasks) == 1 by { assert t.tasks[..0] == []; }
    assert SelectedCount(br, 1, 1) == 1 && Selected(br, 0, 1);
  }
}
