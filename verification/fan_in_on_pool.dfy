/**
  A fan-in run on a shared worker pool: the scheduling thread and the case tasks of
  the fan-in system take their steps on the pool's workers, next to foreign tasks.
  The product of the two systems has no deadlock and its runs end with a return.
 */
module FanInOnPool {
  import opened Core
  import opened FanIn
  import F = ParallelFanIn
  import FI = ParallelFanInInvariant
  import FanInRefinement
  import P = ThreadPool
  import PP = ThreadPoolProgress

  /** Case j is posted as pool task j; tasks of other clients are numbered from the case count on. */
  datatype State = State(f: F.State, p: P.State)

  datatype Step =
    | Scheduler
    | CaseTask(w: nat)         // the worker advances the case task it runs
    | PoolStep(step: P.Step)
    | RequestStop
    | SpuriousBarrierWake

  ghost predicate Initial(br: Branch, s: State) {
    && s.f == F.Init(br)
    && P.Inv(s.p) && !s.p.shared.stop
    && (forall t :: t in s.p.shared.tasks ==> t >= |br.cases|)
    && (forall w :: 0 <= w < |s.p.workers| && s.p.workers[w].Running? ==> s.p.workers[w].task >= |br.cases|)
  }

  ghost predicate RunsCase(br: Branch, s: State, w: nat) {
    w < |s.p.workers| && s.p.workers[w].Running? && s.p.workers[w].task < |br.cases| == |s.f.tasks|
  }

  ghost predicate PoolAllows(br: Branch, s: State, step: P.Step) {
    && P.Enabled(s.p, step)
    && (step.Post? ==> step.task >= |br.cases|)
    && (step.PostRange? ==> forall t :: t in step.range ==> t >= |br.cases|)
    && (step.WorkerFinish? && RunsCase(br, s, step.w) ==> s.f.tasks[s.p.workers[step.w].task].Done?)
  }

  ghost predicate Enabled(br: Branch, s: State, step: Step) {
    match step
    case Scheduler => F.Enabled(br, s.f, F.SchedulerStep)
    case CaseTask(w) => RunsCase(br, s, w) && F.Enabled(br, s.f, F.TaskStep(s.p.workers[w].task))
    case PoolStep(e) => PoolAllows(br, s, e)
    case RequestStop => true
    case SpuriousBarrierWake => F.Enabled(br, s.f, F.SpuriousWake)
  }

  predicate Posts(f: F.State) {
    f.phase.Scheduling? && f.phase.pc.PoolPost?
  }

  /** The fan-in system's share of a step; None when it only concerns the pool. */
  ghost function FanInShare(br: Branch, s: State, step: Step): Option<F.Step>
    requires Enabled(br, s, step)
  {
    match step
    case Scheduler => Some(F.SchedulerStep)
    case CaseTask(w) => Some(F.TaskStep(s.p.workers[w].task))
    case PoolStep(e) => if e.Shutdown? then Some(F.StopPool) else None
    case RequestStop => Some(F.RequestStop)
    case SpuriousBarrierWake => Some(F.SpuriousWake)
  }

  /** The pool's share of a step. */
  ghost function PoolShare(s: State, step: Step): Option<P.Step> {
    match step
    case Scheduler => if Posts(s.f) then Some(P.Post(s.f.phase.k)) else None
    case PoolStep(e) => Some(e)
    case _ => None
  }

  ghost function Next(br: Branch, s: State, step: Step): State
    requires F.Shaped(br, s.f) && Enabled(br, s, step)
  {
    var share, poolShare := FanInShare(br, s, step), PoolShare(s, step);
    State(if share.Some? then F.Next(br, s.f, share.value) else s.f,
          if poolShare.Some? then P.Next(s.p, poolShare.value) else s.p)
  }

  ghost predicate Runs(br: Branch, s: State, steps: seq<Step>, t: State)
    decreases |steps|
  {
    if steps == [] then t == s
    else
      var init := steps[..|steps| - 1];
      exists m: State ::
        && Runs(br, s, init, m)
        && F.Shaped(br, m.f) && Enabled(br, m, steps[|steps| - 1])
        && t == Next(br, m, steps[|steps| - 1])
  }

  // ---------------------------------------------------------------- invariant

  predicate InPool(p: P.State, j: nat) {
    j in p.shared.tasks || exists w :: 0 <= w < |p.workers| && p.workers[w] == P.Running(j)
  }

  /** A case is in the pool only after it was posted, and as long as its task has steps left. */
  ghost predicate Linked(br: Branch, s: State) {
    && |s.f.tasks| == |br.cases|
    && s.f.poolStopped == s.p.shared.stop
    && (forall j :: 0 <= j < |br.cases| && InPool(s.p, j) ==> !s.f.tasks[j].Absent? && !s.f.tasks[j].Refused?)
    && (forall j :: 0 <= j < |br.cases| && F.Active(s.f.tasks[j]) ==> InPool(s.p, j))
  }

  ghost predicate Inv(br: Branch, s: State) {
    F.Inv(br, s.f) && P.Inv(s.p) && Linked(br, s)
  }

  lemma InitialInv(br: Branch, s: State)
    requires Initial(br, s)
    ensures Inv(br, s)
  {
    FI.InitInv(br);
  }

  /** Only a posted task enters the pool, and only a finished one leaves it. */
  lemma PoolMembership(s: P.State, step: P.Step, j: nat)
    requires P.Enabled(s, step)
    ensures InPool(P.Next(s, step), j) ==>
              InPool(s, j) || (!s.shared.stop && (step == P.Post(j) || (step.PostRange? && j in step.range)))
    ensures InPool(s, j) ==>
              InPool(P.Next(s, step), j) || (step.WorkerFinish? && s.workers[step.w] == P.Running(j))
    ensures step == P.Post(j) && !s.shared.stop ==> InPool(P.Next(s, step), j)
  {
    var t := P.Next(s, step);
    if InPool(t, j) && j !in t.shared.tasks {
      var w :| 0 <= w < |t.workers| && t.workers[w] == P.Running(j);
      assert s.workers[w] == P.Running(j) || (step == P.WorkerTest(w) && j in s.shared.tasks);
    }
    if j in s.shared.tasks && j !in t.shared.tasks {
      assert step.WorkerTest? && s.shared.tasks == [s.shared.tasks[0]] + s.shared.tasks[1..];
      assert t.workers[step.w] == P.Running(j);
    }
    if j !in s.shared.tasks && InPool(s, j) {
      var w :| 0 <= w < |s.workers| && s.workers[w] == P.Running(j);
      assert t.workers[w] == P.Running(j) || step == P.WorkerFinish(w);
    }
  }

  lemma PoolStepLinked(br: Branch, s: State, e: P.Step)
    requires Linked(br, s) && F.Shaped(br, s.f) && Enabled(br, s, PoolStep(e))
    ensures Linked(br, Next(br, s, PoolStep(e)))
  {
    var t := Next(br, s, PoolStep(e));
    forall j | 0 <= j < |br.cases|
      ensures InPool(t.p, j) ==> InPool(s.p, j)
      ensures F.Active(s.f.tasks[j]) && InPool(s.p, j) ==> InPool(t.p, j)
    {
      PoolMembership(s.p, e, j);
      if e.WorkerFinish? && s.p.workers[e.w] == P.Running(j) {
        assert RunsCase(br, s, e.w);
      }
    }
    assert t.f.tasks == s.f.tasks;
  }

  lemma CaseTaskLinked(br: Branch, s: State, w: nat)
    requires Linked(br, s) && F.Shaped(br, s.f) && Enabled(br, s, CaseTask(w))
    ensures Linked(br, Next(br, s, CaseTask(w)))
  {
    var i, t := s.p.workers[w].task, Next(br, s, CaseTask(w));
    assert InPool(s.p, i);
    forall j | 0 <= j < |br.cases| ensures t.f.tasks[j].Absent? <==> s.f.tasks[j].Absent?
                                   ensures t.f.tasks[j].Refused? <==> s.f.tasks[j].Refused?
                                   ensures j != i ==> t.f.tasks[j] == s.f.tasks[j] {
      FI.TaskFrame(br, s.f, i, j);
    }
    assert t.f.poolStopped == s.f.poolStopped by {
      FI.TaskFrame(br, s.f, i, i);
    }
  }

  /** The step that posts case k puts it into a running pool, or is refused. */
  lemma PostLinked(br: Branch, s: State)
    requires Linked(br, s) && F.Inv(br, s.f) && Enabled(br, s, Scheduler) && Posts(s.f)
    ensures Linked(br, Next(br, s, Scheduler))
  {
    var t, k := Next(br, s, Scheduler), s.f.phase.k;
    assert F.CaseInv(br, s.f, k);
    assert s.f.tasks[k].Absent?;
    PoolMembership(s.p, P.Post(k), k);
    forall j | 0 <= j < |br.cases| && j != k ensures InPool(t.p, j) <==> InPool(s.p, j) {
      PoolMembership(s.p, P.Post(k), j);
    }
    assert t.f.tasks == s.f.tasks[k := if s.f.poolStopped then F.Refused else F.Queued];
  }

  lemma SchedulerKeepsTasks(br: Branch, f: F.State)
    requires F.Shaped(br, f) && F.Enabled(br, f, F.SchedulerStep) && !Posts(f)
    ensures F.Scheduler(br, f).tasks == f.tasks && F.Scheduler(br, f).poolStopped == f.poolStopped
  {
  }

  lemma SchedulerLinked(br: Branch, s: State)
    requires Linked(br, s) && F.Inv(br, s.f) && Enabled(br, s, Scheduler)
    ensures Linked(br, Next(br, s, Scheduler))
  {
    if Posts(s.f) {
      PostLinked(br, s);
    } else {
      SchedulerKeepsTasks(br, s.f);
      assert Next(br, s, Scheduler).p == s.p;
    }
  }

  lemma NextInv(br: Branch, s: State, step: Step)
    requires Inv(br, s) && Enabled(br, s, step)
    ensures Inv(br, Next(br, s, step))
  {
    var share, poolShare := FanInShare(br, s, step), PoolShare(s, step);
    if share.Some? {
      FI.NextInv(br, s.f, share.value);
    }
    if poolShare.Some? {
      P.NextInv(s.p, poolShare.value);
    }
    match step {
      case Scheduler => SchedulerLinked(br, s);
      case CaseTask(w) => CaseTaskLinked(br, s, w);
      case PoolStep(e) => PoolStepLinked(br, s, e);
      case _ =>
    }
  }

  lemma {:induction false} RunsInv(br: Branch, s: State, steps: seq<Step>, t: State)
    requires Inv(br, s) && Runs(br, s, steps, t)
    ensures Inv(br, t)
  {
    if steps != [] {
      var init, last := steps[..|steps| - 1], steps[|steps| - 1];
      var m: State :| Runs(br, s, init, m) && F.Shaped(br, m.f) && Enabled(br, m, last) && t == Next(br, m, last);
      RunsInv(br, s, init, m);
      NextInv(br, m, last);
    }
  }

  lemma FanInRunsMore(br: Branch, s: F.State, steps: seq<F.Step>, m: F.State, step: F.Step)
    requires F.Runs(br, s, steps, m) && F.Shaped(br, m) && F.Enabled(br, m, step)
    ensures F.Runs(br, s, steps + [step], F.Next(br, m, step))
  {
    assert (steps + [step])[..|steps|] == steps;
  }

  lemma ShareIsEnabled(br: Branch, s: State, step: Step)
    requires F.Shaped(br, s.f) && Enabled(br, s, step)
    ensures var share := FanInShare(br, s, step);
            if share.Some? then F.Enabled(br, s.f, share.value) && Next(br, s, step).f == F.Next(br, s.f, share.value)
            else Next(br, s, step).f == s.f
    ensures FanInShare(br, s, step) == Some(F.RequestStop) ==> step == RequestStop
    ensures FanInShare(br, s, step) == Some(F.StopPool) ==> step == PoolStep(P.Shutdown)
  {
  }

  /** The fan-in part of a run on the pool is a run of the fan-in system. */
  lemma {:induction false} RunsProject(br: Branch, s: State, steps: seq<Step>, t: State) returns (fSteps: seq<F.Step>)
    requires Runs(br, s, steps, t) && s.f == F.Init(br)
    ensures F.Runs(br, F.Init(br), fSteps, t.f)
    ensures F.RequestStop in fSteps ==> RequestStop in steps
    ensures F.StopPool in fSteps ==> PoolStep(P.Shutdown) in steps
  {
    fSteps := [];
    if steps != [] {
      var init, last := steps[..|steps| - 1], steps[|steps| - 1];
      var m: State :| Runs(br, s, init, m) && F.Shaped(br, m.f) && Enabled(br, m, last) && t == Next(br, m, last);
      fSteps := RunsProject(br, s, init, m);
      assert steps == init + [last];
      fSteps := StepProjects(br, m, last, fSteps);
    }
  }

  lemma StepProjects(br: Branch, m: State, last: Step, before: seq<F.Step>) returns (fSteps: seq<F.Step>)
    requires F.Runs(br, F.Init(br), before, m.f) && F.Shaped(br, m.f) && Enabled(br, m, last)
    ensures F.Runs(br, F.Init(br), fSteps, Next(br, m, last).f)
    ensures F.RequestStop in fSteps ==> F.RequestStop in before || last == RequestStop
    ensures F.StopPool in fSteps ==> F.StopPool in before || last == PoolStep(P.Shutdown)
  {
    ShareIsEnabled(br, m, last);
    var share := FanInShare(br, m, last);
    fSteps := before;
    if share.Some? {
      FanInRunsMore(br, F.Init(br), before, m.f, share.value);
      fSteps := before + [share.value];
    }
  }

  // ---------------------------------------------------------------- no deadlock

  ghost predicate Internal(step: Step) {
    step.Scheduler? || step.CaseTask? || (step.PoolStep? && PP.Internal(step.step))
  }

  ghost predicate Stuck(br: Branch, s: State) {
    forall step: Step :: Internal(step) ==> !Enabled(br, s, step)
  }

  lemma StuckPool(br: Branch, s: State)
    requires Inv(br, s) && Stuck(br, s)
    ensures PP.Stuck(s.p)
  {
    forall w | 0 <= w < |s.p.workers| ensures !s.p.workers[w].Running? {
      assert !Enabled(br, s, PoolStep(P.WorkerFinish(w)));
      assert !Enabled(br, s, CaseTask(w));
      assert s.p.workers[w].Running? ==> InPool(s.p, s.p.workers[w].task);
    }
    forall e: P.Step | PP.Internal(e) ensures !P.Enabled(s.p, e) {
      assert !Enabled(br, s, PoolStep(e));
    }
  }

  /** A stuck product has returned from the barrier and drained the pool. */
  lemma StuckHasReturned(br: Branch, s: State)
    requires Inv(br, s) && Stuck(br, s)
    ensures s.f.phase.Returned? && PP.Drained(s.p)
  {
    StuckPool(br, s);
    PP.StuckIsDrained(s.p);
    assert forall j :: 0 <= j < |br.cases| ==> !InPool(s.p, j);
    F.CountedNone(s.f.tasks);
    assert !Enabled(br, s, Scheduler);
  }

  // ---------------------------------------------------------------- a decreasing measure

  function PcRank(pc: F.Pc): nat {
    match pc
    case PredicateCall => 9
    case PredicateReturn => 8
    case Decide => 7
    case SelectReport => 6
    case ScheduleReport => 5
    case GroupAdd => 4
    case PoolPost => 3
    case SkipReport => 3
    case FailSlot => 4
    case FailReport => 3
    case CaseEnd => 2
  }

  function PhaseRank(n: nat, phase: F.Phase): nat
    requires phase.Scheduling? ==> phase.k < n
  {
    match phase
    case Opening => 10 * n + 6
    case Scheduling(k, pc) => 10 * (n - 1 - k) + PcRank(pc) + 5
    case Waiting => 3
    case Blocked => 2
    case Tallying => 1
    case Returned(_) => 0
  }

  /** Cases the scheduling thread may still post. */
  function PostsLeft(n: nat, phase: F.Phase): nat
    requires phase.Scheduling? ==> phase.k < n
  {
    match phase
    case Opening => n
    case Scheduling(k, pc) => if pc.CaseEnd? then n - 1 - k else n - k
    case _ => 0
  }

  function TaskWeight(t: F.TaskPc): nat {
    match t
    case Queued => 8
    case Invoking => 7
    case StageReturn => 6
    case FailureReport => 5
    case Reporting => 4
    case Finishing => 3
    case Notifying => 2
    case _ => 0
  }

  function TaskRank(tasks: seq<F.TaskPc>): nat {
    if tasks == [] then 0 else TaskRank(tasks[..|tasks| - 1]) + TaskWeight(tasks[|tasks| - 1])
  }

  lemma {:induction false} UpdateTaskRank(tasks: seq<F.TaskPc>, j: nat, t: F.TaskPc)
    requires j < |tasks|
    ensures TaskRank(tasks[j := t]) == TaskRank(tasks) - TaskWeight(tasks[j]) + TaskWeight(t)
  {
    var n := |tasks| - 1;
    if j == n {
      assert tasks[j := t][..n] == tasks[..n];
    } else {
      assert tasks[j := t][..n] == tasks[..n][j := t];
      UpdateTaskRank(tasks[..n], j, t);
    }
  }

  /** The measure in its four parts. */
  function RankOf(pool: nat, phase: nat, tasks: nat, posts: nat, unit: nat): nat {
    pool + phase + tasks + PP.Times(posts, unit)
  }

  /** A post costs the pool a queued task and a notification, and the fan-in a task's steps. */
  function Rank(br: Branch, s: State): nat
    requires F.Shaped(br, s.f)
  {
    var n := |br.cases|;
    RankOf(PP.Rank(s.p), PhaseRank(n, s.f.phase), TaskRank(s.f.tasks), PostsLeft(n, s.f.phase), |s.p.waiters| + 13)
  }

  lemma CaseStepDecreases(br: Branch, f: F.State, k: nat, pc: F.Pc)
    requires F.Shaped(br, f) && f.phase == F.Scheduling(k, pc)
    ensures var g, n := F.SchedulerActs(br, f, k, pc).phase, |br.cases|;
            && (g.Scheduling? ==> g.k < n)
            && PhaseRank(n, g) < PhaseRank(n, f.phase)
            && (pc.PoolPost? ==> PostsLeft(n, g) == PostsLeft(n, f.phase) - 1)
            && PostsLeft(n, g) <= PostsLeft(n, f.phase)
  {
  }

  lemma PhaseDecreases(br: Branch, f: F.State)
    requires F.Shaped(br, f) && F.Enabled(br, f, F.SchedulerStep)
    ensures var g, n := F.Scheduler(br, f), |br.cases|;
            && F.Shaped(br, g)
            && PhaseRank(n, g.phase) < PhaseRank(n, f.phase)
            && (Posts(f) ==> PostsLeft(n, g.phase) == PostsLeft(n, f.phase) - 1)
            && PostsLeft(n, g.phase) <= PostsLeft(n, f.phase)
  {
    if f.phase.Scheduling? {
      CaseStepDecreases(br, f, f.phase.k, f.phase.pc);
    }
  }

  lemma SchedulerTasks(br: Branch, f: F.State)
    requires F.Inv(br, f) && F.Enabled(br, f, F.SchedulerStep)
    ensures TaskRank(F.Scheduler(br, f).tasks) <= TaskRank(f.tasks) + if Posts(f) then 8 else 0
  {
    if Posts(f) {
      PostedTask(br, f);
    } else {
      assert F.Scheduler(br, f).tasks == f.tasks;
    }
  }

  lemma PostedTask(br: Branch, f: F.State)
    requires F.Inv(br, f) && F.Enabled(br, f, F.SchedulerStep) && Posts(f)
    ensures TaskRank(F.Scheduler(br, f).tasks) <= TaskRank(f.tasks) + 8
  {
    var k := f.phase.k;
    assert F.CaseInv(br, f, k);
    UpdateTaskRank(f.tasks, k, F.Scheduler(br, f).tasks[k]);
  }

  lemma PostRank(p: P.State, task: P.Task)
    ensures PP.Rank(P.Next(p, P.Post(task))) <= PP.Rank(p) + |p.waiters| + 5
    ensures |P.Next(p, P.Post(task)).waiters| == |p.waiters|
  {
  }

  lemma {:induction false} TimesMonotone(a: nat, b: nat, unit: nat)
    requires a <= b
    ensures PP.Times(a, unit) <= PP.Times(b, unit)
  {
    if a < b {
      TimesMonotone(a, b - 1, unit);
    }
  }

  lemma PostPays(p: nat, q: nat, phase: nat, phase': nat, tasks: nat, tasks': nat, posts: nat, unit: nat)
    requires posts > 0 && q + 8 <= p + unit && phase' < phase && tasks' <= tasks + 8
    ensures RankOf(q, phase', tasks', posts - 1, unit) < RankOf(p, phase, tasks, posts, unit)
  {
  }

  lemma SchedulerDecreases(br: Branch, s: State)
    requires Inv(br, s) && Enabled(br, s, Scheduler)
    ensures F.Shaped(br, Next(br, s, Scheduler).f) && Rank(br, Next(br, s, Scheduler)) < Rank(br, s)
  {
    PhaseDecreases(br, s.f);
    SchedulerTasks(br, s.f);
    if Posts(s.f) {
      PostDecreases(br, s);
    } else {
      TimesMonotone(PostsLeft(|br.cases|, F.Scheduler(br, s.f).phase), PostsLeft(|br.cases|, s.f.phase),
                    |s.p.waiters| + 13);
      assert Next(br, s, Scheduler).p == s.p;
    }
  }

  lemma PostDecreases(br: Branch, s: State)
    requires Inv(br, s) && Enabled(br, s, Scheduler) && Posts(s.f)
    ensures F.Shaped(br, Next(br, s, Scheduler).f) && Rank(br, Next(br, s, Scheduler)) < Rank(br, s)
  {
    var n, g, t := |br.cases|, F.Scheduler(br, s.f), Next(br, s, Scheduler);
    PhaseDecreases(br, s.f);
    SchedulerTasks(br, s.f);
    PostRank(s.p, s.f.phase.k);
    PostPays(PP.Rank(s.p), PP.Rank(t.p), PhaseRank(n, s.f.phase), PhaseRank(n, g.phase),
             TaskRank(s.f.tasks), TaskRank(g.tasks), PostsLeft(n, s.f.phase), |s.p.waiters| + 13);
  }

  lemma TaskDecreases(br: Branch, f: F.State, j: nat)
    requires F.Shaped(br, f) && F.Enabled(br, f, F.TaskStep(j))
    ensures var g, n := F.Task(br, f, j), |br.cases|;
            && F.Shaped(br, g)
            && PostsLeft(n, g.phase) == PostsLeft(n, f.phase)
            && PhaseRank(n, g.phase) + TaskRank(g.tasks) < PhaseRank(n, f.phase) + TaskRank(f.tasks)
  {
    UpdateTaskRank(f.tasks, j, F.TaskAfter(br, j, f.tasks[j]));
  }

  lemma CaseTaskDecreases(br: Branch, s: State, w: nat)
    requires Inv(br, s) && Enabled(br, s, CaseTask(w))
    ensures F.Shaped(br, Next(br, s, CaseTask(w)).f) && Rank(br, Next(br, s, CaseTask(w))) < Rank(br, s)
  {
    TaskDecreases(br, s.f, s.p.workers[w].task);
  }

  lemma StepDecreases(br: Branch, s: State, step: Step)
    requires Inv(br, s) && Enabled(br, s, step) && Internal(step)
    ensures F.Shaped(br, Next(br, s, step).f) && Rank(br, Next(br, s, step)) < Rank(br, s)
  {
    match step {
      case Scheduler => SchedulerDecreases(br, s);
      case CaseTask(w) => CaseTaskDecreases(br, s, w);
      case PoolStep(e) => PP.StepDecreases(s.p, e);
    }
  }

  ghost predicate InternalRun(br: Branch, s: State, steps: seq<Step>, t: State) {
    Runs(br, s, steps, t) && forall step :: step in steps ==> Internal(step)
  }

  lemma {:induction false} InternalRunsAreBounded(br: Branch, s: State, steps: seq<Step>, t: State)
    requires Inv(br, s) && InternalRun(br, s, steps, t)
    ensures Inv(br, t) && |steps| + Rank(br, t) <= Rank(br, s)
  {
    if steps != [] {
      var init, last := steps[..|steps| - 1], steps[|steps| - 1];
      var m: State :| Runs(br, s, init, m) && F.Shaped(br, m.f) && Enabled(br, m, last) && t == Next(br, m, last);
      InternalRunsAreBounded(br, s, init, m);
      StepDecreases(br, m, last);
      NextInv(br, m, last);
    }
  }

  /**
    Main result. However a fan-in run on a running pool has proceeded among other
    clients' tasks, its own steps and the pool's end after at most Rank steps, and where
    they end the run has returned; if nobody requested a stop or shut the pool down it has
    returned what the sequential recursion returns.
   */
  lemma FanInAlwaysReturns(br: Branch, s0: State, history: seq<Step>, s: State, steps: seq<Step>, t: State)
    requires Initial(br, s0) && Runs(br, s0, history, s)
    requires InternalRun(br, s, steps, t) && Stuck(br, t)
    ensures F.Shaped(br, s.f) && |steps| <= Rank(br, s)
    ensures t.f.phase.Returned? && PP.Drained(t.p)
    ensures RequestStop !in history && PoolStep(P.Shutdown) !in history ==>
              FanInRefinement.Agrees(t.f, RunFanInBranch(br))
  {
    InitialInv(br, s0);
    RunsInv(br, s0, history, s);
    InternalRunReturns(br, s, steps, t);
    if RequestStop !in history && PoolStep(P.Shutdown) !in history {
      RunsJoin(br, s0, history, s, steps, t);
      UndisturbedRunAgrees(br, s0, history + steps, t);
    }
  }

  lemma InternalRunReturns(br: Branch, s: State, steps: seq<Step>, t: State)
    requires Inv(br, s) && InternalRun(br, s, steps, t) && Stuck(br, t)
    ensures F.Shaped(br, s.f) && |steps| <= Rank(br, s)
    ensures t.f.phase.Returned? && PP.Drained(t.p)
  {
    InternalRunsAreBounded(br, s, steps, t);
    StuckHasReturned(br, t);
  }

  lemma UndisturbedRunAgrees(br: Branch, s0: State, steps: seq<Step>, t: State)
    requires s0.f == F.Init(br) && Runs(br, s0, steps, t) && t.f.phase.Returned?
    requires RequestStop !in steps && PoolStep(P.Shutdown) !in steps
    ensures FanInRefinement.Agrees(t.f, RunFanInBranch(br))
  {
    var fSteps := RunsProject(br, s0, steps, t);
    FanInRefinement.UncancelledRunIsSequential(br, fSteps, t.f);
  }

  /** From every reachable state some run of internal steps ends stuck, that is, returned. */
  lemma {:induction false} InternalRunEnds(br: Branch, s: State) returns (steps: seq<Step>, t: State)
    requires Inv(br, s)
    ensures InternalRun(br, s, steps, t) && Stuck(br, t)
    decreases Rank(br, s)
  {
    steps, t := [], s;
    if !Stuck(br, s) {
      var step: Step :| Internal(step) && Enabled(br, s, step);
      var m := Next(br, s, step);
      StepDecreases(br, s, step);
      NextInv(br, s, step);
      var more: seq<Step>;
      more, t := InternalRunEnds(br, m);
      assert [step][..0] == [];
      assert Runs(br, s, [], s);
      assert Runs(br, s, [step], m);
      RunsJoin(br, s, [step], m, more, t);
      steps := [step] + more;
    }
  }

  lemma {:induction false} RunsJoin(br: Branch, s: State, a: seq<Step>, m: State, b: seq<Step>, t: State)
    requires Runs(br, s, a, m) && Runs(br, m, b, t)
    ensures Runs(br, s, a + b, t)
  {
    if b == [] {
      assert a + b == a;
    } else {
      var init, last := b[..|b| - 1], b[|b| - 1];
      var u: State :| Runs(br, m, init, u) && F.Shaped(br, u.f) && Enabled(br, u, last) && t == Next(br, u, last);
      RunsJoin(br, s, a, m, init, u);
      assert (a + b)[..|a + b| - 1] == a + init;
    }
  }

  /** On a fresh pool some run of internal steps ends, and where it ends the fan-in has returned. */
  lemma FreshProductReturns(br: Branch) returns (start: State, steps: seq<Step>, t: State)
    ensures start.f == F.Init(br) && InternalRun(br, start, steps, t) && t.f.phase.Returned?
  {
    start := State(F.Init(br), P.Init(1));
    P.InitInv(1);
    assert Initial(br, start);
    InitialInv(br, start);
    steps, t := InternalRunEnds(br, start);
    InternalRunsAreBounded(br, start, steps, t);
    StuckHasReturned(br, t);
  }

  /** The fan-in system has a returned run without a stop request and without a pool shutdown. */
  lemma FreshRunReturns(br: Branch) returns (steps: seq<F.Step>, t: F.State)
    ensures F.Runs(br, F.Init(br), steps, t) && t.phase.Returned?
    ensures F.StopPool !in steps && F.RequestStop !in steps
  {
    var start, product, last := FreshProductReturns(br);
    steps := RunsProject(br, start, product, last);
    t := last.f;
  }
}
