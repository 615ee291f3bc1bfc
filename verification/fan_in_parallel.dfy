/**
  Parallel fan-in on a thread pool as a step system. One scheduling thread
  evaluates the predicates in order and posts a task for each selected case; the
  tasks fill their slots in any interleaving; a countdown barrier joins them.
  A step is one critical section, one observer call or one thread-local action.
 */
module ParallelFanIn {
  import opened Core
  import opened FanIn

  // ---------------------------------------------------------------- machine

  /** Where the scheduling thread stands inside one case. */
  datatype Pc =
    | PredicateCall      // about to report the predicate's start
    | PredicateReturn    // about to report how the predicate ended
    | Decide             // about to branch on the verdict and read the cancellation token
    | SelectReport
    | ScheduleReport
    | GroupAdd           // about to count the task in the barrier
    | PoolPost           // about to post the task
    | SkipReport
    | FailSlot
    | FailReport
    | CaseEnd

  datatype Phase =
    | Opening
    | Scheduling(k: nat, pc: Pc)
    | Waiting            // about to test the barrier
    | Blocked            // asleep on the barrier's condition variable
    | Tallying
    | Returned(result: Result)

  datatype TaskPc =
    | Absent
    | Refused            // posted to a stopped pool
    | Queued
    | Invoking           // about to run the stage and write the slot
    | StageReturn
    | FailureReport
    | Reporting
    | Finishing          // about to decrement the barrier
    | Notifying          // decremented, notification not delivered yet
    | Done

  datatype State = State(
    phase: Phase, tasks: seq<TaskPc>, slots: seq<Slot>, tally: Tally, log: seq<Entry>,
    pending: nat, firstError: Option<Error>, cancelled: bool, poolStopped: bool,
    cut: nat,       // first case whose token read saw the stop request; the case count before that
    added: nat, finished: nat)

  datatype Step = SchedulerStep | TaskStep(j: nat) | RequestStop | StopPool | SpuriousWake

  function Init(br: Branch): State {
    State(Opening, seq(|br.cases|, _ => Absent), seq(|br.cases|, _ => EMPTY_SLOT), Tally(0, 0, 0), [],
          0, None, false, false, |br.cases|, 0, 0)
  }

  /** The error of a post on a stopped pool, as the scheduling thread turns it into a group outcome. */
  const REFUSED_ERROR := Error(NO_STAGE, ExceptionCategory, "post on stopped thread_pool")

  ghost predicate Shaped(br: Branch, s: State) {
    && |s.tasks| == |s.slots| == |br.cases|
    && (s.phase.Scheduling? ==> s.phase.k < |br.cases|)
  }

  predicate Active(t: TaskPc) {
    !t.Absent? && !t.Refused? && !t.Done?
  }

  ghost predicate Enabled(br: Branch, s: State, step: Step) {
    match step
    case SchedulerStep => !s.phase.Blocked? && !s.phase.Returned?
    case TaskStep(j) => j < |s.tasks| && Active(s.tasks[j])
    case RequestStop => true
    case StopPool => true
    case SpuriousWake => s.phase.Blocked?
  }

  function Log(s: State, owner: int, events: seq<Event>): State {
    s.(log := s.log + Own(owner, events))
  }

  function FinishGroup(s: State, outcome: Option<Error>): State {
    s.(firstError := if s.firstError.None? then outcome else s.firstError,
       pending := if s.pending > 0 then s.pending - 1 else s.pending,
       finished := s.finished + 1)
  }

  function FirstPhase(br: Branch): Phase {
    if |br.cases| > 0 then Scheduling(0, PredicateCall) else Waiting
  }

  function CompletedSlots(slots: seq<Slot>): nat {
    if slots == [] then 0
    else CompletedSlots(slots[..|slots| - 1]) + if slots[|slots| - 1].state == Completed then 1 else 0
  }

  /** The scheduling thread adds the stage completions and derives the failures of selected cases. */
  function FinalTally(s: State): Tally {
    var completed := s.tally.completed + CompletedSlots(s.slots);
    Tally(s.tally.selected, completed, s.tally.failed + (s.tally.selected - completed))
  }

  /** What the scheduling thread reports at a position inside case k. */
  function SchedulerEmits(br: Branch, k: nat, pc: Pc): seq<Event>
    requires k < |br.cases|
  {
    match pc
    case PredicateCall => [StageStart(Pid(br, k))]
    case PredicateReturn => [PredicateClose(Pid(br, k), VerdictOf(br, k))]
    case SelectReport => [CaseSelected(br.id, k, Pid(br, k))]
    case ScheduleReport => [FanInCaseScheduled(br.id, k, Sid(br, k))]
    case SkipReport => [CaseSkipped(br.id, k, Pid(br, k))]
    case FailReport =>
      if VerdictOf(br, k).Says? then []
      else [CaseFailed(br.id, k, Pid(br, k), PredicateError(Pid(br, k), VerdictOf(br, k)))]
    case _ => []
  }

  function FailureMessage(br: Branch, k: nat): string
    requires k < |br.cases|
  {
    if VerdictOf(br, k).Says? then "" else PredicateError(Pid(br, k), VerdictOf(br, k)).message
  }

  /** What the scheduling thread does at a position inside case k, reports aside. */
  function SchedulerActs(br: Branch, s: State, k: nat, pc: Pc): State
    requires |s.tasks| == |s.slots| == |br.cases| && k < |br.cases|
  {
    match pc
    case PredicateCall => s.(phase := Scheduling(k, PredicateReturn))
    case PredicateReturn => s.(phase := Scheduling(k, Decide))
    case Decide =>
      if !VerdictOf(br, k).Says? then s.(phase := Scheduling(k, FailSlot))
      else if !VerdictOf(br, k).answer then s.(phase := Scheduling(k, SkipReport))
      else if s.cancelled then s.(phase := Scheduling(k, SkipReport), cut := if k < s.cut then k else s.cut)
      else s.(phase := Scheduling(k, SelectReport), tally := s.tally.(selected := s.tally.selected + 1))
    case SelectReport => s.(phase := Scheduling(k, ScheduleReport))
    case ScheduleReport => s.(phase := Scheduling(k, GroupAdd))
    case GroupAdd => s.(phase := Scheduling(k, PoolPost), pending := s.pending + 1, added := s.added + 1)
    case PoolPost =>
      if s.poolStopped then
        FinishGroup(s, Some(REFUSED_ERROR)).(phase := Scheduling(k, CaseEnd), tasks := s.tasks[k := Refused])
      else s.(phase := Scheduling(k, CaseEnd), tasks := s.tasks[k := Queued])
    case SkipReport => s.(phase := Scheduling(k, CaseEnd))
    case FailSlot =>
      s.(phase := Scheduling(k, FailReport), slots := s.slots[k := MarkFailed(FailureMessage(br, k))],
         tally := s.tally.(failed := s.tally.failed + 1))
    case FailReport => s.(phase := Scheduling(k, CaseEnd))
    case CaseEnd => s.(phase := if k + 1 < |br.cases| then Scheduling(k + 1, PredicateCall) else Waiting)
  }

  function CaseStep(br: Branch, s: State, k: nat, pc: Pc): State
    requires |s.tasks| == |s.slots| == |br.cases| && k < |br.cases|
  {
    Log(SchedulerActs(br, s, k, pc), k, SchedulerEmits(br, k, pc))
  }

  ghost function Scheduler(br: Branch, s: State): State
    requires Shaped(br, s) && Enabled(br, s, SchedulerStep)
  {
    match s.phase
    case Opening => Log(s, NODE, [FanInStarted(br.id, |br.cases|)]).(phase := FirstPhase(br))
    case Scheduling(k, pc) => CaseStep(br, s, k, pc)
    case Waiting => s.(phase := if s.pending == 0 then Tallying else Blocked)
    case Tallying =>
      var tally := FinalTally(s);
      var result := if s.firstError.Some? then Fail(s.firstError.value) else Ok(Aggregate(s.slots));
      Log(s, NODE, [CompletedEvent(br, tally)]).(phase := Returned(result), tally := tally)
    case _ => s
  }

  /** What the task of case j reports at a position; the last report reads the slot. */
  function TaskEmits(br: Branch, j: nat, t: TaskPc, slot: Slot): seq<Event>
    requires j < |br.cases|
  {
    match t
    case Queued => [StageStart(Sid(br, j))]
    case StageReturn => [StageClose(Sid(br, j), OutcomeOf(br, j))]
    case FailureReport =>
      if OutcomeOf(br, j).Yield? then []
      else [CaseFailed(br.id, j, Sid(br, j), OutcomeError(Sid(br, j), OutcomeOf(br, j)))]
    case Reporting => [ReportEvent(br, j, slot.state != Failed)]
    case _ => []
  }

  function TaskAfter(br: Branch, j: nat, t: TaskPc): TaskPc
    requires j < |br.cases|
  {
    match t
    case Queued => Invoking
    case Invoking => StageReturn
    case StageReturn => if OutcomeOf(br, j).Yield? then Reporting else FailureReport
    case FailureReport => Reporting
    case Reporting => Finishing
    case Finishing => Notifying
    case _ => Done
  }

  /** What the task of case j does at a position, reports and its own position aside. */
  function TaskActs(br: Branch, s: State, j: nat): State
    requires |s.tasks| == |s.slots| == |br.cases| && j < |br.cases|
  {
    match s.tasks[j]
    case Invoking => s.(slots := s.slots[j := StageSlot(br, j)])
    case Finishing => FinishGroup(s, None)
    case Notifying => s.(phase := if s.phase.Blocked? then Waiting else s.phase)
    case _ => s
  }

  function Task(br: Branch, s: State, j: nat): State
    requires |s.tasks| == |s.slots| == |br.cases| && j < |br.cases|
  {
    Log(TaskActs(br, s, j), j, TaskEmits(br, j, s.tasks[j], s.slots[j]))
    .(tasks := s.tasks[j := TaskAfter(br, j, s.tasks[j])])
  }

  ghost function Next(br: Branch, s: State, step: Step): State
    requires Shaped(br, s) && Enabled(br, s, step)
  {
    match step
    case SchedulerStep => Scheduler(br, s)
    case TaskStep(j) => Task(br, s, j)
    case RequestStop => s.(cancelled := true)
    case StopPool => s.(poolStopped := true)
    case SpuriousWake => s.(phase := Waiting)
  }

  /** A run of the machine: every step is enabled where it is taken. */
  ghost predicate Runs(br: Branch, s: State, steps: seq<Step>, t: State)
    decreases |steps|
  {
    if steps == [] then t == s
    else
      var init := steps[..|steps| - 1];
      exists m: State ::
        && Runs(br, s, init, m)
        && Shaped(br, m) && Enabled(br, m, steps[|steps| - 1])
        && t == Next(br, m, steps[|steps| - 1])
  }

  // ---------------------------------------------------------------- what each position means

  ghost predicate Selected(br: Branch, j: nat, cut: nat)
    requires j < |br.cases|
  {
    VerdictOf(br, j) == Says(true) && j < cut
  }

  /** The complete event sequence of one case when token reads from case `cut` on see a stop request. */
  ghost function CaseEvents(br: Branch, j: nat, cut: nat): seq<Event>
    requires j < |br.cases|
  {
    PredicateEvents(br, j)
    + if !VerdictOf(br, j).Says? then
        [CaseFailed(br.id, j, Pid(br, j), PredicateError(Pid(br, j), VerdictOf(br, j)))]
      else if Selected(br, j, cut) then
        [CaseSelected(br.id, j, Pid(br, j)), FanInCaseScheduled(br.id, j, Sid(br, j))]
        + StageEvents(br, j) + [ReportEvent(br, j, OutcomeOf(br, j).Yield?)]
      else [CaseSkipped(br.id, j, Pid(br, j))]
  }

  ghost function FinalSlot(br: Branch, j: nat, cut: nat): Slot
    requires j < |br.cases|
  {
    if !VerdictOf(br, j).Says? then MarkFailed(PredicateError(Pid(br, j), VerdictOf(br, j)).message)
    else if Selected(br, j, cut) then StageSlot(br, j)
    else EMPTY_SLOT
  }

  /** The scheduling thread's position relative to case j. */
  ghost function PositionOf(phase: Phase, j: nat): Pc {
    match phase
    case Opening => PredicateCall
    case Scheduling(k, pc) => if j < k then CaseEnd else if j == k then pc else PredicateCall
    case _ => CaseEnd
  }

  /** What the scheduling thread has logged for case j at a position. */
  ghost function SchedulerEvents(br: Branch, j: nat, pc: Pc, cut: nat): seq<Event>
    requires j < |br.cases|
  {
    match pc
    case PredicateCall => []
    case PredicateReturn => [StageStart(Pid(br, j))]
    case ScheduleReport => PredicateEvents(br, j) + [CaseSelected(br.id, j, Pid(br, j))]
    case GroupAdd =>
      PredicateEvents(br, j) + [CaseSelected(br.id, j, Pid(br, j)), FanInCaseScheduled(br.id, j, Sid(br, j))]
    case PoolPost =>
      PredicateEvents(br, j) + [CaseSelected(br.id, j, Pid(br, j)), FanInCaseScheduled(br.id, j, Sid(br, j))]
    case CaseEnd =>
      PredicateEvents(br, j)
      + if !VerdictOf(br, j).Says? then
          [CaseFailed(br.id, j, Pid(br, j), PredicateError(Pid(br, j), VerdictOf(br, j)))]
        else if Selected(br, j, cut) then
          [CaseSelected(br.id, j, Pid(br, j)), FanInCaseScheduled(br.id, j, Sid(br, j))]
        else [CaseSkipped(br.id, j, Pid(br, j))]
    case _ => PredicateEvents(br, j)
  }

  /** What the task of case j has logged at a position. */
  ghost function TaskEvents(br: Branch, j: nat, t: TaskPc): seq<Event>
    requires j < |br.cases|
  {
    match t
    case Absent => []
    case Refused => []
    case Queued => []
    case Invoking => [StageStart(Sid(br, j))]
    case StageReturn => [StageStart(Sid(br, j))]
    case FailureReport => [StageStart(Sid(br, j)), StageClose(Sid(br, j), OutcomeOf(br, j))]
    case Reporting => StageEvents(br, j)
    case _ => StageEvents(br, j) + [ReportEvent(br, j, OutcomeOf(br, j).Yield?)]
  }

  ghost predicate HasRun(t: TaskPc) {
    t.StageReturn? || t.FailureReport? || t.Reporting? || t.Finishing? || t.Notifying? || t.Done?
  }

  ghost predicate PositionFits(br: Branch, j: nat, pc: Pc, cut: nat)
    requires j < |br.cases|
  {
    match pc
    case SelectReport => Selected(br, j, cut)
    case ScheduleReport => Selected(br, j, cut)
    case GroupAdd => Selected(br, j, cut)
    case PoolPost => Selected(br, j, cut)
    case SkipReport => VerdictOf(br, j).Says? && !Selected(br, j, cut)
    case FailSlot => !VerdictOf(br, j).Says?
    case FailReport => !VerdictOf(br, j).Says?
    case _ => true
  }

  /** A case has a task exactly when it was selected and the scheduling thread has left it. */
  ghost predicate TaskInv(br: Branch, s: State, j: nat)
    requires Shaped(br, s) && j < |br.cases|
  {
    && PositionFits(br, j, PositionOf(s.phase, j), s.cut)
    && (!s.tasks[j].Absent? <==> PositionOf(s.phase, j).CaseEnd? && Selected(br, j, s.cut))
    && (s.tasks[j].FailureReport? ==> !OutcomeOf(br, j).Yield?)
    && (s.tasks[j].Refused? ==> s.poolStopped)
  }

  /** The log restricted to a case is what its two threads have reported so far. */
  ghost predicate LogInv(br: Branch, s: State, j: nat)
    requires Shaped(br, s) && j < |br.cases|
  {
    Project(s.log, j) ==
    SchedulerEvents(br, j, PositionOf(s.phase, j), s.cut) + TaskEvents(br, j, s.tasks[j])
  }

  ghost predicate SlotInv(br: Branch, s: State, j: nat)
    requires Shaped(br, s) && j < |br.cases|
  {
    s.slots[j] ==
    if !VerdictOf(br, j).Says? && (PositionOf(s.phase, j).FailReport? || PositionOf(s.phase, j).CaseEnd?)
    then MarkFailed(FailureMessage(br, j))
    else if HasRun(s.tasks[j]) then StageSlot(br, j) else EMPTY_SLOT
  }

  ghost predicate CaseInv(br: Branch, s: State, j: nat)
    requires Shaped(br, s) && j < |br.cases|
  {
    TaskInv(br, s, j) && LogInv(br, s, j) && SlotInv(br, s, j)
  }

  ghost predicate CutInv(br: Branch, s: State) {
    && s.cut <= |br.cases|
    && (s.cut < |br.cases| ==>
          && s.cancelled
          && !s.phase.Opening?
          && (s.phase.Scheduling? ==>
                s.cut < s.phase.k || (s.cut == s.phase.k && (s.phase.pc.SkipReport? || s.phase.pc.CaseEnd?))))
  }

  /** The events of the node itself bracket the log. */
  ghost predicate NodeInv(br: Branch, s: State) {
    && (s.phase.Opening? <==> s.log == [])
    && (!s.phase.Opening? ==> s.log != [] && s.log[0] == Entry(NODE, FanInStarted(br.id, |br.cases|)))
    && (s.phase.Returned? ==> s.log[|s.log| - 1] == Entry(NODE, CompletedEvent(br, s.tally)))
    && Project(s.log, NODE) ==
       (if s.phase.Opening? then [] else [FanInStarted(br.id, |br.cases|)])
       + (if s.phase.Returned? then [CompletedEvent(br, s.tally)] else [])
  }

  // ---------------------------------------------------------------- counting

  predicate Counted(t: TaskPc) {
    Active(t) && !t.Notifying?
  }

  /** Tasks that are in the barrier's count. */
  function CountedTasks(tasks: seq<TaskPc>): nat {
    if tasks == [] then 0
    else CountedTasks(tasks[..|tasks| - 1]) + if Counted(tasks[|tasks| - 1]) then 1 else 0
  }

  lemma {:induction false} CountedUpdate(tasks: seq<TaskPc>, j: nat, t: TaskPc)
    requires j < |tasks|
    ensures CountedTasks(tasks[j := t]) ==
            CountedTasks(tasks) - (if Counted(tasks[j]) then 1 else 0) + (if Counted(t) then 1 else 0)
  {
    var n := |tasks| - 1;
    if j == n {
      assert tasks[j := t][..n] == tasks[..n];
    } else {
      assert tasks[j := t][..n] == tasks[..n][j := t];
      CountedUpdate(tasks[..n], j, t);
    }
  }

  lemma {:induction false} CountedPositive(tasks: seq<TaskPc>, j: nat)
    requires j < |tasks| && Counted(tasks[j])
    ensures CountedTasks(tasks) > 0
  {
    if j < |tasks| - 1 {
      CountedPositive(tasks[..|tasks| - 1], j);
    }
  }

  lemma {:induction false} CountedNone(tasks: seq<TaskPc>)
    requires forall j :: 0 <= j < |tasks| ==> !Counted(tasks[j])
    ensures CountedTasks(tasks) == 0
  {
    if tasks != [] {
      CountedNone(tasks[..|tasks| - 1]);
    }
  }

  /** Selected cases among the first k. */
  ghost function SelectedCount(br: Branch, k: nat, cut: nat): nat
    requires k <= |br.cases|
  {
    if k == 0 then 0 else SelectedCount(br, k - 1, cut) + if Selected(br, k - 1, cut) then 1 else 0
  }

  /** Failed predicates among the first k. */
  ghost function RejectedCount(br: Branch, k: nat): nat
    requires k <= |br.cases|
  {
    if k == 0 then 0 else RejectedCount(br, k - 1) + if VerdictOf(br, k - 1).Says? then 0 else 1
  }

  /** Selected cases among the first k whose stage yields a value. */
  ghost function YieldCount(br: Branch, k: nat, cut: nat): nat
    requires k <= |br.cases|
  {
    if k == 0 then 0
    else YieldCount(br, k - 1, cut)
         + if Selected(br, k - 1, cut) && OutcomeOf(br, k - 1).Yield? then 1 else 0
  }

  /** Lowering the cut to k changes nothing before k. */
  lemma {:induction false} SelectedCountCut(br: Branch, k: nat, cut1: nat, cut2: nat)
    requires k <= |br.cases| && k <= cut1 && k <= cut2
    ensures SelectedCount(br, k, cut1) == SelectedCount(br, k, cut2)
  {
    if k > 0 {
      SelectedCountCut(br, k - 1, cut1, cut2);
    }
  }

  ghost predicate PastSelect(pc: Pc, selected: bool) {
    pc.SelectReport? || pc.ScheduleReport? || pc.GroupAdd? || pc.PoolPost? || (pc.CaseEnd? && selected)
  }

  ghost function Frontier(br: Branch, phase: Phase): nat
    requires phase.Scheduling? ==> phase.k < |br.cases|
    ensures Frontier(br, phase) <= |br.cases|
  {
    match phase
    case Opening => 0
    case Scheduling(k, _) => k
    case _ => |br.cases|
  }

  ghost predicate TallyInv(br: Branch, s: State)
    requires Shaped(br, s)
  {
    var k := Frontier(br, s.phase);
    s.tally ==
    if s.phase.Returned? then
      Tally(SelectedCount(br, k, s.cut), CompletedSlots(s.slots),
            RejectedCount(br, k) + SelectedCount(br, k, s.cut) - CompletedSlots(s.slots))
    else
      Tally(SelectedCount(br, k, s.cut)
            + (if s.phase.Scheduling? && PastSelect(s.phase.pc, Selected(br, k, s.cut)) then 1 else 0),
            0,
            RejectedCount(br, k)
            + (if s.phase.Scheduling? && !VerdictOf(br, k).Says? && (s.phase.pc.FailReport? || s.phase.pc.CaseEnd?)
               then 1 else 0))
  }

  /** The countdown barrier: its count is exact and a sleeper is never forgotten. */
  ghost predicate BarrierInv(br: Branch, s: State)
    requires Shaped(br, s)
  {
    && s.pending == CountedTasks(s.tasks) + (if s.phase.Scheduling? && s.phase.pc.PoolPost? then 1 else 0)
    && s.added == s.finished + s.pending
    && (s.phase.Blocked? && s.pending == 0 ==> exists j :: 0 <= j < |s.tasks| && s.tasks[j].Notifying?)
    && (s.phase.Tallying? || s.phase.Returned? ==> s.pending == 0)
  }

  ghost predicate ErrorInv(br: Branch, s: State)
    requires Shaped(br, s)
  {
    && s.firstError == (if exists j :: 0 <= j < |s.tasks| && s.tasks[j].Refused? then Some(REFUSED_ERROR) else None)
    && (s.phase.Returned? ==>
          s.phase.result == if s.firstError.Some? then Fail(s.firstError.value) else Ok(Aggregate(s.slots)))
  }

  ghost predicate Inv(br: Branch, s: State) {
    && Shaped(br, s)
    && CutInv(br, s)
    && (forall j :: 0 <= j < |br.cases| ==> CaseInv(br, s, j))
    && NodeInv(br, s)
    && TallyInv(br, s)
    && BarrierInv(br, s)
    && ErrorInv(br, s)
  }
}
