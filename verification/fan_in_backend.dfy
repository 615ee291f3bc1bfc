/**
  The thread-pool backend's fan-in as it is programmed: one pass posts the selected cases,
  a worker drains the queue, a barrier joins, the tally is completed. This is one schedule of
  the step system, run on the real parts: pool, barrier, token, aggregate, counters, observer.
 */
module FanInBackend {
  import opened Core
  import opened FanIn
  import opened FanInRuntime
  import opened FanInRefinement
  import opened ThreadPoolObject

  import P = ParallelFanIn
  import T = ThreadPool

  // ---------------------------------------------------------------- what the two passes leave

  /** With a stop requested before the run every case is past the cut. */
  function CutOf(br: Branch, requested: bool): nat {
    if requested then 0 else |br.cases|
  }

  /** The selected cases among the first k, in order. */
  ghost function Posted(br: Branch, k: nat, cut: nat): seq<nat>
    requires k <= |br.cases|
  {
    if k == 0 then [] else Posted(br, k - 1, cut) + if P.Selected(br, k - 1, cut) then [k - 1] else []
  }

  lemma {:induction false} PostedIsSelected(br: Branch, k: nat, cut: nat)
    requires k <= |br.cases|
    ensures forall i, j :: 0 <= i < j < |Posted(br, k, cut)| ==> Posted(br, k, cut)[i] != Posted(br, k, cut)[j]
    ensures forall j: nat :: j in Posted(br, k, cut) <==> j < k && P.Selected(br, j, cut)
  {
    if k > 0 {
      PostedIsSelected(br, k - 1, cut);
      var earlier := Posted(br, k - 1, cut);
      assert forall i :: 0 <= i < |earlier| ==> earlier[i] in earlier;
    }
  }

  ghost function ScheduledSlot(br: Branch, j: nat): Slot
    requires j < |br.cases|
  {
    if VerdictOf(br, j).Says? then EMPTY_SLOT else MarkFailed(P.FailureMessage(br, j))
  }

  /** What the scheduling thread reports about a case once its predicate has ended. */
  ghost function Decision(br: Branch, j: nat, cut: nat): seq<Event>
    requires j < |br.cases|
  {
    if !VerdictOf(br, j).Says? then [CaseFailed(br.id, j, Pid(br, j), PredicateError(Pid(br, j), VerdictOf(br, j)))]
    else if P.Selected(br, j, cut) then
      [CaseSelected(br.id, j, Pid(br, j)), FanInCaseScheduled(br.id, j, Sid(br, j))]
    else [CaseSkipped(br.id, j, Pid(br, j))]
  }

  ghost function ScheduledEvents(br: Branch, j: nat, cut: nat): seq<Event>
    requires j < |br.cases|
  {
    PredicateEvents(br, j) + Decision(br, j, cut)
  }

  /** After the first k cases have been scheduled. */
  ghost predicate Scheduled(br: Branch, k: nat, cut: nat, p: Progress, queue: seq<nat>)
    requires k <= |br.cases|
  {
    && |p.slots| == |br.cases|
    && (forall j :: 0 <= j < |br.cases| ==> p.slots[j] == if j < k then ScheduledSlot(br, j) else EMPTY_SLOT)
    && (forall j :: 0 <= j < |br.cases| ==> Project(p.log, j) == if j < k then ScheduledEvents(br, j, cut) else [])
    && Opens(br, p.log)
    && p.tally == Tally(P.SelectedCount(br, k, cut), 0, P.RejectedCount(br, k))
    && queue == Posted(br, k, cut)
  }

  ghost predicate Opens(br: Branch, log: seq<Entry>) {
    && Project(log, NODE) == [FanInStarted(br.id, |br.cases|)]
    && forall e :: e in log ==> NODE <= e.owner < |br.cases|
  }

  /** While the queue is drained: a case still in it has only been scheduled, every other one is through. */
  ghost predicate Drained(br: Branch, cut: nat, slots: seq<Slot>, log: seq<Entry>, queue: seq<nat>) {
    && |slots| == |br.cases|
    && (forall i, j :: 0 <= i < j < |queue| ==> queue[i] != queue[j])
    && (forall j :: j in queue ==> j < |br.cases| && P.Selected(br, j, cut))
    && (forall j :: 0 <= j < |br.cases| ==> CaseThrough(br, cut, slots[j], Project(log, j), j, j in queue))
    && Opens(br, log)
  }

  ghost predicate CaseThrough(br: Branch, cut: nat, slot: Slot, events: seq<Event>, j: nat, waiting: bool)
    requires j < |br.cases|
  {
    if waiting then slot == EMPTY_SLOT && events == ScheduledEvents(br, j, cut)
    else slot == P.FinalSlot(br, j, cut) && events == P.CaseEvents(br, j, cut)
  }

  // ---------------------------------------------------------------- posting

  /** The barrier counts the case before it is posted; a refused post finishes it at once with an error. */
  method PostFanInCase(pool: Pool, group: TaskGroup, j: nat)
    requires group.Valid()
    modifies pool, group
    ensures group.Valid() && group.added == old(group.added) + 1
    ensures pool.Guarded() == T.Append(old(pool.Guarded()), [j])
    ensures group.outcomes == old(group.outcomes) + if old(pool.stop) then [Some(P.REFUSED_ERROR)] else []
  {
    group.Add();
    var accepted := pool.Enqueue(j);
    if !accepted {
      group.Finish(Some(P.REFUSED_ERROR));
    }
  }

  /** A case whose predicate answered: posted if it said yes and no stop was requested, skipped otherwise. */
  method DecideCase(br: Branch, j: nat, token: CancellationToken, pool: Pool, group: TaskGroup,
                    tally: Counters, sink: Recorder)
    requires j < |br.cases| && VerdictOf(br, j).Says?
    requires token.Valid() && group.Valid() && !pool.stop
    modifies tally, sink, pool, group
    ensures var selected := P.Selected(br, j, CutOf(br, token.Requested()));
            && tally.Value() == old(tally.Value()).(selected := old(tally.selected) + (if selected then 1 else 0))
            && sink.log == old(sink.log) + Own(j, Decision(br, j, CutOf(br, token.Requested())))
            && pool.Guarded() == (if selected then T.Append(old(pool.Guarded()), [j]) else old(pool.Guarded()))
            && group.added == old(group.added) + (if selected then 1 else 0)
    ensures group.Valid() && group.outcomes == old(group.outcomes)
  {
    var stopped := token.StopRequested();
    if VerdictOf(br, j).answer && !stopped {
      Announce(br, j, tally, sink);
      PostFanInCase(pool, group, j);
    } else {
      sink.Emit(j, CaseSkipped(br.id, j, Pid(br, j)));
    }
  }

  /** A case whose predicate failed: its slot, its count and its report. */
  method RejectCase(br: Branch, j: nat, aggregate: seq<CaseResult>, tally: Counters, sink: Recorder, ghost cut: nat)
    requires j < |br.cases| == |aggregate| && Distinct(aggregate) && !VerdictOf(br, j).Says?
    modifies aggregate[j], tally, sink
    ensures Slots(aggregate) == old(Slots(aggregate))[j := ScheduledSlot(br, j)]
    ensures tally.Value() == old(tally.Value()).(failed := old(tally.failed) + 1)
    ensures sink.log == old(sink.log) + Own(j, Decision(br, j, cut))
  {
    var error := PredicateError(Pid(br, j), VerdictOf(br, j));
    FailSlot(aggregate, j, error.message);
    tally.failed := tally.failed + 1;
    sink.Emit(j, CaseFailed(br.id, j, Pid(br, j), error));
  }

  /** What a case's verdict adds to a progress. */
  ghost function Settled(br: Branch, j: nat, cut: nat, p: Progress): Progress
    requires j < |br.cases| == |p.slots|
  {
    var selected, failed := P.Selected(br, j, cut), !VerdictOf(br, j).Says?;
    Progress(if failed then p.slots[j := ScheduledSlot(br, j)] else p.slots,
             Tally(p.tally.selected + (if selected then 1 else 0), p.tally.completed,
                   p.tally.failed + (if failed then 1 else 0)),
             p.log + Own(j, Decision(br, j, cut)))
  }

  /** What scheduling case j adds to a progress: its predicate's events, then its verdict. */
  ghost function ScheduleOne(br: Branch, j: nat, cut: nat, p: Progress): Progress
    requires j < |br.cases| == |p.slots|
  {
    Settled(br, j, cut, p.(log := p.log + Own(j, PredicateEvents(br, j))))
  }

  /** A case whose predicate has ended: its post, its skip or its failure. */
  method SettleCase(br: Branch, j: nat, verdict: Verdict, token: CancellationToken, pool: Pool, group: TaskGroup,
                    aggregate: seq<CaseResult>, tally: Counters, sink: Recorder)
    requires j < |br.cases| == |aggregate| && Distinct(aggregate) && verdict == VerdictOf(br, j)
    requires token.Valid() && group.Valid() && !pool.stop
    modifies aggregate[j], tally, sink, pool, group
    ensures var cut := CutOf(br, token.Requested());
            && Gathered(aggregate, tally, sink) == Settled(br, j, cut, old(Gathered(aggregate, tally, sink)))
            && pool.Guarded() == (if P.Selected(br, j, cut) then T.Append(old(pool.Guarded()), [j])
                                  else old(pool.Guarded()))
            && group.added == old(group.added) + (if P.Selected(br, j, cut) then 1 else 0)
    ensures group.Valid() && group.outcomes == old(group.outcomes)
  {
    if verdict.Says? {
      DecideCase(br, j, token, pool, group, tally, sink);
    } else {
      RejectCase(br, j, aggregate, tally, sink, CutOf(br, token.Requested()));
    }
  }

  /** One case: its predicate on the scheduling thread, then what its verdict asks for. */
  method ScheduleCase(br: Branch, j: nat, token: CancellationToken, pool: Pool, group: TaskGroup,
                      aggregate: seq<CaseResult>, tally: Counters, sink: Recorder)
    requires j < |br.cases| == |aggregate| && Distinct(aggregate)
    requires token.Valid() && group.Valid() && !pool.stop
    modifies aggregate[j], tally, sink, pool, group
    ensures var cut := CutOf(br, token.Requested());
            && Gathered(aggregate, tally, sink) == ScheduleOne(br, j, cut, old(Gathered(aggregate, tally, sink)))
            && pool.Guarded() == (if P.Selected(br, j, cut) then T.Append(old(pool.Guarded()), [j])
                                  else old(pool.Guarded()))
            && group.added == old(group.added) + (if P.Selected(br, j, cut) then 1 else 0)
    ensures group.Valid() && group.outcomes == old(group.outcomes)
  {
    ghost var p := Gathered(aggregate, tally, sink);
    var verdict := EvaluatePredicate(br, j, sink);
    assert Gathered(aggregate, tally, sink) == p.(log := p.log + Own(j, PredicateEvents(br, j)));
    SettleCase(br, j, verdict, token, pool, group, aggregate, tally, sink);
  }

  lemma ScheduledStep(br: Branch, k: nat, cut: nat, p: Progress, queue: seq<nat>)
    requires k < |br.cases| && Scheduled(br, k, cut, p, queue)
    ensures Scheduled(br, k + 1, cut, ScheduleOne(br, k, cut, p),
                      queue + if P.Selected(br, k, cut) then [k] else [])
  {
    ScheduledLog(br, k, cut, p.log);
    ScheduledTallyStep(br, k, cut, p);
    OneLog(br, k, cut, p);
    ScheduledSlotsStep(br, k, cut, p);
    assert Posted(br, k + 1, cut) == queue + if P.Selected(br, k, cut) then [k] else [];
  }

  lemma ScheduledSlotsStep(br: Branch, k: nat, cut: nat, p: Progress)
    requires k < |br.cases| == |p.slots|
    requires forall j :: 0 <= j < |br.cases| ==> p.slots[j] == if j < k then ScheduledSlot(br, j) else EMPTY_SLOT
    ensures var slots := ScheduleOne(br, k, cut, p).slots;
            && |slots| == |br.cases|
            && forall j :: 0 <= j < |br.cases| ==> slots[j] == if j < k + 1 then ScheduledSlot(br, j) else EMPTY_SLOT
  {
  }

  lemma OneLog(br: Branch, k: nat, cut: nat, p: Progress)
    requires k < |br.cases| == |p.slots|
    ensures ScheduleOne(br, k, cut, p).log == p.log + Own(k, ScheduledEvents(br, k, cut))
  {
    OwnConcat(k, PredicateEvents(br, k), Decision(br, k, cut));
  }

  lemma ScheduledTallyStep(br: Branch, k: nat, cut: nat, p: Progress)
    requires k < |br.cases| && |p.slots| == |br.cases|
    requires p.tally == Tally(P.SelectedCount(br, k, cut), 0, P.RejectedCount(br, k))
    ensures ScheduleOne(br, k, cut, p).tally == Tally(P.SelectedCount(br, k + 1, cut), 0, P.RejectedCount(br, k + 1))
  {
  }

  lemma ScheduledLog(br: Branch, k: nat, cut: nat, log: seq<Entry>)
    requires k < |br.cases| && Opens(br, log)
    requires forall j :: 0 <= j < |br.cases| ==> Project(log, j) == if j < k then ScheduledEvents(br, j, cut) else []
    ensures var more := log + Own(k, ScheduledEvents(br, k, cut));
            && Opens(br, more)
            && forall j :: 0 <= j < |br.cases| ==>
                 Project(more, j) == if j < k + 1 then ScheduledEvents(br, j, cut) else []
  {
    TableLog(br, k, log, ScheduledEvents(br, k, cut));
  }

  /** One step of the recursion: the first k + 1 cases have been scheduled. */
  method ScheduleNext(br: Branch, k: nat, token: CancellationToken, pool: Pool, group: TaskGroup,
                      aggregate: seq<CaseResult>, tally: Counters, sink: Recorder)
    requires k < |br.cases| == |aggregate| && Distinct(aggregate)
    requires token.Valid() && group.Valid() && !pool.stop
    requires Scheduled(br, k, CutOf(br, token.Requested()), Gathered(aggregate, tally, sink), pool.tasks)
    requires group.added == |pool.tasks| && group.outcomes == []
    modifies aggregate[k], tally, sink, pool, group
    ensures group.Valid() && group.added == |pool.tasks| && group.outcomes == []
    ensures !pool.stop && pool.activeTasks == old(pool.activeTasks)
    ensures Scheduled(br, k + 1, CutOf(br, token.Requested()), Gathered(aggregate, tally, sink), pool.tasks)
  {
    ghost var cut, p, queue := CutOf(br, token.Requested()), Gathered(aggregate, tally, sink), pool.tasks;
    ScheduledStep(br, k, cut, p, queue);
    ScheduleCase(br, k, token, pool, group, aggregate, tally, sink);
    assert pool.tasks == queue + if P.Selected(br, k, cut) then [k] else [];
  }

  /** The recursion over the cases on the scheduling thread. */
  method ScheduleCases(br: Branch, k: nat, token: CancellationToken, pool: Pool, group: TaskGroup,
                       aggregate: seq<CaseResult>, tally: Counters, sink: Recorder)
    requires k <= |br.cases| == |aggregate| && Distinct(aggregate)
    requires token.Valid() && group.Valid() && !pool.stop
    requires Scheduled(br, k, CutOf(br, token.Requested()), Gathered(aggregate, tally, sink), pool.tasks)
    requires group.added == |pool.tasks| && group.outcomes == []
    modifies aggregate, tally, sink, pool, group
    ensures group.Valid() && group.added == |pool.tasks| && group.outcomes == []
    ensures !pool.stop && pool.activeTasks == old(pool.activeTasks)
    ensures Scheduled(br, |br.cases|, CutOf(br, token.Requested()), Gathered(aggregate, tally, sink), pool.tasks)
    decreases |br.cases| - k
  {
    if k < |br.cases| {
      ScheduleNext(br, k, token, pool, group, aggregate, tally, sink);
      ScheduleCases(br, k + 1, token, pool, group, aggregate, tally, sink);
    }
  }

  // ---------------------------------------------------------------- draining

  ghost predicate NoError(outcomes: seq<Option<Error>>) {
    forall i :: 0 <= i < |outcomes| ==> outcomes[i].None?
  }

  /** The events of a posted task. */
  ghost function TaskLog(br: Branch, j: nat): seq<Event>
    requires j < |br.cases|
  {
    StageEvents(br, j) + [ReportEvent(br, j, OutcomeOf(br, j).Yield?)]
  }

  /** The stage of a posted case and the report of how it went. */
  method RunAndReport(br: Branch, j: nat, aggregate: seq<CaseResult>, sink: Recorder) returns (outcome: Option<Error>)
    requires j < |br.cases| == |aggregate| && Distinct(aggregate)
    modifies aggregate[j], sink
    ensures outcome == None
    ensures Slots(aggregate) == old(Slots(aggregate))[j := StageSlot(br, j)]
    ensures sink.log == old(sink.log) + Own(j, TaskLog(br, j))
  {
    outcome := FanInRuntime.RunCaseStage(br, j, aggregate, sink);
    var success := aggregate[j].state != Failed;
    sink.Emit(j, ReportEvent(br, j, success));
    OwnConcat(j, StageEvents(br, j), [ReportEvent(br, j, success)]);
  }

  /** The stage of a posted case, its report, and its finish at the barrier. */
  method RunAndFinish(br: Branch, j: nat, group: TaskGroup, aggregate: seq<CaseResult>, sink: Recorder)
    requires j < |br.cases| == |aggregate| && Distinct(aggregate)
    requires group.Valid() && |group.outcomes| < group.added
    modifies aggregate[j], group, sink
    ensures group.Valid() && group.added == old(group.added) && group.outcomes == old(group.outcomes) + [None]
    ensures Slots(aggregate) == old(Slots(aggregate))[j := StageSlot(br, j)]
    ensures sink.log == old(sink.log) + Own(j, TaskLog(br, j))
  {
    var outcome := RunAndReport(br, j, aggregate, sink);
    group.Finish(outcome);
  }

  /** A posted task runs under the guard that marks its thread. */
  method RunPostedTask(br: Branch, j: nat, pool: Pool, thread: WorkerThread, group: TaskGroup,
                       aggregate: seq<CaseResult>, sink: Recorder)
    requires j < |br.cases| == |aggregate| && Distinct(aggregate)
    requires group.Valid() && |group.outcomes| < group.added
    modifies aggregate[j], pool, thread, group, sink
    ensures group.Valid() && group.added == old(group.added) && group.outcomes == old(group.outcomes) + [None]
    ensures pool.Guarded() == T.AfterFinish(old(pool.Guarded())) && thread.current == old(thread.current)
    ensures Slots(aggregate) == old(Slots(aggregate))[j := StageSlot(br, j)]
    ensures sink.log == old(sink.log) + Own(j, TaskLog(br, j))
  {
    var guard := new ActiveTaskGuard(pool, thread);
    RunAndFinish(br, j, group, aggregate, sink);
    var notifyIdle := guard.Release();
  }

  lemma ScheduledIsDrained(br: Branch, cut: nat, p: Progress, queue: seq<nat>)
    requires Scheduled(br, |br.cases|, cut, p, queue)
    ensures Drained(br, cut, p.slots, p.log, queue)
  {
    PostedIsSelected(br, |br.cases|, cut);
    forall j | 0 <= j < |br.cases| ensures CaseThrough(br, cut, p.slots[j], Project(p.log, j), j, j in queue) {
      assert P.Selected(br, j, cut) <==> j in queue;
    }
  }

  lemma DrainedStep(br: Branch, cut: nat, slots: seq<Slot>, log: seq<Entry>, queue: seq<nat>)
    requires queue != [] && Drained(br, cut, slots, log, queue)
    ensures var j := queue[0];
            j < |br.cases| == |slots|
            && Drained(br, cut, slots[j := StageSlot(br, j)], log + Own(j, TaskLog(br, j)), queue[1..])
  {
    var j := queue[0];
    RestOfQueue(queue);
    TableLog(br, j, log, TaskLog(br, j));
    ThroughAfterTask(br, cut, j);
    forall i | 0 <= i < |br.cases|
      ensures CaseThrough(br, cut, slots[j := StageSlot(br, j)][i], Project(log + Own(j, TaskLog(br, j)), i), i,
                          i in queue[1..])
    {
      assert CaseThrough(br, cut, slots[i], Project(log, i), i, i in queue);
      assert i != j ==> Project(log, i) + [] == Project(log, i);
    }
  }

  /** What is behind the first of some different entries. */
  lemma RestOfQueue(queue: seq<nat>)
    requires queue != [] && forall i, j :: 0 <= i < j < |queue| ==> queue[i] != queue[j]
    ensures queue[0] in queue && forall x :: x in queue[1..] <==> x in queue && x != queue[0]
    ensures forall i, j :: 0 <= i < j < |queue[1..]| ==> queue[1..][i] != queue[1..][j]
  {
    assert queue == [queue[0]] + queue[1..];
  }

  /** What is scheduled of a selected case, followed by its task, is all of it. */
  lemma ThroughAfterTask(br: Branch, cut: nat, j: nat)
    requires j < |br.cases| && P.Selected(br, j, cut)
    ensures ScheduledEvents(br, j, cut) + TaskLog(br, j) == P.CaseEvents(br, j, cut)
    ensures StageSlot(br, j) == P.FinalSlot(br, j, cut)
  {
  }

  /** One turn of a worker: it takes the oldest posted case and runs it. */
  method DrainOne(br: Branch, pool: Pool, thread: WorkerThread, group: TaskGroup,
                  aggregate: seq<CaseResult>, sink: Recorder, ghost cut: nat)
    requires |aggregate| == |br.cases| && Distinct(aggregate) && group.Valid() && pool.tasks != []
    requires Drained(br, cut, Slots(aggregate), sink.log, pool.tasks)
    requires |group.outcomes| < group.added
    modifies aggregate, pool, thread, group, sink
    ensures Drained(br, cut, Slots(aggregate), sink.log, pool.tasks) && pool.tasks == old(pool.tasks)[1..]
    ensures pool.activeTasks == old(pool.activeTasks) && thread.current == old(thread.current)
    ensures group.Valid() && group.added == old(group.added) && group.outcomes == old(group.outcomes) + [None]
  {
    DrainedStep(br, cut, Slots(aggregate), sink.log, pool.tasks);
    var taken := pool.TakeTask();
    RunPostedTask(br, taken.task, pool, thread, group, aggregate, sink);
  }

  /** A worker takes the posted cases in order until the queue is empty. */
  method DrainQueue(br: Branch, pool: Pool, thread: WorkerThread, group: TaskGroup,
                    aggregate: seq<CaseResult>, sink: Recorder, ghost cut: nat)
    requires |aggregate| == |br.cases| && Distinct(aggregate) && group.Valid()
    requires Drained(br, cut, Slots(aggregate), sink.log, pool.tasks)
    requires group.added == |pool.tasks| && group.outcomes == []
    modifies aggregate, pool, thread, group, sink
    ensures Drained(br, cut, Slots(aggregate), sink.log, []) && pool.tasks == []
    ensures pool.activeTasks == old(pool.activeTasks) && thread.current == old(thread.current)
    ensures group.Valid() && group.added == |group.outcomes| && NoError(group.outcomes)
  {
    while pool.tasks != []
      invariant Drained(br, cut, Slots(aggregate), sink.log, pool.tasks) && group.Valid()
      invariant group.added == |pool.tasks| + |group.outcomes| && NoError(group.outcomes)
      invariant pool.activeTasks == old(pool.activeTasks) && thread.current == old(thread.current)
      decreases |pool.tasks|
    {
      DrainOne(br, pool, thread, group, aggregate, sink, cut);
    }
  }

  // ---------------------------------------------------------------- the whole run

  /** A drained run with its completed tally is the sequential run of the node with the cases past the cut declined. */
  lemma DrainedIsSequential(br: Branch, cut: nat, slots: seq<Slot>, log: seq<Entry>)
    requires cut <= |br.cases| && Drained(br, cut, slots, log, [])
    ensures var r, n := RunFanInBranch(Truncate(br, cut)), |br.cases|;
            && slots == r.slots
            && r.tally == Tally(P.SelectedCount(br, n, cut), P.CompletedSlots(slots),
                                P.RejectedCount(br, n) + P.SelectedCount(br, n, cut) - P.CompletedSlots(slots))
            && forall j :: 0 <= j < n ==> Project(log, j) == Project(r.log, j)
  {
    var r := RunFanInBranch(Truncate(br, cut));
    SequentialRun(Truncate(br, cut));
    forall j | 0 <= j < |br.cases|
      ensures slots[j] == r.slots[j] == P.FinalSlot(br, j, cut) && Project(log, j) == Project(r.log, j)
    {
      assert CaseThrough(br, cut, slots[j], Project(log, j), j, false);
      TruncateCase(br, cut, j);
    }
    CompletedSlotsCount(br, slots, cut);
    TruncateCounts(br, cut, |br.cases|);
  }

  /** A tally with the completed slots counted and the selected cases that did not complete counted failed. */
  ghost function CompletedTally(t: Tally, slots: seq<Slot>): Tally {
    var completed := t.completed + P.CompletedSlots(slots);
    Tally(t.selected, completed, t.failed + (t.selected - completed))
  }

  /** After the barrier: the completions are counted and the failures of selected cases derived from them. */
  method CompleteTally(aggregate: seq<CaseResult>, tally: Counters, ghost slots: seq<Slot>)
    requires slots == Slots(aggregate)
    modifies tally
    ensures tally.Value() == CompletedTally(old(tally.Value()), slots)
    ensures Slots(aggregate) == slots
  {
    TallyCompletions(aggregate, tally);
    tally.failed := tally.failed + (tally.selected - tally.completed);
  }

  /** A fan-in on an idle running pool served by one worker: everything the sequential recursion leaves. */
  ghost predicate LeavesSequential(br: Branch, cut: nat, p: Progress) {
    var r := RunFanInBranch(Truncate(br, cut));
    p.slots == r.slots && p.tally == r.tally && forall owner: int :: Project(p.log, owner) == Project(r.log, owner)
  }

  /** The closed log agrees with the sequential one for every owner. */
  lemma ClosedOwner(br: Branch, log: seq<Entry>, closing: Event, r: seq<Entry>, owner: int)
    requires Opens(br, log) && forall j :: 0 <= j < |br.cases| ==> Project(log, j) == Project(r, j)
    requires Project(r, NODE) == [FanInStarted(br.id, |br.cases|), closing]
    requires forall e :: e in r ==> NODE <= e.owner < |br.cases|
    ensures Project(log + Own(NODE, [closing]), owner) == Project(r, owner)
  {
    ProjectConcat(log, Own(NODE, [closing]), owner);
    ProjectOwn(NODE, [closing], owner);
    if owner != NODE {
      assert Project(log, owner) + [] == Project(log, owner);
      if !(0 <= owner < |br.cases|) {
        ProjectForeign(log, owner);
        ProjectForeign(r, owner);
      }
    }
  }

  lemma ClosedIsSequential(br: Branch, cut: nat, slots: seq<Slot>, log: seq<Entry>, tally: Tally)
    requires cut <= |br.cases| && Drained(br, cut, slots, log, [])
    requires tally == RunFanInBranch(Truncate(br, cut)).tally
    ensures LeavesSequential(br, cut, Progress(slots, tally, log + Own(NODE, [CompletedEvent(br, tally)])))
  {
    var r := RunFanInBranch(Truncate(br, cut)).log;
    DrainedIsSequential(br, cut, slots, log);
    SequentialRun(Truncate(br, cut));
    forall owner: int
      ensures Project(log + Own(NODE, [CompletedEvent(br, tally)]), owner) == Project(r, owner)
    {
      ClosedOwner(br, log, CompletedEvent(br, tally), r, owner);
    }
  }

  /** The opening of a run: nothing scheduled yet. */
  lemma NothingScheduled(br: Branch, cut: nat)
    ensures Scheduled(br, 0, cut, Opened(br), [])
  {
    OpenedAtZero(br);
  }

  /** A fresh aggregate, fresh counters and a fresh barrier; the start is reported. */
  method OpenRun(br: Branch, sink: Recorder, ghost cut: nat)
    returns (aggregate: seq<CaseResult>, tally: Counters, group: TaskGroup)
    requires sink.log == []
    modifies sink
    ensures fresh(aggregate) && fresh(tally) && fresh(group) && |aggregate| == |br.cases| && Distinct(aggregate)
    ensures Scheduled(br, 0, cut, Gathered(aggregate, tally, sink), [])
    ensures group.Valid() && group.added == 0 && group.outcomes == []
  {
    aggregate := NewAggregate(|br.cases|);
    tally := new Counters();
    group := new TaskGroup();
    sink.Emit(NODE, FanInStarted(br.id, |br.cases|));
    assert Gathered(aggregate, tally, sink) == Opened(br);
    NothingScheduled(br, cut);
  }

  /** The tally the scheduling thread has when it reaches the barrier. */
  ghost function ScheduledTally(br: Branch, cut: nat): Tally {
    Tally(P.SelectedCount(br, |br.cases|, cut), 0, P.RejectedCount(br, |br.cases|))
  }

  /** The scheduling thread's part. */
  method PostAll(br: Branch, pool: Pool, token: CancellationToken, group: TaskGroup,
                 aggregate: seq<CaseResult>, tally: Counters, sink: Recorder)
    requires |aggregate| == |br.cases| && Distinct(aggregate)
    requires token.Valid() && group.Valid() && pool.tasks == [] && !pool.stop
    requires group.added == 0 && group.outcomes == []
    requires Scheduled(br, 0, CutOf(br, token.Requested()), Gathered(aggregate, tally, sink), [])
    modifies aggregate, tally, pool, group, sink
    ensures Drained(br, CutOf(br, token.Requested()), Slots(aggregate), sink.log, pool.tasks)
    ensures tally.Value() == ScheduledTally(br, CutOf(br, token.Requested()))
    ensures group.Valid() && group.added == |pool.tasks| && group.outcomes == []
    ensures !pool.stop && pool.activeTasks == old(pool.activeTasks)
  {
    ScheduleCases(br, 0, token, pool, group, aggregate, tally, sink);
    ScheduledIsDrained(br, CutOf(br, token.Requested()), Gathered(aggregate, tally, sink), pool.tasks);
  }

  /** The tally is completed and the completion reported with it. */
  method ReportCompletion(br: Branch, aggregate: seq<CaseResult>, tally: Counters, sink: Recorder,
                          ghost slots: seq<Slot>)
    requires slots == Slots(aggregate)
    modifies tally, sink
    ensures tally.Value() == CompletedTally(old(tally.Value()), slots)
    ensures sink.log == old(sink.log) + Own(NODE, [CompletedEvent(br, tally.Value())])
    ensures Slots(aggregate) == slots
  {
    CompleteTally(aggregate, tally, slots);
    sink.Emit(NODE, CompletedEvent(br, tally.Value()));
  }

  /** From the barrier on the scheduling thread only completes the tally and reports it. */
  method CloseRun(br: Branch, aggregate: seq<CaseResult>, tally: Counters, sink: Recorder, ghost cut: nat)
    requires cut <= |br.cases| && Drained(br, cut, Slots(aggregate), sink.log, [])
    requires tally.Value() == ScheduledTally(br, cut)
    modifies tally, sink
    ensures LeavesSequential(br, cut, Gathered(aggregate, tally, sink))
  {
    ghost var slots, log := Slots(aggregate), sink.log;
    DrainedTally(br, cut, slots, log);
    ReportCompletion(br, aggregate, tally, sink, slots);
    ClosedIsSequential(br, cut, slots, log, tally.Value());
    assert Gathered(aggregate, tally, sink)
        == Progress(slots, tally.Value(), log + Own(NODE, [CompletedEvent(br, tally.Value())]));
  }

  /** The completed tally is the sequential one. */
  lemma DrainedTally(br: Branch, cut: nat, slots: seq<Slot>, log: seq<Entry>)
    requires cut <= |br.cases| && Drained(br, cut, slots, log, [])
    ensures CompletedTally(ScheduledTally(br, cut), slots) == RunFanInBranch(Truncate(br, cut)).tally
  {
    DrainedIsSequential(br, cut, slots, log);
  }

  /** Everything is posted, then everything posted is run. */
  method PostAndDrain(br: Branch, pool: Pool, thread: WorkerThread, token: CancellationToken, group: TaskGroup,
                      aggregate: seq<CaseResult>, tally: Counters, sink: Recorder)
    requires |aggregate| == |br.cases| && Distinct(aggregate)
    requires token.Valid() && group.Valid() && T.Idle(pool.Guarded()) && !pool.stop
    requires group.added == 0 && group.outcomes == []
    requires Scheduled(br, 0, CutOf(br, token.Requested()), Gathered(aggregate, tally, sink), [])
    modifies aggregate, tally, pool, thread, group, sink
    ensures Drained(br, CutOf(br, token.Requested()), Slots(aggregate), sink.log, [])
    ensures tally.Value() == ScheduledTally(br, CutOf(br, token.Requested()))
    ensures group.Valid() && group.added == |group.outcomes| && NoError(group.outcomes)
    ensures T.Idle(pool.Guarded()) && thread.current == old(thread.current)
  {
    PostAll(br, pool, token, group, aggregate, tally, sink);
    DrainQueue(br, pool, thread, group, aggregate, sink, CutOf(br, token.Requested()));
  }

  /** What the waiter gets from a barrier whose tasks all finished without an error. */
  method AwaitAll(group: TaskGroup) returns (error: Option<Error>)
    requires group.Valid() && group.added == |group.outcomes| && NoError(group.outcomes)
    ensures error == None
  {
    var isOpen;
    isOpen, error := group.TryWait();
    NoFailure(group.outcomes);
  }

  /** From the barrier on: wait, complete and report the tally, make the result. */
  method FinishRun(br: Branch, group: TaskGroup, aggregate: seq<CaseResult>, tally: Counters, sink: Recorder,
                   ghost cut: nat) returns (result: Result)
    requires cut <= |br.cases| && Drained(br, cut, Slots(aggregate), sink.log, [])
    requires tally.Value() == ScheduledTally(br, cut)
    requires group.Valid() && group.added == |group.outcomes| && NoError(group.outcomes)
    modifies tally, sink
    ensures LeavesSequential(br, cut, Gathered(aggregate, tally, sink))
    ensures result == Ok(Aggregate(Slots(aggregate)))
  {
    var error := AwaitAll(group);
    CloseRun(br, aggregate, tally, sink, cut);
    result := BranchResult(error, Slots(aggregate));
  }

  /** Up to the barrier. */
  method RunToBarrier(br: Branch, pool: Pool, thread: WorkerThread, token: CancellationToken, sink: Recorder)
    returns (aggregate: seq<CaseResult>, tally: Counters, group: TaskGroup)
    requires token.Valid() && !pool.stop && T.Idle(pool.Guarded()) && sink.log == []
    modifies pool, thread, sink
    ensures fresh(aggregate) && fresh(tally) && fresh(group)
    ensures Drained(br, CutOf(br, token.Requested()), Slots(aggregate), sink.log, [])
    ensures tally.Value() == ScheduledTally(br, CutOf(br, token.Requested()))
    ensures group.Valid() && group.added == |group.outcomes| && NoError(group.outcomes)
    ensures T.Idle(pool.Guarded()) && thread.current == old(thread.current)
  {
    aggregate, tally, group := OpenRun(br, sink, CutOf(br, token.Requested()));
    PostAndDrain(br, pool, thread, token, group, aggregate, tally, sink);
  }

  /**
    The backend's run with one worker. The aggregate, the tally and every case's events are
    those of the sequential recursion, or, with a stop requested before, of the recursion
    that declines every case; the pool is idle again and the result is the aggregate.
   */
  method RunParallelFanInBranch(br: Branch, pool: Pool, thread: WorkerThread, token: CancellationToken, sink: Recorder)
    returns (result: Result, aggregate: seq<CaseResult>, tally: Counters)
    requires token.Valid() && !pool.stop && T.Idle(pool.Guarded()) && sink.log == []
    modifies pool, thread, sink
    ensures fresh(aggregate) && fresh(tally)
    ensures LeavesSequential(br, CutOf(br, token.Requested()), Gathered(aggregate, tally, sink))
    ensures result == Ok(Aggregate(Slots(aggregate)))
    ensures T.Idle(pool.Guarded()) && thread.current == old(thread.current)
  {
    var group;
    aggregate, tally, group := RunToBarrier(br, pool, thread, token, sink);
    result := FinishRun(br, group, aggregate, tally, sink, CutOf(br, token.Requested()));
  }
}
