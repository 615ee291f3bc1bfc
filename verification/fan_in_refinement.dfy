/**
  What every interleaving of the parallel fan-in computes: the aggregate, the tally
  and, case by case, the events of the sequential recursion.
 */
module FanInRefinement {
  import opened Core
  import opened FanIn
  import opened ParallelFanIn
  import opened ParallelFanInInvariant

  // ---------------------------------------------------------------- the sequential recursion, tabulated

  ghost predicate SequentialAt(br: Branch, k: nat, p: Progress)
    requires k <= |br.cases|
  {
    var n := |br.cases|;
    && |p.slots| == n
    && (forall j :: 0 <= j < n ==> p.slots[j] == if j < k then FinalSlot(br, j, n) else EMPTY_SLOT)
    && p.tally == Tally(SelectedCount(br, k, n), YieldCount(br, k, n),
                        RejectedCount(br, k) + SelectedCount(br, k, n) - YieldCount(br, k, n))
    && (forall j :: 0 <= j < n ==> Project(p.log, j) == if j < k then CaseEvents(br, j, n) else [])
    && Project(p.log, NODE) == [FanInStarted(br.id, n)]
    && (forall e :: e in p.log ==> NODE <= e.owner < n)
  }

  /** One sequential case files its slot, its share of the tally and its events. */
  lemma RunFanInCaseTable(br: Branch, j: nat, p: Progress)
    requires j < |br.cases| == |p.slots| && p.slots[j] == EMPTY_SLOT
    ensures var r := RunFanInCase(br, j, p);
            var n := |br.cases|;
            var yielded := Selected(br, j, n) && OutcomeOf(br, j).Yield?;
            && r.slots == p.slots[j := FinalSlot(br, j, n)]
            && r.log == p.log + Own(j, CaseEvents(br, j, n))
            && r.tally == Tally(p.tally.selected + (if Selected(br, j, n) then 1 else 0),
                                p.tally.completed + (if yielded then 1 else 0),
                                p.tally.failed + (if !VerdictOf(br, j).Says? || (Selected(br, j, n) && !yielded)
                                                  then 1 else 0))
  {
    var r, n := RunFanInCase(br, j, p), |br.cases|;
    if !VerdictOf(br, j).Says? {
      var failure := [CaseFailed(br.id, j, Pid(br, j), PredicateError(Pid(br, j), VerdictOf(br, j)))];
      assert Own(j, PredicateEvents(br, j) + failure) == Own(j, PredicateEvents(br, j)) + Own(j, failure);
    } else if VerdictOf(br, j).answer {
      RunSelectedCaseTable(br, j, Emit(p, j, PredicateEvents(br, j)));
      var rest := SelectedEvents(br, j);
      assert Own(j, PredicateEvents(br, j) + rest) == Own(j, PredicateEvents(br, j)) + Own(j, rest);
      assert CaseEvents(br, j, n) == PredicateEvents(br, j) + rest;
    } else {
      var skip := [CaseSkipped(br.id, j, Pid(br, j))];
      assert Own(j, PredicateEvents(br, j) + skip) == Own(j, PredicateEvents(br, j)) + Own(j, skip);
      assert r.slots == p.slots[j := EMPTY_SLOT];
    }
  }

  ghost function SelectedEvents(br: Branch, j: nat): seq<Event>
    requires j < |br.cases|
  {
    [CaseSelected(br.id, j, Pid(br, j)), FanInCaseScheduled(br.id, j, Sid(br, j))]
    + StageEvents(br, j) + [ReportEvent(br, j, OutcomeOf(br, j).Yield?)]
  }

  lemma RunSelectedCaseTable(br: Branch, j: nat, p: Progress)
    requires j < |br.cases| == |p.slots|
    ensures var r := RunSelectedCase(br, j, p);
            var yielded := OutcomeOf(br, j).Yield?;
            && r.slots == p.slots[j := StageSlot(br, j)]
            && r.log == p.log + Own(j, SelectedEvents(br, j))
            && r.tally == Tally(p.tally.selected + 1, p.tally.completed + (if yielded then 1 else 0),
                                p.tally.failed + (if yielded then 0 else 1))
  {
    var head := [CaseSelected(br.id, j, Pid(br, j)), FanInCaseScheduled(br.id, j, Sid(br, j))];
    var report := [ReportEvent(br, j, OutcomeOf(br, j).Yield?)];
    assert Own(j, head + StageEvents(br, j) + report)
        == Own(j, head) + Own(j, StageEvents(br, j)) + Own(j, report);
  }

  lemma SequentialStep(br: Branch, k: nat, p: Progress)
    requires k < |br.cases| && SequentialAt(br, k, p)
    ensures SequentialAt(br, k + 1, RunFanInCase(br, k, p))
  {
    RunFanInCaseTable(br, k, p);
    TableStep(br, k, p, RunFanInCase(br, k, p), CaseEvents(br, k, |br.cases|));
  }

  lemma TableStep(br: Branch, k: nat, p: Progress, r: Progress, events: seq<Event>)
    requires k < |br.cases| && SequentialAt(br, k, p)
    requires events == CaseEvents(br, k, |br.cases|)
    requires r.slots == p.slots[k := FinalSlot(br, k, |br.cases|)] && r.log == p.log + Own(k, events)
    requires var n := |br.cases|;
             var yielded := Selected(br, k, n) && OutcomeOf(br, k).Yield?;
             r.tally == Tally(p.tally.selected + (if Selected(br, k, n) then 1 else 0),
                              p.tally.completed + (if yielded then 1 else 0),
                              p.tally.failed + (if !VerdictOf(br, k).Says? || (Selected(br, k, n) && !yielded)
                                                then 1 else 0))
    ensures SequentialAt(br, k + 1, r)
  {
    TableLog(br, k, p.log, events);
  }

  /** The events of one more case, owner by owner. */
  lemma TableLog(br: Branch, k: nat, log: seq<Entry>, events: seq<Event>)
    requires k < |br.cases| && forall e :: e in log ==> NODE <= e.owner < |br.cases|
    ensures forall j: int :: Project(log + Own(k, events), j) == Project(log, j) + if j == k then events else []
    ensures forall e :: e in log + Own(k, events) ==> NODE <= e.owner < |br.cases|
  {
    forall j: int ensures Project(log + Own(k, events), j) == Project(log, j) + if j == k then events else [] {
      ProjectConcat(log, Own(k, events), j);
      ProjectOwn(k, events, j);
    }
  }

  lemma {:induction false} SequentialCases(br: Branch, k: nat, p: Progress)
    requires k <= |br.cases| && SequentialAt(br, k, p)
    ensures SequentialAt(br, |br.cases|, RunFanInCases(br, k, p))
    decreases |br.cases| - k
  {
    if k < |br.cases| {
      SequentialStep(br, k, p);
      SequentialCases(br, k + 1, RunFanInCase(br, k, p));
    }
  }

  lemma OpenedLog(br: Branch, owner: int)
    ensures Opened(br).log == Own(NODE, [FanInStarted(br.id, |br.cases|)])
    ensures Project(Opened(br).log, owner) == if owner == NODE then [FanInStarted(br.id, |br.cases|)] else []
  {
    ProjectOwn(NODE, [FanInStarted(br.id, |br.cases|)], owner);
    assert Opened(br).log == Own(NODE, [FanInStarted(br.id, |br.cases|)]);
  }

  lemma OpenedAtZero(br: Branch)
    ensures SequentialAt(br, 0, Opened(br))
  {
    OpenedEvents(br);
    assert Opened(br).tally == Tally(0, 0, 0);
    assert forall j :: 0 <= j < |br.cases| ==> Opened(br).slots[j] == EMPTY_SLOT;
  }

  lemma OpenedEvents(br: Branch)
    ensures Project(Opened(br).log, NODE) == [FanInStarted(br.id, |br.cases|)]
    ensures forall j: nat :: j < |br.cases| ==> Project(Opened(br).log, j) == []
    ensures forall e :: e in Opened(br).log ==> e.owner == NODE
  {
    OpenedLog(br, NODE);
    forall j: nat | j < |br.cases| ensures Project(Opened(br).log, j) == [] {
      OpenedLog(br, j);
    }
  }

  /** The slots, the tally and the events of a finished sequential run. */
  ghost predicate SequentialTable(br: Branch, r: Progress) {
    var n := |br.cases|;
    && |r.slots| == n
    && (forall j :: 0 <= j < n ==> r.slots[j] == FinalSlot(br, j, n))
    && r.tally == Tally(SelectedCount(br, n, n), YieldCount(br, n, n),
                        RejectedCount(br, n) + SelectedCount(br, n, n) - YieldCount(br, n, n))
    && (forall j :: 0 <= j < n ==> Project(r.log, j) == CaseEvents(br, j, n))
    && Project(r.log, NODE) == [FanInStarted(br.id, n), CompletedEvent(br, r.tally)]
    && (forall e :: e in r.log ==> NODE <= e.owner < n)
  }

  lemma ClosedTable(br: Branch, q: Progress)
    requires SequentialAt(br, |br.cases|, q)
    ensures SequentialTable(br, Emit(q, NODE, [CompletedEvent(br, q.tally)]))
  {
    var closing := [CompletedEvent(br, q.tally)];
    forall j | NODE <= j < |br.cases|
      ensures Project(q.log + Own(NODE, closing), j) == Project(q.log, j) + if j == NODE then closing else []
    {
      ProjectConcat(q.log, Own(NODE, closing), j);
      ProjectOwn(NODE, closing, j);
    }
  }

  /** The sequential run as a table: slots, tally and events of every case. */
  lemma SequentialRun(br: Branch)
    ensures SequentialTable(br, RunFanInBranch(br))
  {
    OpenedAtZero(br);
    SequentialCases(br, 0, Opened(br));
    ClosedTable(br, RunFanInCases(br, 0, Opened(br)));
  }

  /** A case whose predicate passes is not taken. */
  function Declined(c: Case): Case {
    var judge := c.test.judge;
    c.(test := c.test.(judge := v => if judge(v) == Says(true) then Says(false) else judge(v)))
  }

  /** The node with every case from `cut` on declined. */
  function Truncate(br: Branch, cut: nat): Branch {
    br.(cases := seq(|br.cases|, j requires 0 <= j < |br.cases| =>
                       if j < cut then br.cases[j] else Declined(br.cases[j])))
  }

  lemma TruncateCase(br: Branch, cut: nat, j: nat)
    requires j < |br.cases|
    ensures var tr := Truncate(br, cut);
            && Pid(tr, j) == Pid(br, j) && Sid(tr, j) == Sid(br, j) && OutcomeOf(tr, j) == OutcomeOf(br, j)
            && VerdictOf(tr, j)
               == (if j >= cut && VerdictOf(br, j) == Says(true) then Says(false) else VerdictOf(br, j))
            && (Selected(tr, j, |br.cases|) <==> Selected(br, j, cut))
            && FinalSlot(tr, j, |br.cases|) == FinalSlot(br, j, cut)
            && CaseEvents(tr, j, |br.cases|) == CaseEvents(br, j, cut)
  {
  }

  lemma {:induction false} TruncateCounts(br: Branch, cut: nat, k: nat)
    requires k <= |br.cases|
    ensures var tr := Truncate(br, cut);
            && SelectedCount(tr, k, |br.cases|) == SelectedCount(br, k, cut)
            && YieldCount(tr, k, |br.cases|) == YieldCount(br, k, cut)
            && RejectedCount(tr, k) == RejectedCount(br, k)
  {
    if k > 0 {
      TruncateCounts(br, cut, k - 1);
      TruncateCase(br, cut, k - 1);
    }
  }

  // ---------------------------------------------------------------- what a run returns

  /** A flag is up exactly when its own request is among the steps: nothing else raises it and nothing lowers it. */
  lemma {:induction false} RunsFlags(br: Branch, steps: seq<Step>, t: State)
    requires Runs(br, Init(br), steps, t)
    ensures t.cancelled <==> RequestStop in steps
    ensures t.poolStopped <==> StopPool in steps
  {
    if steps != [] {
      var init, last := steps[..|steps| - 1], steps[|steps| - 1];
      var m: State :| Runs(br, Init(br), init, m) && Shaped(br, m) && Enabled(br, m, last) && t == Next(br, m, last);
      RunsFlags(br, init, m);
      assert steps == init + [last];
      NextFlags(br, m, last);
    }
  }

  lemma NextFlags(br: Branch, s: State, step: Step)
    requires Shaped(br, s) && Enabled(br, s, step)
    ensures Next(br, s, step).cancelled <==> s.cancelled || step.RequestStop?
    ensures Next(br, s, step).poolStopped <==> s.poolStopped || step.StopPool?
  {
  }

  /** Entries belong to the node or to one of its cases. */
  lemma {:induction false} RunsOwners(br: Branch, steps: seq<Step>, t: State)
    requires Runs(br, Init(br), steps, t)
    ensures forall e :: e in t.log ==> NODE <= e.owner < |br.cases|
  {
    if steps != [] {
      var init, last := steps[..|steps| - 1], steps[|steps| - 1];
      var m: State :| Runs(br, Init(br), init, m) && Shaped(br, m) && Enabled(br, m, last) && t == Next(br, m, last);
      RunsOwners(br, init, m);
      NextOwners(br, m, last);
    }
  }

  lemma NextOwners(br: Branch, s: State, step: Step)
    requires Shaped(br, s) && Enabled(br, s, step)
    requires forall e :: e in s.log ==> NODE <= e.owner < |br.cases|
    ensures forall e :: e in Next(br, s, step).log ==> NODE <= e.owner < |br.cases|
  {
    if step.SchedulerStep? && s.phase.Scheduling? {
      CaseStepLog(br, s, s.phase.k, s.phase.pc);
    } else if step.TaskStep? {
      TaskLog(br, s, step.j);
    }
  }

  lemma {:induction false} CompletedSlotsCount(br: Branch, slots: seq<Slot>, cut: nat)
    requires |slots| <= |br.cases|
    requires forall j :: 0 <= j < |slots| ==> slots[j] == FinalSlot(br, j, cut)
    ensures CompletedSlots(slots) == YieldCount(br, |slots|, cut)
  {
    if slots != [] {
      CompletedSlotsCount(br, slots[..|slots| - 1], cut);
    }
  }

  /** In a returned state every task is through and each case is in its final position. */
  lemma ReturnedCase(br: Branch, s: State, j: nat)
    requires Inv(br, s) && s.phase.Returned? && j < |br.cases| && !s.tasks[j].Refused?
    ensures s.slots[j] == FinalSlot(br, j, s.cut)
    ensures Project(s.log, j) == CaseEvents(br, j, s.cut)
  {
    assert CaseInv(br, s, j);
    CountedNoneAtZero(s.tasks);
    assert s.tasks[j].Absent? || s.tasks[j].Notifying? || s.tasks[j].Done?;
    assert PositionOf(s.phase, j).CaseEnd?;
  }

  /** A returned state agrees with a sequential run on the result, the tally and every owner's events. */
  ghost predicate Agrees(t: State, r: Progress) {
    && t.phase == Returned(Ok(Aggregate(r.slots)))
    && t.tally == r.tally
    && (forall owner: int :: Project(t.log, owner) == Project(r.log, owner))
    && multiset(t.log) == multiset(r.log)
  }

  lemma {:induction false} ProjectForeign(log: seq<Entry>, owner: int)
    requires forall e :: e in log ==> e.owner != owner
    ensures Project(log, owner) == []
  {
    if log != [] {
      ProjectForeign(log[..|log| - 1], owner);
    }
  }

  lemma {:induction false} ProjectCounts(log: seq<Entry>, e: Entry)
    ensures multiset(log)[e] == multiset(Project(log, e.owner))[e.event]
  {
    if log != [] {
      var init, last := log[..|log| - 1], log[|log| - 1];
      assert log == init + [last];
      ProjectCounts(init, e);
    }
  }

  /** Two logs with the same projections are permutations of each other. */
  lemma SameProjections(a: seq<Entry>, b: seq<Entry>)
    requires forall owner: int :: Project(a, owner) == Project(b, owner)
    ensures multiset(a) == multiset(b)
  {
    forall e: Entry ensures multiset(a)[e] == multiset(b)[e] {
      ProjectCounts(a, e);
      ProjectCounts(b, e);
      assert Project(a, e.owner) == Project(b, e.owner);
    }
  }

  lemma AgreeOnCases(br: Branch, t: State, r: Progress)
    requires Inv(br, t) && t.phase.Returned? && forall j :: 0 <= j < |t.tasks| ==> !t.tasks[j].Refused?
    requires SequentialTable(Truncate(br, t.cut), r)
    ensures t.slots == r.slots
    ensures forall j :: 0 <= j < |br.cases| ==>
              t.slots[j] == FinalSlot(br, j, t.cut) && Project(t.log, j) == Project(r.log, j)
  {
    forall j | 0 <= j < |br.cases|
      ensures t.slots[j] == r.slots[j] == FinalSlot(br, j, t.cut) && Project(t.log, j) == Project(r.log, j)
    {
      ReturnedCase(br, t, j);
      TruncateCase(br, t.cut, j);
    }
  }

  lemma AgreeOnTally(br: Branch, t: State, r: Progress)
    requires Inv(br, t) && t.phase.Returned? && forall j :: 0 <= j < |t.tasks| ==> !t.tasks[j].Refused?
    requires SequentialTable(Truncate(br, t.cut), r)
    ensures t.tally == r.tally
  {
    AgreeOnCases(br, t, r);
    CompletedSlotsCount(br, t.slots, t.cut);
    TruncateCounts(br, t.cut, |br.cases|);
  }

  lemma AgreesFromTables(br: Branch, steps: seq<Step>, t: State, sequential: Branch)
    requires Runs(br, Init(br), steps, t) && t.phase.Returned?
    requires forall j :: 0 <= j < |t.tasks| ==> !t.tasks[j].Refused?
    requires sequential == Truncate(br, t.cut)
    ensures Agrees(t, RunFanInBranch(sequential))
  {
    RunsInv(br, steps, t);
    RunsOwners(br, steps, t);
    SequentialRun(sequential);
    var r := RunFanInBranch(sequential);
    var n := |br.cases|;
    AgreeOnCases(br, t, r);
    AgreeOnTally(br, t, r);
    assert Project(t.log, NODE) == Project(r.log, NODE) by {
      assert CompletedEvent(br, t.tally) == CompletedEvent(sequential, r.tally);
      assert [FanInStarted(br.id, n)] + [CompletedEvent(br, t.tally)]
          == [FanInStarted(br.id, n), CompletedEvent(br, t.tally)];
    }
    AgreeEverywhere(n, t.log, r.log);
    SameProjections(t.log, r.log);
  }

  /** Logs that agree on the node and on every case agree on every owner. */
  lemma AgreeEverywhere(n: nat, a: seq<Entry>, b: seq<Entry>)
    requires forall e :: e in a || e in b ==> NODE <= e.owner < n
    requires Project(a, NODE) == Project(b, NODE) && forall j :: 0 <= j < n ==> Project(a, j) == Project(b, j)
    ensures forall owner: int :: Project(a, owner) == Project(b, owner)
  {
    forall owner: int ensures Project(a, owner) == Project(b, owner) {
      if owner != NODE && !(0 <= owner < n) {
        ProjectForeign(a, owner);
        ProjectForeign(b, owner);
      }
    }
  }

  /**
    Main result. Whatever the interleaving and whenever a stop is requested, a run on a
    running pool returns exactly what the sequential recursion returns for the node in
    which the cases from some index on are declined; that index is the case count when
    no stop is requested.
   */
  lemma EveryInterleavingIsSequential(br: Branch, steps: seq<Step>, t: State)
    requires Runs(br, Init(br), steps, t) && t.phase.Returned? && StopPool !in steps
    ensures t.cut <= |br.cases|
    ensures RequestStop !in steps ==> t.cut == |br.cases|
    ensures Agrees(t, RunFanInBranch(Truncate(br, t.cut)))
  {
    RunsInv(br, steps, t);
    RunsFlags(br, steps, t);
    forall j | 0 <= j < |t.tasks| ensures !t.tasks[j].Refused? {
      assert CaseInv(br, t, j);
    }
    AgreesFromTables(br, steps, t, Truncate(br, t.cut));
  }

  /** Without a stop request the run agrees with the sequential run of the node itself. */
  lemma UncancelledRunIsSequential(br: Branch, steps: seq<Step>, t: State)
    requires Runs(br, Init(br), steps, t) && t.phase.Returned? && StopPool !in steps && RequestStop !in steps
    ensures Agrees(t, RunFanInBranch(br))
  {
    EveryInterleavingIsSequential(br, steps, t);
    assert Truncate(br, |br.cases|).cases == br.cases;
  }

  /** The log of a returned run opens with the node's start and closes with its completion. */
  lemma LogIsBracketed(br: Branch, steps: seq<Step>, t: State)
    requires Runs(br, Init(br), steps, t) && t.phase.Returned?
    ensures |t.log| >= 2
    ensures t.log[0] == Entry(NODE, FanInStarted(br.id, |br.cases|))
    ensures t.log[|t.log| - 1] == Entry(NODE, CompletedEvent(br, t.tally))
  {
    RunsInv(br, steps, t);
  }

  /**
    Cancellation is a cut: before it every slot is that of the uncancelled run, from it
    on a failed predicate still shows as failed and everything else is skipped.
   */
  lemma CancellationIsACut(br: Branch, steps: seq<Step>, t: State, j: nat)
    requires Runs(br, Init(br), steps, t) && t.phase.Returned? && StopPool !in steps && j < |br.cases|
    ensures var whole := RunFanInBranch(br);
            j < |t.slots| && t.slots[j] == if j < t.cut || !VerdictOf(br, j).Says?
                          then whole.slots[j] else EMPTY_SLOT
  {
    RunsInv(br, steps, t);
    RunsFlags(br, steps, t);
    SequentialRun(br);
    assert CaseInv(br, t, j);
    ReturnedCase(br, t, j);
  }

  // ---------------------------------------------------------------- the barrier

  /** In every reachable state the barrier counts the tasks added but not finished, and a finish finds it positive. */
  lemma BarrierIsExact(br: Branch, steps: seq<Step>, t: State)
    requires Runs(br, Init(br), steps, t)
    ensures t.added == t.finished + t.pending
    ensures forall j :: 0 <= j < |t.tasks| && t.tasks[j].Finishing? ==> t.pending > 0
    ensures t.phase.Scheduling? && t.phase.pc.PoolPost? ==> t.pending > 0
    ensures t.phase.Blocked? && t.pending == 0 ==> exists j :: 0 <= j < |t.tasks| && t.tasks[j].Notifying?
  {
    RunsInv(br, steps, t);
    forall j | 0 <= j < |t.tasks| && t.tasks[j].Finishing? ensures t.pending > 0 {
      CountedPositive(t.tasks, j);
    }
  }

  /** What is still visible of a run to its caller. */
  ghost predicate SameView(s: State, t: State) {
    t.slots == s.slots && t.log == s.log && t.tally == s.tally && t.phase == s.phase && t.pending == s.pending
  }

  /** Once the barrier has opened, the steps of tasks neither report, nor read the input, nor write a slot. */
  lemma OpenBarrierStep(br: Branch, s: State, j: nat)
    requires Inv(br, s) && (s.phase.Tallying? || s.phase.Returned?) && Enabled(br, s, TaskStep(j))
    ensures SameView(s, Task(br, s, j))
  {
    OnlyNotifying(br, s, j);
    TaskLog(br, s, j);
  }

  /** After the return nothing that happens later can change what the caller holds. */
  lemma {:induction false} ReturnedIsFinal(br: Branch, s: State, steps: seq<Step>, t: State)
    requires Inv(br, s) && s.phase.Returned? && Runs(br, s, steps, t)
    ensures Inv(br, t) && SameView(s, t)
  {
    if steps != [] {
      var init, last := steps[..|steps| - 1], steps[|steps| - 1];
      var m: State :| Runs(br, s, init, m) && Shaped(br, m) && Enabled(br, m, last) && t == Next(br, m, last);
      ReturnedIsFinal(br, s, init, m);
      NextInv(br, m, last);
      if last.TaskStep? {
        OpenBarrierStep(br, m, last.j);
      }
    }
  }

  // ---------------------------------------------------------------- a stopped pool, and conservation

  function SlotsIn(slots: seq<Slot>, state: CaseState): nat {
    if slots == [] then 0
    else SlotsIn(slots[..|slots| - 1], state) + if slots[|slots| - 1].state == state then 1 else 0
  }

  function RefusedTasks(tasks: seq<TaskPc>): nat {
    if tasks == [] then 0 else RefusedTasks(tasks[..|tasks| - 1]) + if tasks[|tasks| - 1].Refused? then 1 else 0
  }

  lemma {:induction false} SlotsPartition(slots: seq<Slot>)
    ensures SlotsIn(slots, Completed) + SlotsIn(slots, Failed) + SlotsIn(slots, Skipped) == |slots|
    ensures CompletedSlots(slots) == SlotsIn(slots, Completed)
  {
    if slots != [] {
      SlotsPartition(slots[..|slots| - 1]);
    }
  }

  /** Failed slots are failed predicates plus selected cases that neither completed nor were refused. */
  lemma {:induction false} FailedSlotsCount(br: Branch, s: State, k: nat)
    requires Inv(br, s) && s.phase.Returned? && k <= |br.cases|
    ensures SlotsIn(s.slots[..k], Failed) + RefusedTasks(s.tasks[..k]) + CompletedSlots(s.slots[..k])
            == RejectedCount(br, k) + SelectedCount(br, k, s.cut)
  {
    if k > 0 {
      FailedSlotsCount(br, s, k - 1);
      assert s.slots[..k][..k - 1] == s.slots[..k - 1] && s.tasks[..k][..k - 1] == s.tasks[..k - 1];
      ReturnedSlot(br, s, k - 1);
    }
  }

  /** A returned case is rejected or selected exactly when its slot failed, was completed or was refused. */
  lemma ReturnedSlot(br: Branch, s: State, j: nat)
    requires Inv(br, s) && s.phase.Returned? && j < |br.cases|
    ensures (if s.slots[j].state == Failed then 1 else 0) + (if s.tasks[j].Refused? then 1 else 0)
            + (if s.slots[j].state == Completed then 1 else 0)
            == (if VerdictOf(br, j).Says? then 0 else 1) + (if Selected(br, j, s.cut) then 1 else 0)
  {
    assert CaseInv(br, s, j);
    if !s.tasks[j].Refused? {
      ReturnedCase(br, s, j);
    }
  }

  /**
    Conservation. The reported failures are the failed slots plus the refused posts, so
    the report matches the aggregate exactly when no post was refused.
   */
  lemma TallyConservation(br: Branch, steps: seq<Step>, t: State)
    requires Runs(br, Init(br), steps, t) && t.phase.Returned?
    ensures t.tally.completed == SlotsIn(t.slots, Completed)
    ensures t.tally.failed == SlotsIn(t.slots, Failed) + RefusedTasks(t.tasks)
    ensures t.tally.completed <= t.tally.selected
    ensures t.tally.completed + t.tally.failed + SlotsIn(t.slots, Skipped) == |br.cases| + RefusedTasks(t.tasks)
    ensures t.phase.result.Fail? <==> RefusedTasks(t.tasks) > 0
    ensures t.phase.result.Fail? ==> t.phase.result.error == REFUSED_ERROR
  {
    RunsInv(br, steps, t);
    FailedSlotsCount(br, t, |br.cases|);
    assert t.slots[..|br.cases|] == t.slots && t.tasks[..|br.cases|] == t.tasks;
    SlotsPartition(t.slots);
    CompletedAtMostSelected(br, t, |br.cases|);
    RefusedPositive(t.tasks);
  }

  lemma {:induction false} CompletedAtMostSelected(br: Branch, s: State, k: nat)
    requires Inv(br, s) && s.phase.Returned? && k <= |br.cases|
    ensures CompletedSlots(s.slots[..k]) <= SelectedCount(br, k, s.cut)
  {
    if k > 0 {
      CompletedAtMostSelected(br, s, k - 1);
      assert s.slots[..k][..k - 1] == s.slots[..k - 1];
      assert CaseInv(br, s, k - 1);
    }
  }

  lemma {:induction false} RefusedPositive(tasks: seq<TaskPc>)
    ensures RefusedTasks(tasks) > 0 <==> exists j :: 0 <= j < |tasks| && tasks[j].Refused?
  {
    if tasks != [] {
      var n := |tasks| - 1;
      RefusedPositive(tasks[..n]);
      assert forall j :: 0 <= j < n ==> tasks[..n][j] == tasks[j];
      if tasks[n].Refused? {
        assert exists j :: 0 <= j < |tasks| && tasks[j].Refused?;
      }
    }
  }
}
