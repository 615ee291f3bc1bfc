/** Every step of the parallel fan-in keeps its invariant. */
module ParallelFanInInvariant {
  import opened Core
  import opened FanIn
  import opened ParallelFanIn

  lemma InitInv(br: Branch)
    ensures Inv(br, Init(br))
  {
    CountedNone(Init(br).tasks);
  }

  lemma LogProjects(s: State, owner: int, events: seq<Event>, j: int)
    ensures Project(Log(s, owner, events).log, j) == Project(s.log, j) + if j == owner then events else []
  {
    ProjectConcat(s.log, Own(owner, events), j);
    ProjectOwn(owner, events, j);
  }

  /** What is said about a case depends only on its own part of the state. */
  lemma CaseFrame(br: Branch, s: State, t: State, j: nat)
    requires Shaped(br, s) && Shaped(br, t) && j < |br.cases| && CaseInv(br, s, j)
    requires t.tasks[j] == s.tasks[j] && t.slots[j] == s.slots[j]
    requires PositionOf(t.phase, j) == PositionOf(s.phase, j)
    requires PositionOf(s.phase, j).PredicateCall? || (Selected(br, j, t.cut) <==> Selected(br, j, s.cut))
    requires s.poolStopped ==> t.poolStopped
    requires Project(t.log, j) == Project(s.log, j)
    ensures CaseInv(br, t, j)
  {
  }

  // ---------------------------------------------------------------- scheduling steps

  /** The positions, the task and the slot of every other case stay as they are. */
  lemma CaseStepFrame(br: Branch, s: State, k: nat, pc: Pc, j: nat)
    requires Shaped(br, s) && CutInv(br, s) && s.phase == Scheduling(k, pc) && j < |br.cases| && j != k
    ensures var t := CaseStep(br, s, k, pc);
            && Shaped(br, t)
            && t.tasks[j] == s.tasks[j] && t.slots[j] == s.slots[j]
            && PositionOf(t.phase, j) == PositionOf(s.phase, j)
            && (j < k ==> (Selected(br, j, t.cut) <==> Selected(br, j, s.cut)))
            && (s.poolStopped == t.poolStopped)
  {
  }

  /** Reports of another case leave what is said about a case alone. */
  lemma OtherCase(br: Branch, s: State, t: State, owner: nat, events: seq<Event>, j: nat)
    requires Shaped(br, s) && Shaped(br, t) && j < |br.cases| && owner != j && CaseInv(br, s, j)
    requires t.tasks[j] == s.tasks[j] && t.slots[j] == s.slots[j]
    requires PositionOf(t.phase, j) == PositionOf(s.phase, j)
    requires PositionOf(s.phase, j).PredicateCall? || (Selected(br, j, t.cut) <==> Selected(br, j, s.cut))
    requires s.poolStopped ==> t.poolStopped
    requires t.log == s.log + Own(owner, events)
    ensures CaseInv(br, t, j)
  {
    ProjectConcat(s.log, Own(owner, events), j);
    ProjectOwn(owner, events, j);
    CaseFrame(br, s, t, j);
  }

  /** A scheduling step inside case k keeps what is said about every other case. */
  lemma CaseStepOther(br: Branch, s: State, k: nat, pc: Pc, j: nat)
    requires Shaped(br, s) && CutInv(br, s) && s.phase == Scheduling(k, pc)
    requires j < |br.cases| && j != k && CaseInv(br, s, j)
    ensures Shaped(br, CaseStep(br, s, k, pc)) && CaseInv(br, CaseStep(br, s, k, pc), j)
  {
    CaseStepFrame(br, s, k, pc, j);
    CaseStepLog(br, s, k, pc);
    OtherCase(br, s, CaseStep(br, s, k, pc), k, SchedulerEmits(br, k, pc), j);
  }

  /** The scheduling thread's events for its own case grow by exactly what it reports. */
  lemma SchedulerEventsGrow(br: Branch, s: State, k: nat, pc: Pc)
    requires Shaped(br, s) && CutInv(br, s) && s.phase == Scheduling(k, pc) && PositionFits(br, k, pc, s.cut)
    ensures var t := SchedulerActs(br, s, k, pc);
            SchedulerEvents(br, k, PositionOf(t.phase, k), t.cut)
            == SchedulerEvents(br, k, pc, s.cut) + SchedulerEmits(br, k, pc)
  {
    if pc.PredicateCall? || pc.PredicateReturn? || pc.Decide? {
      PredicateEventsGrow(br, s, k, pc);
    } else if pc.CaseEnd? {
      assert PositionOf(SchedulerActs(br, s, k, pc).phase, k).CaseEnd?;
    } else {
      VerdictEventsGrow(br, s, k, pc);
    }
  }

  lemma PredicateEventsGrow(br: Branch, s: State, k: nat, pc: Pc)
    requires Shaped(br, s) && s.phase == Scheduling(k, pc) && PositionFits(br, k, pc, s.cut)
    requires pc.PredicateCall? || pc.PredicateReturn? || pc.Decide?
    ensures var t := SchedulerActs(br, s, k, pc);
            SchedulerEvents(br, k, PositionOf(t.phase, k), t.cut)
            == SchedulerEvents(br, k, pc, s.cut) + SchedulerEmits(br, k, pc)
  {
  }

  lemma VerdictEventsGrow(br: Branch, s: State, k: nat, pc: Pc)
    requires Shaped(br, s) && s.phase == Scheduling(k, pc) && PositionFits(br, k, pc, s.cut)
    requires !pc.PredicateCall? && !pc.PredicateReturn? && !pc.Decide? && !pc.CaseEnd?
    ensures var t := SchedulerActs(br, s, k, pc);
            SchedulerEvents(br, k, PositionOf(t.phase, k), t.cut)
            == SchedulerEvents(br, k, pc, s.cut) + SchedulerEmits(br, k, pc)
  {
  }

  lemma CaseStepSelfTask(br: Branch, s: State, k: nat, pc: Pc)
    requires Shaped(br, s) && CutInv(br, s) && s.phase == Scheduling(k, pc) && TaskInv(br, s, k)
    ensures var t := CaseStep(br, s, k, pc);
            Shaped(br, t) && TaskInv(br, t, k) && TaskEvents(br, k, t.tasks[k]) == TaskEvents(br, k, s.tasks[k])
            && HasRun(t.tasks[k]) == HasRun(s.tasks[k])
            && (!pc.CaseEnd? ==> TaskEvents(br, k, t.tasks[k]) == [])
  {
    if pc.Decide? {
      DecideSelfTask(br, s, k);
    }
  }

  lemma DecideSelfTask(br: Branch, s: State, k: nat)
    requires Shaped(br, s) && CutInv(br, s) && s.phase == Scheduling(k, Decide) && TaskInv(br, s, k)
    ensures var t := CaseStep(br, s, k, Decide);
            Shaped(br, t) && TaskInv(br, t, k) && t.tasks == s.tasks && s.tasks[k].Absent?
  {
  }

  lemma CaseStepSelfSlot(br: Branch, s: State, k: nat, pc: Pc)
    requires Shaped(br, s) && CutInv(br, s) && s.phase == Scheduling(k, pc) && CaseInv(br, s, k)
    requires Shaped(br, CaseStep(br, s, k, pc))
    requires HasRun(CaseStep(br, s, k, pc).tasks[k]) == HasRun(s.tasks[k])
    ensures SlotInv(br, CaseStep(br, s, k, pc), k)
  {
  }

  /** A case's log stays right when its own reports extend the events of the thread that made them. */
  lemma OwnCase(br: Branch, s: State, t: State, k: nat, events: seq<Event>)
    requires Shaped(br, s) && Shaped(br, t) && k < |br.cases| && LogInv(br, s, k)
    requires t.log == s.log + Own(k, events)
    requires SchedulerEvents(br, k, PositionOf(t.phase, k), t.cut) + TaskEvents(br, k, t.tasks[k])
             == SchedulerEvents(br, k, PositionOf(s.phase, k), s.cut) + TaskEvents(br, k, s.tasks[k]) + events
    ensures LogInv(br, t, k)
  {
    ProjectConcat(s.log, Own(k, events), k);
    ProjectOwn(k, events, k);
  }

  lemma CaseStepSelfLog(br: Branch, s: State, k: nat, pc: Pc)
    requires Shaped(br, s) && CutInv(br, s) && s.phase == Scheduling(k, pc) && LogInv(br, s, k) && TaskInv(br, s, k)
    requires Shaped(br, CaseStep(br, s, k, pc))
    ensures LogInv(br, CaseStep(br, s, k, pc), k)
  {
    CaseStepLog(br, s, k, pc);
    SchedulerEventsGrow(br, s, k, pc);
    CaseStepSelfTask(br, s, k, pc);
    CaseStepQuiet(br, s, k, pc);
    OwnCase(br, s, CaseStep(br, s, k, pc), k, SchedulerEmits(br, k, pc));
  }

  /** The scheduling thread reports on a case only before its task exists. */
  lemma CaseStepQuiet(br: Branch, s: State, k: nat, pc: Pc)
    requires Shaped(br, s) && s.phase == Scheduling(k, pc) && TaskInv(br, s, k)
    ensures SchedulerEmits(br, k, pc) == [] || TaskEvents(br, k, s.tasks[k]) == []
  {
  }

  lemma CaseStepSelf(br: Branch, s: State, k: nat, pc: Pc)
    requires Shaped(br, s) && CutInv(br, s) && s.phase == Scheduling(k, pc) && CaseInv(br, s, k)
    ensures Shaped(br, CaseStep(br, s, k, pc)) && CaseInv(br, CaseStep(br, s, k, pc), k)
  {
    CaseStepSelfTask(br, s, k, pc);
    CaseStepSelfLog(br, s, k, pc);
    CaseStepSelfSlot(br, s, k, pc);
  }

  lemma CaseStepCounts(br: Branch, s: State, k: nat, pc: Pc)
    requires Shaped(br, s) && CutInv(br, s) && s.phase == Scheduling(k, pc) && TaskInv(br, s, k)
    ensures var t := SchedulerActs(br, s, k, pc);
            && SelectedCount(br, k, t.cut) == SelectedCount(br, k, s.cut)
            && (pc.Decide? || (Selected(br, k, t.cut) <==> Selected(br, k, s.cut)))
            && (t.phase.Scheduling? && t.phase.pc.SelectReport? ==> Selected(br, k, t.cut))
  {
    var t := SchedulerActs(br, s, k, pc);
    if k <= s.cut {
      SelectedCountCut(br, k, s.cut, t.cut);
    }
  }

  lemma CaseStepTally(br: Branch, s: State, k: nat, pc: Pc)
    requires Shaped(br, s) && CutInv(br, s) && s.phase == Scheduling(k, pc) && TaskInv(br, s, k) && TallyInv(br, s)
    requires Shaped(br, SchedulerActs(br, s, k, pc))
    ensures TallyInv(br, SchedulerActs(br, s, k, pc))
  {
    if pc.CaseEnd? {
      CaseEndTally(br, s, k);
    } else {
      CaseStepCounts(br, s, k, pc);
      assert SchedulerActs(br, s, k, pc).phase.Scheduling? && SchedulerActs(br, s, k, pc).phase.k == k;
    }
  }

  lemma CaseEndTally(br: Branch, s: State, k: nat)
    requires Shaped(br, s) && s.phase == Scheduling(k, CaseEnd) && TallyInv(br, s)
    requires Shaped(br, SchedulerActs(br, s, k, CaseEnd))
    ensures TallyInv(br, SchedulerActs(br, s, k, CaseEnd))
  {
    var t := SchedulerActs(br, s, k, CaseEnd);
    assert Frontier(br, t.phase) == k + 1;
    assert SelectedCount(br, k + 1, t.cut) == SelectedCount(br, k, t.cut) + if Selected(br, k, t.cut) then 1 else 0;
  }

  lemma CaseStepBarrier(br: Branch, s: State, k: nat, pc: Pc)
    requires Shaped(br, s) && s.phase == Scheduling(k, pc) && TaskInv(br, s, k) && BarrierInv(br, s)
    requires Shaped(br, CaseStep(br, s, k, pc))
    ensures BarrierInv(br, CaseStep(br, s, k, pc))
  {
    if pc.PoolPost? {
      PostBarrier(br, s, k);
    } else {
      assert CaseStep(br, s, k, pc).tasks == s.tasks;
    }
  }

  lemma PostBarrier(br: Branch, s: State, k: nat)
    requires Shaped(br, s) && s.phase == Scheduling(k, PoolPost) && TaskInv(br, s, k) && BarrierInv(br, s)
    requires Shaped(br, CaseStep(br, s, k, PoolPost))
    ensures BarrierInv(br, CaseStep(br, s, k, PoolPost))
  {
    CountedUpdate(s.tasks, k, CaseStep(br, s, k, PoolPost).tasks[k]);
  }

  lemma CaseStepError(br: Branch, s: State, k: nat, pc: Pc)
    requires Shaped(br, s) && s.phase == Scheduling(k, pc) && TaskInv(br, s, k) && ErrorInv(br, s)
    requires Shaped(br, CaseStep(br, s, k, pc))
    ensures ErrorInv(br, CaseStep(br, s, k, pc))
  {
    var t := CaseStep(br, s, k, pc);
    assert forall j :: 0 <= j < |s.tasks| && j != k ==> t.tasks[j] == s.tasks[j];
    if pc.PoolPost? {
      assert s.tasks[k].Absent?;
      if s.poolStopped {
        assert t.tasks[k].Refused?;
      } else if exists j :: 0 <= j < |s.tasks| && s.tasks[j].Refused? {
        var j :| 0 <= j < |s.tasks| && s.tasks[j].Refused?;
        assert t.tasks[j].Refused?;
      }
    } else {
      assert t.tasks == s.tasks;
    }
  }

  /** Reports of a case leave the node's own events alone. */
  lemma NodeFrame(br: Branch, s: State, t: State, owner: int, events: seq<Event>)
    requires NodeInv(br, s) && !s.phase.Opening? && !s.phase.Returned? && owner != NODE
    requires t.log == s.log + Own(owner, events) && !t.phase.Opening? && !t.phase.Returned?
    ensures NodeInv(br, t)
  {
    ProjectConcat(s.log, Own(owner, events), NODE);
    ProjectOwn(owner, events, NODE);
  }

  lemma CaseStepLog(br: Branch, s: State, k: nat, pc: Pc)
    requires Shaped(br, s) && s.phase == Scheduling(k, pc)
    ensures var t := CaseStep(br, s, k, pc);
            t.log == s.log + Own(k, SchedulerEmits(br, k, pc)) && !t.phase.Opening? && !t.phase.Returned?
  {
  }

  lemma CaseStepNode(br: Branch, s: State, k: nat, pc: Pc)
    requires Shaped(br, s) && s.phase == Scheduling(k, pc) && NodeInv(br, s)
    ensures NodeInv(br, CaseStep(br, s, k, pc))
  {
    CaseStepLog(br, s, k, pc);
    NodeFrame(br, s, CaseStep(br, s, k, pc), k, SchedulerEmits(br, k, pc));
  }

  lemma CaseStepCut(br: Branch, s: State, k: nat, pc: Pc)
    requires Shaped(br, s) && CutInv(br, s) && s.phase == Scheduling(k, pc)
    ensures CutInv(br, CaseStep(br, s, k, pc))
  {
  }

  lemma CaseStepCases(br: Branch, s: State, k: nat, pc: Pc)
    requires Shaped(br, s) && CutInv(br, s) && s.phase == Scheduling(k, pc)
    requires forall j :: 0 <= j < |br.cases| ==> CaseInv(br, s, j)
    ensures Shaped(br, CaseStep(br, s, k, pc))
    ensures forall j :: 0 <= j < |br.cases| ==> CaseInv(br, CaseStep(br, s, k, pc), j)
  {
    forall j | 0 <= j < |br.cases|
      ensures Shaped(br, CaseStep(br, s, k, pc)) && CaseInv(br, CaseStep(br, s, k, pc), j)
    {
      if j == k {
        CaseStepSelf(br, s, k, pc);
      } else {
        CaseStepOther(br, s, k, pc, j);
      }
    }
  }

  lemma CaseStepCounters(br: Branch, s: State, k: nat, pc: Pc)
    requires Shaped(br, s) && CutInv(br, s) && s.phase == Scheduling(k, pc) && TaskInv(br, s, k)
    requires TallyInv(br, s) && BarrierInv(br, s) && ErrorInv(br, s) && Shaped(br, CaseStep(br, s, k, pc))
    ensures TallyInv(br, CaseStep(br, s, k, pc)) && BarrierInv(br, CaseStep(br, s, k, pc))
    ensures ErrorInv(br, CaseStep(br, s, k, pc))
  {
    CaseStepTally(br, s, k, pc);
    CaseStepBarrier(br, s, k, pc);
    CaseStepError(br, s, k, pc);
  }

  lemma CaseStepInv(br: Branch, s: State, k: nat, pc: Pc)
    requires Inv(br, s) && s.phase == Scheduling(k, pc)
    ensures Inv(br, CaseStep(br, s, k, pc))
  {
    assert CaseInv(br, s, k);
    CaseStepCases(br, s, k, pc);
    CaseStepNode(br, s, k, pc);
    CaseStepCut(br, s, k, pc);
    CaseStepCounters(br, s, k, pc);
  }

  // ---------------------------------------------------------------- steps around the cases

  /** Opening the node, testing the barrier and closing the node. */
  lemma EdgeStepFrame(br: Branch, s: State, j: nat)
    requires Shaped(br, s) && Enabled(br, s, SchedulerStep) && !s.phase.Scheduling? && j < |br.cases|
    ensures var t := Scheduler(br, s);
            && Shaped(br, t)
            && t.tasks == s.tasks && t.slots == s.slots && t.cut == s.cut && t.poolStopped == s.poolStopped
            && PositionOf(t.phase, j) == PositionOf(s.phase, j)
            && Project(t.log, j) == Project(s.log, j)
  {
    if s.phase.Opening? {
      LogProjects(s, NODE, [FanInStarted(br.id, |br.cases|)], j);
    } else if s.phase.Tallying? {
      LogProjects(s, NODE, [CompletedEvent(br, FinalTally(s))], j);
    }
  }

  lemma EdgeStepNode(br: Branch, s: State)
    requires Shaped(br, s) && Enabled(br, s, SchedulerStep) && !s.phase.Scheduling? && NodeInv(br, s)
    ensures NodeInv(br, Scheduler(br, s))
  {
    if s.phase.Opening? {
      LogProjects(s, NODE, [FanInStarted(br.id, |br.cases|)], NODE);
      assert Project([], NODE) == [];
    } else if s.phase.Tallying? {
      LogProjects(s, NODE, [CompletedEvent(br, FinalTally(s))], NODE);
    }
  }

  lemma EdgeStepTally(br: Branch, s: State)
    requires Shaped(br, s) && Enabled(br, s, SchedulerStep) && !s.phase.Scheduling?
    requires TallyInv(br, s) && Shaped(br, Scheduler(br, s))
    ensures TallyInv(br, Scheduler(br, s))
  {
  }

  lemma EdgeStepBarrier(br: Branch, s: State)
    requires Shaped(br, s) && Enabled(br, s, SchedulerStep) && !s.phase.Scheduling?
    requires BarrierInv(br, s) && ErrorInv(br, s) && CutInv(br, s) && Shaped(br, Scheduler(br, s))
    ensures BarrierInv(br, Scheduler(br, s)) && ErrorInv(br, Scheduler(br, s)) && CutInv(br, Scheduler(br, s))
  {
  }

  lemma EdgeStepInv(br: Branch, s: State)
    requires Inv(br, s) && Enabled(br, s, SchedulerStep) && !s.phase.Scheduling?
    ensures Inv(br, Scheduler(br, s))
  {
    var t := Scheduler(br, s);
    forall j | 0 <= j < |br.cases| ensures Shaped(br, t) && CaseInv(br, t, j) {
      EdgeStepFrame(br, s, j);
      CaseFrame(br, s, t, j);
    }
    EdgeStepNode(br, s);
    EdgeStepTally(br, s);
    EdgeStepBarrier(br, s);
  }

  lemma {:induction false} CountedNoneAtZero(tasks: seq<TaskPc>)
    requires CountedTasks(tasks) == 0
    ensures forall j :: 0 <= j < |tasks| ==> !Counted(tasks[j])
  {
    forall j | 0 <= j < |tasks| ensures !Counted(tasks[j]) {
      if Counted(tasks[j]) {
        CountedPositive(tasks, j);
      }
    }
  }

  // ---------------------------------------------------------------- task steps

  lemma TaskFrame(br: Branch, s: State, i: nat, j: nat)
    requires Shaped(br, s) && Enabled(br, s, TaskStep(i)) && j < |br.cases|
    ensures var t := Task(br, s, i);
            && Shaped(br, t)
            && PositionOf(t.phase, j) == PositionOf(s.phase, j)
            && t.cut == s.cut && t.poolStopped == s.poolStopped && t.tally == s.tally
            && (i != j ==> t.tasks[j] == s.tasks[j] && t.slots[j] == s.slots[j])
            && (t.tasks[j].Refused? <==> s.tasks[j].Refused?)
  {
  }

  lemma TaskOther(br: Branch, s: State, i: nat, j: nat)
    requires Shaped(br, s) && Enabled(br, s, TaskStep(i)) && j < |br.cases| && i != j && CaseInv(br, s, j)
    ensures Shaped(br, Task(br, s, i)) && CaseInv(br, Task(br, s, i), j)
  {
    TaskFrame(br, s, i, j);
    LogProjects(TaskActs(br, s, i), i, TaskEmits(br, i, s.tasks[i], s.slots[i]), j);
    CaseFrame(br, s, Task(br, s, i), j);
  }

  /** The task's events grow by exactly what it reports. */
  lemma TaskEventsGrow(br: Branch, s: State, j: nat)
    requires Shaped(br, s) && Enabled(br, s, TaskStep(j)) && CaseInv(br, s, j)
    ensures TaskEvents(br, j, TaskAfter(br, j, s.tasks[j]))
            == TaskEvents(br, j, s.tasks[j]) + TaskEmits(br, j, s.tasks[j], s.slots[j])
  {
    assert VerdictOf(br, j).Says?;
  }

  lemma TaskSelfTask(br: Branch, s: State, j: nat)
    requires Shaped(br, s) && Enabled(br, s, TaskStep(j)) && CaseInv(br, s, j) && Shaped(br, Task(br, s, j))
    requires PositionOf(Task(br, s, j).phase, j) == PositionOf(s.phase, j)
    ensures TaskInv(br, Task(br, s, j), j)
  {
  }

  lemma TaskSelfLog(br: Branch, s: State, j: nat)
    requires Shaped(br, s) && Enabled(br, s, TaskStep(j)) && CaseInv(br, s, j) && Shaped(br, Task(br, s, j))
    requires PositionOf(Task(br, s, j).phase, j) == PositionOf(s.phase, j) && Task(br, s, j).cut == s.cut
    ensures LogInv(br, Task(br, s, j), j)
  {
    var t, emitted := Task(br, s, j), TaskEmits(br, j, s.tasks[j], s.slots[j]);
    TaskLog(br, s, j);
    ProjectConcat(s.log, Own(j, emitted), j);
    ProjectOwn(j, emitted, j);
    TaskEventsGrow(br, s, j);
    assert t.tasks[j] == TaskAfter(br, j, s.tasks[j]);
  }

  lemma TaskSelf(br: Branch, s: State, j: nat)
    requires Shaped(br, s) && Enabled(br, s, TaskStep(j)) && CaseInv(br, s, j)
    ensures Shaped(br, Task(br, s, j)) && CaseInv(br, Task(br, s, j), j)
  {
    TaskFrame(br, s, j, j);
    TaskSelfTask(br, s, j);
    TaskSelfLog(br, s, j);
    TaskSelfSlot(br, s, j);
  }

  lemma TaskSelfSlot(br: Branch, s: State, j: nat)
    requires Shaped(br, s) && Enabled(br, s, TaskStep(j)) && CaseInv(br, s, j)
    requires Shaped(br, Task(br, s, j)) && PositionOf(Task(br, s, j).phase, j) == PositionOf(s.phase, j)
    ensures SlotInv(br, Task(br, s, j), j)
  {
    assert VerdictOf(br, j).Says?;
  }

  /** A notification on its way stays on its way until its own task delivers it. */
  lemma TaskNotifies(br: Branch, s: State, j: nat)
    requires Shaped(br, s) && Enabled(br, s, TaskStep(j)) && Shaped(br, Task(br, s, j))
    ensures s.tasks[j].Finishing? ==> Task(br, s, j).tasks[j].Notifying?
    ensures (exists i :: 0 <= i < |s.tasks| && i != j && s.tasks[i].Notifying?) ==>
              exists i :: 0 <= i < |s.tasks| && Task(br, s, j).tasks[i].Notifying?
  {
    if exists i :: 0 <= i < |s.tasks| && i != j && s.tasks[i].Notifying? {
      var i :| 0 <= i < |s.tasks| && i != j && s.tasks[i].Notifying?;
      TaskFrame(br, s, j, i);
      assert Task(br, s, j).tasks[i].Notifying?;
    }
  }

  lemma TaskBarrier(br: Branch, s: State, j: nat)
    requires Shaped(br, s) && Enabled(br, s, TaskStep(j)) && BarrierInv(br, s)
    requires Shaped(br, Task(br, s, j))
    ensures BarrierInv(br, Task(br, s, j))
    ensures s.tasks[j].Finishing? ==> s.pending > 0
  {
    CountedUpdate(s.tasks, j, TaskAfter(br, j, s.tasks[j]));
    TaskNotifies(br, s, j);
    if Counted(s.tasks[j]) {
      CountedPositive(s.tasks, j);
    }
  }

  lemma TaskAllCases(br: Branch, s: State, i: nat)
    requires Shaped(br, s) && Enabled(br, s, TaskStep(i))
    requires forall j :: 0 <= j < |br.cases| ==> CaseInv(br, s, j)
    ensures Shaped(br, Task(br, s, i))
    ensures forall j :: 0 <= j < |br.cases| ==> CaseInv(br, Task(br, s, i), j)
  {
    forall j | 0 <= j < |br.cases| ensures Shaped(br, Task(br, s, i)) && CaseInv(br, Task(br, s, i), j) {
      if j == i {
        TaskSelf(br, s, j);
      } else {
        TaskOther(br, s, i, j);
      }
    }
  }

  lemma TaskCut(br: Branch, s: State, i: nat)
    requires Shaped(br, s) && Enabled(br, s, TaskStep(i)) && CutInv(br, s)
    ensures CutInv(br, Task(br, s, i))
  {
  }

  lemma TaskCounters(br: Branch, s: State, i: nat)
    requires Shaped(br, s) && Enabled(br, s, TaskStep(i)) && Shaped(br, Task(br, s, i)) && TaskInv(br, s, i)
    requires NodeInv(br, s) && TallyInv(br, s) && BarrierInv(br, s) && ErrorInv(br, s)
    ensures NodeInv(br, Task(br, s, i)) && TallyInv(br, Task(br, s, i))
    ensures BarrierInv(br, Task(br, s, i)) && ErrorInv(br, Task(br, s, i))
  {
    TaskBarrier(br, s, i);
    TaskErrors(br, s, i);
    TaskTally(br, s, i);
    TaskNode(br, s, i);
  }

  lemma TaskInvariant(br: Branch, s: State, i: nat)
    requires Inv(br, s) && Enabled(br, s, TaskStep(i))
    ensures Inv(br, Task(br, s, i))
  {
    assert CaseInv(br, s, i);
    TaskAllCases(br, s, i);
    TaskCounters(br, s, i);
    TaskCut(br, s, i);
  }

  /** Once the barrier has opened the only thing a task can still do is deliver its notification. */
  lemma OnlyNotifying(br: Branch, s: State, i: nat)
    requires Shaped(br, s) && BarrierInv(br, s) && (s.phase.Tallying? || s.phase.Returned?)
    requires Enabled(br, s, TaskStep(i))
    ensures s.tasks[i].Notifying?
  {
    CountedNoneAtZero(s.tasks);
  }

  lemma TaskLog(br: Branch, s: State, i: nat)
    requires Shaped(br, s) && Enabled(br, s, TaskStep(i))
    ensures var t := Task(br, s, i);
            && t.log == s.log + Own(i, TaskEmits(br, i, s.tasks[i], s.slots[i]))
            && (t.phase.Opening? <==> s.phase.Opening?) && (t.phase.Returned? <==> s.phase.Returned?)
            && t.tally == s.tally
  {
  }

  lemma TaskNode(br: Branch, s: State, i: nat)
    requires Shaped(br, s) && Enabled(br, s, TaskStep(i))
    requires TaskInv(br, s, i) && NodeInv(br, s) && BarrierInv(br, s)
    ensures NodeInv(br, Task(br, s, i))
  {
    TaskLog(br, s, i);
    if s.phase.Returned? {
      OnlyNotifying(br, s, i);
      assert Task(br, s, i).log == s.log;
    } else {
      assert !s.phase.Opening?;
      NodeFrame(br, s, Task(br, s, i), i, TaskEmits(br, i, s.tasks[i], s.slots[i]));
    }
  }

  lemma TaskErrors(br: Branch, s: State, i: nat)
    requires Shaped(br, s) && Enabled(br, s, TaskStep(i)) && Shaped(br, Task(br, s, i))
    requires ErrorInv(br, s) && BarrierInv(br, s)
    ensures ErrorInv(br, Task(br, s, i))
  {
    var t := Task(br, s, i);
    forall j | 0 <= j < |s.tasks| ensures t.tasks[j].Refused? <==> s.tasks[j].Refused? {
      TaskFrame(br, s, i, j);
    }
    if s.phase.Returned? {
      OnlyNotifying(br, s, i);
    }
  }

  lemma TaskTally(br: Branch, s: State, i: nat)
    requires Shaped(br, s) && Enabled(br, s, TaskStep(i)) && Shaped(br, Task(br, s, i))
    requires TallyInv(br, s) && BarrierInv(br, s)
    ensures TallyInv(br, Task(br, s, i))
  {
    TaskLog(br, s, i);
    if s.phase.Returned? {
      OnlyNotifying(br, s, i);
      assert Task(br, s, i).slots == s.slots;
    }
  }

  // ---------------------------------------------------------------- all steps, all runs

  /** Raising a flag and waking up spuriously say nothing new about any case. */
  lemma FlagStepInv(br: Branch, s: State, step: Step)
    requires Inv(br, s) && Enabled(br, s, step) && !step.SchedulerStep? && !step.TaskStep?
    ensures Inv(br, Next(br, s, step))
  {
    var t := Next(br, s, step);
    forall j | 0 <= j < |br.cases| ensures CaseInv(br, t, j) {
      assert CaseInv(br, s, j);
    }
  }

  lemma NextInv(br: Branch, s: State, step: Step)
    requires Inv(br, s) && Enabled(br, s, step)
    ensures Inv(br, Next(br, s, step))
  {
    match step
    case SchedulerStep =>
      if s.phase.Scheduling? {
        CaseStepInv(br, s, s.phase.k, s.phase.pc);
      } else {
        EdgeStepInv(br, s);
      }
    case TaskStep(j) => TaskInvariant(br, s, j);
    case _ => FlagStepInv(br, s, step);
  }

  /** The invariant holds in every reachable state of every run. */
  lemma {:induction false} RunsInv(br: Branch, steps: seq<Step>, t: State)
    requires Runs(br, Init(br), steps, t)
    ensures Inv(br, t)
  {
    if steps == [] {
      InitInv(br);
    } else {
      var init := steps[..|steps| - 1];
      var last := steps[|steps| - 1];
      var m: State :| Runs(br, Init(br), init, m) && Shaped(br, m) && Enabled(br, m, last) && t == Next(br, m, last);
      RunsInv(br, init, m);
      NextInv(br, m, last);
    }
  }
}
