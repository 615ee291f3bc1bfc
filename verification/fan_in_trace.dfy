/**
  The observer contract of a parallel fan-in: started first, completed last, and for
  each selected case one scheduled event before one case-completed event.
 */
module FanInTrace {
  import opened Core
  import opened FanIn
  import opened ParallelFanIn
  import opened ParallelFanInInvariant
  import opened FanInRefinement

  predicate IsScheduled(e: Event) {
    e.FanInCaseScheduled?
  }

  predicate IsCompleted(e: Event) {
    e.FanInCaseCompleted?
  }

  function Count(events: seq<Event>, what: Event -> bool): nat {
    if events == [] then 0 else Count(events[..|events| - 1], what) + if what(events[|events| - 1]) then 1 else 0
  }

  function CountLog(log: seq<Entry>, what: Event -> bool): nat {
    if log == [] then 0 else CountLog(log[..|log| - 1], what) + if what(log[|log| - 1].event) then 1 else 0
  }

  /** The events of the first n cases, counted case by case. */
  function CountCases(log: seq<Entry>, n: nat, what: Event -> bool): nat {
    if n == 0 then 0 else CountCases(log, n - 1, what) + Count(Project(log, n - 1), what)
  }

  lemma {:induction false} CountConcat(a: seq<Event>, b: seq<Event>, what: Event -> bool)
    ensures Count(a + b, what) == Count(a, what) + Count(b, what)
  {
    if b == [] {
      assert a + b == a;
    } else {
      assert (a + b)[..|a + b| - 1] == a + b[..|b| - 1];
      CountConcat(a, b[..|b| - 1], what);
    }
  }

  lemma CountOne(e: Event, what: Event -> bool)
    ensures Count([e], what) == if what(e) then 1 else 0
  {
    assert [e][..0] == [];
  }

  lemma {:induction false} CountNone(events: seq<Event>, what: Event -> bool)
    requires forall e :: e in events ==> !what(e)
    ensures Count(events, what) == 0
  {
    if events != [] {
      CountNone(events[..|events| - 1], what);
    }
  }

  lemma {:induction false} CountCasesAppend(log: seq<Entry>, e: Entry, n: nat, what: Event -> bool)
    ensures CountCases(log + [e], n, what)
            == CountCases(log, n, what) + if 0 <= e.owner < n && what(e.event) then 1 else 0
  {
    if n > 0 {
      CountCasesAppend(log, e, n - 1, what);
      ProjectAppend(log, e, n - 1);
      CountConcat(Project(log, n - 1), [e.event], what);
      CountOne(e.event, what);
      assert Project(log, n - 1) + [] == Project(log, n - 1);
    }
  }

  lemma {:induction false} CountNothing(n: nat, what: Event -> bool)
    ensures CountCases([], n, what) == 0
  {
    if n > 0 {
      CountNothing(n - 1, what);
    }
  }

  /** If only cases emit an event, counting the log and counting case by case agree. */
  lemma {:induction false} CountByCase(log: seq<Entry>, n: nat, what: Event -> bool)
    requires forall e :: e in log && what(e.event) ==> 0 <= e.owner < n
    ensures CountLog(log, what) == CountCases(log, n, what)
  {
    if log == [] {
      CountNothing(n, what);
    } else {
      var init, last := log[..|log| - 1], log[|log| - 1];
      assert log == init + [last];
      CountByCase(init, n, what);
      CountCasesAppend(init, last, n, what);
    }
  }

  lemma {:induction false} ProjectHas(log: seq<Entry>, e: Entry)
    requires e in log
    ensures e.event in Project(log, e.owner)
  {
    if log[|log| - 1] != e {
      ProjectHas(log[..|log| - 1], e);
    }
  }

  /** A case that ran to its end: scheduled and completed once each if selected, not at all otherwise. */
  lemma CaseEventsPair(br: Branch, j: nat, cut: nat)
    requires j < |br.cases|
    ensures var events := CaseEvents(br, j, cut);
            var pairs := if Selected(br, j, cut) then 1 else 0;
            && Count(events, IsScheduled) == pairs
            && Count(events, IsCompleted) == pairs
            && (Selected(br, j, cut) ==>
                  && |events| > 4
                  && events[3] == FanInCaseScheduled(br.id, j, Sid(br, j))
                  && events[|events| - 1] == ReportEvent(br, j, OutcomeOf(br, j).Yield?))
  {
    var head := PredicateEvents(br, j);
    CountNone(head, IsScheduled);
    CountNone(head, IsCompleted);
    if Selected(br, j, cut) {
      var announce := [CaseSelected(br.id, j, Pid(br, j)), FanInCaseScheduled(br.id, j, Sid(br, j))];
      var stage, report := StageEvents(br, j), [ReportEvent(br, j, OutcomeOf(br, j).Yield?)];
      SelectedPair(announce, stage, report, IsScheduled);
      SelectedPair(announce, stage, report, IsCompleted);
      CountNone(stage, IsScheduled);
      CountNone(stage, IsCompleted);
      CountConcat(head, announce + stage + report, IsScheduled);
      CountConcat(head, announce + stage + report, IsCompleted);
    } else {
      var tail := CaseEvents(br, j, cut)[|head|..];
      assert CaseEvents(br, j, cut) == head + tail;
      CountNone(CaseEvents(br, j, cut), IsScheduled);
      CountNone(CaseEvents(br, j, cut), IsCompleted);
    }
  }

  lemma SelectedPair(announce: seq<Event>, stage: seq<Event>, report: seq<Event>, what: Event -> bool)
    requires |announce| == 2 && |report| == 1
    ensures Count(announce + stage + report, what)
            == (if what(announce[0]) then 1 else 0) + (if what(announce[1]) then 1 else 0)
               + Count(stage, what) + (if what(report[0]) then 1 else 0)
  {
    assert announce == [announce[0]] + [announce[1]] && report == [report[0]];
    CountConcat([announce[0]], [announce[1]], what);
    CountOne(announce[0], what);
    CountOne(announce[1], what);
    CountOne(report[0], what);
    CountConcat(announce, stage, what);
    CountConcat(announce + stage, report, what);
  }

  /** Case j has as many events of a kind as it is selected times: once or never. */
  ghost predicate OncePerSelection(br: Branch, log: seq<Entry>, cut: nat, j: nat, what: Event -> bool)
    requires j < |br.cases|
  {
    Count(Project(log, j), what) == if Selected(br, j, cut) then 1 else 0
  }

  lemma {:induction false} CountSelected(br: Branch, log: seq<Entry>, cut: nat, k: nat, what: Event -> bool)
    requires k <= |br.cases| && forall j :: 0 <= j < k ==> OncePerSelection(br, log, cut, j, what)
    ensures CountCases(log, k, what) == SelectedCount(br, k, cut)
  {
    if k > 0 {
      CountSelected(br, log, cut, k - 1, what);
      assert OncePerSelection(br, log, cut, k - 1, what);
    }
  }

  /** A selected case reports its completion once, unless its post was refused. */
  ghost predicate OnceUnlessRefused(br: Branch, t: State, j: nat)
    requires j < |br.cases| == |t.tasks|
  {
    Count(Project(t.log, j), IsCompleted) + (if t.tasks[j].Refused? then 1 else 0)
    == if Selected(br, j, t.cut) then 1 else 0
  }

  lemma {:induction false} CountCompleted(br: Branch, t: State, k: nat)
    requires k <= |br.cases| == |t.tasks| && forall j :: 0 <= j < k ==> OnceUnlessRefused(br, t, j)
    ensures CountCases(t.log, k, IsCompleted) + RefusedTasks(t.tasks[..k]) == SelectedCount(br, k, t.cut)
  {
    if k > 0 {
      CountCompleted(br, t, k - 1);
      assert OnceUnlessRefused(br, t, k - 1);
      assert t.tasks[..k][..k - 1] == t.tasks[..k - 1];
    }
  }

  /** Among a case's own events the scheduled one comes fourth and the case-completed one last. */
  ghost predicate ScheduledThenCompleted(br: Branch, log: seq<Entry>, j: nat)
    requires j < |br.cases|
  {
    var own := Project(log, j);
    && |own| > 4
    && own[3] == FanInCaseScheduled(br.id, j, Sid(br, j))
    && own[|own| - 1] == ReportEvent(br, j, OutcomeOf(br, j).Yield?)
  }

  /** The events of a case whose post was refused end with its being scheduled. */
  lemma RefusedEvents(br: Branch, t: State, j: nat)
    requires Inv(br, t) && t.phase.Returned? && j < |br.cases| && t.tasks[j].Refused?
    ensures Selected(br, j, t.cut)
    ensures Project(t.log, j)
            == PredicateEvents(br, j) + [CaseSelected(br.id, j, Pid(br, j)), FanInCaseScheduled(br.id, j, Sid(br, j))]
  {
    assert CaseInv(br, t, j);
  }

  lemma RefusedPair(br: Branch, t: State, j: nat)
    requires Inv(br, t) && t.phase.Returned? && j < |br.cases| && t.tasks[j].Refused?
    ensures OncePerSelection(br, t.log, t.cut, j, IsScheduled) && OnceUnlessRefused(br, t, j)
  {
    RefusedEvents(br, t, j);
    var head := PredicateEvents(br, j);
    var selected, scheduled := CaseSelected(br.id, j, Pid(br, j)), FanInCaseScheduled(br.id, j, Sid(br, j));
    assert [selected, scheduled] == [selected] + [scheduled];
    CountNone(head, IsScheduled);
    CountNone(head + [selected, scheduled], IsCompleted);
    CountOne(selected, IsScheduled);
    CountOne(scheduled, IsScheduled);
    CountConcat([selected], [scheduled], IsScheduled);
    CountConcat(head, [selected, scheduled], IsScheduled);
  }

  /** What a returned run says about one case. */
  lemma ReturnedPair(br: Branch, t: State, j: nat)
    requires Inv(br, t) && t.phase.Returned? && j < |br.cases|
    ensures OncePerSelection(br, t.log, t.cut, j, IsScheduled) && OnceUnlessRefused(br, t, j)
    ensures Selected(br, j, t.cut) && !t.tasks[j].Refused? ==> ScheduledThenCompleted(br, t.log, j)
  {
    if t.tasks[j].Refused? {
      RefusedPair(br, t, j);
    } else {
      ReturnedCase(br, t, j);
      CaseEventsPair(br, j, t.cut);
    }
  }

  /** Only cases emit scheduled and case-completed events. */
  lemma PairsAreOwned(br: Branch, t: State, e: Entry)
    requires NodeInv(br, t) && t.phase.Returned? && e in t.log && NODE <= e.owner < |br.cases|
    ensures IsScheduled(e.event) || IsCompleted(e.event) ==> 0 <= e.owner < |br.cases|
  {
    ProjectHas(t.log, e);
  }

  lemma ReturnedCounts(br: Branch, t: State)
    requires Shaped(br, t) && TallyInv(br, t) && t.phase.Returned?
    requires forall j :: 0 <= j < |br.cases| ==>
               OncePerSelection(br, t.log, t.cut, j, IsScheduled) && OnceUnlessRefused(br, t, j)
    requires forall e :: e in t.log && (IsScheduled(e.event) || IsCompleted(e.event)) ==> 0 <= e.owner < |br.cases|
    ensures CountLog(t.log, IsScheduled) == t.tally.selected
    ensures CountLog(t.log, IsCompleted) + RefusedTasks(t.tasks) == t.tally.selected
  {
    var n := |br.cases|;
    CountByCase(t.log, n, IsScheduled);
    CountByCase(t.log, n, IsCompleted);
    CountSelected(br, t.log, t.cut, n, IsScheduled);
    CountCompleted(br, t, n);
    assert t.tasks[..n] == t.tasks;
  }

  /**
    The observer contract. In every run, whatever the interleaving, whenever a stop is
    requested and even if the pool is stopped, the log opens with the start and closes with
    the completion of the node; there is one scheduled event for each reported selected case
    and one case-completed event for each of them whose post was not refused, the scheduled
    one first.
   */
  lemma ObserverContract(br: Branch, steps: seq<Step>, t: State)
    requires Runs(br, Init(br), steps, t) && t.phase.Returned?
    ensures |t.log| >= 2 && t.log[0] == Entry(NODE, FanInStarted(br.id, |br.cases|))
    ensures t.log[|t.log| - 1] == Entry(NODE, CompletedEvent(br, t.tally))
    ensures CountLog(t.log, IsScheduled) == t.tally.selected
    ensures CountLog(t.log, IsCompleted) == t.tally.selected - RefusedTasks(t.tasks)
    ensures CountLog(t.log, IsCompleted) == CountLog(t.log, IsScheduled) <==> t.phase.result.Ok?
    ensures |t.tasks| == |br.cases| && forall j :: 0 <= j < |br.cases| ==>
              Selected(br, j, t.cut) && !t.tasks[j].Refused? ==> ScheduledThenCompleted(br, t.log, j)
  {
    RunsInv(br, steps, t);
    RunsOwners(br, steps, t);
    LogIsBracketed(br, steps, t);
    TallyConservation(br, steps, t);
    forall j: nat | j < |br.cases|
      ensures OncePerSelection(br, t.log, t.cut, j, IsScheduled) && OnceUnlessRefused(br, t, j)
      ensures Selected(br, j, t.cut) && !t.tasks[j].Refused? ==> ScheduledThenCompleted(br, t.log, j)
    {
      ReturnedPair(br, t, j);
    }
    forall e | e in t.log && (IsScheduled(e.event) || IsCompleted(e.event)) ensures 0 <= e.owner < |br.cases| {
      PairsAreOwned(br, t, e);
    }
    ReturnedCounts(br, t);
  }
}
