/**
  What the pool's invariant buys: in every run, once nobody posts any more, the
  pool's own steps come to an end, and at that end every accepted task has
  finished, no idle waiter is asleep and a stopping pool can be joined.
 */
module ThreadPoolProgress {
  import opened ThreadPool

  /** Steps of the pool's own threads and of notifications on their way; spurious wakeups and clients are left out. */
  predicate Internal(step: Step) {
    step.DeliverOne? || step.DeliverAll? || step.WorkerTest? || step.WorkerFinish? || step.WorkerNotify?
    || step.WaiterTest?
  }

  // ---------------------------------------------------------------- a decreasing measure

  function Weight(worker: Worker, waiters: nat): nat {
    match worker
    case Awake => 1
    case Running(_) => waiters + 3
    case Notifying => waiters + 2
    case _ => 0
  }

  function WorkerRank(workers: seq<Worker>, waiters: nat): nat {
    if workers == [] then 0
    else WorkerRank(workers[..|workers| - 1], waiters) + Weight(workers[|workers| - 1], waiters)
  }

  function WaiterRank(waiters: seq<Waiter>): nat {
    if waiters == [] then 0
    else WaiterRank(waiters[..|waiters| - 1]) + if waiters[|waiters| - 1].Checking? then 1 else 0
  }

  function Times(count: nat, unit: nat): nat {
    if count == 0 then 0 else Times(count - 1, unit) + unit
  }

  function Rank(s: State): nat {
    WorkerRank(s.workers, |s.waiters|) + Times(|s.shared.tasks|, |s.waiters| + 3)
    + 2 * s.notifyOne + Times(s.notifyAll, |s.workers| + 1) + WaiterRank(s.waiters)
  }

  lemma {:induction false} UpdateWorkerRank(workers: seq<Worker>, w: nat, x: Worker, waiters: nat)
    requires w < |workers|
    ensures WorkerRank(workers[w := x], waiters)
            == WorkerRank(workers, waiters) - Weight(workers[w], waiters) + Weight(x, waiters)
  {
    var n := |workers| - 1;
    if w == n {
      assert workers[w := x][..n] == workers[..n];
    } else {
      assert workers[w := x][..n] == workers[..n][w := x];
      UpdateWorkerRank(workers[..n], w, x, waiters);
    }
  }

  lemma {:induction false} WakeWorkersRank(workers: seq<Worker>, waiters: nat)
    ensures WorkerRank(WakeWorkers(workers), waiters) <= WorkerRank(workers, waiters) + |workers|
  {
    if workers != [] {
      var n := |workers| - 1;
      assert WakeWorkers(workers)[..n] == WakeWorkers(workers[..n]);
      WakeWorkersRank(workers[..n], waiters);
    }
  }

  lemma {:induction false} UpdateWaiterRank(waiters: seq<Waiter>, i: nat, x: Waiter)
    requires i < |waiters|
    ensures WaiterRank(waiters[i := x])
            == WaiterRank(waiters) - (if waiters[i].Checking? then 1 else 0) + (if x.Checking? then 1 else 0)
  {
    var n := |waiters| - 1;
    if i == n {
      assert waiters[i := x][..n] == waiters[..n];
    } else {
      assert waiters[i := x][..n] == waiters[..n][i := x];
      UpdateWaiterRank(waiters[..n], i, x);
    }
  }

  lemma {:induction false} WaiterRankBound(waiters: seq<Waiter>)
    ensures WaiterRank(WakeWaiters(waiters)) <= |waiters|
  {
    if waiters != [] {
      var n := |waiters| - 1;
      assert WakeWaiters(waiters)[..n] == WakeWaiters(waiters[..n]);
      WaiterRankBound(waiters[..n]);
    }
  }

  lemma WorkerStepDecreases(s: State, step: Step)
    requires Enabled(s, step) && (step.WorkerTest? || step.WorkerFinish? || step.WorkerNotify?)
    ensures Rank(Next(s, step)) < Rank(s)
  {
    WaiterRankBound(s.waiters);
    if step.WorkerTest? {
      WorkerTestDecreases(s, step.w);
    } else {
      UpdateWorkerRank(s.workers, step.w, Next(s, step).workers[step.w], |s.waiters|);
    }
  }

  lemma WorkerTestDecreases(s: State, w: nat)
    requires Enabled(s, WorkerTest(w))
    ensures Rank(Next(s, WorkerTest(w))) < Rank(s)
  {
    UpdateWorkerRank(s.workers, w, Next(s, WorkerTest(w)).workers[w], |s.waiters|);
    WaiterRankBound(s.waiters);
  }

  lemma StepDecreases(s: State, step: Step)
    requires Enabled(s, step) && Internal(step)
    ensures Rank(Next(s, step)) < Rank(s)
    ensures |Next(s, step).waiters| == |s.waiters| && |Next(s, step).workers| == |s.workers|
  {
    var t, m := Next(s, step), |s.waiters|;
    if step.WorkerTest? || step.WorkerFinish? || step.WorkerNotify? {
      WorkerStepDecreases(s, step);
    } else if step.DeliverOne? {
      if SomeAsleep(s.workers) {
        UpdateWorkerRank(s.workers, step.sleeper, Awake, m);
      }
    } else if step.DeliverAll? {
      WakeWorkersRank(s.workers, m);
    } else {
      UpdateWaiterRank(s.waiters, step.i, t.waiters[step.i]);
    }
  }

  ghost predicate InternalRun(s: State, steps: seq<Step>, t: State) {
    Runs(s, steps, t) && forall step :: step in steps ==> Internal(step)
  }

  /** The pool's own steps accept nothing and there are at most as many of them as the measure says. */
  lemma {:induction false} InternalRunsAreBounded(s: State, steps: seq<Step>, t: State)
    requires InternalRun(s, steps, t)
    ensures |steps| + Rank(t) <= Rank(s)
    ensures t.accepted == s.accepted && t.shared.stop == s.shared.stop
  {
    if steps != [] {
      var init, last := steps[..|steps| - 1], steps[|steps| - 1];
      var m: State :| Runs(s, init, m) && Enabled(m, last) && t == Next(m, last);
      InternalRunsAreBounded(s, init, m);
      StepDecreases(m, last);
    }
  }

  // ---------------------------------------------------------------- where the measure ends

  ghost predicate Stuck(s: State) {
    forall step: Step :: Internal(step) ==> !Enabled(s, step)
  }

  ghost predicate Drained(s: State) {
    && s.shared.tasks == [] && s.shared.active == 0
    && s.started == s.accepted
    && multiset(s.finished) == multiset(s.accepted)
    && (forall i :: 0 <= i < |s.waiters| ==> s.waiters[i].Released?)
    && (forall w :: 0 <= w < |s.workers| ==> s.workers[w] == if s.shared.stop then Exited else Asleep)
  }

  lemma {:induction false} NoneWakeful(workers: seq<Worker>)
    requires forall w :: 0 <= w < |workers| ==> !workers[w].Awake?
    ensures Wakeful(workers) == 0
  {
    if workers != [] {
      NoneWakeful(workers[..|workers| - 1]);
    }
  }

  lemma StuckWorkers(s: State)
    requires Stuck(s)
    ensures s.notifyOne == 0 && s.notifyAll == 0
    ensures forall w :: 0 <= w < |s.workers| ==> s.workers[w].Asleep? || s.workers[w].Exited?
    ensures forall i :: 0 <= i < |s.waiters| ==> !s.waiters[i].Checking?
  {
    forall w | 0 <= w < |s.workers| ensures s.workers[w].Asleep? || s.workers[w].Exited? {
      assert !Enabled(s, WorkerTest(w)) && !Enabled(s, WorkerFinish(w)) && !Enabled(s, WorkerNotify(w));
    }
    forall i | 0 <= i < |s.waiters| ensures !s.waiters[i].Checking? {
      assert !Enabled(s, WaiterTest(i));
    }
    assert !Enabled(s, DeliverAll);
    if s.notifyOne > 0 {
      var w := if SomeAsleep(s.workers) then var w: nat :| w < |s.workers| && s.workers[w].Asleep?; w else 0;
      assert Enabled(s, DeliverOne(w));
    }
  }

  /** A pool that cannot move on its own has nothing left to do. */
  lemma StuckIsDrained(s: State)
    requires Inv(s) && Stuck(s)
    ensures Drained(s)
  {
    StuckWorkers(s);
    NoneWakeful(s.workers);
    NoneBusy(s.workers);
    assert s.workers[0].Exited? || SomeAsleep(s.workers);
    assert s.shared.tasks == [];
    assert s.started == s.accepted;
    forall w | 0 <= w < |s.workers| ensures s.workers[w] == if s.shared.stop then Exited else Asleep {
      assert s.workers[w].Asleep? ==> SomeAsleep(s.workers);
    }
  }

  /**
    No wakeup is lost. From any reachable state, whatever clients did before, the pool's
    own steps end after at most Rank steps, and where they end every task accepted so far
    has started in acceptance order and finished, every idle waiter is released, and the
    workers of a stopping pool have exited, so its destructor can join them.
   */
  lemma EveryMaximalRunDrains(threads: nat, history: seq<Step>, s: State, steps: seq<Step>, t: State)
    requires Runs(Init(threads), history, s) && InternalRun(s, steps, t) && Stuck(t)
    ensures |steps| <= Rank(s)
    ensures Drained(t) && t.accepted == s.accepted && s.started <= t.started
  {
    InitInv(threads);
    RunsKeepInv(Init(threads), history, s);
    RunsKeepInv(s, steps, t);
    InternalRunsAreBounded(s, steps, t);
    StuckIsDrained(t);
  }

  /** In every reachable state the accepted tasks are the queued, the running and the finished ones. */
  lemma PoolConservation(threads: nat, history: seq<Step>, s: State)
    requires Runs(Init(threads), history, s)
    ensures s.accepted == s.started + s.shared.tasks
    ensures multiset(s.accepted) == multiset(s.shared.tasks) + InHand(s.workers) + multiset(s.finished)
    ensures s.shared.active == |InHand(s.workers)| <= |s.workers|
    ensures forall w :: 0 <= w < |s.workers| && s.workers[w].Running? ==> s.shared.active > 0
  {
    InitInv(threads);
    RunsKeepInv(Init(threads), history, s);
    BusyBound(s.workers);
    forall w | 0 <= w < |s.workers| && s.workers[w].Running? ensures s.shared.active > 0 {
      BusyPositive(s.workers, w);
    }
  }

  /**
    No lost wake-up, in any reachable state. Behind a non-empty queue some worker is up:
    awake, running a task or about to notify. While a worker sleeps, the queued tasks are
    covered one by one by awake workers and pending notifications, and a stop is on its way.
   */
  lemma SleepersLeaveNoTaskBehind(threads: nat, history: seq<Step>, s: State)
    requires Runs(Init(threads), history, s)
    ensures s.shared.tasks != [] ==>
              || (exists w :: 0 <= w < |s.workers| && !s.workers[w].Asleep? && !s.workers[w].Exited?)
              || (s.notifyAll > 0 || s.notifyOne > 0)
    ensures SomeAsleep(s.workers) ==>
              && (s.notifyAll > 0 || |s.shared.tasks| <= Wakeful(s.workers) + s.notifyOne)
              && (s.shared.stop ==> s.notifyAll > 0)
  {
    InitInv(threads);
    RunsKeepInv(Init(threads), history, s);
    if s.shared.tasks != [] {
      if SomeAsleep(s.workers) {
        if Wakeful(s.workers) > 0 {
          WakefulWorker(s.workers);
        }
      } else {
        assert !s.workers[0].Asleep? && !s.workers[0].Exited?;
      }
    }
  }

  lemma {:induction false} WakefulWorker(workers: seq<Worker>)
    requires Wakeful(workers) > 0
    ensures exists w :: 0 <= w < |workers| && workers[w].Awake?
  {
    var n := |workers| - 1;
    if !workers[n].Awake? {
      WakefulWorker(workers[..n]);
      var w :| 0 <= w < n && workers[..n][w].Awake?;
      assert workers[w].Awake?;
    }
  }

  // ---------------------------------------------------------------- first in, first out

  lemma NextExtends(s: State, step: Step)
    requires Enabled(s, step)
    ensures s.accepted <= Next(s, step).accepted && s.started <= Next(s, step).started
  {
  }

  lemma {:induction false} RunsExtend(s: State, steps: seq<Step>, t: State)
    requires Runs(s, steps, t)
    ensures s.accepted <= t.accepted && s.started <= t.started
  {
    if steps != [] {
      var init, last := steps[..|steps| - 1], steps[|steps| - 1];
      var m: State :| Runs(s, init, m) && Enabled(m, last) && t == Next(m, last);
      RunsExtend(s, init, m);
      NextExtends(m, last);
    }
  }

  /**
    First in, first out, under any further posts. The task at place i of the queue is the
    one the pool takes i takes later; until then it stands i places behind the takes made so
    far, however many tasks clients post meanwhile.
   */
  lemma QueuedTaskKeepsItsTurn(s: State, steps: seq<Step>, t: State, i: nat)
    requires Inv(s) && Runs(s, steps, t) && i < |s.shared.tasks|
    ensures |s.started| <= |t.started|
    ensures var takes := |t.started| - |s.started|;
            if takes <= i then i - takes < |t.shared.tasks| && t.shared.tasks[i - takes] == s.shared.tasks[i]
            else t.started[|s.started| + i] == s.shared.tasks[i]
  {
    RunsKeepInv(s, steps, t);
    RunsExtend(s, steps, t);
    PlaceKept(s.started, s.shared.tasks, t.started, t.shared.tasks, i);
  }

  lemma PlaceKept(started: seq<Task>, waiting: seq<Task>, started': seq<Task>, waiting': seq<Task>, i: nat)
    requires i < |waiting| && |started| <= |started'| && started + waiting <= started' + waiting'
    ensures var takes := |started'| - |started|;
            if takes <= i then i - takes < |waiting'| && waiting'[i - takes] == waiting[i]
            else started'[|started| + i] == waiting[i]
  {
    var at := |started| + i;
    assert (started + waiting)[at] == waiting[i];
    assert (started' + waiting')[at] == waiting[i];
  }

  // ---------------------------------------------------------------- waiting inside a task

  lemma {:induction false} StillRunning(s: State, steps: seq<Step>, t: State, w: nat)
    requires Inv(s) && Runs(s, steps, t) && w < |s.workers| && s.workers[w].Running? && WorkerFinish(w) !in steps
    ensures Inv(t) && |t.workers| == |s.workers| && t.workers[w] == s.workers[w]
  {
    RunsKeepInv(s, steps, t);
    if steps != [] {
      var init, last := steps[..|steps| - 1], steps[|steps| - 1];
      var m: State :| Runs(s, init, m) && Enabled(m, last) && t == Next(m, last);
      assert steps == init + [last];
      StillRunning(s, init, m, w);
      NextStillRunning(m, last, w);
    }
  }

  lemma NextStillRunning(s: State, step: Step, w: nat)
    requires Enabled(s, step) && w < |s.workers| && s.workers[w].Running? && step != WorkerFinish(w)
    ensures w < |Next(s, step).workers| && Next(s, step).workers[w] == s.workers[w]
  {
  }

  /**
    Why an idle wait is refused to the pool's own tasks: as long as a task runs the pool is
    not idle, whatever else happens, so a task that waited would wait for itself.
   */
  lemma SelfWaitNeverPasses(s: State, steps: seq<Step>, t: State, w: nat)
    requires Inv(s) && Runs(s, steps, t) && w < |s.workers| && s.workers[w].Running? && WorkerFinish(w) !in steps
    ensures !Idle(t.shared)
  {
    StillRunning(s, steps, t, w);
    BusyPositive(t.workers, w);
  }
}
