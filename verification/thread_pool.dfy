/**
  The worker pool: a mutex-protected task queue, workers and idle waiters asleep on
  condition variables, and a destructor that drains the queue. A step is one
  critical section, one delivered notification or one spurious wakeup; unlocking
  and notifying are separate steps, so a notification that is still on its way is
  part of the state.
 */
module ThreadPool {

  type Task = nat

  datatype Worker =
    | Awake                // about to take the lock and test its wait condition
    | Asleep
    | Running(task: Task)
    | Notifying            // finished the last task, about to wake the idle waiters
    | Exited

  datatype Waiter = Checking | Sleeping | Released

  /** What the mutex protects. */
  datatype Shared = Shared(tasks: seq<Task>, active: nat, stop: bool)

  datatype State = State(
    shared: Shared, workers: seq<Worker>, waiters: seq<Waiter>,
    notifyOne: nat,        // posters that have unlocked but not notified yet
    notifyAll: nat,
    accepted: seq<Task>, started: seq<Task>, finished: seq<Task>)

  datatype Step =
    | Post(task: Task)
    | PostRange(range: seq<Task>)
    | Shutdown
    | WaitIdle
    | DeliverOne(sleeper: nat)
    | DeliverAll
    | WorkerTest(w: nat)
    | WorkerFinish(w: nat)
    | WorkerNotify(w: nat)
    | WaiterTest(i: nat)
    | SpuriousWorker(w: nat)
    | SpuriousWaiter(i: nat)

  function Init(threads: nat): State {
    State(Shared([], 0, false), seq(if threads == 0 then 1 else threads, _ => Awake), [], 0, 0, [], [], [])
  }

  // ---------------------------------------------------------------- critical sections

  /** What a worker leaves its critical section with. */
  datatype Taken = Slept | Left | Took(task: Task)

  function Append(g: Shared, range: seq<Task>): Shared {
    if g.stop then g else g.(tasks := g.tasks + range)
  }

  function TakeResult(g: Shared): Taken {
    if g.tasks != [] then Took(g.tasks[0]) else if g.stop then Left else Slept
  }

  function AfterTake(g: Shared): Shared {
    if g.tasks != [] then g.(tasks := g.tasks[1..], active := g.active + 1) else g
  }

  function AfterFinish(g: Shared): Shared {
    if g.active > 0 then g.(active := g.active - 1) else g
  }

  predicate Idle(g: Shared) {
    g.tasks == [] && g.active == 0
  }

  // ---------------------------------------------------------------- steps

  predicate SomeAsleep(workers: seq<Worker>) {
    exists w :: 0 <= w < |workers| && workers[w].Asleep?
  }

  predicate Enabled(s: State, step: Step) {
    match step
    case Shutdown => !s.shared.stop
    case DeliverOne(w) => s.notifyOne > 0 && (SomeAsleep(s.workers) ==> w < |s.workers| && s.workers[w].Asleep?)
    case DeliverAll => s.notifyAll > 0
    case WorkerTest(w) => w < |s.workers| && s.workers[w].Awake?
    case WorkerFinish(w) => w < |s.workers| && s.workers[w].Running?
    case WorkerNotify(w) => w < |s.workers| && s.workers[w].Notifying?
    case WaiterTest(i) => i < |s.waiters| && s.waiters[i].Checking?
    case SpuriousWorker(w) => w < |s.workers| && s.workers[w].Asleep?
    case SpuriousWaiter(i) => i < |s.waiters| && s.waiters[i].Sleeping?
    case _ => true
  }

  function WakeWorkers(workers: seq<Worker>): seq<Worker> {
    seq(|workers|, w requires 0 <= w < |workers| => if workers[w].Asleep? then Awake else workers[w])
  }

  function WakeWaiters(waiters: seq<Waiter>): seq<Waiter> {
    seq(|waiters|, i requires 0 <= i < |waiters| => if waiters[i].Sleeping? then Checking else waiters[i])
  }

  function Accept(s: State, range: seq<Task>): State {
    s.(shared := Append(s.shared, range), accepted := if s.shared.stop then s.accepted else s.accepted + range)
  }

  function Next(s: State, step: Step): State
    requires Enabled(s, step)
  {
    match step
    case Post(t) => if s.shared.stop then s else Accept(s, [t]).(notifyOne := s.notifyOne + 1)
    case PostRange(range) => if s.shared.stop then s else Accept(s, range).(notifyAll := s.notifyAll + 1)
    case Shutdown => s.(shared := s.shared.(stop := true), notifyAll := s.notifyAll + 1)
    case WaitIdle => s.(waiters := s.waiters + [Checking])
    case DeliverOne(w) =>
      s.(notifyOne := s.notifyOne - 1,
         workers := if SomeAsleep(s.workers) then s.workers[w := Awake] else s.workers)
    case DeliverAll => s.(notifyAll := s.notifyAll - 1, workers := WakeWorkers(s.workers))
    case WorkerTest(w) =>
      (match TakeResult(s.shared)
       case Slept => s.(workers := s.workers[w := Asleep])
       case Left => s.(workers := s.workers[w := Exited])
       case Took(t) =>
         s.(shared := AfterTake(s.shared), workers := s.workers[w := Running(t)], started := s.started + [t]))
    case WorkerFinish(w) =>
      var g := AfterFinish(s.shared);
      s.(shared := g, workers := s.workers[w := if Idle(g) then Notifying else Awake],
         finished := s.finished + [s.workers[w].task])
    case WorkerNotify(w) => s.(workers := s.workers[w := Awake], waiters := WakeWaiters(s.waiters))
    case WaiterTest(i) => s.(waiters := s.waiters[i := if Idle(s.shared) then Released else Sleeping])
    case SpuriousWorker(w) => s.(workers := s.workers[w := Awake])
    case SpuriousWaiter(i) => s.(waiters := s.waiters[i := Checking])
  }

  ghost predicate Runs(s: State, steps: seq<Step>, t: State)
    decreases |steps|
  {
    if steps == [] then t == s
    else
      var init := steps[..|steps| - 1];
      exists m: State :: Runs(s, init, m) && Enabled(m, steps[|steps| - 1]) && t == Next(m, steps[|steps| - 1])
  }

  // ---------------------------------------------------------------- counting workers

  function Busy(workers: seq<Worker>): nat {
    if workers == [] then 0
    else Busy(workers[..|workers| - 1]) + if workers[|workers| - 1].Running? then 1 else 0
  }

  function Wakeful(workers: seq<Worker>): nat {
    if workers == [] then 0
    else Wakeful(workers[..|workers| - 1]) + if workers[|workers| - 1].Awake? then 1 else 0
  }

  /** The tasks that workers are running. */
  function InHand(workers: seq<Worker>): multiset<Task> {
    if workers == [] then multiset{} else InHand(workers[..|workers| - 1]) + Load(workers[|workers| - 1])
  }

  function Load(worker: Worker): multiset<Task> {
    if worker.Running? then multiset{worker.task} else multiset{}
  }

  lemma UpdateWorker(workers: seq<Worker>, w: nat, x: Worker)
    requires w < |workers|
    ensures Busy(workers[w := x]) ==
            Busy(workers) - (if workers[w].Running? then 1 else 0) + (if x.Running? then 1 else 0)
    ensures Wakeful(workers[w := x]) ==
            Wakeful(workers) - (if workers[w].Awake? then 1 else 0) + (if x.Awake? then 1 else 0)
    ensures !workers[w].Running? && !x.Running? ==> InHand(workers[w := x]) == InHand(workers)
    ensures !workers[w].Running? && x.Running? ==> InHand(workers[w := x]) == InHand(workers) + multiset{x.task}
    ensures workers[w].Running? && !x.Running? ==>
              InHand(workers) == InHand(workers[w := x]) + multiset{workers[w].task}
  {
    UpdateBusy(workers, w, x);
    UpdateWakeful(workers, w, x);
    UpdateInHand(workers, w, x);
    Exchanged(InHand(workers[w := x]), InHand(workers), Load(workers[w]), Load(x));
  }

  lemma Exchanged(a: multiset<Task>, b: multiset<Task>, l: multiset<Task>, x: multiset<Task>)
    requires a + l == b + x
    ensures l == multiset{} ==> a == b + x
    ensures x == multiset{} ==> b == a + l
    ensures l == multiset{} && x == multiset{} ==> a == b
  {
    assert a + multiset{} == a && b + multiset{} == b;
  }

  lemma ExchangedBehind(a: multiset<Task>, b: multiset<Task>, z: multiset<Task>, l: multiset<Task>, x: multiset<Task>)
    requires a + l == b + x
    ensures a + z + l == b + z + x
  {
    assert a + z + l == a + l + z;
  }

  lemma {:induction false} UpdateBusy(workers: seq<Worker>, w: nat, x: Worker)
    requires w < |workers|
    ensures Busy(workers[w := x]) ==
            Busy(workers) - (if workers[w].Running? then 1 else 0) + (if x.Running? then 1 else 0)
  {
    var n := |workers| - 1;
    if w == n {
      assert workers[w := x][..n] == workers[..n];
    } else {
      assert workers[w := x][..n] == workers[..n][w := x];
      UpdateBusy(workers[..n], w, x);
    }
  }

  lemma {:induction false} UpdateWakeful(workers: seq<Worker>, w: nat, x: Worker)
    requires w < |workers|
    ensures Wakeful(workers[w := x]) ==
            Wakeful(workers) - (if workers[w].Awake? then 1 else 0) + (if x.Awake? then 1 else 0)
  {
    var n := |workers| - 1;
    if w == n {
      assert workers[w := x][..n] == workers[..n];
    } else {
      assert workers[w := x][..n] == workers[..n][w := x];
      UpdateWakeful(workers[..n], w, x);
    }
  }

  lemma {:induction false} UpdateInHand(workers: seq<Worker>, w: nat, x: Worker)
    requires w < |workers|
    ensures InHand(workers[w := x]) + Load(workers[w]) == InHand(workers) + Load(x)
  {
    var n := |workers| - 1;
    InHandAfter(workers, w, x);
    if w == n {
      Swapped(InHand(workers[..n]), Load(x), Load(workers[n]));
    } else {
      UpdateInHand(workers[..n], w, x);
      ExchangedBehind(InHand(workers[..n][w := x]), InHand(workers[..n]), Load(workers[n]), Load(workers[w]), Load(x));
    }
  }

  lemma InHandAfter(workers: seq<Worker>, w: nat, x: Worker)
    requires w < |workers|
    ensures var n := |workers| - 1;
            InHand(workers[w := x]) == if w == n then InHand(workers[..n]) + Load(x)
                                       else InHand(workers[..n][w := x]) + Load(workers[n])
  {
    var n := |workers| - 1;
    if w == n {
      assert workers[w := x][..n] == workers[..n];
    } else {
      assert workers[w := x][..n] == workers[..n][w := x];
    }
  }

  lemma Swapped(a: multiset<Task>, b: multiset<Task>, c: multiset<Task>)
    ensures a + b + c == a + c + b
  {
  }

  lemma {:induction false} WakeKeepsWork(workers: seq<Worker>)
    ensures Busy(WakeWorkers(workers)) == Busy(workers)
    ensures InHand(WakeWorkers(workers)) == InHand(workers)
  {
    if workers != [] {
      var n := |workers| - 1;
      assert WakeWorkers(workers)[..n] == WakeWorkers(workers[..n]);
      WakeKeepsWork(workers[..n]);
    }
  }

  lemma {:induction false} BusyBound(workers: seq<Worker>)
    ensures Busy(workers) <= |workers|
    ensures |InHand(workers)| == Busy(workers)
  {
    if workers != [] {
      BusyBound(workers[..|workers| - 1]);
    }
  }

  lemma {:induction false} BusyPositive(workers: seq<Worker>, w: nat)
    requires w < |workers|
    ensures workers[w].Running? ==> Busy(workers) > 0
    ensures workers[w].Awake? ==> Wakeful(workers) > 0
  {
    if w < |workers| - 1 {
      BusyPositive(workers[..|workers| - 1], w);
    }
  }

  lemma {:induction false} NoneBusy(workers: seq<Worker>)
    requires forall w :: 0 <= w < |workers| ==> !workers[w].Running?
    ensures Busy(workers) == 0 && InHand(workers) == multiset{}
  {
    if workers != [] {
      NoneBusy(workers[..|workers| - 1]);
    }
  }

  lemma {:induction false} InitWorkers(n: nat)
    ensures Busy(seq(n, _ => Awake)) == 0 && InHand(seq(n, _ => Awake)) == multiset{}
  {
    NoneBusy(seq(n, _ => Awake));
  }

  // ---------------------------------------------------------------- invariant

  /** Accepted tasks are queued, running or finished, and start in acceptance order. */
  ghost predicate Conserved(s: State) {
    && s.accepted == s.started + s.shared.tasks
    && multiset(s.started) == InHand(s.workers) + multiset(s.finished)
    && s.shared.active == Busy(s.workers)
  }

  /** While a worker sleeps every queued task has an awake worker or a notification of its own on its way. */
  ghost predicate NoLostTask(s: State) {
    SomeAsleep(s.workers) ==>
      s.notifyAll > 0 || |s.shared.tasks| <= Wakeful(s.workers) + s.notifyOne
  }

  ghost predicate NoLostStop(s: State) {
    && (s.shared.stop && SomeAsleep(s.workers) ==> s.notifyAll > 0)
    && (forall w :: 0 <= w < |s.workers| && s.workers[w].Exited? ==> s.shared.stop && s.shared.tasks == [])
  }

  ghost predicate NoLostIdle(s: State) {
    (exists i :: 0 <= i < |s.waiters| && s.waiters[i].Sleeping?) && Idle(s.shared) ==>
      exists w :: 0 <= w < |s.workers| && s.workers[w].Notifying?
  }

  ghost predicate Inv(s: State) {
    |s.workers| > 0 && Conserved(s) && NoLostTask(s) && NoLostStop(s) && NoLostIdle(s)
  }

  lemma InitInv(threads: nat)
    ensures Inv(Init(threads))
  {
    InitWorkers(if threads == 0 then 1 else threads);
  }

  lemma NextAccepted(s: State, step: Step)
    requires s.accepted == s.started + s.shared.tasks && Enabled(s, step)
    ensures var t := Next(s, step);
            t.accepted == t.started + t.shared.tasks && |t.workers| == |s.workers|
  {
    if step.WorkerTest? && s.shared.tasks != [] {
      assert s.shared.tasks == [s.shared.tasks[0]] + s.shared.tasks[1..];
    }
  }

  /** The tasks started are those in hand and those finished, and the pool counts the ones in hand. */
  ghost predicate WorkConserved(s: State) {
    multiset(s.started) == InHand(s.workers) + multiset(s.finished) && s.shared.active == Busy(s.workers)
  }

  lemma FinishWork(s: State, w: nat)
    requires WorkConserved(s) && Enabled(s, WorkerFinish(w))
    ensures WorkConserved(Next(s, WorkerFinish(w))) && s.shared.active > 0
  {
    var t, task := Next(s, WorkerFinish(w)), s.workers[w].task;
    UpdateWorker(s.workers, w, t.workers[w]);
    BusyPositive(s.workers, w);
    assert multiset(t.finished) == multiset(s.finished) + multiset{task};
  }

  lemma TestWork(s: State, w: nat)
    requires WorkConserved(s) && Enabled(s, WorkerTest(w))
    ensures WorkConserved(Next(s, WorkerTest(w)))
  {
    if s.shared.tasks != [] {
      TakeWork(s, w);
    } else {
      UpdateWorker(s.workers, w, Next(s, WorkerTest(w)).workers[w]);
    }
  }

  lemma TakeWork(s: State, w: nat)
    requires WorkConserved(s) && Enabled(s, WorkerTest(w)) && s.shared.tasks != []
    ensures WorkConserved(Next(s, WorkerTest(w)))
  {
    var t, task := Next(s, WorkerTest(w)), s.shared.tasks[0];
    UpdateWorker(s.workers, w, t.workers[w]);
    assert multiset(t.started) == multiset(s.started) + multiset{task};
    Swapped(InHand(s.workers), multiset{task}, multiset(s.finished));
  }

  /** Steps of workers move tasks from the queue into hand and from hand to the finished. */
  lemma NextWork(s: State, step: Step)
    requires WorkConserved(s) && Enabled(s, step)
    ensures WorkConserved(Next(s, step))
    ensures step.WorkerFinish? ==> s.shared.active > 0
  {
    if step.WorkerFinish? {
      FinishWork(s, step.w);
    } else if step.WorkerTest? {
      TestWork(s, step.w);
    } else if step.WorkerNotify? || step.SpuriousWorker? {
      UpdateWorker(s.workers, step.w, Awake);
    } else if step.DeliverOne? && SomeAsleep(s.workers) {
      UpdateWorker(s.workers, step.sleeper, Awake);
    } else if step.DeliverAll? {
      WakeKeepsWork(s.workers);
    }
  }

  lemma NextConserved(s: State, step: Step)
    requires Conserved(s) && Enabled(s, step)
    ensures Conserved(Next(s, step)) && |Next(s, step).workers| == |s.workers|
  {
    NextAccepted(s, step);
    NextWork(s, step);
  }

  lemma NextNoLostTask(s: State, step: Step)
    requires NoLostTask(s) && Enabled(s, step)
    ensures NoLostTask(Next(s, step))
  {
    var t := Next(s, step);
    if SomeAsleep(t.workers) {
      if step.WorkerTest? || step.WorkerFinish? || step.WorkerNotify? || step.SpuriousWorker? {
        UpdateWorker(s.workers, step.w, t.workers[step.w]);
      } else if step.DeliverOne? && SomeAsleep(s.workers) {
        UpdateWorker(s.workers, step.sleeper, Awake);
      }
      var w :| 0 <= w < |t.workers| && t.workers[w].Asleep?;
      assert w < |s.workers|;
    }
  }

  lemma NextNoLostStop(s: State, step: Step)
    requires NoLostStop(s) && Enabled(s, step)
    ensures NoLostStop(Next(s, step))
  {
    var t := Next(s, step);
    assert forall w :: 0 <= w < |t.workers| && t.workers[w].Exited? ==>
             s.workers[w].Exited? || (s.shared.stop && s.shared.tasks == []);
    if t.shared.stop && SomeAsleep(t.workers) {
      var w :| 0 <= w < |t.workers| && t.workers[w].Asleep?;
      assert s.shared.stop ==> s.workers[w].Asleep?;
    }
  }

  lemma NextNoLostIdle(s: State, step: Step)
    requires NoLostIdle(s) && Enabled(s, step)
    ensures NoLostIdle(Next(s, step))
  {
    var t := Next(s, step);
    if (exists i :: 0 <= i < |t.waiters| && t.waiters[i].Sleeping?) && Idle(t.shared) {
      var i :| 0 <= i < |t.waiters| && t.waiters[i].Sleeping?;
      NextSleeper(s, step, i);
      if step.WorkerFinish? {
        assert t.workers[step.w].Notifying?;
      } else {
        var w :| 0 <= w < |s.workers| && s.workers[w].Notifying?;
        NextNotifier(s, step, w);
      }
    }
  }

  /** Who still sleeps in an idle pool slept before, and no notifier has just woken him. */
  lemma NextSleeper(s: State, step: Step, i: nat)
    requires Enabled(s, step) && i < |Next(s, step).waiters| && Next(s, step).waiters[i].Sleeping?
    requires Idle(Next(s, step).shared)
    ensures i < |s.waiters| && s.waiters[i].Sleeping? && !step.WorkerNotify?
    ensures !step.WorkerFinish? ==> Idle(s.shared)
  {
  }

  lemma NextNotifier(s: State, step: Step, w: nat)
    requires Enabled(s, step) && !step.WorkerNotify? && w < |s.workers| && s.workers[w].Notifying?
    ensures w < |Next(s, step).workers| && Next(s, step).workers[w].Notifying?
  {
  }

  lemma NextInv(s: State, step: Step)
    requires Inv(s) && Enabled(s, step)
    ensures Inv(Next(s, step))
  {
    NextConserved(s, step);
    NextNoLostTask(s, step);
    NextNoLostStop(s, step);
    NextNoLostIdle(s, step);
  }

  lemma {:induction false} RunsKeepInv(s: State, steps: seq<Step>, t: State)
    requires Inv(s) && Runs(s, steps, t)
    ensures Inv(t) && |t.workers| == |s.workers|
  {
    if steps != [] {
      var init, last := steps[..|steps| - 1], steps[|steps| - 1];
      var m: State :| Runs(s, init, m) && Enabled(m, last) && t == Next(m, last);
      RunsKeepInv(s, init, m);
      NextInv(m, last);
      NextConserved(m, last);
    }
  }
}
