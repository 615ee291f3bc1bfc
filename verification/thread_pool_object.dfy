/** The pool as an object: the critical sections of its methods and the guard around a running task. */
module ThreadPoolObject {
  import opened ThreadPool

  // ---------------------------------------------------------------- the object

  datatype WaitOutcome = WaitRefused | WaitOver | WaitBlocks

  /** A thread and the pool whose task it is running, if any. */
  class WorkerThread {
    var current: Pool?

    ghost predicate Runs(pool: Pool)
      reads this
    {
      current == pool
    }

    constructor ()
      ensures current == null
    {
      current := null;
    }
  }

  /** The state behind the mutex and the critical sections of its methods. */
  class Pool {
    var tasks: seq<Task>
    var activeTasks: nat
    var stop: bool

    function Guarded(): Shared
      reads this
    {
      Shared(tasks, activeTasks, stop)
    }

    constructor ()
      ensures Guarded() == Shared([], 0, false)
    {
      tasks, activeTasks, stop := [], 0, false;
    }

    method Enqueue(task: Task) returns (accepted: bool)
      modifies this
      ensures accepted <==> !old(stop)
      ensures Guarded() == Append(old(Guarded()), [task])
      ensures tasks == (if old(stop) then old(tasks) else old(tasks) + [task])
      ensures activeTasks == old(activeTasks) && stop == old(stop)
    {
      accepted := !stop;
      if accepted {
        tasks := tasks + [task];
      }
    }

    method EnqueueRange(range: seq<Task>) returns (accepted: bool)
      modifies this
      ensures accepted <==> !old(stop)
      ensures Guarded() == Append(old(Guarded()), range)
      ensures tasks == (if old(stop) then old(tasks) else old(tasks) + range)
      ensures activeTasks == old(activeTasks) && stop == old(stop)
    {
      accepted := !stop;
      if accepted {
        for i := 0 to |range|
          invariant Guarded() == Append(old(Guarded()), range[..i])
        {
          assert range[..i + 1] == range[..i] + [range[i]];
          tasks := tasks + [range[i]];
        }
        assert range[..|range|] == range;
      }
    }

    /** The critical section of the worker loop. */
    method TakeTask() returns (taken: Taken)
      modifies this
      ensures taken == TakeResult(old(Guarded())) && Guarded() == AfterTake(old(Guarded()))
      ensures old(tasks) != [] ==>
                taken == Took(old(tasks)[0]) && tasks == old(tasks)[1..] && activeTasks == old(activeTasks) + 1
      ensures old(tasks) == [] ==>
                taken == (if stop then Left else Slept) && tasks == [] && activeTasks == old(activeTasks)
      ensures stop == old(stop)
    {
      if !stop && tasks == [] {
        taken := Slept;
      } else if stop && tasks == [] {
        taken := Left;
      } else {
        taken := Took(tasks[0]);
        tasks := tasks[1..];
        activeTasks := activeTasks + 1;
      }
    }

    method FinishTask() returns (notifyIdle: bool)
      modifies this
      ensures Guarded() == AfterFinish(old(Guarded())) && (notifyIdle <==> Idle(Guarded()))
      ensures activeTasks == (if old(activeTasks) > 0 then old(activeTasks) - 1 else 0)
      ensures tasks == old(tasks) && stop == old(stop) && (notifyIdle <==> tasks == [] && activeTasks == 0)
    {
      if activeTasks > 0 {
        activeTasks := activeTasks - 1;
      }
      notifyIdle := tasks == [] && activeTasks == 0;
    }

    method RequestStop()
      modifies this
      ensures Guarded() == old(Guarded()).(stop := true)
      ensures stop && tasks == old(tasks) && activeTasks == old(activeTasks)
    {
      stop := true;
    }

    /** An idle wait is refused exactly to a thread that is running one of this pool's tasks. */
    method WaitIdleTest(thread: WorkerThread) returns (outcome: WaitOutcome)
      ensures outcome.WaitRefused? <==> thread.Runs(this)
      ensures outcome.WaitOver? ==> tasks == [] && activeTasks == 0
      ensures outcome.WaitBlocks? ==> tasks != [] || activeTasks > 0
    {
      if thread.current == this {
        outcome := WaitRefused;
      } else if tasks == [] && activeTasks == 0 {
        outcome := WaitOver;
      } else {
        outcome := WaitBlocks;
      }
    }

    method Snapshot() returns (pendingTasks: nat, active: nat)
      ensures pendingTasks == |tasks| && active == activeTasks
      ensures pendingTasks + active == 0 <==> tasks == [] && activeTasks == 0
    {
      pendingTasks, active := |tasks|, activeTasks;
    }
  }

  /** Marks a thread as running a task of a pool, and puts the previous mark back when the task ends. */
  class ActiveTaskGuard {
    const owner: Pool
    const thread: WorkerThread
    const previous: Pool?

    constructor (owner: Pool, thread: WorkerThread)
      modifies thread
      ensures this.owner == owner && this.thread == thread && previous == old(thread.current)
      ensures thread.Runs(owner)
    {
      this.owner, this.thread, previous := owner, thread, thread.current;
      new;
      thread.current := owner;
    }

    method Release() returns (notifyIdle: bool)
      modifies thread, owner
      ensures thread.current == previous
      ensures owner.Guarded() == AfterFinish(old(owner.Guarded())) && (notifyIdle <==> Idle(owner.Guarded()))
    {
      thread.current := previous;
      notifyIdle := owner.FinishTask();
    }
  }

  /**
    One turn of the worker loop, with a task that asks for an idle wait: the wait is refused
    while the task runs, and after the turn the thread is marked as before and the task has
    left the active count again.
   */
  method WorkerTurn(pool: Pool, thread: WorkerThread) returns (taken: Taken, inside: WaitOutcome, notifyIdle: bool)
    modifies pool, thread
    ensures taken == TakeResult(old(pool.Guarded()))
    ensures thread.current == old(thread.current)
    ensures !taken.Took? ==> pool.Guarded() == old(pool.Guarded())
    ensures taken.Took? ==> inside.WaitRefused? && pool.Guarded() == old(pool.Guarded()).(tasks := old(pool.tasks)[1..])
    ensures notifyIdle ==> Idle(pool.Guarded())
  {
    notifyIdle, inside := false, WaitBlocks;
    taken := pool.TakeTask();
    if taken.Took? {
      var guard := new ActiveTaskGuard(pool, thread);
      inside := pool.WaitIdleTest(thread);
      notifyIdle := guard.Release();
    }
  }
}
