/**
  The pool by its rules: what a post adds, that a stopped pool takes nothing more, and that an
  idle wait returns only when everything accepted until then has run.
 */
module PoolRules {
  import opened ThreadPool
  import opened ThreadPoolProgress

  /** A post or a range joins the queue whole and last and asks for a wake-up; a stopped pool takes neither. */
  lemma PostsByRules(s: State, task: Task, range: seq<Task>)
    ensures var t := Next(s, Post(task));
            && t.shared.active == s.shared.active && t.shared.stop == s.shared.stop && t.workers == s.workers
            && (s.shared.stop ==> t == s)
            && (!s.shared.stop ==>
                  && t.shared.tasks == s.shared.tasks + [task] && t.accepted == s.accepted + [task]
                  && t.notifyOne == s.notifyOne + 1)
    ensures var t := Next(s, PostRange(range));
            && t.shared.active == s.shared.active && t.shared.stop == s.shared.stop && t.workers == s.workers
            && (s.shared.stop ==> t == s)
            && (!s.shared.stop ==>
                  && t.shared.tasks == s.shared.tasks + range && t.accepted == s.accepted + range
                  && t.notifyAll == s.notifyAll + 1)
  {
  }

  /** A worker at the queue: it takes the oldest task, or leaves a stopped pool, or sleeps. */
  lemma WorkerTestByRules(s: State, w: nat)
    requires w < |s.workers| && s.workers[w] == Awake
    ensures var t := Next(s, WorkerTest(w));
            if s.shared.tasks != [] then
              && t.workers == s.workers[w := Running(s.shared.tasks[0])]
              && t.shared.tasks == s.shared.tasks[1..] && t.shared.active == s.shared.active + 1
              && t.started == s.started + [s.shared.tasks[0]]
            else t == s.(workers := s.workers[w := if s.shared.stop then Exited else Asleep])
  {
  }

  /** Once the pool is stopped it stays stopped and accepts nothing more. */
  lemma {:induction false} StoppedPoolAcceptsNothing(s: State, steps: seq<Step>, t: State)
    requires Runs(s, steps, t) && s.shared.stop
    ensures t.shared.stop && t.accepted == s.accepted
  {
    if steps != [] {
      var init, last := steps[..|steps| - 1], steps[|steps| - 1];
      var m: State :| Runs(s, init, m) && Enabled(m, last) && t == Next(m, last);
      StoppedPoolAcceptsNothing(s, init, m);
      NextStaysStopped(m, last);
    }
  }

  lemma NextStaysStopped(s: State, step: Step)
    requires Enabled(s, step) && s.shared.stop
    ensures Next(s, step).shared.stop && Next(s, step).accepted == s.accepted
  {
  }

  /** A pool asked for no threads gets one; the number never changes. */
  lemma {:induction false} WorkerCount(threads: nat, steps: seq<Step>, t: State)
    requires Runs(Init(threads), steps, t)
    ensures |t.workers| == if threads == 0 then 1 else threads
  {
    if steps != [] {
      var init, last := steps[..|steps| - 1], steps[|steps| - 1];
      var m: State :| Runs(Init(threads), init, m) && Enabled(m, last) && t == Next(m, last);
      WorkerCount(threads, init, m);
      NextKeepsWorkers(m, last);
    }
  }

  lemma NextKeepsWorkers(s: State, step: Step)
    requires Enabled(s, step)
    ensures |Next(s, step).workers| == |s.workers|
  {
  }

  // ---------------------------------------------------------------- idle waits

  /** A wait returns only by its own test of an idle pool, and stays returned. */
  lemma NextReleases(s: State, step: Step, i: nat)
    requires Enabled(s, step) && i < |Next(s, step).waiters| && Next(s, step).waiters[i].Released?
    ensures i < |s.waiters|
    ensures !s.waiters[i].Released? ==> step == WaiterTest(i) && s.shared.tasks == [] && s.shared.active == 0
  {
  }

  /** In an idle reachable state every accepted task has finished. */
  lemma IdleMeansAllFinished(threads: nat, steps: seq<Step>, s: State)
    requires Runs(Init(threads), steps, s) && s.shared.tasks == [] && s.shared.active == 0
    ensures multiset(s.finished) == multiset(s.accepted)
  {
    PoolConservation(threads, steps, s);
    assert InHand(s.workers) == multiset{};
    assert multiset(s.shared.tasks) == multiset{};
  }

  /**
    Main result on idle waits. A wait that has returned had begun by some moment of the run
    at which the queue was empty, no task was active, and every task accepted until then had
    finished: those accepted before the wait began among them.
   */
  lemma {:induction false} ReturnedWaitSawIdle(threads: nat, steps: seq<Step>, t: State, i: nat)
    returns (k: nat, m: State)
    requires Runs(Init(threads), steps, t) && i < |t.waiters| && t.waiters[i].Released?
    ensures k <= |steps| && Runs(Init(threads), steps[..k], m)
    ensures i < |m.waiters| && m.shared.tasks == [] && m.shared.active == 0
    ensures multiset(m.finished) == multiset(m.accepted)
  {
    var init, last := steps[..|steps| - 1], steps[|steps| - 1];
    var before: State :| Runs(Init(threads), init, before) && Enabled(before, last) && t == Next(before, last);
    NextReleases(before, last, i);
    if before.waiters[i].Released? {
      k, m := ReturnedWaitSawIdle(threads, init, before, i);
      assert init[..k] == steps[..k];
    } else {
      k, m := |init|, before;
      IdleMeansAllFinished(threads, init, before);
      assert steps[..k] == init;
    }
  }
}
