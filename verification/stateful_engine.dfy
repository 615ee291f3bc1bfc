/**
  Engines that carry a state through their runs: owned by the engine, reset before each
  run, or one instance for each thread.
 */
module StatefulEngine {
  import opened Core
  import opened StateStack

  /** A run of the wrapped engine on an input under an active state: the new state and the result. */
  type Runner<!S, !I, !R> = (S, I) -> (S, R)

  /** Runs over several inputs, each under the state the previous one left. */
  function RunAll<S, I, R>(run: Runner<S, I, R>, s: S, inputs: seq<I>): (S, seq<R>) {
    if inputs == [] then (s, [])
    else
      var before := RunAll(run, s, inputs[..|inputs| - 1]);
      var last := run(before.0, inputs[|inputs| - 1]);
      (last.0, before.1 + [last.1])
  }

  /** Splitting a range of inputs does not change the results: the state carries over. */
  lemma {:induction false} RunAllConcat<S, I, R>(run: Runner<S, I, R>, s: S, a: seq<I>, b: seq<I>)
    ensures RunAll(run, s, a + b)
            == (RunAll(run, RunAll(run, s, a).0, b).0, RunAll(run, s, a).1 + RunAll(run, RunAll(run, s, a).0, b).1)
  {
    if b == [] {
      assert a + b == a;
      assert RunAll(run, s, a).1 + [] == RunAll(run, s, a).1;
    } else {
      var init := b[..|b| - 1];
      assert (a + b)[..|a + b| - 1] == a + init;
      RunAllConcat(run, s, a, init);
      assert (a + b)[|a + b| - 1] == b[|b| - 1];
      var first, second := RunAll(run, s, a), RunAll(run, RunAll(run, s, a).0, init);
      var last := run(second.0, b[|b| - 1]);
      assert first.1 + second.1 + [last.1] == first.1 + (second.1 + [last.1]);
    }
  }

  lemma RunAllStep<S, I, R>(run: Runner<S, I, R>, s: S, inputs: seq<I>, i: nat)
    requires i < |inputs|
    ensures var before := RunAll(run, s, inputs[..i]);
            var last := run(before.0, inputs[i]);
            RunAll(run, s, inputs[..i + 1]) == (last.0, before.1 + [last.1])
  {
    assert inputs[..i + 1][..i] == inputs[..i];
  }

  // ---------------------------------------------------------------- owned state

  class OwnedEngine<S, I, R> {
    const run: Runner<S, I, R>
    const address: Ref
    var value: S

    constructor (run: Runner<S, I, R>, address: Ref, init: S)
      ensures this.run == run && this.address == address && value == init
    {
      this.run, this.address, value := run, address, init;
    }

    /** A run under a frame for the owned state; the frame is gone afterwards. */
    method TryRun(input: I, thread: ThreadStack) returns (result: R)
      modifies this`value, thread
      ensures (value, result) == run(old(value), input)
      ensures thread.entries == old(thread.entries)
    {
      thread.Push(address);
      var after := run(value, input);
      value, result := after.0, after.1;
      thread.Pop(address);
    }

    /** A range of runs is a left fold of the state. */
    method TryRunRange(inputs: seq<I>, thread: ThreadStack) returns (results: seq<R>)
      modifies this`value, thread
      ensures (value, results) == RunAll(run, old(value), inputs)
      ensures thread.entries == old(thread.entries)
    {
      results := [];
      for i := 0 to |inputs|
        invariant (value, results) == RunAll(run, old(value), inputs[..i])
        invariant thread.entries == old(thread.entries)
      {
        RunAllStep(run, old(value), inputs, i);
        var result := TryRun(inputs[i], thread);
        results := results + [result];
      }
      assert inputs[..|inputs|] == inputs;
    }
  }

  // ---------------------------------------------------------------- state reset per run

  class ResetEngine<S, I, R> {
    const run: Runner<S, I, R>
    const address: Ref
    const blank: S
    var value: S

    /** The initial state is only ever overwritten by the first reset. */
    constructor (run: Runner<S, I, R>, address: Ref, blank: S, init: S)
      ensures this.run == run && this.address == address && this.blank == blank && value == init
    {
      this.run, this.address, this.blank, value := run, address, blank, init;
    }

    method TryRun(input: I, thread: ThreadStack) returns (result: R)
      modifies this`value, thread
      ensures (value, result) == run(blank, input)
      ensures thread.entries == old(thread.entries)
    {
      value := blank;
      thread.Push(address);
      var after := run(value, input);
      value, result := after.0, after.1;
      thread.Pop(address);
    }

    /** Every result depends on its own input alone, not on earlier inputs nor on the initial state. */
    method TryRunRange(inputs: seq<I>, thread: ThreadStack) returns (results: seq<R>)
      modifies this`value, thread
      ensures |results| == |inputs| && forall i :: 0 <= i < |inputs| ==> results[i] == run(blank, inputs[i]).1
      ensures value == if inputs == [] then old(value) else run(blank, inputs[|inputs| - 1]).0
      ensures thread.entries == old(thread.entries)
    {
      results := [];
      for i := 0 to |inputs|
        invariant |results| == i && forall j :: 0 <= j < i ==> results[j] == run(blank, inputs[j]).1
        invariant value == if i == 0 then old(value) else run(blank, inputs[i - 1]).0
        invariant thread.entries == old(thread.entries)
      {
        var result := TryRun(inputs[i], thread);
        results := results + [result];
      }
    }
  }

  // ---------------------------------------------------------------- one state for each thread

  type ThreadId = nat

  /** The table of per-thread states; a slot is filled from the seed when its thread first asks. */
  class ThreadTable<S> {
    const seed: S
    var slots: map<ThreadId, S>

    constructor (seed: S)
      ensures this.seed == seed && slots == map[]
    {
      this.seed, slots := seed, map[];
    }

    method Active(id: ThreadId) returns (state: S)
      modifies this`slots
      ensures slots == WithSlot(old(slots), id, seed)
      ensures id in slots && state == slots[id]
    {
      if id !in slots {
        slots := slots[id := seed];
      }
      state := slots[id];
    }

    /** The owning thread writes its own slot and no other. */
    method Store(id: ThreadId, state: S)
      requires id in slots
      modifies this`slots
      ensures slots == old(slots)[id := state]
    {
      slots := slots[id := state];
    }
  }

  /** An engine whose state belongs to the calling thread. */
  class ThreadLocalEngine<S, I, R> {
    const run: Runner<S, I, R>
    const table: ThreadTable<S>
    /** Where each thread's state object lives. */
    const addresses: ThreadId -> Ref

    constructor (run: Runner<S, I, R>, seed: S, addresses: ThreadId -> Ref)
      ensures this.run == run && this.addresses == addresses && fresh(table)
      ensures table.seed == seed && table.slots == map[]
    {
      this.run, this.addresses := run, addresses;
      table := new ThreadTable(seed);
    }

    /** A run moves the state of its own thread and no other, starting from the seed the first time. */
    method TryRun(id: ThreadId, input: I, thread: ThreadStack) returns (result: R)
      modifies table`slots, thread
      ensures var after := run(WithSlot(old(table.slots), id, table.seed)[id], input);
              table.slots == old(table.slots)[id := after.0] && result == after.1
      ensures thread.entries == old(thread.entries)
    {
      var state := table.Active(id);
      thread.Push(addresses(id));
      var after := run(state, input);
      table.Store(id, after.0);
      result := after.1;
      thread.Pop(addresses(id));
    }

    /** A range of runs on one thread is the left fold of that thread's state. */
    method TryRunRange(id: ThreadId, inputs: seq<I>, thread: ThreadStack) returns (results: seq<R>)
      modifies table`slots, thread
      ensures var whole := RunAll(run, WithSlot(old(table.slots), id, table.seed)[id], inputs);
              results == whole.1
              && table.slots == if inputs == [] then old(table.slots) else old(table.slots)[id := whole.0]
      ensures thread.entries == old(thread.entries)
    {
      results := [];
      ghost var start := WithSlot(table.slots, id, table.seed)[id];
      for i := 0 to |inputs|
        invariant results == RunAll(run, start, inputs[..i]).1
        invariant table.slots == if i == 0 then old(table.slots)
                                 else old(table.slots)[id := RunAll(run, start, inputs[..i]).0]
        invariant thread.entries == old(thread.entries)
      {
        RunAllStep(run, start, inputs, i);
        var result := TryRun(id, inputs[i], thread);
        results := results + [result];
      }
      assert inputs[..|inputs|] == inputs;
    }
  }

  function WithSlot<S>(slots: map<ThreadId, S>, id: ThreadId, seed: S): map<ThreadId, S> {
    if id in slots then slots else slots[id := seed]
  }

  /**
    A run cut into the steps other threads can come between: looking the state up, one
    stage after another, and handing the result over.
   */
  datatype Stepper<!S, !I, !L, !R> =
    Stepper(seed: S, begin: I -> L, advance: (S, L) -> (S, L), finish: L -> R)

  datatype Move<I> = Start(input: I) | Advance | Finish

  /** The shared table, the runs in flight and the results handed over so far. */
  datatype Machine<S, L, R> =
    Machine(slots: map<ThreadId, S>, running: map<ThreadId, L>, results: map<ThreadId, seq<R>>)

  function ResultsOf<R>(results: map<ThreadId, seq<R>>, id: ThreadId): seq<R> {
    if id in results then results[id] else []
  }

  function Act<S, I, L, R>(p: Stepper<S, I, L, R>, m: Machine<S, L, R>, id: ThreadId, move: Move<I>): Machine<S, L, R> {
    match move
    case Start(input) =>
      m.(slots := WithSlot(m.slots, id, p.seed), running := m.running[id := p.begin(input)])
    case Advance =>
      if id in m.slots && id in m.running then
        var next := p.advance(m.slots[id], m.running[id]);
        m.(slots := m.slots[id := next.0], running := m.running[id := next.1])
      else m
    case Finish =>
      if id in m.running then
        m.(running := m.running - {id},
           results := m.results[id := ResultsOf(m.results, id) + [p.finish(m.running[id])]])
      else m
  }

  function Interleave<S, I, L, R>(p: Stepper<S, I, L, R>, schedule: seq<(ThreadId, Move<I>)>): Machine<S, L, R> {
    if schedule == [] then Machine(map[], map[], map[])
    else
      var last := schedule[|schedule| - 1];
      Act(p, Interleave(p, schedule[..|schedule| - 1]), last.0, last.1)
  }

  function MovesOf<I>(schedule: seq<(ThreadId, Move<I>)>, id: ThreadId): seq<Move<I>> {
    if schedule == [] then []
    else
      var last := schedule[|schedule| - 1];
      MovesOf(schedule[..|schedule| - 1], id) + if last.0 == id then [last.1] else []
  }

  // ---------------------------------------------------------------- one thread alone

  datatype View<S, L, R> = View(slot: Option<S>, running: Option<L>, results: seq<R>)

  function ViewOf<S, L, R>(m: Machine<S, L, R>, id: ThreadId): View<S, L, R> {
    View(if id in m.slots then Some(m.slots[id]) else None,
         if id in m.running then Some(m.running[id]) else None,
         ResultsOf(m.results, id))
  }

  function ActAlone<S, I, L, R>(p: Stepper<S, I, L, R>, v: View<S, L, R>, move: Move<I>): View<S, L, R> {
    match move
    case Start(input) => v.(slot := if v.slot.Some? then v.slot else Some(p.seed), running := Some(p.begin(input)))
    case Advance =>
      if v.slot.Some? && v.running.Some? then
        var next := p.advance(v.slot.value, v.running.value);
        v.(slot := Some(next.0), running := Some(next.1))
      else v
    case Finish =>
      if v.running.Some? then v.(running := None, results := v.results + [p.finish(v.running.value)]) else v
  }

  function Alone<S, I, L, R>(p: Stepper<S, I, L, R>, v: View<S, L, R>, moves: seq<Move<I>>): View<S, L, R> {
    if moves == [] then v else ActAlone(p, Alone(p, v, moves[..|moves| - 1]), moves[|moves| - 1])
  }

  lemma ActOther<S, I, L, R>(p: Stepper<S, I, L, R>, m: Machine<S, L, R>, other: ThreadId, move: Move<I>, id: ThreadId)
    requires other != id
    ensures ViewOf(Act(p, m, other, move), id) == ViewOf(m, id)
  {
  }

  lemma ActSame<S, I, L, R>(p: Stepper<S, I, L, R>, m: Machine<S, L, R>, move: Move<I>, id: ThreadId)
    ensures ViewOf(Act(p, m, id, move), id) == ActAlone(p, ViewOf(m, id), move)
  {
  }

  /** Whatever the other threads do in between, a thread sees what it would see alone. */
  lemma {:induction false} NonInterference<S, I, L, R>(p: Stepper<S, I, L, R>, schedule: seq<(ThreadId, Move<I>)>,
                                                       id: ThreadId)
    ensures ViewOf(Interleave(p, schedule), id) == Alone(p, View(None, None, []), MovesOf(schedule, id))
  {
    if schedule != [] {
      var init, last := schedule[..|schedule| - 1], schedule[|schedule| - 1];
      NonInterference(p, init, id);
      if last.0 == id {
        ActSame(p, Interleave(p, init), last.1, id);
        var moves := MovesOf(init, id);
        assert (moves + [last.1])[..|moves|] == moves;
      } else {
        ActOther(p, Interleave(p, init), last.0, last.1, id);
        assert MovesOf(init, id) + [] == MovesOf(init, id);
      }
    }
  }

  // ---------------------------------------------------------------- whole runs

  function Iterate<S, I, L, R>(p: Stepper<S, I, L, R>, n: nat, s: S, l: L): (S, L) {
    if n == 0 then (s, l) else var before := Iterate(p, n - 1, s, l); p.advance(before.0, before.1)
  }

  /** A run as one step: n stages on an input under a state. */
  function WholeRun<S, I, L, R>(p: Stepper<S, I, L, R>, n: nat, s: S, input: I): (S, R) {
    var last := Iterate(p, n, s, p.begin(input));
    (last.0, p.finish(last.1))
  }

  function Advances<I>(n: nat): seq<Move<I>> {
    seq(n, _ => Advance)
  }

  /** The moves of a thread that runs the inputs one after another. */
  function Program<I>(n: nat, inputs: seq<I>): seq<Move<I>> {
    if inputs == [] then []
    else Program(n, inputs[..|inputs| - 1]) + ([Start(inputs[|inputs| - 1])] + Advances(n) + [Finish])
  }

  lemma {:induction false} AloneConcat<S, I, L, R>(p: Stepper<S, I, L, R>, v: View<S, L, R>,
                                                   a: seq<Move<I>>, b: seq<Move<I>>)
    ensures Alone(p, v, a + b) == Alone(p, Alone(p, v, a), b)
  {
    if b == [] {
      assert a + b == a;
    } else {
      assert (a + b)[..|a + b| - 1] == a + b[..|b| - 1];
      AloneConcat(p, v, a, b[..|b| - 1]);
    }
  }

  lemma AloneOne<S, I, L, R>(p: Stepper<S, I, L, R>, v: View<S, L, R>, move: Move<I>)
    ensures Alone(p, v, [move]) == ActAlone(p, v, move)
  {
    assert [move][..0] == [];
  }

  lemma {:induction false} AdvancesIterate<S, I, L, R>(p: Stepper<S, I, L, R>, n: nat, s: S, l: L, results: seq<R>)
    ensures var last := Iterate(p, n, s, l);
            Alone(p, View(Some(s), Some(l), results), Advances(n)) == View(Some(last.0), Some(last.1), results)
  {
    if n > 0 {
      AdvancesIterate(p, n - 1, s, l, results);
      assert Advances<I>(n)[..n - 1] == Advances(n - 1);
    }
  }

  lemma RunAlone<S, I, L, R>(p: Stepper<S, I, L, R>, n: nat, v: View<S, L, R>, s: S, input: I)
    requires v.slot == Some(s) || (v.slot.None? && s == p.seed)
    ensures var whole := WholeRun(p, n, s, input);
            Alone(p, v, [Start(input)] + Advances(n) + [Finish])
            == View(Some(whole.0), None, v.results + [whole.1])
  {
    var start: seq<Move<I>> := [Start(input)];
    AloneConcat(p, v, start + Advances(n), [Finish]);
    AloneConcat(p, v, start, Advances(n));
    AloneOne(p, v, Start(input));
    AdvancesIterate(p, n, s, p.begin(input), v.results);
    AloneOne(p, Alone(p, v, start + Advances(n)), Finish);
  }

  lemma {:induction false} ProgramAlone<S, I, L, R>(p: Stepper<S, I, L, R>, n: nat, inputs: seq<I>)
    ensures var whole := RunAll((s, i) => WholeRun(p, n, s, i), p.seed, inputs);
            Alone(p, View(None, None, []), Program(n, inputs))
            == View(if inputs == [] then None else Some(whole.0), None, whole.1)
  {
    if inputs != [] {
      var init, last := inputs[..|inputs| - 1], inputs[|inputs| - 1];
      var empty: View<S, L, R> := View(None, None, []);
      ProgramAlone(p, n, init);
      AloneConcat(p, empty, Program(n, init), [Start(last)] + Advances(n) + [Finish]);
      var whole := RunAll((s, i) => WholeRun(p, n, s, i), p.seed, init);
      RunAlone(p, n, Alone(p, empty, Program(n, init)), whole.0, last);
    }
  }

  /**
    Main result on per-thread state: in any interleaving of the steps of many threads, a
    thread that runs some inputs gets the results and the final state of running them alone,
    one after another, from the seed.
   */
  lemma ThreadsRunAsIfAlone<S, I, L, R>(p: Stepper<S, I, L, R>, n: nat, schedule: seq<(ThreadId, Move<I>)>,
                                        id: ThreadId, inputs: seq<I>)
    requires MovesOf(schedule, id) == Program(n, inputs)
    ensures var m := Interleave(p, schedule);
            var whole := RunAll((s, i) => WholeRun(p, n, s, i), p.seed, inputs);
            && ResultsOf(m.results, id) == whole.1
            && (inputs != [] ==> id in m.slots && m.slots[id] == whole.0)
  {
    NonInterference(p, schedule, id);
    ProgramAlone<S, I, L, R>(p, n, inputs);
    var v := ViewOf(Interleave(p, schedule), id);
    assert v.results == ResultsOf(Interleave(p, schedule).results, id);
  }
}
