/**
  The paths of an exported graph from its input to its output: one for each way of
  choosing a case at every branch stage, and a successful run follows one of them.
 */
module Routes {
  import opened Core
  import opened Descriptor
  import opened Dot
  import opened FanIn
  import opened SelectedBranch
  import opened FanInRefinement
  import opened Engine

  import D = Decimal
  import P = ParallelFanIn

  // ---------------------------------------------------------------- node names

  function NodeName(node: Node): string {
    match node
    case Input => "from_input"
    case Output => "to_output"
    case StageNode(i) => "stage_" + D.Render(i)
    case BranchNode(i) => "branch_" + D.Render(i)
    case PredicateNode(i, j) => "pred_" + CaseName(i, j)
    case CaseNode(i, j) => "case_" + CaseName(i, j)
  }

  function CaseName(i: nat, j: nat): string {
    D.Render(i) + ("_" + D.Render(j))
  }

  lemma CaseNameInjective(i: nat, j: nat, k: nat, l: nat)
    requires CaseName(i, j) == CaseName(k, l)
    ensures i == k && j == l
  {
    D.RenderIsDigits(i);
    D.RenderIsDigits(k);
    D.SplitAtNonDigit(D.Render(i), "_" + D.Render(j), D.Render(k), "_" + D.Render(l));
    assert ("_" + D.Render(j))[1..] == D.Render(j) && ("_" + D.Render(l))[1..] == D.Render(l);
    D.ReadRender(i);
    D.ReadRender(j);
    D.ReadRender(k);
    D.ReadRender(l);
  }

  lemma SameTail(prefix: string, a: string, b: string)
    requires prefix + a == prefix + b
    ensures a == b
  {
    assert (prefix + a)[|prefix|..] == a && (prefix + b)[|prefix|..] == b;
  }

  /** The text of the graph names different nodes differently. */
  lemma NodeNameInjective(a: Node, b: Node)
    requires NodeName(a) == NodeName(b)
    ensures a == b
  {
    assert NodeName(a)[0] == NodeName(b)[0];
    if a.StageNode? && b.StageNode? {
      SameTail("stage_", D.Render(a.index), D.Render(b.index));
      D.ReadRender(a.index);
      D.ReadRender(b.index);
    } else if a.BranchNode? && b.BranchNode? {
      SameTail("branch_", D.Render(a.index), D.Render(b.index));
      D.ReadRender(a.index);
      D.ReadRender(b.index);
    } else if a.PredicateNode? && b.PredicateNode? {
      SameTail("pred_", CaseName(a.index, a.caseIndex), CaseName(b.index, b.caseIndex));
      CaseNameInjective(a.index, a.caseIndex, b.index, b.caseIndex);
    } else if a.CaseNode? && b.CaseNode? {
      SameTail("case_", CaseName(a.index, a.caseIndex), CaseName(b.index, b.caseIndex));
      CaseNameInjective(a.index, a.caseIndex, b.index, b.caseIndex);
    }
  }

  // ---------------------------------------------------------------- choices and routes

  /** The number of ways through a stage. */
  function Width(stage: Stage): nat {
    if stage.Simple? then 1 else |stage.cases|
  }

  /** One way through every stage from i on. */
  predicate IsChoice(stages: seq<Stage>, i: nat, c: seq<nat>)
    requires i <= |stages|
  {
    && |c| == |stages| - i
    && forall k :: 0 <= k < |c| ==> c[k] < Width(stages[i + k])
  }

  function Segment(stage: Stage, i: nat, j: nat): seq<Node> {
    if stage.Simple? then [StageNode(i)] else [BranchNode(i), PredicateNode(i, j), CaseNode(i, j)]
  }

  function Route(stages: seq<Stage>, i: nat, c: seq<nat>): seq<Node>
    requires i <= |stages| && IsChoice(stages, i, c)
    decreases |stages| - i
  {
    if i == |stages| then [Output] else Segment(stages[i], i, c[0]) + Route(stages, i + 1, c[1..])
  }

  /** A path of the exported graph from the input node to the output node. */
  predicate IsPath(stages: seq<Stage>, p: seq<Node>) {
    && |p| > 0 && p[0] == Input && p[|p| - 1] == Output
    && forall k :: 0 <= k < |p| - 1 ==> Edge(p[k], p[k + 1]) in GraphLines(stages)
  }

  predicate Chain(stages: seq<Stage>, p: seq<Node>) {
    forall k :: 0 <= k < |p| - 1 ==> Next(stages, p[k], p[k + 1])
  }

  lemma {:induction false} RouteIsChain(stages: seq<Stage>, i: nat, c: seq<nat>)
    requires i <= |stages| && IsChoice(stages, i, c)
    ensures var p := Route(stages, i, c);
            |p| > 0 && p[0] == EntryNode(stages, i) && p[|p| - 1] == Output && Chain(stages, p)
    decreases |stages| - i
  {
    if i < |stages| {
      RouteIsChain(stages, i + 1, c[1..]);
      var head, tail := Segment(stages[i], i, c[0]), Route(stages, i + 1, c[1..]);
      assert c[0] < Width(stages[i]);
      forall k | 0 <= k < |head + tail| - 1 ensures Next(stages, (head + tail)[k], (head + tail)[k + 1]) {
        if k >= |head| {
          assert Next(stages, tail[k - |head|], tail[k - |head| + 1]);
        }
      }
    }
  }

  /** A chain from the entry of stage i to the output is the route of some choice. */
  lemma {:induction false} ChainIsRoute(stages: seq<Stage>, i: nat, p: seq<Node>) returns (c: seq<nat>)
    requires i <= |stages| && |p| > 0 && p[0] == EntryNode(stages, i) && p[|p| - 1] == Output && Chain(stages, p)
    ensures IsChoice(stages, i, c) && p == Route(stages, i, c)
    decreases |stages| - i
  {
    if i == |stages| {
      assert |p| > 1 ==> Next(stages, p[0], p[1]);
      return [];
    }
    assert Next(stages, p[0], p[1]);
    var m, j := 1, 0;
    if !stages[i].Simple? {
      assert Next(stages, p[1], p[2]);
      assert Next(stages, p[2], p[3]);
      m, j := 3, p[1].caseIndex;
    }
    var rest := p[m..];
    forall k | 0 <= k < |rest| - 1 ensures Next(stages, rest[k], rest[k + 1]) {
      assert Next(stages, p[m + k], p[m + k + 1]);
    }
    var tail := ChainIsRoute(stages, i + 1, rest);
    c := [j] + tail;
    assert c[1..] == tail;
    assert p == Segment(stages[i], i, j) + rest;
  }

  lemma {:induction false} RouteInjective(stages: seq<Stage>, i: nat, c: seq<nat>, d: seq<nat>)
    requires i <= |stages| && IsChoice(stages, i, c) && IsChoice(stages, i, d)
    requires Route(stages, i, c) == Route(stages, i, d)
    ensures c == d
    decreases |stages| - i
  {
    if i < |stages| {
      var p, m := Route(stages, i, c), |Segment(stages[i], i, c[0])|;
      assert p[m..] == Route(stages, i + 1, c[1..]) && p[m..] == Route(stages, i + 1, d[1..]);
      RouteInjective(stages, i + 1, c[1..], d[1..]);
      assert c[0] == d[0] by {
        assert c[0] < Width(stages[i]) && d[0] < Width(stages[i]);
        if !stages[i].Simple? {
          assert p[1] == PredicateNode(i, c[0]) && p[1] == PredicateNode(i, d[0]);
        }
      }
      assert c == [c[0]] + c[1..] && d == [d[0]] + d[1..];
    }
  }

  // ---------------------------------------------------------------- counting

  function Prepend(j: nat, rest: seq<seq<nat>>): seq<seq<nat>> {
    seq(|rest|, k requires 0 <= k < |rest| => [j] + rest[k])
  }

  function Spread(width: nat, rest: seq<seq<nat>>): seq<seq<nat>> {
    if width == 0 then [] else Spread(width - 1, rest) + Prepend(width - 1, rest)
  }

  /** All choices from stage i on. */
  function Choices(stages: seq<Stage>, i: nat): seq<seq<nat>>
    requires i <= |stages|
    decreases |stages| - i
  {
    if i == |stages| then [[]] else Spread(Width(stages[i]), Choices(stages, i + 1))
  }

  /** The product of the case counts of the branch stages from i on. */
  function CaseProduct(stages: seq<Stage>, i: nat): nat
    requires i <= |stages|
    decreases |stages| - i
  {
    if i == |stages| then 1
    else if stages[i].Simple? then CaseProduct(stages, i + 1)
    else |stages[i].cases| * CaseProduct(stages, i + 1)
  }

  lemma PrependLists(j: nat, rest: seq<seq<nat>>)
    requires NoRepeats(rest)
    ensures NoRepeats(Prepend(j, rest))
    ensures forall c: seq<nat> :: c in Prepend(j, rest) <==> |c| > 0 && c[0] == j && c[1..] in rest
  {
    forall k, l | 0 <= k < l < |rest| ensures Prepend(j, rest)[k] != Prepend(j, rest)[l] {
      assert Prepend(j, rest)[k][1..] == rest[k] && Prepend(j, rest)[l][1..] == rest[l];
    }
    forall c: seq<nat> ensures c in Prepend(j, rest) <==> |c| > 0 && c[0] == j && c[1..] in rest {
      if c in Prepend(j, rest) {
        var k :| 0 <= k < |rest| && c == Prepend(j, rest)[k];
        assert c[1..] == rest[k];
      }
      if |c| > 0 && c[0] == j && c[1..] in rest {
        var k :| 0 <= k < |rest| && c[1..] == rest[k];
        assert c == [j] + c[1..];
        assert Prepend(j, rest)[k] == c;
      }
    }
  }

  lemma {:induction false} SpreadCount(width: nat, rest: seq<seq<nat>>)
    ensures |Spread(width, rest)| == width * |rest|
  {
    if width > 0 {
      SpreadCount(width - 1, rest);
      assert width * |rest| == (width - 1) * |rest| + |rest|;
    }
  }

  lemma {:induction false} SpreadLists(width: nat, rest: seq<seq<nat>>)
    requires NoRepeats(rest)
    ensures NoRepeats(Spread(width, rest))
    ensures forall c: seq<nat> :: c in Spread(width, rest) <==> |c| > 0 && c[0] < width && c[1..] in rest
  {
    if width > 0 {
      SpreadLists(width - 1, rest);
      PrependLists(width - 1, rest);
      NoRepeatsConcat(Spread(width - 1, rest), Prepend(width - 1, rest));
    }
  }

  lemma {:induction false} ChoicesAreAll(stages: seq<Stage>, i: nat)
    requires i <= |stages|
    ensures |Choices(stages, i)| == CaseProduct(stages, i)
    ensures NoRepeats(Choices(stages, i))
    ensures forall c: seq<nat> :: c in Choices(stages, i) <==> IsChoice(stages, i, c)
    decreases |stages| - i
  {
    if i < |stages| {
      ChoicesAreAll(stages, i + 1);
      SpreadCount(Width(stages[i]), Choices(stages, i + 1));
      SpreadLists(Width(stages[i]), Choices(stages, i + 1));
      forall c: seq<nat> ensures c in Choices(stages, i) <==> IsChoice(stages, i, c) {
        ChoiceTail(stages, i, c);
      }
    }
  }

  lemma ChoiceTail(stages: seq<Stage>, i: nat, c: seq<nat>)
    requires i < |stages|
    ensures IsChoice(stages, i, c) <==> |c| > 0 && c[0] < Width(stages[i]) && IsChoice(stages, i + 1, c[1..])
  {
    if |c| > 0 && c[0] < Width(stages[i]) && IsChoice(stages, i + 1, c[1..]) {
      forall k | 0 <= k < |c| ensures c[k] < Width(stages[i + k]) {
        assert k > 0 ==> c[k] == c[1..][k - 1];
      }
    }
  }

  /** The paths, one for each choice. */
  function Paths(stages: seq<Stage>, choices: seq<seq<nat>>): seq<seq<Node>>
    requires forall c :: c in choices ==> IsChoice(stages, 0, c)
  {
    seq(|choices|, k requires 0 <= k < |choices| => PathOf(stages, choices[k]))
  }

  function PathOf(stages: seq<Stage>, c: seq<nat>): seq<Node>
    requires IsChoice(stages, 0, c)
  {
    [Input] + Route(stages, 0, c)
  }

  lemma PathOfIsPath(stages: seq<Stage>, c: seq<nat>)
    requires IsChoice(stages, 0, c)
    ensures IsPath(stages, PathOf(stages, c))
  {
    PathOfIsChain(stages, c);
    GraphIsExact(stages);
    var p := PathOf(stages, c);
    forall k | 0 <= k < |p| - 1 ensures Edge(p[k], p[k + 1]) in GraphLines(stages) {
      assert Next(stages, p[k], p[k + 1]);
    }
  }

  lemma PathOfIsChain(stages: seq<Stage>, c: seq<nat>)
    requires IsChoice(stages, 0, c)
    ensures var p := PathOf(stages, c); |p| > 0 && p[0] == Input && p[|p| - 1] == Output && Chain(stages, p)
  {
    RouteIsChain(stages, 0, c);
    var p, route := PathOf(stages, c), Route(stages, 0, c);
    forall k | 0 <= k < |p| - 1 ensures Next(stages, p[k], p[k + 1]) {
      if k > 0 {
        assert Next(stages, route[k - 1], route[k]);
      }
    }
  }

  lemma PathIsPathOf(stages: seq<Stage>, p: seq<Node>) returns (c: seq<nat>)
    requires IsPath(stages, p)
    ensures IsChoice(stages, 0, c) && p == PathOf(stages, c)
  {
    GraphIsExact(stages);
    var rest := p[1..];
    assert Edge(p[0], p[1]) in GraphLines(stages);
    forall k | 0 <= k < |rest| - 1 ensures Next(stages, rest[k], rest[k + 1]) {
      assert Edge(p[k + 1], p[k + 2]) in GraphLines(stages);
    }
    c := ChainIsRoute(stages, 0, rest);
    assert p == [Input] + rest;
  }

  /**
    Main result on exported graphs: the paths from input to output correspond one to one to
    the choices of a case at every branch stage, so their number is the product of the case
    counts.
   */
  lemma PathsAreChoices(stages: seq<Stage>)
    ensures var choices := Choices(stages, 0);
            && (forall c :: c in choices <==> IsChoice(stages, 0, c))
            && var paths := Paths(stages, choices);
               && |paths| == CaseProduct(stages, 0)
               && NoRepeats(paths)
               && forall p: seq<Node> :: p in paths <==> IsPath(stages, p)
  {
    ChoicesAreAll(stages, 0);
    var choices := Choices(stages, 0);
    forall k: nat | k < |choices| ensures IsChoice(stages, 0, choices[k]) {
      assert choices[k] in choices;
    }
    var paths := Paths(stages, choices);
    forall k, l | 0 <= k < l < |paths| ensures paths[k] != paths[l] {
      if paths[k] == paths[l] {
        SameRoute(stages, choices[k], choices[l]);
      }
    }
    forall p: seq<Node> ensures p in paths <==> IsPath(stages, p) {
      if p in paths {
        var k :| 0 <= k < |paths| && p == paths[k];
        PathOfIsPath(stages, choices[k]);
      }
      if IsPath(stages, p) {
        var c := PathIsPathOf(stages, p);
        var k :| 0 <= k < |choices| && choices[k] == c;
        assert paths[k] == p;
      }
    }
  }

  lemma SameRoute(stages: seq<Stage>, c: seq<nat>, d: seq<nat>)
    requires IsChoice(stages, 0, c) && IsChoice(stages, 0, d) && PathOf(stages, c) == PathOf(stages, d)
    ensures c == d
  {
    assert PathOf(stages, c)[1..] == Route(stages, 0, c) && PathOf(stages, d)[1..] == Route(stages, 0, d);
    RouteInjective(stages, 0, c, d);
  }

  // ---------------------------------------------------------------- every node is on a path

  /** The choice of case j at one stage and of the first case everywhere else. */
  function ChoiceThrough(stages: seq<Stage>, at: nat, j: nat): seq<nat> {
    seq(|stages|, k => if k == at then j else 0)
  }

  lemma {:induction false} RouteThrough(stages: seq<Stage>, i: nat, c: seq<nat>, at: nat, node: Node)
    requires i <= at < |stages| && IsChoice(stages, i, c) && node in Segment(stages[at], at, c[at - i])
    ensures node in Route(stages, i, c)
    decreases |stages| - i
  {
    if i < at {
      assert c[at - i] == c[1..][at - i - 1];
      RouteThrough(stages, i + 1, c[1..], at, node);
    }
  }

  /** No node is dead: each declared node lies on a path from input to output. */
  lemma EveryNodeIsOnAPath(stages: seq<Stage>, node: Node)
    requires forall i :: 0 <= i < |stages| && !stages[i].Simple? ==> |stages[i].cases| > 0
    requires Declare(node) in GraphLines(stages)
    ensures exists p: seq<Node> :: IsPath(stages, p) && node in p
  {
    GraphIsExact(stages);
    var at := if IndexOf(node) < 0 then 0 else IndexOf(node);
    var j := match node case PredicateNode(_, j) => j case CaseNode(_, j) => j case _ => 0;
    var c := ChoiceThrough(stages, at, j);
    assert IsChoice(stages, 0, c);
    PathOfIsPath(stages, c);
    var p := PathOf(stages, c);
    if IndexOf(node) >= 0 {
      RouteThrough(stages, 0, c, at, node);
    }
    assert IsPath(stages, p) && node in p;
  }

  // ---------------------------------------------------------------- runs follow paths

  /** The identity of every selected-output branch. */
  const SELECTED := StageId("branch", "branch")

  lemma BranchIdentity(stage: Stage, k: nat)
    ensures stage.SelectedBranch? ==> StageIdFor(stage, k) == SELECTED
    ensures stage.FanInBranch? ==> StageIdFor(stage, k) != SELECTED
  {
    assert "branch"[0] != "fan_in"[0] && "branch"[0] != UNNAMED[0] && "fan_in"[0] != UNNAMED[0];
  }

  predicate IsSelection(e: Event) {
    e.CaseSelected? && e.branch == SELECTED
  }

  /** The selections a trace reports for selected-output branches, in order. */
  function Selections(log: seq<Event>): seq<Event> {
    if log == [] then []
    else
      var last := log[|log| - 1];
      Selections(log[..|log| - 1]) + if IsSelection(last) then [last] else []
  }

  lemma {:induction false} SelectionsConcat(a: seq<Event>, b: seq<Event>)
    ensures Selections(a + b) == Selections(a) + Selections(b)
  {
    if b == [] {
      assert a + b == a;
    } else {
      assert (a + b)[..|a + b| - 1] == a + b[..|b| - 1];
      SelectionsConcat(a, b[..|b| - 1]);
    }
  }

  lemma {:induction false} NoSelections(log: seq<Event>)
    requires forall e :: e in log ==> !IsSelection(e)
    ensures Selections(log) == []
  {
    if log != [] {
      NoSelections(log[..|log| - 1]);
    }
  }

  /** The selections a route stands for: the chosen case of each selected-output branch. */
  function Marks(stages: seq<Stage>, i: nat, c: seq<nat>): seq<Event>
    requires i <= |stages| && IsChoice(stages, i, c)
    decreases |stages| - i
  {
    if i == |stages| then []
    else if !stages[i].SelectedBranch? then Marks(stages, i + 1, c[1..])
    else
      var id := StageIdFor(stages[i], i);
      [CaseSelected(id, c[0], PredicateId(id, c[0], stages[i].cases[c[0]]))] + Marks(stages, i + 1, c[1..])
  }

  /** What one stage makes of a value on a route through its case j; a fan-in runs all its passing cases. */
  function StageAlong(stage: Stage, i: nat, j: nat, v: Value): Option<Value>
    requires j < Width(stage)
  {
    match stage
    case Simple(_, input, _, action) => Yielded(Call(action.body, Argument(input, v)))
    case SelectedBranch(cases) =>
      var w := Yielded(Call(cases[j].action.body, v));
      if w.Some? then Some(SuccessValue(cases, j, w.value)) else None
    case FanInBranch(_) => Yielded(Invoke(stage, i, v).outcome)
  }

  function Yielded(outcome: Outcome): Option<Value> {
    if outcome.Yield? then Some(outcome.value) else None
  }

  /** What the stages along a route compute. */
  function Along(stages: seq<Stage>, i: nat, c: seq<nat>, v: Value): Option<Value>
    requires i <= |stages| && IsChoice(stages, i, c)
    decreases |stages| - i
  {
    if i == |stages| then Some(v)
    else
      var w := StageAlong(stages[i], i, c[0], v);
      if w.None? then None else Along(stages, i + 1, c[1..], w.value)
  }

  lemma {:induction false} SkippedHasNoSelection(br: Branch, i: nat, k: nat)
    requires i <= k <= |br.cases|
    ensures forall e :: e in SkippedEvents(br, i, k) ==> !IsSelection(e)
    decreases k - i
  {
    if i < k {
      SkippedHasNoSelection(br, i + 1, k);
    }
  }

  /** A successful branch run selects one case and returns that case's output. */
  lemma BranchSelectsOne(br: Branch) returns (k: nat)
    requires RunCases(br, 0).result.Ok? && br.id == SELECTED
    ensures k < |br.cases| && OutcomeOf(br, k).Yield?
    ensures RunCases(br, 0).result == Ok(SuccessValue(br.cases, k, OutcomeOf(br, k).value))
    ensures Selections(RunCases(br, 0).log) == [CaseSelected(br.id, k, Pid(br, k))]
  {
    k := Decisive(br, 0);
    BranchRunsTheRoutedCase(br);
    SkippedHasNoSelection(br, 0, k);
    var skipped, selected := SkippedEvents(br, 0, k) + PredicateEvents(br, k), [CaseSelected(br.id, k, Pid(br, k))];
    NoSelections(skipped);
    NoSelections(StagePair(br, k));
    SelectionsConcat(skipped, selected);
    SelectionsConcat(skipped + selected, StagePair(br, k));
    assert Selections(selected) == selected by { assert selected[..0] == []; }
  }

  lemma StageSelections(id: StageId, call: Invocation, rest: seq<Event>)
    ensures Selections(StageLog(id, call) + rest) == Selections(call.log) + Selections(rest)
  {
    NoSelections([StageStart(id)]);
    NoSelections([StageClose(id, call.outcome)]);
    SelectionsConcat([StageStart(id)], call.log);
    SelectionsConcat([StageStart(id)] + call.log, [StageClose(id, call.outcome)]);
    SelectionsConcat(StageLog(id, call), rest);
  }

  /** A fan-in reports its selections under its own identity. */
  lemma {:induction false} FanInCasesReportThemselves(br: Branch, j: nat, p: Progress)
    requires j <= |br.cases| == |p.slots| && forall i :: j <= i < |br.cases| ==> p.slots[i] == EMPTY_SLOT
    requires forall e :: e in p.log && e.event.CaseSelected? ==> e.event.branch == br.id
    ensures forall e :: e in RunFanInCases(br, j, p).log && e.event.CaseSelected? ==> e.event.branch == br.id
    decreases |br.cases| - j
  {
    if j < |br.cases| {
      RunFanInCaseTable(br, j, p);
      CaseReportsItself(br, j, |br.cases|);
      FanInCasesReportThemselves(br, j + 1, RunFanInCase(br, j, p));
    }
  }

  lemma CaseReportsItself(br: Branch, j: nat, cut: nat)
    requires j < |br.cases|
    ensures forall e :: e in Own(j, P.CaseEvents(br, j, cut)) && e.event.CaseSelected? ==> e.event.branch == br.id
  {
  }

  lemma FanInSelectsNothing(br: Branch)
    requires br.id != SELECTED
    ensures Selections(Events(RunFanInBranch(br).log)) == []
  {
    FanInCasesReportThemselves(br, 0, Opened(br));
    var log := RunFanInBranch(br).log;
    forall e | e in Events(log) ensures !IsSelection(e) {
      var i :| 0 <= i < |log| && Events(log)[i] == e;
      assert log[i] in log;
    }
    NoSelections(Events(log));
  }

  /** One successful stage: the case it took, if it is a selected-output branch, and what it handed on. */
  lemma StageTakesOne(stages: seq<Stage>, i: nat, v: Value, pick: nat) returns (j: nat)
    requires i < |stages| && Invoke(stages[i], i, v).outcome.Yield?
    requires stages[i].FanInBranch? ==> pick < |stages[i].cases|
    ensures j < Width(stages[i]) && (stages[i].FanInBranch? ==> j == pick)
    ensures StageAlong(stages[i], i, j, v) == Some(Invoke(stages[i], i, v).outcome.value)
    ensures var stage, id := stages[i], StageIdFor(stages[i], i);
            Selections(Invoke(stage, i, v).log)
            == if stage.SelectedBranch? then [CaseSelected(id, j, PredicateId(id, j, stage.cases[j]))] else []
  {
    j := 0;
    BranchIdentity(stages[i], i);
    if stages[i].SelectedBranch? {
      j := BranchSelectsOne(BranchFor(stages[i], i, v));
    } else if stages[i].FanInBranch? {
      j := pick;
      FanInSelectsNothing(BranchFor(stages[i], i, v));
    }
  }

  /** A case of each fan-in stage from i on; entries of other stages do not matter. */
  predicate Picks(stages: seq<Stage>, i: nat, through: seq<nat>)
    requires i <= |stages|
  {
    && |through| == |stages| - i
    && forall k :: 0 <= k < |through| && stages[i + k].FanInBranch? ==> through[k] < |stages[i + k].cases|
  }

  /** A choice that takes the picked case of every fan-in stage. */
  predicate Honours(stages: seq<Stage>, i: nat, c: seq<nat>, through: seq<nat>)
    requires i <= |stages| && |c| == |through| == |stages| - i
  {
    forall k :: 0 <= k < |c| && stages[i + k].FanInBranch? ==> c[k] == through[k]
  }

  lemma HonoursStep(stages: seq<Stage>, i: nat, j: nat, rest: seq<nat>, through: seq<nat>)
    requires i < |stages| && |rest| + 1 == |through| == |stages| - i && Honours(stages, i + 1, rest, through[1..])
    requires stages[i].FanInBranch? ==> j == through[0]
    ensures Honours(stages, i, [j] + rest, through)
  {
    forall k | 0 <= k < |through| && stages[i + k].FanInBranch? ensures ([j] + rest)[k] == through[k] {
      if k > 0 {
        assert rest[k - 1] == through[1..][k - 1];
      }
    }
  }

  lemma {:induction false} RunFollows(stages: seq<Stage>, i: nat, v: Value, through: seq<nat>) returns (c: seq<nat>)
    requires i <= |stages| && TryRun(stages, i, v).result.Ok? && Picks(stages, i, through)
    ensures IsChoice(stages, i, c) && Honours(stages, i, c, through)
    ensures Selections(TryRun(stages, i, v).log) == Marks(stages, i, c)
    ensures Along(stages, i, c, v) == Some(TryRun(stages, i, v).result.value)
    decreases |stages| - i
  {
    if i == |stages| {
      return [];
    }
    var call := Invoke(stages[i], i, v);
    var j := StageTakesOne(stages, i, v, through[0]);
    assert forall k :: 0 <= k < |through| - 1 ==> through[1..][k] == through[k + 1];
    var rest := RunFollows(stages, i + 1, call.outcome.value, through[1..]);
    c := [j] + rest;
    HonoursStep(stages, i, j, rest, through);
    StageSelections(StageIdFor(stages[i], i), call, TryRun(stages, i + 1, call.outcome.value).log);
    assert c[1..] == rest;
    ChoiceTail(stages, i, c);
  }

  /**
    Every successful run follows a path of the exported graph: the cases its
    selected-output branches report as selected are those on the path, in order, and its
    value is what the stages on the path compute. A fan-in runs all its passing cases, so the
    path may go through any case of it.
   */
  lemma SuccessfulRunFollowsAPath(stages: seq<Stage>, v: Value, through: seq<nat>) returns (c: seq<nat>)
    requires TryRun(stages, 0, v).result.Ok? && Picks(stages, 0, through)
    ensures IsChoice(stages, 0, c) && Honours(stages, 0, c, through) && IsPath(stages, PathOf(stages, c))
    ensures Selections(TryRun(stages, 0, v).log) == Marks(stages, 0, c)
    ensures Along(stages, 0, c, v) == Some(TryRun(stages, 0, v).result.value)
  {
    c := RunFollows(stages, 0, v, through);
    PathOfIsPath(stages, c);
  }
}
