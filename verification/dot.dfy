/**
  The graph exporter: node and edge lines emitted by loops over the stage records and
  the flat case records, and the graph they describe.
 */
module Dot {
  import opened Core
  import opened Descriptor

  datatype Node =
    | Input
    | Output
    | StageNode(index: nat)
    | BranchNode(index: nat)
    | PredicateNode(index: nat, caseIndex: nat)
    | CaseNode(index: nat, caseIndex: nat)

  datatype Line = Declare(node: Node) | Edge(from: Node, to: Node)

  // ---------------------------------------------------------------- the specified graph

  /** The node through which stage i is entered; past the last stage, the output. */
  function EntryNode(stages: seq<Stage>, i: nat): Node
    requires i <= |stages|
  {
    if i == |stages| then Output else if stages[i].Simple? then StageNode(i) else BranchNode(i)
  }

  function CaseLines(i: nat, j: nat): seq<Line> {
    [Declare(PredicateNode(i, j)), Declare(CaseNode(i, j)),
     Edge(BranchNode(i), PredicateNode(i, j)), Edge(PredicateNode(i, j), CaseNode(i, j))]
  }

  function CaseBlock(i: nat, cases: nat): seq<Line> {
    if cases == 0 then [] else CaseBlock(i, cases - 1) + CaseLines(i, cases - 1)
  }

  /** The lines of one stage: its node, or a diamond with its cases. */
  function StageBlock(stage: Stage, i: nat): seq<Line> {
    if stage.Simple? then [Declare(StageNode(i))] else [Declare(BranchNode(i))] + CaseBlock(i, |stage.cases|)
  }

  function StageBlocks(stages: seq<Stage>, k: nat): seq<Line>
    requires k <= |stages|
  {
    if k == 0 then [] else StageBlocks(stages, k - 1) + StageBlock(stages[k - 1], k - 1)
  }

  function CaseExits(i: nat, cases: nat, next: Node): seq<Line> {
    if cases == 0 then [] else CaseExits(i, cases - 1, next) + [Edge(CaseNode(i, cases - 1), next)]
  }

  /** The edges that leave stage i: from the stage, or from each of its cases. */
  function ExitBlock(stage: Stage, i: nat, next: Node): seq<Line> {
    if stage.Simple? then [Edge(StageNode(i), next)] else CaseExits(i, |stage.cases|, next)
  }

  function ExitBlocks(stages: seq<Stage>, k: nat): seq<Line>
    requires k <= |stages|
  {
    if k == 0 then [] else ExitBlocks(stages, k - 1) + ExitBlock(stages[k - 1], k - 1, EntryNode(stages, k))
  }

  function ExitEdges(stages: seq<Stage>): seq<Line> {
    [Edge(Input, EntryNode(stages, 0))] + ExitBlocks(stages, |stages|)
  }

  function GraphLines(stages: seq<Stage>): seq<Line> {
    [Declare(Input)] + StageBlocks(stages, |stages|) + [Declare(Output)] + ExitEdges(stages)
  }

  // ---------------------------------------------------------------- the emitter

  class LineSink {
    var lines: seq<Line>

    constructor ()
      ensures lines == []
    {
      lines := [];
    }

    method Append(more: seq<Line>)
      modifies this
      ensures lines == old(lines) + more
    {
      lines := lines + more;
    }
  }

  /** The records a branch stage owns among the flat records: one for each case, in order. */
  predicate Owns(records: seq<CaseRecord>, i: nat, cases: nat) {
    && |RecordsFor(records, i)| == cases
    && forall j :: 0 <= j < cases ==> RecordsFor(records, i)[j].caseIndex == j
  }

  lemma RecordsForStep(records: seq<CaseRecord>, i: nat, k: nat)
    requires k < |records|
    ensures RecordsFor(records[..k + 1], i)
            == RecordsFor(records[..k], i) + if records[k].branchIndex == i then [records[k]] else []
  {
    assert records[..k + 1][..k] == records[..k];
  }

  lemma {:induction false} RecordsForPrefix(records: seq<CaseRecord>, i: nat, k: nat)
    requires k <= |records|
    ensures RecordsFor(records[..k], i) <= RecordsFor(records, i)
  {
    assert records == records[..k] + records[k..];
    RecordsForConcat(records[..k], records[k..], i);
  }

  /** The k-th record, if stage i owns it, is for the case after those recorded before it. */
  lemma OwnedCase(records: seq<CaseRecord>, i: nat, cases: nat, k: nat)
    requires Owns(records, i, cases) && k < |records| && records[k].branchIndex == i
    ensures records[k].caseIndex == |RecordsFor(records[..k], i)| < cases
    ensures |RecordsFor(records[..k + 1], i)| == records[k].caseIndex + 1
  {
    RecordsForStep(records, i, k);
    RecordsForPrefix(records, i, k + 1);
    var at := |RecordsFor(records[..k], i)|;
    assert RecordsFor(records, i)[at] == RecordsFor(records[..k + 1], i)[at] == records[k];
  }

  lemma Associative<T>(a: seq<T>, b: seq<T>, c: seq<T>)
    ensures (a + b) + c == a + (b + c)
  {
  }

  method AppendBranchStage(records: seq<CaseRecord>, i: nat, cases: nat, sink: LineSink)
    requires Owns(records, i, cases)
    modifies sink
    ensures sink.lines == old(sink.lines) + ([Declare(BranchNode(i))] + CaseBlock(i, cases))
  {
    sink.Append([Declare(BranchNode(i))]);
    ghost var start := sink.lines;
    for k := 0 to |records|
      invariant sink.lines == start + CaseBlock(i, |RecordsFor(records[..k], i)|)
    {
      if records[k].branchIndex == i {
        OwnedCase(records, i, cases, k);
        Associative(start, CaseBlock(i, records[k].caseIndex), CaseLines(i, records[k].caseIndex));
        sink.Append(CaseLines(i, records[k].caseIndex));
      } else {
        RecordsForStep(records, i, k);
      }
    }
    assert records[..|records|] == records;
  }

  method EmitCaseExits(records: seq<CaseRecord>, i: nat, cases: nat, next: Node, sink: LineSink)
    requires Owns(records, i, cases)
    modifies sink
    ensures sink.lines == old(sink.lines) + CaseExits(i, cases, next)
  {
    for k := 0 to |records|
      invariant sink.lines == old(sink.lines) + CaseExits(i, |RecordsFor(records[..k], i)|, next)
    {
      if records[k].branchIndex == i {
        OwnedCase(records, i, cases, k);
        sink.Append([Edge(CaseNode(i, records[k].caseIndex), next)]);
      } else {
        RecordsForStep(records, i, k);
      }
    }
    assert records[..|records|] == records;
  }

  lemma StagesOwnTheirRecords(stages: seq<Stage>, i: nat)
    requires i < |stages|
    ensures Owns(FlatRecords(stages), i, CaseCount(stages[i]))
  {
    FlatteningIsExact(stages, i);
  }

  method EmitSingleStage(stages: seq<Stage>, i: nat, records: seq<CaseRecord>, sink: LineSink)
    requires records == FlatRecords(stages) && i < |stages|
    modifies sink
    ensures sink.lines == old(sink.lines) + StageBlock(stages[i], i)
  {
    if TopologyOf(stages[i]) == LinearStage {
      sink.Append([Declare(StageNode(i))]);
    } else {
      StagesOwnTheirRecords(stages, i);
      AppendBranchStage(records, i, CaseCount(stages[i]), sink);
    }
  }

  method EmitStages(stages: seq<Stage>, records: seq<CaseRecord>, sink: LineSink)
    requires records == FlatRecords(stages)
    modifies sink
    ensures sink.lines == old(sink.lines) + StageBlocks(stages, |stages|)
  {
    for i := 0 to |stages|
      invariant sink.lines == old(sink.lines) + StageBlocks(stages, i)
    {
      EmitSingleStage(stages, i, records, sink);
      Associative(old(sink.lines), StageBlocks(stages, i), StageBlock(stages[i], i));
    }
  }

  method EmitExits(stages: seq<Stage>, i: nat, next: Node, records: seq<CaseRecord>, sink: LineSink)
    requires records == FlatRecords(stages) && i < |stages|
    modifies sink
    ensures sink.lines == old(sink.lines) + ExitBlock(stages[i], i, next)
  {
    if TopologyOf(stages[i]) == LinearStage {
      sink.Append([Edge(StageNode(i), next)]);
    } else {
      StagesOwnTheirRecords(stages, i);
      EmitCaseExits(records, i, CaseCount(stages[i]), next, sink);
    }
  }

  function EntryFor(topology: Topology, i: nat): Node {
    if topology == LinearStage then StageNode(i) else BranchNode(i)
  }

  method EmitAdjacentEdges(stages: seq<Stage>, records: seq<CaseRecord>, sink: LineSink)
    requires records == FlatRecords(stages) && |stages| > 0
    modifies sink
    ensures sink.lines == old(sink.lines) + ExitBlocks(stages, |stages| - 1)
  {
    for index := 0 to |stages| - 1
      invariant sink.lines == old(sink.lines) + ExitBlocks(stages, index)
    {
      var next := EntryFor(TopologyOf(stages[index + 1]), index + 1);
      EmitExits(stages, index, next, records, sink);
      Associative(old(sink.lines), ExitBlocks(stages, index), ExitBlock(stages[index], index, next));
    }
  }

  /** Input edge, then the edges between adjacent stages, then the edges into the output. */
  method EmitAllEdges(stages: seq<Stage>, records: seq<CaseRecord>, sink: LineSink)
    requires records == FlatRecords(stages)
    modifies sink
    ensures sink.lines == old(sink.lines) + ExitEdges(stages)
  {
    if |stages| == 0 {
      sink.Append([Edge(Input, Output)]);
    } else {
      var last := |stages| - 1;
      ghost var start, first := sink.lines, [Edge(Input, EntryNode(stages, 0))];
      sink.Append([Edge(Input, EntryFor(TopologyOf(stages[0]), 0))]);
      EmitAdjacentEdges(stages, records, sink);
      EmitExits(stages, last, Output, records, sink);
      Associative(start + first, ExitBlocks(stages, last), ExitBlock(stages[last], last, Output));
      Associative(start, first, ExitBlocks(stages, |stages|));
    }
  }

  /** The branch-aware emitter writes the specified graph. */
  method EmitDot(stages: seq<Stage>) returns (sink: LineSink)
    ensures fresh(sink) && sink.lines == GraphLines(stages)
  {
    var descriptor := FillBranchCaseRecords(stages);
    var records := descriptor[..];
    sink := new LineSink();
    sink.Append([Declare(Input)]);
    assert sink.lines == [Declare(Input)];
    EmitStages(stages, records, sink);
    EmitOutput(stages, records, sink);
  }

  /** The output node and all edges. */
  method EmitOutput(stages: seq<Stage>, records: seq<CaseRecord>, sink: LineSink)
    requires records == FlatRecords(stages)
    modifies sink
    ensures sink.lines == old(sink.lines) + [Declare(Output)] + ExitEdges(stages)
  {
    sink.Append([Declare(Output)]);
    EmitAllEdges(stages, records, sink);
  }

  // ---------------------------------------------------------------- nodes and edges

  /** The nodes of a pipeline's graph. */
  predicate IsNode(stages: seq<Stage>, node: Node) {
    match node
    case Input => true
    case Output => true
    case StageNode(i) => i < |stages| && stages[i].Simple?
    case BranchNode(i) => i < |stages| && !stages[i].Simple?
    case PredicateNode(i, j) => i < |stages| && j < CaseCount(stages[i])
    case CaseNode(i, j) => i < |stages| && j < CaseCount(stages[i])
  }

  /** The edges of a pipeline's graph, read off the stage list. */
  predicate Next(stages: seq<Stage>, from: Node, to: Node) {
    && IsNode(stages, from)
    && match from
       case Input => to == EntryNode(stages, 0)
       case Output => false
       case StageNode(i) => to == EntryNode(stages, i + 1)
       case BranchNode(i) => to.PredicateNode? && to.index == i && to.caseIndex < CaseCount(stages[i])
       case PredicateNode(i, j) => to == CaseNode(i, j)
       case CaseNode(i, j) => to == EntryNode(stages, i + 1)
  }

  /** A line is right when it declares a node or draws an edge of the graph. */
  predicate Describes(stages: seq<Stage>, line: Line) {
    match line
    case Declare(node) => IsNode(stages, node)
    case Edge(from, to) => Next(stages, from, to)
  }

  /** The stage a line belongs to: the one it declares a node of or leaves from. */
  function IndexOf(node: Node): int {
    match node
    case Input => -1
    case Output => -1
    case StageNode(i) => i
    case BranchNode(i) => i
    case PredicateNode(i, _) => i
    case CaseNode(i, _) => i
  }

  /** Whether a line is written with the stage's block rather than with its exits. */
  predicate InBlock(line: Line) {
    line.Declare? || line.from.BranchNode? || line.from.PredicateNode?
  }

  function Source(line: Line): Node {
    match line
    case Declare(node) => node
    case Edge(from, _) => from
  }

  predicate NoRepeats<T(==)>(s: seq<T>) {
    forall i, j :: 0 <= i < j < |s| ==> s[i] != s[j]
  }

  lemma NoRepeatsConcat<T>(a: seq<T>, b: seq<T>)
    requires NoRepeats(a) && NoRepeats(b) && forall x :: x in a ==> x !in b
    ensures NoRepeats(a + b)
  {
    forall i, j | 0 <= i < j < |a + b| ensures (a + b)[i] != (a + b)[j] {
      if i < |a| <= j {
        assert a[i] in a && b[j - |a|] in b;
      }
    }
  }

  /** The lines of the cases below a bound: exactly those that mention such a case, once each. */
  lemma {:induction false} CaseBlockLines(i: nat, cases: nat)
    ensures NoRepeats(CaseBlock(i, cases))
    ensures forall line :: line in CaseBlock(i, cases) <==>
              exists j :: 0 <= j < cases && line in CaseLines(i, j)
  {
    if cases > 0 {
      CaseBlockLines(i, cases - 1);
      assert NoRepeats(CaseLines(i, cases - 1));
      NoRepeatsConcat(CaseBlock(i, cases - 1), CaseLines(i, cases - 1));
    }
  }

  lemma {:induction false} CaseExitLines(i: nat, cases: nat, next: Node)
    ensures NoRepeats(CaseExits(i, cases, next))
    ensures forall line :: line in CaseExits(i, cases, next) <==>
              exists j: nat :: j < cases && line == Edge(CaseNode(i, j), next)
  {
    if cases > 0 {
      CaseExitLines(i, cases - 1, next);
      NoRepeatsConcat(CaseExits(i, cases - 1, next), [Edge(CaseNode(i, cases - 1), next)]);
    }
  }

  lemma StageBlockLines(stages: seq<Stage>, i: nat)
    requires i < |stages|
    ensures NoRepeats(StageBlock(stages[i], i))
    ensures forall line :: line in StageBlock(stages[i], i) <==>
              IndexOf(Source(line)) == i && InBlock(line) && Describes(stages, line)
  {
    if !stages[i].Simple? {
      var cases := |stages[i].cases|;
      CaseBlockLines(i, cases);
      NoRepeatsConcat([Declare(BranchNode(i))], CaseBlock(i, cases));
      forall line ensures line in StageBlock(stages[i], i) <==>
          IndexOf(Source(line)) == i && InBlock(line) && Describes(stages, line)
      {
        if IndexOf(Source(line)) == i && InBlock(line) && Describes(stages, line) && line != Declare(BranchNode(i)) {
          var j := match line
            case Declare(node) => node.caseIndex
            case Edge(from, to) => to.caseIndex;
          assert line in CaseLines(i, j);
        }
      }
    }
  }

  lemma ExitBlockLines(stages: seq<Stage>, i: nat)
    requires i < |stages|
    ensures NoRepeats(ExitBlock(stages[i], i, EntryNode(stages, i + 1)))
    ensures forall line :: line in ExitBlock(stages[i], i, EntryNode(stages, i + 1)) <==>
              IndexOf(Source(line)) == i && !InBlock(line) && Describes(stages, line)
  {
    if !stages[i].Simple? {
      CaseExitLines(i, |stages[i].cases|, EntryNode(stages, i + 1));
    }
  }

  lemma {:induction false} StageBlocksLines(stages: seq<Stage>, k: nat)
    requires k <= |stages|
    ensures NoRepeats(StageBlocks(stages, k))
    ensures forall line :: line in StageBlocks(stages, k) <==>
              0 <= IndexOf(Source(line)) < k && InBlock(line) && Describes(stages, line)
  {
    if k > 0 {
      var earlier, block := StageBlocks(stages, k - 1), StageBlock(stages[k - 1], k - 1);
      StageBlocksLines(stages, k - 1);
      StageBlockLines(stages, k - 1);
      NoRepeatsConcat(earlier, block);
      forall line: Line
        ensures line in StageBlocks(stages, k) <==>
                  0 <= IndexOf(Source(line)) < k && InBlock(line) && Describes(stages, line)
      {
        InConcatenation(earlier, block, line);
      }
    }
  }

  lemma InConcatenation(a: seq<Line>, b: seq<Line>, line: Line)
    ensures line in a + b <==> line in a || line in b
  {
  }

  lemma {:induction false} ExitBlocksLines(stages: seq<Stage>, k: nat)
    requires k <= |stages|
    ensures NoRepeats(ExitBlocks(stages, k))
    ensures forall line :: line in ExitBlocks(stages, k) <==>
              0 <= IndexOf(Source(line)) < k && !InBlock(line) && Describes(stages, line)
  {
    if k > 0 {
      var earlier, block := ExitBlocks(stages, k - 1), ExitBlock(stages[k - 1], k - 1, EntryNode(stages, k));
      ExitBlocksLines(stages, k - 1);
      ExitBlockLines(stages, k - 1);
      NoRepeatsConcat(earlier, block);
      forall line: Line
        ensures line in ExitBlocks(stages, k) <==>
                  0 <= IndexOf(Source(line)) < k && !InBlock(line) && Describes(stages, line)
      {
        InConcatenation(earlier, block, line);
      }
    }
  }

  /** The emitted lines declare exactly the nodes and draw exactly the edges of the graph, each once. */
  lemma GraphIsExact(stages: seq<Stage>)
    ensures NoRepeats(GraphLines(stages))
    ensures forall node :: Declare(node) in GraphLines(stages) <==> IsNode(stages, node)
    ensures forall from, to :: Edge(from, to) in GraphLines(stages) <==> Next(stages, from, to)
  {
    var n := |stages|;
    StageBlocksLines(stages, n);
    ExitBlocksLines(stages, n);
    var a := [Declare(Input)] + StageBlocks(stages, n);
    NoRepeatsConcat([Declare(Input)], StageBlocks(stages, n));
    NoRepeatsConcat(a, [Declare(Output)]);
    NoRepeatsConcat([Edge(Input, EntryNode(stages, 0))], ExitBlocks(stages, n));
    NoRepeatsConcat(a + [Declare(Output)], ExitEdges(stages));
    forall line: Line ensures line in GraphLines(stages) <==> Describes(stages, line) {
      assert line in GraphLines(stages) <==>
          line == Declare(Input) || line in StageBlocks(stages, n) || line == Declare(Output)
          || line == Edge(Input, EntryNode(stages, 0)) || line in ExitBlocks(stages, n);
      if Describes(stages, line) {
        DescribedIndex(stages, line);
      }
    }
  }

  lemma DescribedIndex(stages: seq<Stage>, line: Line)
    requires Describes(stages, line)
    ensures IndexOf(Source(line)) < |stages|
    ensures IndexOf(Source(line)) < 0 ==>
              line == Declare(Input) || line == Declare(Output) || line == Edge(Input, EntryNode(stages, 0))
  {
  }
}
