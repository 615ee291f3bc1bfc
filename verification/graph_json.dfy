/**
  The JSON exporter of pipeline graphs: loops over the stage, case and edge records that
  put a comma before every element but the first.
 */
module GraphJson {
  import opened Core
  import opened Descriptor
  import opened JsonString
  import opened JsonDocument
  import opened JsonExport

  import D = Decimal

  // ---------------------------------------------------------------- the exported tree

  /** The member names of each kind of object, and the values that are the same in every document. */
  datatype Words = Words(graph: seq<string>, stage: seq<string>, branchCase: seq<string>, edge: seq<string>,
                         version: string, linear: string, branch: string, fanIn: string, single: string,
                         predicateEdge: Json, stageEdge: Json)

  predicate Sized(w: Words) {
    |w.graph| == 6 && |w.stage| == 5 && |w.branchCase| == 12 && |w.edge| == 7
  }

  function Members(names: seq<string>, values: seq<Json>): seq<Member>
    requires |values| <= |names|
  {
    seq(|values|, i requires 0 <= i < |values| => Member(names[i], values[i]))
  }

  /** The label of a case, or its index when it has none. */
  function LabelOrIndex(r: CaseRecord): string {
    if r.title != "" then r.title else D.Render(r.caseIndex)
  }

  function CaseValues(w: Words, r: CaseRecord): seq<Json> {
    var id := D.CaseId(r.branchIndex, r.caseIndex, D.WholeCase);
    [Num(r.caseIndex), Str(id), Str(id), Str(LabelOrIndex(r)),
     Str(D.CaseId(r.branchIndex, r.caseIndex, D.PredicateNode)), Str(D.CaseId(r.branchIndex, r.caseIndex, D.StageNode)),
     Str(r.predicateMeta.key), Str(r.predicateMeta.name), Str(r.stageMeta.key), Str(r.stageMeta.name),
     w.predicateEdge, w.stageEdge]
  }

  function CaseTree(w: Words, r: CaseRecord): Json
    requires Sized(w)
  {
    Obj(Members(w.branchCase, CaseValues(w, r)))
  }

  function CaseTrees(w: Words, records: seq<CaseRecord>): (trees: seq<Json>)
    requires Sized(w)
    ensures |trees| == |records|
  {
    if records == [] then [] else CaseTrees(w, records[..|records| - 1]) + [CaseTree(w, records[|records| - 1])]
  }

  function KindOf(w: Words, topology: Topology): string {
    match topology
    case LinearStage => w.single
    case BranchStage => w.branch
    case FanInStage => w.fanIn
  }

  /** The values of a stage that do not depend on its cases. */
  function StageHead(w: Words, stage: Stage, i: nat): seq<Json> {
    [Num(i), Str(MetaOf(stage).key), Str(MetaOf(stage).name), Str(KindOf(w, TopologyOf(stage)))]
  }

  function StageTree(w: Words, stage: Stage, i: nat): Json
    requires Sized(w)
  {
    if stage.Simple? then Obj(Members(w.stage, StageHead(w, stage, i)))
    else Obj(Members(w.stage, StageHead(w, stage, i) + [Arr(CaseTrees(w, NodeRecords(stage, i)))]))
  }

  function StageTrees(w: Words, stages: seq<Stage>, n: nat): (trees: seq<Json>)
    requires Sized(w) && n <= |stages|
    ensures |trees| == n
  {
    if n == 0 then [] else StageTrees(w, stages, n - 1) + [StageTree(w, stages[n - 1], n - 1)]
  }

  function EdgeValues(stages: seq<Stage>, i: nat): seq<Json>
    requires i + 1 < |stages|
  {
    [Num(i), Num(i), Num(i + 1), Str(MetaOf(stages[i]).key), Str(MetaOf(stages[i]).name),
     Str(MetaOf(stages[i + 1]).key), Str(MetaOf(stages[i + 1]).name)]
  }

  function EdgeTree(w: Words, stages: seq<Stage>, i: nat): Json
    requires Sized(w) && i + 1 < |stages|
  {
    Obj(Members(w.edge, EdgeValues(stages, i)))
  }

  function EdgeTrees(w: Words, stages: seq<Stage>, n: nat): (trees: seq<Json>)
    requires Sized(w) && (n == 0 || n < |stages|)
    ensures |trees| == n
  {
    if n == 0 then [] else EdgeTrees(w, stages, n - 1) + [EdgeTree(w, stages, n - 1)]
  }

  function EdgeCount(stages: seq<Stage>): nat {
    if |stages| > 0 then |stages| - 1 else 0
  }

  function TopologyName(w: Words, stages: seq<Stage>): string {
    if exists i :: 0 <= i < |stages| && stages[i].FanInBranch? then w.fanIn
    else if exists i :: 0 <= i < |stages| && stages[i].SelectedBranch? then w.branch
    else w.linear
  }

  function GraphValues(w: Words, stages: seq<Stage>): seq<Json>
    requires Sized(w)
  {
    [Str(w.version), Str(TopologyName(w, stages)), Num(|stages|), Num(EdgeCount(stages)),
     Arr(StageTrees(w, stages, |stages|)), Arr(EdgeTrees(w, stages, EdgeCount(stages)))]
  }

  function GraphTree(w: Words, stages: seq<Stage>): Json
    requires Sized(w)
  {
    Obj(Members(w.graph, GraphValues(w, stages)))
  }

  // ---------------------------------------------------------------- literal pieces

  /** The literals the exporter appends, in the order in which they appear. */
  datatype Layout = Layout(graph: seq<string>, stage: seq<string>, branchCase: seq<string>, edge: seq<string>)

  /** What stands before the value of a member. */
  function Lead(name: string, i: nat): string {
    [if i == 0 then '{' else ','] + Key(name)
  }

  /** The first pieces of an object each lead to one value. */
  predicate Leads(names: seq<string>, pieces: seq<string>, n: nat)
    requires n <= |names| && n <= |pieces|
  {
    forall i :: 0 <= i < n ==> pieces[i] == Lead(names[i], i)
  }

  predicate PlainNames(names: seq<string>) {
    forall i :: 0 <= i < |names| ==> IsPlain(names[i])
  }

  predicate EdgeCuts(names: seq<string>, pieces: seq<string>) {
    |names| == |pieces| == 7 && PlainNames(names) && Leads(names, pieces, 7)
  }

  /** The last two pieces of a case hold their values as well. */
  predicate CaseCuts(names: seq<string>, predicateEdge: Json, stageEdge: Json, pieces: seq<string>) {
    && |names| == |pieces| == 12 && PlainNames(names) && Leads(names, pieces, 10)
    && pieces[10] == Lead(names[10], 10) + Text(predicateEdge)
    && pieces[11] == Lead(names[11], 11) + Text(stageEdge)
  }

  /** A stage without cases has its kind in one piece; the cases open with a bracket. */
  predicate StageCuts(names: seq<string>, single: string, pieces: seq<string>) {
    && |names| == 5 && |pieces| == 6 && PlainNames(names) && Leads(names, pieces, 4)
    && pieces[4] == Lead(names[3], 3) + Quote(single)
    && pieces[5] == Lead(names[4], 4) + ['[']
  }

  predicate GraphCuts(names: seq<string>, version: string, pieces: seq<string>) {
    && |names| == |pieces| == 6 && PlainNames(names)
    && pieces[0] == Lead(names[0], 0) + Quote(version) + Lead(names[1], 1)
    && pieces[1] == Lead(names[2], 2)
    && pieces[2] == Lead(names[3], 3)
    && pieces[3] == Lead(names[4], 4) + ['[']
    && pieces[4] == [']'] + (Lead(names[5], 5) + ['['])
    && pieces[5] == [']', '}']
  }

  /** How a layout cuts the text of a document. */
  predicate Cuts(w: Words, l: Layout) {
    && Sized(w)
    && GraphCuts(w.graph, w.version, l.graph)
    && StageCuts(w.stage, w.single, l.stage)
    && CaseCuts(w.branchCase, w.predicateEdge, w.stageEdge, l.branchCase)
    && EdgeCuts(w.edge, l.edge)
  }

  // ---------------------------------------------------------------- objects written member by member

  /** An object left open behind its first members. */
  function Written(names: seq<string>, values: seq<Json>): string
    requires |values| <= |names|
  {
    if values == [] then "" else ['{'] + Join(MemberTexts(Members(names, values)))
  }

  lemma WrittenMore(names: seq<string>, values: seq<Json>, v: Json)
    requires |values| < |names| && IsPlain(names[|values|])
    ensures Written(names, values + [v]) == Written(names, values) + Lead(names[|values|], |values|) + Text(v)
  {
    var before, last := Members(names, values), Member(names[|values|], v);
    assert Members(names, values + [v]) == before + [last];
    JoinMembersMore(before, last);
    MemberLiteral(last.key, v);
    if values == [] {
      LedFirst(Key(last.key), Text(v));
    } else {
      LedNext(Join(MemberTexts(before)), Key(last.key), Text(v));
    }
  }

  lemma LedFirst(key: string, value: string)
    ensures ['{'] + (key + value) == "" + (['{'] + key) + value
  {
  }

  lemma LedNext(before: string, key: string, value: string)
    ensures ['{'] + (before + [','] + (key + value)) == ['{'] + before + ([','] + key) + value
  {
  }

  /** The first k + 1 members are the first k, the lead of the next and its value. */
  lemma WrittenNext(names: seq<string>, values: seq<Json>, k: nat)
    requires k < |values| <= |names| && PlainNames(names)
    ensures Written(names, values[..k + 1]) == Written(names, values[..k]) + Lead(names[k], k) + Text(values[k])
  {
    assert values[..k + 1] == values[..k] + [values[k]];
    WrittenMore(names, values[..k], values[k]);
  }

  lemma WrittenAll(names: seq<string>, values: seq<Json>)
    requires 0 < |values| <= |names|
    ensures Written(names, values[..|values|]) + ['}'] == Text(Obj(Members(names, values)))
  {
    assert values[..|values|] == values;
  }

  /** Appending piece by piece is appending the whole. */
  lemma Regrouped(a: string, b: string, c: string, d: string)
    ensures a + b + c + d == a + (b + c + d)
  {
  }

  lemma Placed(a: string, b: string, c: string, d: string)
    ensures a + b + (c + d) == a + (b + c + d)
  {
  }

  lemma Enclosed(a: string, b: string, c: string, d: string, e: string)
    ensures a + b + c + d + e == a + (b + c + d + e)
  {
  }

  /** Appends a piece that holds a member's lead and its value. */
  method AppendFixed(out: TextBuffer, ghost start: string, ghost names: seq<string>, ghost values: seq<Json>,
                     ghost k: nat, piece: string)
    requires k < |values| <= |names| && PlainNames(names)
    requires piece == Lead(names[k], k) + Text(values[k])
    requires out.text == start + Written(names, values[..k])
    modifies out
    ensures out.text == start + Written(names, values[..k + 1])
  {
    WrittenNext(names, values, k);
    Placed(start, Written(names, values[..k]), Lead(names[k], k), Text(values[k]));
    out.Append(piece);
  }

  /** Appends a lead and a number. */
  method AppendNumber(out: TextBuffer, ghost start: string, ghost names: seq<string>, ghost values: seq<Json>,
                      ghost k: nat, piece: string, value: nat)
    requires k < |values| <= |names| && PlainNames(names)
    requires piece == Lead(names[k], k) && values[k] == Num(value)
    requires out.text == start + Written(names, values[..k])
    modifies out
    ensures out.text == start + Written(names, values[..k + 1])
  {
    WrittenNext(names, values, k);
    Regrouped(start, Written(names, values[..k]), piece, Text(values[k]));
    out.Append(piece);
    out.Append(D.Render(value));
  }

  /** Appends a lead and an escaped string. */
  method AppendText(out: TextBuffer, ghost start: string, ghost names: seq<string>, ghost values: seq<Json>,
                    ghost k: nat, piece: string, value: string)
    requires k < |values| <= |names| && PlainNames(names)
    requires piece == Lead(names[k], k) && values[k] == Str(value)
    requires out.text == start + Written(names, values[..k])
    modifies out
    ensures out.text == start + Written(names, values[..k + 1])
  {
    WrittenNext(names, values, k);
    Regrouped(start, Written(names, values[..k]), piece, Text(values[k]));
    out.Append(piece);
    AppendGraphJsonString(out, value);
  }

  /** An array member: its lead and an opening bracket, the elements, a closing bracket. */
  lemma WrittenArray(names: seq<string>, values: seq<Json>, k: nat)
    requires k < |values| <= |names| && PlainNames(names) && values[k].Arr?
    ensures Written(names, values[..k + 1])
            == Written(names, values[..k]) + (Lead(names[k], k) + ['[']) + Join(Texts(values[k].items)) + [']']
  {
    WrittenNext(names, values, k);
    assert Text(values[k]) == ['['] + Join(Texts(values[k].items)) + [']'];
  }

  // ---------------------------------------------------------------- cases

  /** The first four members of a case. */
  method AppendCaseIdentity(w: Words, pieces: seq<string>, out: TextBuffer, r: CaseRecord)
    requires Sized(w) && CaseCuts(w.branchCase, w.predicateEdge, w.stageEdge, pieces)
    modifies out
    ensures out.text == old(out.text) + Written(w.branchCase, CaseValues(w, r)[..4])
  {
    ghost var start, values := out.text, CaseValues(w, r);
    var id := D.CaseId(r.branchIndex, r.caseIndex, D.WholeCase);
    AppendNumber(out, start, w.branchCase, values, 0, pieces[0], r.caseIndex);
    AppendText(out, start, w.branchCase, values, 1, pieces[1], id);
    AppendText(out, start, w.branchCase, values, 2, pieces[2], id);
    AppendText(out, start, w.branchCase, values, 3, pieces[3], LabelOrIndex(r));
  }

  /** The next two members: the node identifiers. */
  method AppendCaseNodes(w: Words, pieces: seq<string>, out: TextBuffer, ghost start: string, r: CaseRecord)
    requires Sized(w) && CaseCuts(w.branchCase, w.predicateEdge, w.stageEdge, pieces)
    requires out.text == start + Written(w.branchCase, CaseValues(w, r)[..4])
    modifies out
    ensures out.text == start + Written(w.branchCase, CaseValues(w, r)[..6])
  {
    ghost var values := CaseValues(w, r);
    AppendText(out, start, w.branchCase, values, 4, pieces[4], D.CaseId(r.branchIndex, r.caseIndex, D.PredicateNode));
    AppendText(out, start, w.branchCase, values, 5, pieces[5], D.CaseId(r.branchIndex, r.caseIndex, D.StageNode));
  }

  /** The last four texts: predicate and stage metadata. */
  method AppendCaseMetas(w: Words, pieces: seq<string>, out: TextBuffer, ghost start: string, r: CaseRecord)
    requires Sized(w) && CaseCuts(w.branchCase, w.predicateEdge, w.stageEdge, pieces)
    requires out.text == start + Written(w.branchCase, CaseValues(w, r)[..6])
    modifies out
    ensures out.text == start + Written(w.branchCase, CaseValues(w, r)[..10])
  {
    ghost var values := CaseValues(w, r);
    AppendText(out, start, w.branchCase, values, 6, pieces[6], r.predicateMeta.key);
    AppendText(out, start, w.branchCase, values, 7, pieces[7], r.predicateMeta.name);
    AppendText(out, start, w.branchCase, values, 8, pieces[8], r.stageMeta.key);
    AppendText(out, start, w.branchCase, values, 9, pieces[9], r.stageMeta.name);
  }

  method AppendBranchCase(w: Words, pieces: seq<string>, out: TextBuffer, r: CaseRecord)
    requires Sized(w) && CaseCuts(w.branchCase, w.predicateEdge, w.stageEdge, pieces)
    modifies out
    ensures out.text == old(out.text) + Text(CaseTree(w, r))
  {
    ghost var start, values := out.text, CaseValues(w, r);
    AppendCaseIdentity(w, pieces, out, r);
    AppendCaseNodes(w, pieces, out, start, r);
    AppendCaseMetas(w, pieces, out, start, r);
    AppendFixed(out, start, w.branchCase, values, 10, pieces[10]);
    AppendFixed(out, start, w.branchCase, values, 11, pieces[11]);
    WrittenAll(w.branchCase, values);
    out.PushBack('}');
  }

  /** A comma before every element but the first. */
  lemma JoinTextsMore(items: seq<Json>, item: Json)
    ensures Join(Texts(items + [item]))
            == (if items == [] then "" else Join(Texts(items)) + [',']) + Text(item)
  {
    assert (items + [item])[..|items|] == items;
    JoinMore(Texts(items), Text(item));
  }

  method AppendComma(out: TextBuffer, ghost start: string, ghost items: seq<Json>, first: bool)
    requires (first <==> items == []) && out.text == start + Join(Texts(items))
    modifies out
    ensures forall item :: out.text + Text(item) == start + Join(Texts(items + [item]))
  {
    if !first {
      out.PushBack(',');
    }
    forall item ensures out.text + Text(item) == start + Join(Texts(items + [item])) {
      JoinTextsMore(items, item);
    }
  }

  method AppendNextCase(w: Words, pieces: seq<string>, out: TextBuffer, ghost start: string, ghost items: seq<Json>,
                        first: bool, r: CaseRecord)
    requires Sized(w) && CaseCuts(w.branchCase, w.predicateEdge, w.stageEdge, pieces)
    requires (first <==> items == []) && out.text == start + Join(Texts(items))
    modifies out
    ensures out.text == start + Join(Texts(items + [CaseTree(w, r)]))
  {
    AppendComma(out, start, items, first);
    AppendBranchCase(w, pieces, out, r);
  }

  lemma RecordsStep(w: Words, records: seq<CaseRecord>, index: nat, k: nat)
    requires Sized(w) && k < |records|
    ensures var before := CaseTrees(w, RecordsFor(records[..k], index));
            CaseTrees(w, RecordsFor(records[..k + 1], index))
            == if records[k].branchIndex == index then before + [CaseTree(w, records[k])] else before
  {
    assert records[..k + 1][..k] == records[..k];
    var owned := RecordsFor(records[..k], index);
    assert (owned + [records[k]])[..|owned|] == owned;
    assert owned + [] == owned;
  }

  /** The cases of one stage, picked from all records by stage index. */
  method AppendBranchCases(w: Words, pieces: seq<string>, out: TextBuffer, records: seq<CaseRecord>, index: nat)
    requires Sized(w) && CaseCuts(w.branchCase, w.predicateEdge, w.stageEdge, pieces)
    modifies out
    ensures out.text == old(out.text) + Join(Texts(CaseTrees(w, RecordsFor(records, index))))
  {
    var first := true;
    ghost var start := out.text;
    assert start + Join(Texts([])) == start;
    for k := 0 to |records|
      invariant first <==> CaseTrees(w, RecordsFor(records[..k], index)) == []
      invariant out.text == start + Join(Texts(CaseTrees(w, RecordsFor(records[..k], index))))
    {
      RecordsStep(w, records, index, k);
      if records[k].branchIndex == index {
        AppendNextCase(w, pieces, out, start, CaseTrees(w, RecordsFor(records[..k], index)), first, records[k]);
        first := false;
      }
    }
    assert records[..|records|] == records;
  }

  // ---------------------------------------------------------------- stages

  /** The kind and the cases of a branch stage, up to the closing bracket. */
  method AppendBranchKind(w: Words, l: Layout, out: TextBuffer, ghost start: string, stage: Stage, i: nat,
                          records: seq<CaseRecord>, ghost values: seq<Json>)
    requires Cuts(w, l) && !stage.Simple? && RecordsFor(records, i) == NodeRecords(stage, i)
    requires values == StageHead(w, stage, i) + [Arr(CaseTrees(w, NodeRecords(stage, i)))]
    requires out.text == start + Written(w.stage, values[..3])
    modifies out
    ensures out.text == start + Written(w.stage, values[..5])
  {
    AppendText(out, start, w.stage, values, 3, l.stage[3], KindOf(w, TopologyOf(stage)));
    AppendCasesMember(w, l, out, start, i, records, values);
  }

  /** The cases as the last member of a stage. */
  method AppendCasesMember(w: Words, l: Layout, out: TextBuffer, ghost start: string, i: nat,
                           records: seq<CaseRecord>, ghost values: seq<Json>)
    requires Cuts(w, l) && |values| == 5 && values[4] == Arr(CaseTrees(w, RecordsFor(records, i)))
    requires out.text == start + Written(w.stage, values[..4])
    modifies out
    ensures out.text == start + Written(w.stage, values[..5])
  {
    WrittenArray(w.stage, values, 4);
    Enclosed(start, Written(w.stage, values[..4]), l.stage[5], Join(Texts(values[4].items)), [']']);
    out.Append(l.stage[5]);
    AppendBranchCases(w, l.branchCase, out, records, i);
    out.PushBack(']');
  }

  /** The first three members of a stage. */
  method AppendStageHead(w: Words, pieces: seq<string>, out: TextBuffer, stage: Stage, i: nat, ghost values: seq<Json>)
    requires Sized(w) && StageCuts(w.stage, w.single, pieces)
    requires 4 <= |values| <= 5 && values[..4] == StageHead(w, stage, i)
    modifies out
    ensures out.text == old(out.text) + Written(w.stage, values[..3])
  {
    ghost var start := out.text;
    assert forall k :: 0 <= k < 4 ==> values[k] == values[..4][k];
    AppendNumber(out, start, w.stage, values, 0, pieces[0], i);
    AppendText(out, start, w.stage, values, 1, pieces[1], MetaOf(stage).key);
    AppendText(out, start, w.stage, values, 2, pieces[2], MetaOf(stage).name);
  }

  /** One stage: an object closed after its kind, or after its cases. */
  method AppendStage(w: Words, l: Layout, out: TextBuffer, stage: Stage, i: nat, records: seq<CaseRecord>)
    requires Cuts(w, l) && (!stage.Simple? ==> RecordsFor(records, i) == NodeRecords(stage, i))
    modifies out
    ensures out.text == old(out.text) + Text(StageTree(w, stage, i))
  {
    ghost var start, values := out.text, StageHead(w, stage, i);
    if TopologyOf(stage) != LinearStage {
      values := values + [Arr(CaseTrees(w, NodeRecords(stage, i)))];
    }
    AppendStageHead(w, l.stage, out, stage, i, values);
    if TopologyOf(stage) != LinearStage {
      AppendBranchKind(w, l, out, start, stage, i, records, values);
    } else {
      AppendFixed(out, start, w.stage, values, 3, l.stage[4]);
    }
    WrittenAll(w.stage, values);
    out.PushBack('}');
  }

  method AppendStages(w: Words, l: Layout, out: TextBuffer, stages: seq<Stage>, records: seq<CaseRecord>)
    requires Cuts(w, l) && records == FlatRecords(stages)
    modifies out
    ensures out.text == old(out.text) + Join(Texts(StageTrees(w, stages, |stages|)))
  {
    var first := true;
    ghost var start := out.text;
    assert start + Join(Texts([])) == start;
    for i := 0 to |stages|
      invariant first <==> i == 0
      invariant out.text == start + Join(Texts(StageTrees(w, stages, i)))
    {
      FlatteningIsExact(stages, i);
      AppendComma(out, start, StageTrees(w, stages, i), first);
      first := false;
      AppendStage(w, l, out, stages[i], i, records);
    }
  }

  // ---------------------------------------------------------------- edges

  method AppendEdge(w: Words, pieces: seq<string>, out: TextBuffer, stages: seq<Stage>, i: nat)
    requires Sized(w) && EdgeCuts(w.edge, pieces) && i + 1 < |stages|
    modifies out
    ensures out.text == old(out.text) + Text(EdgeTree(w, stages, i))
  {
    ghost var start, values := out.text, EdgeValues(stages, i);
    AppendNumber(out, start, w.edge, values, 0, pieces[0], i);
    AppendNumber(out, start, w.edge, values, 1, pieces[1], i);
    AppendNumber(out, start, w.edge, values, 2, pieces[2], i + 1);
    AppendText(out, start, w.edge, values, 3, pieces[3], MetaOf(stages[i]).key);
    AppendText(out, start, w.edge, values, 4, pieces[4], MetaOf(stages[i]).name);
    AppendText(out, start, w.edge, values, 5, pieces[5], MetaOf(stages[i + 1]).key);
    AppendText(out, start, w.edge, values, 6, pieces[6], MetaOf(stages[i + 1]).name);
    WrittenAll(w.edge, values);
    out.PushBack('}');
  }

  method AppendEdges(w: Words, pieces: seq<string>, out: TextBuffer, stages: seq<Stage>)
    requires Sized(w) && EdgeCuts(w.edge, pieces)
    modifies out
    ensures out.text == old(out.text) + Join(Texts(EdgeTrees(w, stages, EdgeCount(stages))))
  {
    var first := true;
    ghost var start := out.text;
    assert start + Join(Texts([])) == start;
    for i := 0 to EdgeCount(stages)
      invariant first <==> i == 0
      invariant out.text == start + Join(Texts(EdgeTrees(w, stages, i)))
    {
      AppendComma(out, start, EdgeTrees(w, stages, i), first);
      first := false;
      AppendEdge(w, pieces, out, stages, i);
    }
  }

  // ---------------------------------------------------------------- the document

  /** The version, in one piece with the lead of the topology, and the topology. */
  method AppendVersion(w: Words, pieces: seq<string>, out: TextBuffer, topology: string, ghost values: seq<Json>)
    requires Sized(w) && GraphCuts(w.graph, w.version, pieces) && out.text == ""
    requires |values| == 6 && values[0] == Str(w.version) && values[1] == Str(topology)
    modifies out
    ensures out.text == "" + Written(w.graph, values[..2])
  {
    VersionText(w, pieces, topology, values);
    out.Append(pieces[0]);
    AppendGraphJsonString(out, topology);
  }

  lemma VersionText(w: Words, pieces: seq<string>, topology: string, values: seq<Json>)
    requires Sized(w) && GraphCuts(w.graph, w.version, pieces)
    requires |values| == 6 && values[0] == Str(w.version) && values[1] == Str(topology)
    ensures "" + pieces[0] + Quote(topology) == "" + Written(w.graph, values[..2])
  {
    WrittenNext(w.graph, values, 0);
    WrittenNext(w.graph, values, 1);
    Opening(Lead(w.graph[0], 0), Quote(w.version), Lead(w.graph[1], 1), Quote(topology));
  }

  lemma Opening(a: string, b: string, c: string, d: string)
    ensures "" + (a + b + c) + d == "" + ("" + a + b + c + d)
  {
  }

  /** The version, the topology and the two counts. */
  method AppendGraphHead(w: Words, pieces: seq<string>, out: TextBuffer, stages: seq<Stage>)
    requires Sized(w) && GraphCuts(w.graph, w.version, pieces) && out.text == ""
    modifies out
    ensures out.text == Written(w.graph, GraphValues(w, stages)[..4])
  {
    ghost var values := GraphValues(w, stages);
    AppendVersion(w, pieces, out, TopologyName(w, stages), values);
    AppendNumber(out, "", w.graph, values, 2, pieces[1], |stages|);
    AppendNumber(out, "", w.graph, values, 3, pieces[2], EdgeCount(stages));
  }

  method AppendStagesMember(w: Words, l: Layout, out: TextBuffer, stages: seq<Stage>, records: seq<CaseRecord>)
    requires Cuts(w, l) && records == FlatRecords(stages)
    requires out.text == Written(w.graph, GraphValues(w, stages)[..4])
    modifies out
    ensures out.text + [']'] == Written(w.graph, GraphValues(w, stages)[..5])
  {
    ghost var values := GraphValues(w, stages);
    WrittenArray(w.graph, values, 4);
    out.Append(l.graph[3]);
    AppendStages(w, l, out, stages, records);
  }

  method AppendEdgesMember(w: Words, l: Layout, out: TextBuffer, stages: seq<Stage>)
    requires Cuts(w, l) && out.text + [']'] == Written(w.graph, GraphValues(w, stages)[..5])
    modifies out
    ensures out.text + [']'] == Written(w.graph, GraphValues(w, stages)[..6])
  {
    ghost var values := GraphValues(w, stages);
    WrittenArray(w.graph, values, 5);
    Reopened(out.text, Lead(w.graph[5], 5) + ['[']);
    out.Append(l.graph[4]);
    AppendEdges(w, l.edge, out, stages);
  }

  lemma Closing(text: string)
    ensures text + [']', '}'] == (text + [']']) + ['}']
  {
  }

  lemma Reopened(text: string, more: string)
    ensures text + ([']'] + more) == (text + [']']) + more
  {
  }

  /** The exporter, whatever its literals, writes the text of the graph's tree. */
  method ExportGraph(w: Words, l: Layout, stages: seq<Stage>) returns (text: string)
    requires Cuts(w, l)
    ensures text == Text(GraphTree(w, stages))
  {
    var descriptor := FillBranchCaseRecords(stages);
    var out := new TextBuffer();
    AppendGraphHead(w, l.graph, out, stages);
    AppendStagesMember(w, l, out, stages, descriptor[..]);
    AppendEdgesMember(w, l, out, stages);
    Closing(out.text);
    WrittenAll(w.graph, GraphValues(w, stages));
    out.Append(l.graph[5]);
    text := out.text;
  }

  // ---------------------------------------------------------------- the words of the format

  function TextMember(name: string, value: string): Member {
    Member(name, Str(value))
  }

  const GRAPH_NAMES := ["schema_version", "topology", "stage_count", "edge_count", "stages", "edges"]

  const STAGE_NAMES := ["index", "key", "name", "kind", "branch_cases"]

  const CASE_NAMES := ["index", "case_id", "case_key", "case_label", "predicate_node_id", "stage_node_id",
                       "predicate_key", "predicate_name", "stage_key", "stage_name", "predicate_edge", "stage_edge"]

  const EDGE_NAMES := ["index", "from_stage_index", "to_stage_index", "from_key", "from_name", "to_key", "to_name"]

  const PREDICATE_EDGE := Obj([TextMember("from", "branch"), TextMember("to", "predicate"),
                               TextMember("style", "dashed"), TextMember("label", "test")])

  const STAGE_EDGE := Obj([TextMember("from", "predicate"), TextMember("to", "case_stage")])

  const WORDS := Words(GRAPH_NAMES, STAGE_NAMES, CASE_NAMES, EDGE_NAMES,
                       "pb.core.graph.v1", "linear", "branch", "fan_in", "stage", PREDICATE_EDGE, STAGE_EDGE)

  const VERSION_PIECE := "{\"schema_version\":" + "\"pb.core.graph.v1\"" + ",\"topology\":"

  const GRAPH_PIECES := [VERSION_PIECE, ",\"stage_count\":", ",\"edge_count\":", ",\"stages\":[", "],\"edges\":[", "]}"]

  const STAGE_PIECES := ["{\"index\":", ",\"key\":", ",\"name\":", ",\"kind\":", ",\"kind\":\"stage\"",
                         ",\"branch_cases\":["]

  const PREDICATE_EDGE_PIECE :=
    ",\"predicate_edge\":" + ("{" + ("\"from\":\"branch\"" + "," + "\"to\":\"predicate\"" + ","
                                   + "\"style\":\"dashed\"" + "," + "\"label\":\"test\"") + "}")

  const STAGE_EDGE_PIECE :=
    ",\"stage_edge\":" + ("{" + ("\"from\":\"predicate\"" + "," + "\"to\":\"case_stage\"") + "}")

  const CASE_PIECES := ["{\"index\":", ",\"case_id\":", ",\"case_key\":", ",\"case_label\":", ",\"predicate_node_id\":",
                        ",\"stage_node_id\":", ",\"predicate_key\":", ",\"predicate_name\":", ",\"stage_key\":",
                        ",\"stage_name\":", PREDICATE_EDGE_PIECE, STAGE_EDGE_PIECE]

  const EDGE_PIECES := ["{\"index\":", ",\"from_stage_index\":", ",\"to_stage_index\":", ",\"from_key\":",
                        ",\"from_name\":", ",\"to_key\":", ",\"to_name\":"]

  const LAYOUT := Layout(GRAPH_PIECES, STAGE_PIECES, CASE_PIECES, EDGE_PIECES)

  /** A text whose characters all lie behind the quotation mark and are no backslash needs no escapes. */
  predicate IsWord(s: string) {
    forall i :: 0 <= i < |s| ==> '.' <= s[i] && s[i] != '\\'
  }

  lemma WordIsPlain(s: string)
    requires IsWord(s)
    ensures IsPlain(s)
  {
  }

  lemma WordsArePlain(names: seq<string>)
    requires forall i :: 0 <= i < |names| ==> IsWord(names[i])
    ensures PlainNames(names)
  {
    forall i | 0 <= i < |names| ensures IsPlain(names[i]) {
      WordIsPlain(names[i]);
    }
  }

  /** A text in quotation marks. */
  function Quoted(s: string): string {
    ['\"'] + s + ['\"']
  }

  lemma WordQuote(s: string)
    requires IsWord(s)
    ensures Quote(s) == Quoted(s)
  {
    WordIsPlain(s);
    PlainQuote(s);
  }

  lemma IndexPiece()
    ensures "{\"index\":" == Lead("index", 0)
  {
  }

  lemma OriginPiece()
    ensures ",\"from_stage_index\":" == Lead("from_stage_index", 1)
  {
  }

  lemma TargetPiece()
    ensures ",\"to_stage_index\":" == Lead("to_stage_index", 2)
  {
  }

  lemma EndPieces()
    ensures ",\"from_key\":" == Lead("from_key", 3) && ",\"from_name\":" == Lead("from_name", 4)
    ensures ",\"to_key\":" == Lead("to_key", 5) && ",\"to_name\":" == Lead("to_name", 6)
  {
  }

  lemma EdgeNamesArePlain()
    ensures PlainNames(EDGE_NAMES)
  {
    EdgeNamesAreWords();
    WordsArePlain(EDGE_NAMES);
  }

  lemma EdgeNamesAreWords()
    ensures forall i :: 0 <= i < |EDGE_NAMES| ==> IsWord(EDGE_NAMES[i])
  {
  }

  lemma EdgeLayoutCuts()
    ensures EdgeCuts(EDGE_NAMES, EDGE_PIECES)
  {
    IndexPiece();
    OriginPiece();
    TargetPiece();
    EndPieces();
    EdgeNamesArePlain();
  }

  lemma StagePieces()
    ensures ",\"key\":" == Lead("key", 1) && ",\"name\":" == Lead("name", 2) && ",\"kind\":" == Lead("kind", 3)
  {
  }

  lemma KindPiece()
    ensures ",\"kind\":\"stage\"" == Lead("kind", 3) + Quote("stage")
  {
    assert ",\"kind\":\"stage\"" == Lead("kind", 3) + Quoted("stage");
    WordQuote("stage");
  }

  lemma CasesPiece()
    ensures ",\"branch_cases\":[" == Lead("branch_cases", 4) + ['[']
  {
  }

  lemma StageNamesArePlain()
    ensures PlainNames(STAGE_NAMES)
  {
    StageNamesAreWords();
    WordsArePlain(STAGE_NAMES);
  }

  lemma StageNamesAreWords()
    ensures forall i :: 0 <= i < |STAGE_NAMES| ==> IsWord(STAGE_NAMES[i])
  {
  }

  lemma StageLayoutCuts()
    ensures StageCuts(STAGE_NAMES, "stage", STAGE_PIECES)
  {
    IndexPiece();
    StagePieces();
    KindPiece();
    CasesPiece();
    StageNamesArePlain();
  }

  lemma VersionPiece()
    ensures VERSION_PIECE == Lead("schema_version", 0) + Quote("pb.core.graph.v1") + Lead("topology", 1)
  {
    VersionLeads();
    QuotedVersion();
  }

  lemma VersionLeads()
    ensures "{\"schema_version\":" == Lead("schema_version", 0) && ",\"topology\":" == Lead("topology", 1)
  {
  }

  lemma QuotedVersion()
    ensures "\"pb.core.graph.v1\"" == Quote("pb.core.graph.v1")
  {
    assert Quoted("pb.core.graph.v1") == "\"pb.core.graph.v1\"";
    WordQuote("pb.core.graph.v1");
  }

  lemma CountPieces()
    ensures ",\"stage_count\":" == Lead("stage_count", 2) && ",\"edge_count\":" == Lead("edge_count", 3)
  {
  }

  lemma ArrayPieces()
    ensures ",\"stages\":[" == Lead("stages", 4) + ['['] && "],\"edges\":[" == [']'] + (Lead("edges", 5) + ['['])
  {
  }

  lemma GraphNamesArePlain()
    ensures PlainNames(GRAPH_NAMES)
  {
    GraphNamesAreWords();
    WordsArePlain(GRAPH_NAMES);
  }

  lemma GraphNamesAreWords()
    ensures forall i :: 0 <= i < |GRAPH_NAMES| ==> IsWord(GRAPH_NAMES[i])
  {
  }

  lemma GraphLayoutCuts()
    ensures GraphCuts(GRAPH_NAMES, "pb.core.graph.v1", GRAPH_PIECES)
  {
    VersionPiece();
    CountPieces();
    ArrayPieces();
    GraphNamesArePlain();
  }

  /** The text of a member whose name and value need no escapes. */
  lemma PlainTextMember(name: string, value: string)
    requires IsWord(name) && IsWord(value)
    ensures MemberText(TextMember(name, value)) == Key(name) + Quoted(value)
  {
    WordIsPlain(name);
    MemberLiteral(name, Str(value));
    WordQuote(value);
  }

  lemma StageEdgeLiterals()
    ensures "\"from\":\"predicate\"" == Key("from") + Quoted("predicate")
    ensures "\"to\":\"case_stage\"" == Key("to") + Quoted("case_stage")
  {
  }

  lemma EdgePieces()
    ensures ",\"predicate_edge\":" == Lead("predicate_edge", 10) && ",\"stage_edge\":" == Lead("stage_edge", 11)
  {
  }

  lemma StageEdgeText()
    ensures STAGE_EDGE_PIECE == Lead("stage_edge", 11) + Text(STAGE_EDGE)
  {
    EdgePieces();
    StageEdgeLiterals();
    PlainTextMember("from", "predicate");
    PlainTextMember("to", "case_stage");
    JoinTwo(TextMember("from", "predicate"), TextMember("to", "case_stage"));
  }

  lemma PredicateEdgeEnds()
    ensures "\"from\":\"branch\"" == Key("from") + Quoted("branch")
    ensures "\"to\":\"predicate\"" == Key("to") + Quoted("predicate")
  {
  }

  lemma PredicateEdgeStyle()
    ensures "\"style\":\"dashed\"" == Key("style") + Quoted("dashed")
    ensures "\"label\":\"test\"" == Key("label") + Quoted("test")
  {
  }

  lemma PredicateEdgeText()
    ensures PREDICATE_EDGE_PIECE == Lead("predicate_edge", 10) + Text(PREDICATE_EDGE)
  {
    EdgePieces();
    PredicateEdgeEnds();
    PredicateEdgeStyle();
    PlainTextMember("from", "branch");
    PlainTextMember("to", "predicate");
    PlainTextMember("style", "dashed");
    PlainTextMember("label", "test");
    JoinFour(TextMember("from", "branch"), TextMember("to", "predicate"), TextMember("style", "dashed"),
             TextMember("label", "test"));
  }

  lemma CaseIdPieces()
    ensures ",\"case_id\":" == Lead("case_id", 1) && ",\"case_key\":" == Lead("case_key", 2)
    ensures ",\"case_label\":" == Lead("case_label", 3)
  {
  }

  lemma PredicateNodeIdPiece()
    ensures ",\"predicate_node_id\":" == Lead("predicate_node_id", 4)
  {
  }

  lemma StageNodeIdPiece()
    ensures ",\"stage_node_id\":" == Lead("stage_node_id", 5)
  {
  }

  lemma PredicateMetaPieces()
    ensures ",\"predicate_key\":" == Lead("predicate_key", 6) && ",\"predicate_name\":" == Lead("predicate_name", 7)
  {
  }

  lemma StageMetaPieces()
    ensures ",\"stage_key\":" == Lead("stage_key", 8) && ",\"stage_name\":" == Lead("stage_name", 9)
  {
  }

  lemma CaseNamesArePlain()
    ensures PlainNames(CASE_NAMES)
  {
    CaseNamesAreWords();
    WordsArePlain(CASE_NAMES);
  }

  lemma CaseNamesAreWords()
    ensures forall i :: 0 <= i < |CASE_NAMES| ==> IsWord(CASE_NAMES[i])
  {
  }

  lemma CaseLayoutCuts()
    ensures CaseCuts(CASE_NAMES, PREDICATE_EDGE, STAGE_EDGE, CASE_PIECES)
  {
    IndexPiece();
    CaseIdPieces();
    PredicateNodeIdPiece();
    StageNodeIdPiece();
    PredicateMetaPieces();
    StageMetaPieces();
    CaseNamesArePlain();
    PredicateEdgeText();
    StageEdgeText();
  }

  lemma LayoutCuts()
    ensures Cuts(WORDS, LAYOUT)
  {
    GraphLayoutCuts();
    StageLayoutCuts();
    CaseLayoutCuts();
    EdgeLayoutCuts();
  }

  /** The exporter writes the text of the graph's document tree. */
  method GraphToJson(stages: seq<Stage>) returns (text: string)
    ensures Sized(WORDS) && text == Text(GraphTree(WORDS, stages))
  {
    LayoutCuts();
    text := ExportGraph(WORDS, LAYOUT, stages);
  }

  /** An exported graph is read back whole; the cases listed under a stage are that stage's cases, in order. */
  lemma GraphRoundTrip(w: Words, stages: seq<Stage>)
    requires Sized(w)
    ensures ReadValue(Text(GraphTree(w, stages))) == Some((GraphTree(w, stages), ""))
    ensures forall i :: 0 <= i < |stages| && !stages[i].Simple? ==>
              var trees := CaseTrees(w, RecordsFor(FlatRecords(stages), i));
              && |trees| == |stages[i].cases|
              && StageTrees(w, stages, |stages|)[i] == Obj(Members(w.stage, StageHead(w, stages[i], i) + [Arr(trees)]))
  {
    RoundTrip(GraphTree(w, stages));
    forall i | 0 <= i < |stages|
      ensures StageTrees(w, stages, |stages|)[i] == StageTree(w, stages[i], i)
      ensures RecordsFor(FlatRecords(stages), i) == NodeRecords(stages[i], i)
    {
      FlatteningIsExact(stages, i);
      StageTreeAt(w, stages, |stages|, i);
    }
  }

  lemma {:induction false} StageTreeAt(w: Words, stages: seq<Stage>, n: nat, i: nat)
    requires Sized(w) && i < n <= |stages|
    ensures StageTrees(w, stages, n)[i] == StageTree(w, stages[i], i)
  {
    if i < n - 1 {
      StageTreeAt(w, stages, n - 1, i);
    }
  }
}
