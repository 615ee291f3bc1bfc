/**
  The exported graph as its reader sees it: the members of the document, of each stage, each
  case and each edge, looked up by their names.
 */
module GraphDocument {
  import opened Core
  import opened Descriptor
  import opened JsonDocument
  import opened JsonExport
  import opened GraphJson

  import D = Decimal

  /** An object with a member of this name and value, found before any other of that name. */
  predicate Has(j: Json, name: string, value: Json) {
    j.Obj? && Lookup(j.members, name) == Some(value)
  }

  // ---------------------------------------------------------------- what the document says

  /** The key and the name of a stage: declared ones, or those of its kind of branch. */
  function StageKey(stage: Stage): string {
    match stage
    case Simple(meta, _, _, _) => meta.key
    case SelectedBranch(_) => "branch"
    case FanInBranch(_) => "fan_in"
  }

  function StageName(stage: Stage): string {
    match stage
    case Simple(meta, _, _, _) => meta.name
    case SelectedBranch(_) => "branch"
    case FanInBranch(_) => "fan_in"
  }

  predicate EdgeEntry(stages: seq<Stage>, i: nat, j: Json)
    requires i + 1 < |stages|
  {
    && Has(j, "index", Num(i))
    && Has(j, "from_stage_index", Num(i))
    && Has(j, "to_stage_index", Num(i + 1))
    && Has(j, "from_key", Str(StageKey(stages[i])))
    && Has(j, "from_name", Str(StageName(stages[i])))
    && Has(j, "to_key", Str(StageKey(stages[i + 1])))
    && Has(j, "to_name", Str(StageName(stages[i + 1])))
  }

  /** The identity of a case: its number, its identifiers and its label. */
  predicate CaseIdentity(i: nat, k: nat, c: Case, j: Json) {
    var id := "branch." + D.Render(i) + ".case." + D.Render(k);
    && Has(j, "index", Num(k))
    && Has(j, "case_id", Str(id))
    && Has(j, "case_key", Str(id))
    && Has(j, "case_label", Str(if c.title == "" then D.Render(k) else c.title))
    && Has(j, "predicate_node_id", Str(id + ".predicate"))
    && Has(j, "stage_node_id", Str(id + ".stage"))
  }

  predicate CaseMetas(c: Case, j: Json) {
    && Has(j, "predicate_key", Str(c.predicateMeta.key))
    && Has(j, "predicate_name", Str(c.predicateMeta.name))
    && Has(j, "stage_key", Str(c.stageMeta.key))
    && Has(j, "stage_name", Str(c.stageMeta.name))
  }

  /** Every case says how it is drawn: a dashed edge to its predicate, a plain one to its stage. */
  predicate CaseEdges(j: Json) {
    && Has(j, "predicate_edge", Obj([Member("from", Str("branch")), Member("to", Str("predicate")),
                                     Member("style", Str("dashed")), Member("label", Str("test"))]))
    && Has(j, "stage_edge", Obj([Member("from", Str("predicate")), Member("to", Str("case_stage"))]))
  }

  predicate CaseEntry(i: nat, k: nat, c: Case, j: Json) {
    CaseIdentity(i, k, c, j) && CaseMetas(c, j) && CaseEdges(j)
  }

  predicate StageEntry(stages: seq<Stage>, i: nat, j: Json)
    requires i < |stages|
  {
    && Has(j, "index", Num(i))
    && Has(j, "key", Str(StageKey(stages[i])))
    && Has(j, "name", Str(StageName(stages[i])))
    && match stages[i]
       case Simple(_, _, _, _) => Has(j, "kind", Str("stage")) && Lookup(j.members, "branch_cases") == None
       case SelectedBranch(cases) => Has(j, "kind", Str("branch")) && CasesEntry(i, cases, j)
       case FanInBranch(cases) => Has(j, "kind", Str("fan_in")) && CasesEntry(i, cases, j)
  }

  /** The cases listed under a stage are its own, in order. */
  predicate CasesEntry(i: nat, cases: seq<Case>, j: Json) {
    && j.Obj?
    && var list := Lookup(j.members, "branch_cases");
       && list.Some? && list.value.Arr? && |list.value.items| == |cases|
       && forall k :: 0 <= k < |cases| ==> CaseEntry(i, k, cases[k], list.value.items[k])
  }

  predicate GraphEntry(stages: seq<Stage>, j: Json) {
    && Has(j, "schema_version", Str("pb.core.graph.v1"))
    && Has(j, "stage_count", Num(|stages|))
    && Has(j, "edge_count", Num(if stages == [] then 0 else |stages| - 1))
    && TopologyEntry(stages, j)
    && StagesEntry(stages, j)
    && EdgesEntry(stages, j)
  }

  predicate TopologyEntry(stages: seq<Stage>, j: Json) {
    Has(j, "topology",
        Str(if exists i :: 0 <= i < |stages| && stages[i].FanInBranch? then "fan_in"
            else if exists i :: 0 <= i < |stages| && stages[i].SelectedBranch? then "branch"
            else "linear"))
  }

  predicate StagesEntry(stages: seq<Stage>, j: Json) {
    && j.Obj?
    && var list := Lookup(j.members, "stages");
       && list.Some? && list.value.Arr? && |list.value.items| == |stages|
       && forall i :: 0 <= i < |stages| ==> StageEntry(stages, i, list.value.items[i])
  }

  predicate EdgesEntry(stages: seq<Stage>, j: Json) {
    && j.Obj?
    && var list := Lookup(j.members, "edges");
       && list.Some? && list.value.Arr?
       && |list.value.items| == (if stages == [] then 0 else |stages| - 1)
       && forall i :: 0 <= i < |list.value.items| ==> EdgeEntry(stages, i, list.value.items[i])
  }

  // ---------------------------------------------------------------- looking members up

  predicate Different(names: seq<string>) {
    forall i, j :: 0 <= i < j < |names| ==> names[i] != names[j]
  }

  lemma MemberFound(names: seq<string>, values: seq<Json>, i: nat)
    requires i < |values| <= |names| && Different(names)
    ensures Has(Obj(Members(names, values)), names[i], values[i])
  {
    LookupFinds(Members(names, values), i);
  }

  lemma {:induction false} LookupMissing(members: seq<Member>, name: string)
    requires forall i :: 0 <= i < |members| ==> members[i].key != name
    ensures Lookup(members, name) == None
  {
    if members != [] {
      LookupMissing(members[1..], name);
    }
  }

  lemma EdgeNamesDiffer()
    ensures Different(EDGE_NAMES)
  {
    assert |EDGE_NAMES[0]| == 5 && |EDGE_NAMES[1]| == 16 && |EDGE_NAMES[2]| == 14 && |EDGE_NAMES[3]| == 8;
    assert |EDGE_NAMES[4]| == 9 && |EDGE_NAMES[5]| == 6 && |EDGE_NAMES[6]| == 7;
  }

  lemma GraphNamesDiffer()
    ensures Different(GRAPH_NAMES)
  {
    assert |GRAPH_NAMES[0]| == 14 && |GRAPH_NAMES[1]| == 8 && |GRAPH_NAMES[2]| == 11;
    assert |GRAPH_NAMES[3]| == 10 && |GRAPH_NAMES[4]| == 6 && |GRAPH_NAMES[5]| == 5;
  }

  lemma StageNamesDiffer()
    ensures Different(STAGE_NAMES)
  {
    assert |STAGE_NAMES[0]| == 5 && |STAGE_NAMES[1]| == 3 && |STAGE_NAMES[4]| == 12;
    assert STAGE_NAMES[2][0] == 'n' && STAGE_NAMES[3][0] == 'k' && |STAGE_NAMES[2]| == |STAGE_NAMES[3]| == 4;
  }

  lemma CaseNamesDiffer()
    ensures Different(CASE_NAMES)
  {
    var n := CASE_NAMES;
    assert |n[0]| == 5 && |n[1]| == 7 && |n[2]| == 8 && |n[3]| == 10 && |n[4]| == 17 && |n[5]| == 13;
    assert |n[6]| == 13 && |n[7]| == 14 && |n[8]| == 9 && |n[9]| == 10 && |n[10]| == 14 && |n[11]| == 10;
    assert n[3][0] == 'c' && n[9][0] == 's' && n[11][0] == 's' && n[9][6] == 'n' && n[11][6] == 'e';
    assert n[5][0] == 's' && n[6][0] == 'p' && n[7][10] == 'n' && n[10][10] == 'e';
  }

  // ---------------------------------------------------------------- edges

  lemma MetaIs(stage: Stage)
    ensures MetaOf(stage).key == StageKey(stage) && MetaOf(stage).name == StageName(stage)
  {
  }

  lemma EdgeIsEntry(stages: seq<Stage>, i: nat)
    requires i + 1 < |stages|
    ensures EdgeEntry(stages, i, EdgeTree(WORDS, stages, i))
  {
    var values := EdgeValues(stages, i);
    EdgeNamesDiffer();
    MetaIs(stages[i]);
    MetaIs(stages[i + 1]);
    MemberFound(EDGE_NAMES, values, 0);
    MemberFound(EDGE_NAMES, values, 1);
    MemberFound(EDGE_NAMES, values, 2);
    MemberFound(EDGE_NAMES, values, 3);
    MemberFound(EDGE_NAMES, values, 4);
    MemberFound(EDGE_NAMES, values, 5);
    MemberFound(EDGE_NAMES, values, 6);
  }

  lemma {:induction false} EdgeTreeAt(w: Words, stages: seq<Stage>, n: nat, i: nat)
    requires Sized(w) && i < n < |stages|
    ensures EdgeTrees(w, stages, n)[i] == EdgeTree(w, stages, i)
  {
    if i < n - 1 {
      EdgeTreeAt(w, stages, n - 1, i);
    }
  }

  // ---------------------------------------------------------------- cases

  lemma CaseIdentifiers(i: nat, k: nat)
    ensures var id := "branch." + D.Render(i) + ".case." + D.Render(k);
            && D.CaseId(i, k, D.WholeCase) == id
            && D.CaseId(i, k, D.PredicateNode) == id + ".predicate"
            && D.CaseId(i, k, D.StageNode) == id + ".stage"
  {
  }

  lemma CaseIdentityIs(i: nat, k: nat, c: Case)
    ensures CaseIdentity(i, k, c, CaseTree(WORDS, CaseRecord(i, k, c.title, c.predicateMeta, c.stageMeta)))
  {
    var values := CaseValues(WORDS, CaseRecord(i, k, c.title, c.predicateMeta, c.stageMeta));
    CaseNamesDiffer();
    CaseIdentifiers(i, k);
    MemberFound(CASE_NAMES, values, 0);
    MemberFound(CASE_NAMES, values, 1);
    MemberFound(CASE_NAMES, values, 2);
    MemberFound(CASE_NAMES, values, 3);
    MemberFound(CASE_NAMES, values, 4);
    MemberFound(CASE_NAMES, values, 5);
  }

  lemma CaseMetasAre(i: nat, k: nat, c: Case)
    ensures CaseMetas(c, CaseTree(WORDS, CaseRecord(i, k, c.title, c.predicateMeta, c.stageMeta)))
  {
    var values := CaseValues(WORDS, CaseRecord(i, k, c.title, c.predicateMeta, c.stageMeta));
    CaseNamesDiffer();
    MemberFound(CASE_NAMES, values, 6);
    MemberFound(CASE_NAMES, values, 7);
    MemberFound(CASE_NAMES, values, 8);
    MemberFound(CASE_NAMES, values, 9);
  }

  lemma CaseEdgesAre(r: CaseRecord)
    ensures CaseEdges(CaseTree(WORDS, r))
  {
    CaseNamesDiffer();
    MemberFound(CASE_NAMES, CaseValues(WORDS, r), 10);
    MemberFound(CASE_NAMES, CaseValues(WORDS, r), 11);
  }

  lemma {:induction false} CaseTreeAt(w: Words, records: seq<CaseRecord>, k: nat)
    requires Sized(w) && k < |records|
    ensures CaseTrees(w, records)[k] == CaseTree(w, records[k])
  {
    if k < |records| - 1 {
      CaseTreeAt(w, records[..|records| - 1], k);
    }
  }

  /** The record of a case holds its stage's and its own number, its label and its metadata. */
  lemma CaseIsEntry(stage: Stage, i: nat, k: nat)
    requires !stage.Simple? && k < |stage.cases|
    ensures CaseEntry(i, k, stage.cases[k], CaseTrees(WORDS, NodeRecords(stage, i))[k])
  {
    var c := stage.cases[k];
    CaseTreeAt(WORDS, NodeRecords(stage, i), k);
    CaseIdentityIs(i, k, c);
    CaseMetasAre(i, k, c);
    CaseEdgesAre(NodeRecords(stage, i)[k]);
  }

  // ---------------------------------------------------------------- stages

  lemma StageMembers(values: seq<Json>)
    requires 4 <= |values| <= 5
    ensures var j := Obj(Members(STAGE_NAMES, values));
            && Has(j, "index", values[0]) && Has(j, "key", values[1]) && Has(j, "name", values[2])
            && Has(j, "kind", values[3])
            && (|values| == 5 ==> Has(j, "branch_cases", values[4]))
            && (|values| == 4 ==> Lookup(j.members, "branch_cases") == None)
  {
    StageNamesDiffer();
    MemberFound(STAGE_NAMES, values, 0);
    MemberFound(STAGE_NAMES, values, 1);
    MemberFound(STAGE_NAMES, values, 2);
    MemberFound(STAGE_NAMES, values, 3);
    if |values| == 5 {
      MemberFound(STAGE_NAMES, values, 4);
    } else {
      LookupMissing(Members(STAGE_NAMES, values), STAGE_NAMES[4]);
    }
  }

  lemma StageIsEntry(stages: seq<Stage>, i: nat)
    requires i < |stages|
    ensures StageEntry(stages, i, StageTree(WORDS, stages[i], i))
  {
    var stage, head := stages[i], StageHead(WORDS, stages[i], i);
    MetaIs(stage);
    if stage.Simple? {
      StageMembers(head);
    } else {
      var trees := CaseTrees(WORDS, NodeRecords(stage, i));
      StageMembers(head + [Arr(trees)]);
      forall k | 0 <= k < |stage.cases| ensures CaseEntry(i, k, stage.cases[k], trees[k]) {
        CaseIsEntry(stage, i, k);
      }
    }
  }

  // ---------------------------------------------------------------- the document

  lemma GraphMembers(values: seq<Json>)
    requires |values| == 6
    ensures var j := Obj(Members(GRAPH_NAMES, values));
            && Has(j, "schema_version", values[0]) && Has(j, "topology", values[1])
            && Has(j, "stage_count", values[2]) && Has(j, "edge_count", values[3])
            && Has(j, "stages", values[4]) && Has(j, "edges", values[5])
  {
    GraphNamesDiffer();
    MemberFound(GRAPH_NAMES, values, 0);
    MemberFound(GRAPH_NAMES, values, 1);
    MemberFound(GRAPH_NAMES, values, 2);
    MemberFound(GRAPH_NAMES, values, 3);
    MemberFound(GRAPH_NAMES, values, 4);
    MemberFound(GRAPH_NAMES, values, 5);
  }

  /**
    Main result on the exported graph: what a reader of the exporter's text gets says of every
    stage, case and edge, under the format's names, what the pipeline says.
   */
  lemma ExportedGraphReadsBack(stages: seq<Stage>)
    ensures var read := ReadValue(Text(GraphTree(WORDS, stages)));
            read.Some? && read.value.1 == "" && GraphEntry(stages, read.value.0)
  {
    GraphRoundTrip(WORDS, stages);
    GraphMembers(GraphValues(WORDS, stages));
    forall i | 0 <= i < |stages| ensures StageEntry(stages, i, StageTrees(WORDS, stages, |stages|)[i]) {
      StageTreeAt(WORDS, stages, |stages|, i);
      StageIsEntry(stages, i);
    }
    forall i | 0 <= i < EdgeCount(stages) ensures EdgeEntry(stages, i, EdgeTrees(WORDS, stages, EdgeCount(stages))[i]) {
      EdgeTreeAt(WORDS, stages, EdgeCount(stages), i);
      EdgeIsEntry(stages, i);
    }
  }
}
