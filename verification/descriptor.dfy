/**
  The runtime descriptor of a pipeline: the case records of all branch stages in one
  flat array, filled stage by stage at a running offset.
 */
module Descriptor {
  import opened Core

  datatype Topology = LinearStage | BranchStage | FanInStage

  datatype CaseRecord = CaseRecord(branchIndex: nat, caseIndex: nat, title: string,
                                   predicateMeta: Meta, stageMeta: Meta)

  const BLANK_RECORD := CaseRecord(0, 0, "", Meta("", ""), Meta("", ""))

  function TopologyOf(stage: Stage): Topology {
    match stage
    case Simple(_, _, _, _) => LinearStage
    case SelectedBranch(_) => BranchStage
    case FanInBranch(_) => FanInStage
  }

  function CaseCount(stage: Stage): nat {
    if stage.Simple? then 0 else |stage.cases|
  }

  function TotalCases(stages: seq<Stage>): nat {
    if stages == [] then 0 else TotalCases(stages[..|stages| - 1]) + CaseCount(stages[|stages| - 1])
  }

  /** The records of one stage, in case order. */
  function NodeRecords(stage: Stage, index: nat): seq<CaseRecord> {
    seq(CaseCount(stage), j requires 0 <= j < CaseCount(stage) =>
      CaseRecord(index, j, stage.cases[j].title, stage.cases[j].predicateMeta, stage.cases[j].stageMeta))
  }

  /** The records of all stages, one stage after another. */
  function FlatRecords(stages: seq<Stage>): (records: seq<CaseRecord>)
    ensures |records| == TotalCases(stages)
  {
    if stages == [] then []
    else FlatRecords(stages[..|stages| - 1]) + NodeRecords(stages[|stages| - 1], |stages| - 1)
  }

  lemma {:induction false} TotalCasesOfPrefix(stages: seq<Stage>, k: nat)
    requires k <= |stages|
    ensures TotalCases(stages[..k]) <= TotalCases(stages)
    decreases |stages|
  {
    if k < |stages| {
      TotalCasesOfPrefix(stages[..|stages| - 1], k);
      assert stages[..|stages| - 1][..k] == stages[..k];
    } else {
      assert stages[..k] == stages;
    }
  }

  /** Writes the records of one stage at the offset and moves the offset past them. */
  method CollectOne(stage: Stage, index: nat, records: array<CaseRecord>, offset: nat) returns (next: nat)
    requires offset + CaseCount(stage) <= records.Length
    modifies records
    ensures next == offset + CaseCount(stage)
    ensures records[..next] == old(records[..offset]) + NodeRecords(stage, index)
    ensures forall j :: next <= j < records.Length ==> records[j] == old(records[j])
  {
    var nodeRecords := NodeRecords(stage, index);
    for i := 0 to |nodeRecords|
      invariant records[..offset + i] == old(records[..offset]) + nodeRecords[..i]
      invariant forall j :: offset + i <= j < records.Length ==> records[j] == old(records[j])
    {
      records[offset + i] := nodeRecords[i];
    }
    next := offset + |nodeRecords|;
  }

  /** The offset loop: the array is exactly large enough and every slot is written once, in stage order. */
  method FillBranchCaseRecords(stages: seq<Stage>) returns (records: array<CaseRecord>)
    ensures fresh(records) && records[..] == FlatRecords(stages)
  {
    records := new CaseRecord[TotalCases(stages)](_ => BLANK_RECORD);
    var caseOffset := 0;
    for k := 0 to |stages|
      invariant caseOffset == TotalCases(stages[..k]) <= records.Length == TotalCases(stages)
      invariant records[..caseOffset] == FlatRecords(stages[..k])
    {
      TotalCasesOfPrefix(stages, k + 1);
      assert stages[..k + 1][..k] == stages[..k];
      caseOffset := CollectOne(stages[k], k, records, caseOffset);
    }
    assert stages[..|stages|] == stages;
  }

  /** The records of one branch stage among all records. */
  function RecordsFor(records: seq<CaseRecord>, index: nat): seq<CaseRecord> {
    if records == [] then []
    else
      var last := records[|records| - 1];
      RecordsFor(records[..|records| - 1], index) + if last.branchIndex == index then [last] else []
  }

  lemma {:induction false} RecordsForConcat(a: seq<CaseRecord>, b: seq<CaseRecord>, index: nat)
    ensures RecordsFor(a + b, index) == RecordsFor(a, index) + RecordsFor(b, index)
  {
    if b == [] {
      assert a + b == a;
    } else {
      assert (a + b)[..|a + b| - 1] == a + b[..|b| - 1];
      RecordsForConcat(a, b[..|b| - 1], index);
    }
  }

  lemma {:induction false} RecordsForNode(records: seq<CaseRecord>, owner: nat, index: nat)
    requires forall r :: r in records ==> r.branchIndex == owner
    ensures RecordsFor(records, index) == if owner == index then records else []
  {
    if records != [] {
      RecordsForNode(records[..|records| - 1], owner, index);
      assert records[..|records| - 1] + [records[|records| - 1]] == records;
    }
  }

  /** Filtering the flat records by stage index gives back that stage's cases, in order. */
  lemma {:induction false} FlatteningIsExact(stages: seq<Stage>, index: nat)
    ensures RecordsFor(FlatRecords(stages), index) == if index < |stages| then NodeRecords(stages[index], index) else []
    decreases |stages|
  {
    if stages != [] {
      var n := |stages| - 1;
      FlatteningIsExact(stages[..n], index);
      RecordsForNode(NodeRecords(stages[n], n), n, index);
      RecordsForConcat(FlatRecords(stages[..n]), NodeRecords(stages[n], n), index);
    }
  }
}
