/** The structured errors of a fan-in: one record for each failed slot of its aggregate. */
module FanInEnvelope {
  import opened Core
  import opened Decimal
  import opened FanIn
  import opened ParallelFanIn
  import opened FanInRefinement

  datatype CaseError = CaseError(caseIndex: nat, stage: StageId, diagnostic: Error)

  function RecordFor(slot: Slot, j: nat): CaseError {
    var stage := StageId("fan_in.case." + Render(j), "case " + Render(j));
    CaseError(j, stage, Error(stage, StageFailureCategory, if slot.diagnostic.Some? then slot.diagnostic.value else ""))
  }

  /** One record per failed slot, in declaration order. */
  function FailureRecords(slots: seq<Slot>): seq<CaseError> {
    if slots == [] then []
    else
      var n := |slots| - 1;
      FailureRecords(slots[..n]) + if slots[n].state == Failed then [RecordFor(slots[n], n)] else []
  }

  /** The envelope holds exactly the failed slots, once each, by strictly increasing case index. */
  lemma {:induction false} EnvelopeIsExact(slots: seq<Slot>)
    ensures |FailureRecords(slots)| == SlotsIn(slots, Failed)
    ensures forall i, k :: 0 <= i < k < |FailureRecords(slots)| ==>
              FailureRecords(slots)[i].caseIndex < FailureRecords(slots)[k].caseIndex
    ensures forall r :: r in FailureRecords(slots) <==>
              && r.caseIndex < |slots| && slots[r.caseIndex].state == Failed
              && r == RecordFor(slots[r.caseIndex], r.caseIndex)
  {
    if slots != [] {
      var n := |slots| - 1;
      EnvelopeIsExact(slots[..n]);
      var earlier := FailureRecords(slots[..n]);
      assert forall i :: 0 <= i < |earlier| ==> earlier[i] in earlier;
    }
  }

  /** An envelope collected from a parallel run holds as many records as the tally reports, refused posts aside. */
  lemma EnvelopeMatchesTally(br: Branch, steps: seq<Step>, t: State)
    requires Runs(br, Init(br), steps, t) && t.phase.Returned?
    ensures |FailureRecords(t.slots)| == t.tally.failed - RefusedTasks(t.tasks)
    ensures |FailureRecords(t.slots)| == t.tally.failed <==> t.phase.result.Ok?
  {
    TallyConservation(br, steps, t);
    EnvelopeIsExact(t.slots);
  }
}
