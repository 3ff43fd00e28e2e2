/** How one row of a publishing run ends, in terms of what was read back before and after. */
module QaLaws {
  import opened Sequences
  import opened DecisionBudget
  import opened JevQaRun

  /** The evidence is the very same as before the run. */
  predicate SameEvidence(before: Readback, after: Readback) {
    && before.proof.identity.Some? && after.proof.identity.Some?
    && before.proof.identity.value == after.proof.identity.value
    && before.proof.fingerprint == after.proof.fingerprint
  }

  /** An idle worker found the wanted evidence stored, before and after. */
  predicate FoundStored(before: Readback, after: Readback) {
    after.isPublic && before.proof.requested == Latest && after.proof.requested == Latest
  }

  predicate StillPending(after: Readback) {
    after.isPublic && after.proof.captureCurrent && (after.proof.state == RetryState || after.proof.state == Running)
  }

  /** Each status is given under exactly these circumstances. */
  lemma StatusesMean(result: WorkerResult, before: Readback, after: Readback, failure: Option<string>)
    ensures var status, same := Classify(result, before, after, failure), SameEvidence(before, after);
            var retained :=
              same && (result == RetryResult || (result == Idle && failure == Some("PriorEvidenceRetained")));
            && (status == Published <==> result == PublishedResult)
            && (status == Obsolete <==> result == ObsoleteResult)
            && (status == Retained <==> retained)
            && (status == Cached <==> result == Idle && !retained && FoundStored(before, after))
            && (status == Retry <==>
                  || (result == RetryResult && !same)
                  || (result == Idle && !retained && !FoundStored(before, after) && StillPending(after)))
            && (status == Ineligible <==>
                  result == Idle && !retained && !FoundStored(before, after) && !StillPending(after))
  {
  }

  /** Why provider work stops: the budget's own reason first, then the calls, then the money for one more call. */
  lemma StopsMean(a: Account, calls: nat, cap: nat)
    ensures var stop, afford := QaStop(a, calls, cap), a.reported + PerCall(a) <= a.maxCost;
            && (a.stop.Some? ==> stop == a.stop)
            && (a.stop.None? ==>
                  && (stop == Some(CallCap) <==> calls >= cap)
                  && (stop == Some(CostCap) <==> calls < cap && !afford)
                  && (stop == None <==> calls < cap && afford))
  {
    hide PerCall;
  }

  /** The wanted evidence was public when the run began. */
  predicate Done(row: Row) {
    row.before.isPublic && row.before.proof.requested == Latest
  }

  /** The reason not to attempt a row: the run's, or what its budget and calls say now. */
  function Reason(g: Gate): Option<Stop> {
    if g.stop.Some? then g.stop else QaStop(g.account, g.calls, g.cap)
  }

  /** A row that is done costs nothing, and only saving it can fail. */
  lemma DoneRow(c: Cohort, i: nat, w: World)
    requires i < |c.rows| && Done(c.rows[i])
    ensures var r := RowStep(c, i, w);
            && r.0.gate == c.gate && (r.1 <==> !w.savesEnd)
            && r.0.rows == c.rows[i := c.rows[i].(status := Cached, result := Returned(Idle))]
  {
  }

  /** A row met with a reason is marked with it, and the reason stays; nothing is saved, so nothing can fail. */
  lemma StoppedRow(c: Cohort, i: nat, w: World)
    requires i < |c.rows| && !Done(c.rows[i]) && Reason(c.gate).Some?
    ensures var r, reason := RowStep(c, i, w), Reason(c.gate);
            && !r.1 && r.0.rows == c.rows[i := c.rows[i].(stop := reason)]
            && r.0.gate == c.gate.(
                 stop := reason,
                 account := if reason == Some(CostCap) then c.gate.account.(stop := reason) else c.gate.account)
  {
  }

  /** Any other row is attempted; it throws if saving, the worker or reading back does, and shows how far it got. */
  lemma AttemptedRow(c: Cohort, i: nat, w: World)
    requires i < |c.rows| && !Done(c.rows[i]) && Reason(c.gate).None?
    ensures var r := RowStep(c, i, w);
            var row, was, after := r.0.rows[i], c.rows[i], Run(c.gate, w.steps);
            && (forall k :: 0 <= k < |c.rows| && k != i ==> r.0.rows[k] == c.rows[k])
            && (r.1 <==> !w.savesStart || w.worker.None? || w.readback.None? || !w.savesEnd)
            && (!w.savesStart ==> r.0.gate == c.gate && row == was.(status := InProgress, result := Working))
            && (w.savesStart && w.worker.None? ==>
                  r.0.gate == after && row == was.(status := InProgress, result := Working))
            && (w.savesStart && w.worker.Some? ==>
                  row.result == Returned(w.worker.value) && row.calls == after.calls - c.gate.calls
                  && row.failure == w.failure && row.before == was.before)
            && (w.savesStart && w.worker.Some? && w.readback.None? ==>
                  r.0.gate == after && row.status == InProgress && row.current == was.current && row.stop == was.stop)
  {
    hide Run;
    hide QaStop;
    hide Classify;
    RunCallsGrow(c.gate, w.steps);
  }

  /** A row that was read back has its status and what was read, and passes a stop of its requests on to the run. */
  lemma FinishedRow(c: Cohort, i: nat, w: World)
    requires i < |c.rows| && !Done(c.rows[i]) && Reason(c.gate).None?
    requires w.savesStart && w.worker.Some? && w.readback.Some?
    ensures var r, after := RowStep(c, i, w), Run(c.gate, w.steps);
            var row, stop := r.0.rows[i], if after.stop.Some? then after.stop else after.account.stop;
            && row.status == Classify(w.worker.value, c.rows[i].before, w.readback.value, w.failure)
            && row.current == w.readback.value
            && row.stop == (if stop.Some? then stop else c.rows[i].stop)
            && r.0.gate == after.(stop := stop)
  {
    hide Run;
    hide QaStop;
    hide Classify;
    RunCallsGrow(c.gate, w.steps);
  }

  /** Behind the loop every row shows what was read back last, and is otherwise as it ended. */
  lemma FinalReadback(rows: seq<Row>, finals: seq<Readback>, i: nat)
    requires i < |rows| == |finals|
    ensures |WithCurrent(rows, finals)| == |rows|
    ensures var row := WithCurrent(rows, finals)[i];
            row.current == finals[i] && row.(current := rows[i].current) == rows[i]
  {
  }
}
