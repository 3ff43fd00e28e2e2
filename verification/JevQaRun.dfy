/**
 A publishing run over a cohort of postings: one row per posting, a shared gate to the provider, and a stop reason
 that ends provider work for every later row. Saving, extracting and reading back are up to the world, and may throw.
 */
module JevQaRun {
  import opened Sequences
  import opened DecisionBudget

  datatype WorkerResult = Idle | PublishedResult | ObsoleteResult | RetryResult
  datatype RowResult = NoResult | Working | Returned(result: WorkerResult)
  datatype Status = Unattempted | InProgress | Published | Retained | Cached | Ineligible | Obsolete | Retry

  datatype ProofState = Complete | Running | RetryState | FailedState | NoState
  datatype Requested = Latest | RetainedProof | NotRequested
  datatype Proof = Proof(
    identity: Option<string>, fingerprint: Option<string>, requested: Requested, captureCurrent: bool,
    state: ProofState)
  datatype Readback = Readback(isPublic: bool, proof: Proof)

  datatype Row = Row(
    status: Status, result: RowResult, calls: nat, stop: Option<Stop>, failure: Option<string>,
    before: Readback, current: Readback)

  // ----------------------------------------------------------------- small parts

  const PRIOR_RETAINED := "PriorEvidenceRetained"

  function Classify(result: WorkerResult, before: Readback, after: Readback, failure: Option<string>): Status {
    if result == PublishedResult then Published
    else if result == ObsoleteResult then Obsolete
    else if before.proof.identity.Some? && before.proof.identity == after.proof.identity
            && before.proof.fingerprint == after.proof.fingerprint
            && (failure == Some(PRIOR_RETAINED) || result == RetryResult) then Retained
    else if result == RetryResult then Retry
    else if after.isPublic && before.proof.requested == Latest && after.proof.requested == Latest then Cached
    else if after.isPublic && after.proof.captureCurrent && after.proof.state in {RetryState, Running} then Retry
    else Ineligible
  }

  function QaStop(account: Account, calls: nat, cap: nat): Option<Stop> {
    if account.stop.Some? then account.stop
    else if calls >= cap then Some(CallCap)
    else if account.reported + PerCall(account) > account.maxCost then Some(CostCap)
    else None
  }

  const NO_COUNTS: map<Status, nat> := map[
    Unattempted := 0, InProgress := 0, Published := 0, Retained := 0,
    Cached := 0, Ineligible := 0, Obsolete := 0, Retry := 0]

  predicate HasStatus(row: Row, s: Status) { row.status == s }

  function StatusCount(rows: seq<Row>, s: Status): nat {
    Count(rows, row => HasStatus(row, s))
  }

  ghost predicate Counted(counts: map<Status, nat>, rows: seq<Row>) {
    forall s: Status :: s in counts && counts[s] == StatusCount(rows, s)
  }

  lemma CountedStep(counts: map<Status, nat>, rows: seq<Row>, i: nat)
    requires i < |rows| && Counted(counts, rows[..i])
    ensures Counted(counts[rows[i].status := counts[rows[i].status] + 1], rows[..i + 1])
  {
    assert rows[..i + 1] == rows[..i] + [rows[i]];
    forall s: Status
      ensures StatusCount(rows[..i + 1], s) == StatusCount(rows[..i], s) + if rows[i].status == s then 1 else 0
    {
      FilterAppend(rows[..i], [rows[i]], row => HasStatus(row, s));
    }
  }

  method CountStatuses(rows: seq<Row>) returns (counts: map<Status, nat>)
    ensures Counted(counts, rows)
  {
    hide Counted;
    NothingCounted();
    counts := NO_COUNTS;
    for i := 0 to |rows|
      invariant Counted(counts, rows[..i])
    {
      CountedStep(counts, rows, i);
      CountsHold(counts, rows[..i], rows[i].status);
      counts := counts[rows[i].status := counts[rows[i].status] + 1];
    }
    assert rows[..|rows|] == rows;
  }

  lemma NothingCounted()
    ensures Counted(NO_COUNTS, [])
  {
    forall s: Status ensures s in NO_COUNTS && NO_COUNTS[s] == 0 {
      match s
      case Unattempted =>
      case InProgress =>
      case Published =>
      case Retained =>
      case Cached =>
      case Ineligible =>
      case Obsolete =>
      case Retry =>
    }
  }

  lemma CountsHold(counts: map<Status, nat>, rows: seq<Row>, s: Status)
    requires Counted(counts, rows)
    ensures s in counts
  {
  }

  /** Every row is counted under exactly one status. */
  lemma {:induction false} StatusCountsTotal(rows: seq<Row>)
    ensures StatusCount(rows, Unattempted) + StatusCount(rows, InProgress) + StatusCount(rows, Published)
          + StatusCount(rows, Retained) + StatusCount(rows, Cached) + StatusCount(rows, Ineligible)
          + StatusCount(rows, Obsolete) + StatusCount(rows, Retry) == |rows|
  {
    if rows == [] {
    } else {
      StatusCountsTotal(rows[1..]);
    }
  }

  // ------------------------------------------------------------------- the run

  /** What the world does while one row is processed; a missing readback, or a save that is false, is a throw. */
  datatype World = World(
    savesStart: bool, steps: seq<Step>, worker: Option<WorkerResult>, failure: Option<string>,
    readback: Option<Readback>, savesEnd: bool)

  datatype Cohort = Cohort(rows: seq<Row>, gate: Gate)

  predicate IsCached(row: Row) {
    row.before.isPublic && row.before.proof.requested == Latest
  }

  function Or(a: Option<Stop>, b: Option<Stop>): Option<Stop> {
    if a.Some? then a else b
  }

  /** The stop reason a row meets before it is attempted. */
  function StopBefore(g: Gate): Option<Stop> {
    Or(g.stop, QaStop(g.account, g.calls, g.cap))
  }

  function Stopped(g: Gate): Gate {
    var stop := StopBefore(g);
    g.(stop := stop, account := if stop == Some(CostCap) then g.account.(stop := stop) else g.account)
  }

  function Begun(row: Row): Row {
    row.(status := InProgress, result := Working)
  }

  /** One row; the flag says whether something threw. */
  function RowStep(c: Cohort, i: nat, w: World): (r: (Cohort, bool))
    requires i < |c.rows|
    ensures |r.0.rows| == |c.rows|
  {
    var row, g := c.rows[i], c.gate;
    if IsCached(row) then (Cohort(c.rows[i := row.(status := Cached, result := Returned(Idle))], g), !w.savesEnd)
    else if StopBefore(g).Some? then (Cohort(c.rows[i := row.(stop := StopBefore(g))], Stopped(g)), false)
    else if !w.savesStart then (Cohort(c.rows[i := Begun(row)], g), true)
    else
      var after := Run(g, w.steps);
      if w.worker.None? then (Cohort(c.rows[i := Begun(row)], after), true)
      else
        RunCallsGrow(g, w.steps);
        var worked := Begun(row).(
          result := Returned(w.worker.value), calls := after.calls - g.calls, failure := w.failure);
        if w.readback.None? then (Cohort(c.rows[i := worked], after), true)
        else
          var stop := Or(after.stop, after.account.stop);
          var done := worked.(
            status := Classify(w.worker.value, row.before, w.readback.value, w.failure),
            current := w.readback.value, stop := Or(stop, row.stop));
          (Cohort(c.rows[i := done], after.(stop := stop)), !w.savesEnd)
  }

  lemma {:induction false} RunCallsGrow(g: Gate, steps: seq<Step>)
    ensures Run(g, steps).calls >= g.calls
  {
    if steps == [] {
    } else {
      RunCallsGrow(g, steps[..|steps| - 1]);
    }
  }

  /** The cohort behind its first `n` rows, and where something threw, if it did. */
  datatype Progress = Progress(cohort: Cohort, failedAt: Option<nat>)

  function Played(c: Cohort, worlds: seq<World>, n: nat): (p: Progress)
    requires n <= |c.rows| == |worlds|
    ensures |p.cohort.rows| == |c.rows|
    ensures p.failedAt.Some? ==> p.failedAt.value < n
  {
    if n == 0 then Progress(c, None)
    else
      var p := Played(c, worlds, n - 1);
      if p.failedAt.Some? then p
      else
        var next := RowStep(p.cohort, n - 1, worlds[n - 1]);
        Progress(next.0, if next.1 then Some(n - 1) else None)
  }

  datatype RunState = Underway | Finished | Interrupted

  class QaRun {
    var rows: seq<Row>
    var gate: Gate
    var state: RunState

    constructor (rows: seq<Row>, gate: Gate)
      ensures this.rows == rows && this.gate == gate && state == Underway
    {
      this.rows, this.gate, this.state := rows, gate, Underway;
    }

    function View(): Cohort
      reads this
    {
      Cohort(rows, gate)
    }

    /** Processes one row in place. */
    method ProcessRow(i: nat, w: World) returns (threw: bool)
      requires i < |rows|
      modifies this
      ensures (View(), threw) == RowStep(old(View()), i, w)
      ensures state == old(state)
    {
      hide Run;
      hide Classify;
      hide QaStop;
      var row := rows[i];
      if row.before.isPublic && row.before.proof.requested == Latest {
        rows := rows[i := row.(status := Cached, result := Returned(Idle))];
        return !w.savesEnd;
      }
      if gate.stop.None? {
        gate := gate.(stop := QaStop(gate.account, gate.calls, gate.cap));
      }
      if gate.stop.Some? {
        if gate.stop == Some(CostCap) {
          gate := gate.(account := gate.account.(stop := gate.stop));
        }
        rows := rows[i := row.(stop := gate.stop)];
        return false;
      }
      rows := rows[i := row.(status := InProgress, result := Working)];
      if !w.savesStart {
        return true;
      }
      var before := gate.calls;
      RunCallsGrow(gate, w.steps);
      gate := Run(gate, w.steps);
      if w.worker.None? {
        return true;
      }
      rows := rows[i := rows[i].(
        result := Returned(w.worker.value), calls := gate.calls - before, failure := w.failure)];
      if w.readback.None? {
        assert rows == old(rows)[i := rows[i]];
        return true;
      }
      if gate.stop.None? {
        gate := gate.(stop := gate.account.stop);
      }
      rows := rows[i := rows[i].(
        status := Classify(w.worker.value, row.before, w.readback.value, w.failure), current := w.readback.value,
        stop := Or(gate.stop, rows[i].stop))];
      assert rows == old(rows)[i := rows[i]];
      return !w.savesEnd;
    }

    /** The cohort loop; `finals` are the readbacks behind it, unless reading them throws. */
    method RunCohort(worlds: seq<World>, finals: Option<seq<Readback>>)
      requires |worlds| == |rows| && (finals.Some? ==> |finals.value| == |rows|)
      modifies this
      ensures var p := Played(old(View()), worlds, |worlds|);
              && gate == p.cohort.gate
              && state == (if p.failedAt.None? && finals.Some? then Finished else Interrupted)
              && rows == if state == Finished then WithCurrent(p.cohort.rows, finals.value) else p.cohort.rows
    {
      hide RowStep;
      for i := 0 to |worlds|
        invariant |rows| == |worlds|
        invariant Played(old(View()), worlds, i) == Progress(View(), None)
      {
        var threw := ProcessRow(i, worlds[i]);
        if threw {
          StaysFailed(old(View()), worlds, i + 1, |worlds|);
          state := Interrupted;
          return;
        }
      }
      if finals.None? {
        state := Interrupted;
        return;
      }
      rows := WithCurrent(rows, finals.value);
      state := Finished;
    }
  }

  function WithCurrent(rows: seq<Row>, finals: seq<Readback>): seq<Row>
    requires |rows| == |finals|
  {
    seq(|rows|, i requires 0 <= i < |rows| => rows[i].(current := finals[i]))
  }

  lemma {:induction false} StaysFailed(c: Cohort, worlds: seq<World>, n: nat, m: nat)
    requires n <= m <= |c.rows| == |worlds| && Played(c, worlds, n).failedAt.Some?
    ensures Played(c, worlds, m) == Played(c, worlds, n)
    decreases m - n
  {
    hide RowStep;
    if n == m {
    } else {
      StaysFailed(c, worlds, n, m - 1);
    }
  }

  // ------------------------------------------------------------------- fresh runs

  predicate Fresh(row: Row) {
    row.status == Unattempted && row.result == NoResult && row.calls == 0 && row.stop.None? && row.failure.None?
  }

  ghost predicate FreshCohort(c: Cohort) {
    && (forall i :: 0 <= i < |c.rows| ==> Fresh(c.rows[i]))
    && Safe(c.gate) && c.gate.stop.None? && c.gate.calls == 0
  }

  /** Nothing beyond the first `n` rows was touched, and only a row that threw may still be in progress. */
  ghost predicate Untouched(start: seq<Row>, rows: seq<Row>, n: nat, failedAt: Option<nat>) {
    && |rows| == |start|
    && (forall i :: n <= i < |rows| ==> rows[i] == start[i])
    && (failedAt.Some? ==> forall i :: failedAt.value < i < |rows| ==> rows[i] == start[i])
    && forall i :: 0 <= i < |rows| && rows[i].status == InProgress ==> failedAt == Some(i)
  }

  lemma RowStepTouches(c: Cohort, i: nat, w: World)
    requires i < |c.rows|
    ensures var r := RowStep(c, i, w);
            && (forall k :: 0 <= k < |c.rows| && k != i ==> r.0.rows[k] == c.rows[k])
            && (!r.1 && c.rows[i].status != InProgress ==> r.0.rows[i].status != InProgress)
            && r.0.rows[i].before == c.rows[i].before
  {
    hide Run;
    hide QaStop;
  }

  lemma {:induction false} PlayedTouches(c: Cohort, worlds: seq<World>, n: nat)
    requires n <= |c.rows| == |worlds| && FreshCohort(c)
    ensures var p := Played(c, worlds, n);
            Untouched(c.rows, p.cohort.rows, n, p.failedAt)
  {
    hide RowStep;
    hide Safe;
    if n == 0 {
    } else {
      PlayedTouches(c, worlds, n - 1);
      var p := Played(c, worlds, n - 1);
      if p.failedAt.None? {
        RowStepTouches(p.cohort, n - 1, worlds[n - 1]);
      }
    }
  }

  // ------------------------------------------------------------------- the latch

  /** A row the loop passed over: cached already, or marked with the reason and never attempted. */
  predicate PassedOver(row: Row, stop: Stop) {
    row.calls == 0 && (row.status == Cached || (row.status == Unattempted && row.stop == Some(stop)))
  }

  /** Behind a row with a stop reason, every row was passed over for the same reason, which is the gate's. */
  ghost predicate Latched(rows: seq<Row>, n: nat, stop: Option<Stop>)
    requires n <= |rows|
  {
    && (forall i :: 0 <= i < n && rows[i].stop.Some? ==> rows[i].stop == stop)
    && forall i, k :: 0 <= i < k < n && rows[i].stop.Some? ==> PassedOver(rows[k], rows[i].stop.value)
  }

  lemma RowStepLatches(c: Cohort, i: nat, w: World)
    requires i < |c.rows| && Fresh(c.rows[i])
    ensures var r := RowStep(c, i, w);
            && (c.gate.stop.Some? ==> r.0.gate.stop == c.gate.stop && PassedOver(r.0.rows[i], c.gate.stop.value))
            && (r.0.rows[i].stop.Some? ==> r.0.gate.stop == r.0.rows[i].stop)
  {
    hide Run;
    hide QaStop;
  }

  lemma LatchedStep(rows: seq<Row>, next: seq<Row>, n: nat, stop: Option<Stop>, newStop: Option<Stop>)
    requires n < |rows| == |next| && Latched(rows, n, stop)
    requires forall k :: 0 <= k < n ==> next[k] == rows[k]
    requires stop.Some? ==> newStop == stop && PassedOver(next[n], stop.value)
    requires next[n].stop.Some? ==> newStop == next[n].stop
    ensures Latched(next, n + 1, newStop)
  {
  }

  /** The rows that were processed: all up to `n`, or up to the one that threw. */
  function Reached(p: Progress, n: nat): nat {
    if p.failedAt.Some? then p.failedAt.value + 1 else n
  }

  lemma {:induction false} PlayedLatches(c: Cohort, worlds: seq<World>, n: nat)
    requires n <= |c.rows| == |worlds| && FreshCohort(c)
    ensures var p := Played(c, worlds, n);
            Latched(p.cohort.rows, Reached(p, n), p.cohort.gate.stop)
  {
    hide RowStep;
    hide Safe;
    hide Latched;
    if n == 0 {
      NothingLatched(c.rows, c.gate.stop);
    } else {
      PlayedLatches(c, worlds, n - 1);
      var p := Played(c, worlds, n - 1);
      if p.failedAt.None? {
        PlayedTouches(c, worlds, n - 1);
        RowStepTouches(p.cohort, n - 1, worlds[n - 1]);
        RowStepLatches(p.cohort, n - 1, worlds[n - 1]);
        LatchedStep(p.cohort.rows, RowStep(p.cohort, n - 1, worlds[n - 1]).0.rows, n - 1, p.cohort.gate.stop,
                    RowStep(p.cohort, n - 1, worlds[n - 1]).0.gate.stop);
      }
    }
  }

  lemma NothingLatched(rows: seq<Row>, stop: Option<Stop>)
    ensures Latched(rows, 0, stop)
  {
  }

  // ------------------------------------------------------------------- the calls

  function RowCalls(row: Row): int { row.calls }

  lemma {:induction false} SumUpdate(rows: seq<Row>, i: nat, row: Row)
    requires i < |rows|
    ensures SumBy(rows[i := row], RowCalls) == SumBy(rows, RowCalls) - rows[i].calls + row.calls
  {
    if i > 0 {
      SumUpdate(rows[1..], i - 1, row);
      assert rows[i := row][1..] == rows[1..][i - 1 := row];
    } else {
      assert rows[i := row][1..] == rows[1..];
    }
  }

  lemma {:induction false} NoCallsYet(rows: seq<Row>)
    requires forall i :: 0 <= i < |rows| ==> rows[i].calls == 0
    ensures SumBy(rows, RowCalls) == 0
  {
    if rows == [] {
    } else {
      NoCallsYet(rows[1..]);
    }
  }

  lemma RowStepCalls(c: Cohort, i: nat, w: World)
    requires i < |c.rows| && Fresh(c.rows[i])
    ensures var r := RowStep(c, i, w);
            var spent := r.0.gate.calls - c.gate.calls;
            && 0 <= r.0.rows[i].calls <= spent
            && (r.0.rows[i].calls == spent || (r.1 && r.0.rows[i].status == InProgress && r.0.rows[i].calls == 0))
            && r.0.rows == c.rows[i := r.0.rows[i]]
  {
    hide Run;
    hide QaStop;
    RunCallsGrow(c.gate, w.steps);
  }

  lemma {:induction false} PlayedCalls(c: Cohort, worlds: seq<World>, n: nat)
    requires n <= |c.rows| == |worlds| && FreshCohort(c)
    ensures var p := Played(c, worlds, n);
            && SumBy(p.cohort.rows, RowCalls) <= p.cohort.gate.calls
            && (p.failedAt.None? ==> SumBy(p.cohort.rows, RowCalls) == p.cohort.gate.calls)
            && (p.failedAt.Some? && p.cohort.rows[p.failedAt.value].status != InProgress ==>
                  SumBy(p.cohort.rows, RowCalls) == p.cohort.gate.calls)
  {
    hide RowStep;
    hide Safe;
    if n == 0 {
      NoCallsYet(c.rows);
    } else {
      PlayedCalls(c, worlds, n - 1);
      var p := Played(c, worlds, n - 1);
      if p.failedAt.None? {
        PlayedTouches(c, worlds, n - 1);
        RowStepCalls(p.cohort, n - 1, worlds[n - 1]);
        var r := RowStep(p.cohort, n - 1, worlds[n - 1]);
        SumUpdate(p.cohort.rows, n - 1, r.0.rows[n - 1]);
      }
    }
  }

  // ------------------------------------------------------------------ the limits

  lemma StopKeepsSafe(g: Gate, stop: Option<Stop>, accountStop: Option<Stop>)
    requires Safe(g)
    ensures Safe(g.(stop := stop)) && Safe(g.(stop := stop, account := g.account.(stop := accountStop)))
  {
  }

  lemma RowStepSafe(c: Cohort, i: nat, w: World)
    requires i < |c.rows| && Safe(c.gate)
    ensures Safe(RowStep(c, i, w).0.gate) && RowStep(c, i, w).0.gate.cap == c.gate.cap
    ensures RowStep(c, i, w).0.gate.account.maxCost == c.gate.account.maxCost
  {
    hide Safe;
    hide Run;
    hide QaStop;
    hide Classify;
    RunSafe(c.gate, w.steps);
    var after := Run(c.gate, w.steps);
    StopKeepsSafe(after, Or(after.stop, after.account.stop), None);
    StopKeepsSafe(c.gate, StopBefore(c.gate), StopBefore(c.gate));
  }

  lemma {:induction false} PlayedSafe(c: Cohort, worlds: seq<World>, n: nat)
    requires n <= |c.rows| == |worlds| && FreshCohort(c)
    ensures var p := Played(c, worlds, n);
            && Safe(p.cohort.gate) && p.cohort.gate.cap == c.gate.cap
            && p.cohort.gate.account.maxCost == c.gate.account.maxCost
  {
    hide RowStep;
    hide Safe;
    if n == 0 {
    } else {
      PlayedSafe(c, worlds, n - 1);
      var p := Played(c, worlds, n - 1);
      if p.failedAt.None? {
        RowStepSafe(p.cohort, n - 1, worlds[n - 1]);
      }
    }
  }

  // --------------------------------------------------------------- every whole run

  /**
   In every run, whatever throws: the stop reason latches; a run without a throw leaves no row in progress and its
   rows account for every provider call; a throw leaves at most its own row in progress and later rows untouched.
   */
  lemma EveryRun(c: Cohort, worlds: seq<World>)
    requires |c.rows| == |worlds| && FreshCohort(c)
    ensures var p := Played(c, worlds, |worlds|);
            && Latched(p.cohort.rows, Reached(p, |worlds|), p.cohort.gate.stop)
            && Untouched(c.rows, p.cohort.rows, |worlds|, p.failedAt)
            && (p.failedAt.None? ==>
                  && SumBy(p.cohort.rows, RowCalls) == p.cohort.gate.calls
                  && forall i :: 0 <= i < |worlds| ==> p.cohort.rows[i].status != InProgress)
            && SumBy(p.cohort.rows, RowCalls) <= p.cohort.gate.calls <= c.gate.cap
            && p.cohort.gate.account.reported + p.cohort.gate.account.unsettled <= c.gate.account.maxCost
  {
    hide Played;
    hide Latched;
    PlayedLatches(c, worlds, |worlds|);
    PlayedTouches(c, worlds, |worlds|);
    PlayedCalls(c, worlds, |worlds|);
    PlayedSafe(c, worlds, |worlds|);
  }

  /** A row that was attempted and then found cached was stored but not public when the run began. */
  lemma AttemptedThenCached(c: Cohort, i: nat, w: World)
    requires i < |c.rows| && Fresh(c.rows[i]) && !IsCached(c.rows[i])
    requires RowStep(c, i, w).0.rows[i].status == Cached
    ensures var row := RowStep(c, i, w).0.rows[i];
            && row.before.proof.requested == Latest && !row.before.isPublic
            && row.current.isPublic && row.current.proof.requested == Latest && row.result == Returned(Idle)
  {
    hide Run;
    hide QaStop;
  }
}
