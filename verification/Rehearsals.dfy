/** Rehearsal attempts with their run lease, results and the gate (internal/domain/launch/rehearsal.go). */
module Rehearsals {
  import opened Prelude

  datatype AttemptStatus = AttemptOpen | AttemptRunning | AttemptDone

  /** An attempt's identifier is its position in the append-only store. */
  datatype AttemptRow = AttemptRow(
    inputSetHash: Hash, issuedAt: Time, status: AttemptStatus,
    claimedAt: Option<Time>, leaseExpiresAt: Option<Time>, runner: string)

  datatype Outcome = Pass | Fail | Error | Skipped

  datatype ResultRow = ResultRow(
    attempt: nat, inputSetHash: Hash, outcome: Outcome, signature: string, stale: bool, recordedAt: Time)

  datatype GateMode = GateOff | GateAdvisory | GateRequired

  datatype LeaseError = AttemptLeased

  function NewAttempt(hash: Hash, now: Time): AttemptRow {
    AttemptRow(hash, now, AttemptOpen, None, None, "")
  }

  predicate IsLeased(a: AttemptRow, now: Time) {
    a.status == AttemptRunning && a.leaseExpiresAt.Some? && now < a.leaseExpiresAt.value
  }

  function Claim(a: AttemptRow, runner: string, now: Time, expiry: Time): Result<AttemptRow, LeaseError> {
    if IsLeased(a, now) then
      if a.runner != runner then Err(AttemptLeased) else Ok(a)
    else Ok(a.(status := AttemptRunning, claimedAt := Some(now), leaseExpiresAt := Some(expiry), runner := runner))
  }

  function Release(a: AttemptRow): AttemptRow {
    a.(status := AttemptDone, leaseExpiresAt := None)
  }

  function Reset(a: AttemptRow): AttemptRow {
    a.(status := AttemptOpen, claimedAt := None, leaseExpiresAt := None, runner := "")
  }

  /** Position of the attempt minted for this input set, or the number of attempts. */
  function AttemptIndex(attempts: seq<AttemptRow>, hash: Hash): (i: nat)
    ensures i <= |attempts|
    ensures i < |attempts| ==> attempts[i].inputSetHash == hash
    ensures i == |attempts| ==> forall j :: 0 <= j < |attempts| ==> attempts[j].inputSetHash != hash
  {
    if attempts == [] then 0
    else if attempts[0].inputSetHash == hash then 0
    else 1 + AttemptIndex(attempts[1..], hash)
  }

  /** The newest result by recording time, the later row on a tie. */
  function LatestResult(results: seq<ResultRow>): (latest: Option<ResultRow>)
    ensures latest.None? <==> results == []
    ensures latest.Some? ==> latest.value in results
    ensures latest.Some? ==> forall r :: r in results ==> r.recordedAt <= latest.value.recordedAt
  {
    if results == [] then None
    else
      var n := |results| - 1;
      var last := results[n];
      var front := LatestResult(results[..n]);
      assert results == results[..n] + [last];
      if front.Some? && last.recordedAt < front.value.recordedAt then front else Some(last)
  }

  /** A current PASS for this input set. */
  predicate RehearsalReady(latest: Option<ResultRow>, current: Hash) {
    latest.Some? && latest.value.outcome == Pass && latest.value.inputSetHash == current
  }
}
