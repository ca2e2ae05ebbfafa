/** JoinRequest and RehearsalAttempt objects, updated in place (internal/domain/joinrequest, launch/rehearsal.go). */
module RequestAggregates {
  import opened Prelude
  import J = JoinRequests
  import R = Rehearsals

  class JoinRequest {
    const submitted: J.JoinRow
    var status: J.JoinStatus
    var rejectionReason: string
    var approvedBy: Option<nat>

    function Row(): J.JoinRow
      reads this
    {
      submitted.(status := status, rejectionReason := rejectionReason, approvedBy := approvedBy)
    }

    constructor (row: J.JoinRow)
      ensures Row() == row
    {
      submitted, status, rejectionReason, approvedBy := row, row.status, row.rejectionReason, row.approvedBy;
    }

    method Approve(proposal: nat) returns (err: Option<J.JoinError>)
      modifies this
      ensures DidRequest(old(Row()), J.Approve(old(Row()), proposal), err, Row())
    {
      if status != J.Pending {
        return Some(J.InvalidStatus);
      }
      status, approvedBy := J.Approved, Some(proposal);
      return None;
    }

    method Reject(reason: string) returns (err: Option<J.JoinError>)
      modifies this
      ensures DidRequest(old(Row()), J.Reject(old(Row()), reason), err, Row())
    {
      if status != J.Pending {
        return Some(J.InvalidStatus);
      }
      status, rejectionReason := J.Rejected, reason;
      return None;
    }

    method Expire() returns (err: Option<J.JoinError>)
      modifies this
      ensures DidRequest(old(Row()), J.Expire(old(Row())), err, Row())
    {
      if status != J.Pending {
        return Some(J.InvalidStatus);
      }
      status := J.ExpiredRequest;
      return None;
    }

    method Revoke(reason: string) returns (err: Option<J.JoinError>)
      modifies this
      ensures DidRequest(old(Row()), J.Revoke(old(Row()), reason), err, Row())
    {
      if status != J.Approved {
        return Some(J.InvalidStatus);
      }
      status, rejectionReason, approvedBy := J.Rejected, reason, None;
      return None;
    }
  }

  /** The method did what the row function says: its result on success, nothing on failure. */
  ghost predicate DidRequest(before: J.JoinRow, r: Result<J.JoinRow, J.JoinError>, err: Option<J.JoinError>, after: J.JoinRow) {
    match r
    case Ok(row) => err == None && after == row
    case Err(e) => err == Some(e) && after == before
  }

  class RehearsalAttempt {
    const inputSetHash: Hash
    const issuedAt: Time
    var status: R.AttemptStatus
    var claimedAt: Option<Time>
    var leaseExpiresAt: Option<Time>
    var runner: string

    function Row(): R.AttemptRow
      reads this
    {
      R.AttemptRow(inputSetHash, issuedAt, status, claimedAt, leaseExpiresAt, runner)
    }

    constructor (row: R.AttemptRow)
      ensures Row() == row
    {
      inputSetHash, issuedAt, status := row.inputSetHash, row.issuedAt, row.status;
      claimedAt, leaseExpiresAt, runner := row.claimedAt, row.leaseExpiresAt, row.runner;
    }

    method Claim(claimant: string, now: Time, expiry: Time) returns (err: Option<R.LeaseError>)
      modifies this
      ensures match R.Claim(old(Row()), claimant, now, expiry)
              case Ok(row) => err == None && Row() == row
              case Err(e) => err == Some(e) && Row() == old(Row())
    {
      if R.IsLeased(Row(), now) {
        if runner != claimant {
          return Some(R.AttemptLeased);
        }
        return None;
      }
      status, claimedAt, leaseExpiresAt, runner := R.AttemptRunning, Some(now), Some(expiry), claimant;
      return None;
    }

    method Release()
      modifies this
      ensures Row() == R.Release(old(Row()))
    {
      status, leaseExpiresAt := R.AttemptDone, None;
    }

    method Reset()
      modifies this
      ensures Row() == R.Reset(old(Row()))
    {
      status, claimedAt, leaseExpiresAt, runner := R.AttemptOpen, None, None, "";
    }
  }
}
