/** The Launch object with its fields updated in place, each method proved against the row functions. */
module LaunchAggregate {
  import opened Prelude
  import opened VotingPower
  import L = Launches

  /** The method did what the row function says: its result on success, nothing on failure. */
  ghost predicate Did(before: L.LaunchRow, r: Result<L.LaunchRow, L.LaunchError>,
                      err: Option<L.LaunchError>, after: L.LaunchRow)
  {
    match r
    case Ok(row) => err == None && after == row
    case Err(e) => err == Some(e) && after == before
  }

  /** The same for the committee functions, which touch nothing else. */
  ghost predicate DidCommittee(before: L.LaunchRow, r: Result<L.Committee, L.LaunchError>,
                               err: Option<L.LaunchError>, after: L.LaunchRow)
  {
    match r
    case Ok(c) => err == None && after == before.(committee := c)
    case Err(e) => err == Some(e) && after == before
  }

  class Launch {
    var record: L.ChainRecord
    var status: L.Status
    var members: seq<L.Member>
    var thresholdM: int
    var totalN: int
    var leadAddress: Account
    var initialGenesisSha256: Hash
    var finalGenesisSha256: Hash
    var finalGenesisInputSetHash: Hash
    var allocationFiles: seq<L.AllocationFile>
    var rehearsalServiceKey: string
    var approvedVotingPower: Powers

    /** What is stored of this launch; the voting powers are derived and not part of it. */
    function Row(): L.LaunchRow
      reads this
    {
      L.LaunchRow(record, status, L.Committee(members, thresholdM, totalN, leadAddress), initialGenesisSha256,
                  finalGenesisSha256, finalGenesisInputSetHash, allocationFiles, rehearsalServiceKey)
    }

    /** A launch as loaded from its row, with the voting powers the repository hydrates. */
    constructor (row: L.LaunchRow, powers: Powers)
      ensures Row() == row && approvedVotingPower == powers
    {
      record, status := row.record, row.status;
      members, thresholdM := row.committee.members, row.committee.thresholdM;
      totalN, leadAddress := row.committee.totalN, row.committee.lead;
      initialGenesisSha256, finalGenesisSha256 := row.initialGenesisSha256, row.finalGenesisSha256;
      finalGenesisInputSetHash, allocationFiles := row.finalGenesisInputSetHash, row.allocationFiles;
      rehearsalServiceKey, approvedVotingPower := row.rehearsalServiceKey, powers;
    }

    // ----- Lifecycle

    method Publish(hash: Hash) returns (err: Option<L.LaunchError>)
      modifies this`status, this`initialGenesisSha256
      ensures Did(old(Row()), L.Publish(old(Row()), hash), err, Row())
    {
      if status != L.Draft {
        return Some(L.InvalidStatusTransition);
      }
      if !IsSha256Hex(hash) {
        return Some(L.GenesisHashRequired);
      }
      initialGenesisSha256 := hash;
      status := L.Published;
      return None;
    }

    method OpenWindow() returns (err: Option<L.LaunchError>)
      modifies this`status
      ensures Did(old(Row()), L.OpenWindow(old(Row())), err, Row())
    {
      if status != L.Published {
        return Some(L.InvalidStatusTransition);
      }
      status := L.WindowOpen;
      return None;
    }

    method CloseWindow(round: Rounding, approvedCount: nat) returns (err: Option<L.LaunchError>)
      modifies this`status
      ensures Did(old(Row()), L.CloseWindow(old(Row()), approvedCount, Dominated(round, old(approvedVotingPower))), err, Row())
    {
      if status != L.WindowOpen {
        return Some(L.InvalidStatusTransition);
      }
      if approvedCount < record.minValidatorCount {
        return Some(L.InsufficientValidators);
      }
      var _, pct := DominantVotingPowerPct(round, approvedVotingPower);
      if pct >= round(100.0 / 3.0) {
        return Some(L.DominantVotingPower);
      }
      status := L.WindowClosed;
      return None;
    }

    method PublishGenesis(hash: Hash) returns (err: Option<L.LaunchError>)
      modifies this`status, this`finalGenesisSha256
      ensures Did(old(Row()), L.PublishGenesis(old(Row()), hash), err, Row())
    {
      if status != L.WindowClosed {
        return Some(L.InvalidStatusTransition);
      }
      if !IsSha256Hex(hash) {
        return Some(L.GenesisHashRequired);
      }
      finalGenesisSha256 := hash;
      status := L.GenesisReady;
      return None;
    }

    method Cancel() returns (err: Option<L.LaunchError>)
      modifies this`status
      ensures Did(old(Row()), L.Cancel(old(Row())), err, Row())
    {
      if status == L.Canceled {
        return Some(L.InvalidStatusTransition);
      }
      if status == L.Launched {
        return Some(L.InvalidStatusTransition);
      }
      status := L.Canceled;
      return None;
    }

    method ReopenForRevision() returns (err: Option<L.LaunchError>)
      modifies this`status, this`finalGenesisSha256
      ensures Did(old(Row()), L.ReopenForRevision(old(Row())), err, Row())
    {
      if status != L.GenesisReady {
        return Some(L.InvalidStatusTransition);
      }
      finalGenesisSha256 := "";
      status := L.WindowClosed;
      return None;
    }

    method MarkLaunched() returns (err: Option<L.LaunchError>)
      modifies this`status
      ensures Did(old(Row()), L.MarkLaunched(old(Row())), err, Row())
    {
      if status != L.GenesisReady {
        return Some(L.InvalidStatusTransition);
      }
      status := L.Launched;
      return None;
    }

    // ----- Committee

    method FindMember(a: Account) returns (i: nat)
      ensures i == L.MemberIndex(members, a)
    {
      i := 0;
      while i < |members| && members[i].address != a
        invariant i <= |members|
        invariant L.MemberIndex(members, a) == i + L.MemberIndex(members[i..], a)
      {
        i := i + 1;
      }
    }

    method ReplaceCommitteeMember(prior: Account, newcomer: L.Member) returns (err: Option<L.LaunchError>)
      modifies this`members, this`leadAddress
      ensures DidCommittee(old(Row()), L.Replace(old(Row()).committee, prior, newcomer), err, Row())
    {
      var i := FindMember(prior);
      if i == |members| {
        return Some(L.CommitteeMemberNotFound);
      }
      members := members[i := newcomer];
      if leadAddress == prior {
        leadAddress := newcomer.address;
      }
      return None;
    }

    method ExpandCommittee(newcomer: L.Member, newThresholdM: int) returns (err: Option<L.LaunchError>)
      modifies this`members, this`totalN, this`thresholdM
      ensures DidCommittee(old(Row()), L.Expand(old(Row()).committee, newcomer, newThresholdM), err, Row())
    {
      var i := FindMember(newcomer.address);
      if i < |members| {
        return Some(L.CommitteeMemberExists);
      }
      var newN := |members| + 1;
      if newThresholdM < 1 {
        return Some(L.InvalidCommitteeChange);
      }
      if newThresholdM >= newN {
        return Some(L.InvalidCommitteeChange);
      }
      members := members + [newcomer];
      totalN := newN;
      thresholdM := newThresholdM;
      return None;
    }

    method ShrinkCommittee(gone: Account, newThresholdM: int) returns (err: Option<L.LaunchError>)
      modifies this`members, this`totalN, this`thresholdM, this`leadAddress
      ensures DidCommittee(old(Row()), L.Shrink(old(Row()).committee, gone, newThresholdM), err, Row())
    {
      var i := FindMember(gone);
      if i == |members| {
        return Some(L.CommitteeMemberNotFound);
      }
      var newN := |members| - 1;
      if newN < 1 {
        return Some(L.InvalidCommitteeChange);
      }
      if newThresholdM < 1 {
        return Some(L.InvalidCommitteeChange);
      }
      if newThresholdM >= newN {
        return Some(L.InvalidCommitteeChange);
      }
      members := members[..i] + members[i + 1..];
      totalN := newN;
      thresholdM := newThresholdM;
      if leadAddress == gone {
        leadAddress := members[0].address;
      }
      return None;
    }

    // ----- Allocation files

    method FindFile(kind: L.AllocationType) returns (i: nat)
      ensures i == L.FileIndex(allocationFiles, kind)
    {
      i := 0;
      while i < |allocationFiles| && allocationFiles[i].kind != kind
        invariant i <= |allocationFiles|
        invariant L.FileIndex(allocationFiles, kind) == i + L.FileIndex(allocationFiles[i..], kind)
      {
        i := i + 1;
      }
    }

    method UploadAllocationFile(kind: L.AllocationType, sha256: Hash) returns (err: Option<L.LaunchError>)
      modifies this`allocationFiles
      ensures Did(old(Row()), L.UploadAllocation(old(Row()), kind, sha256), err, Row())
    {
      if L.AllocationLockedIn(status) {
        return Some(L.AllocationLocked);
      }
      if !IsSha256Hex(sha256) {
        return Some(L.AllocationEmptyHash);
      }
      var i := FindFile(kind);
      if i < |allocationFiles| {
        allocationFiles := allocationFiles[i := allocationFiles[i].(
          sha256 := sha256, status := L.AllocationPending, approvedBy := None)];
      } else {
        allocationFiles := allocationFiles + [L.AllocationFile(kind, sha256, L.AllocationPending, None)];
      }
      return None;
    }

    method ApproveAllocationFile(kind: L.AllocationType, hash: Hash, proposal: nat) returns (err: Option<L.LaunchError>)
      modifies this`allocationFiles
      ensures Did(old(Row()), L.ApproveAllocation(old(Row()), kind, hash, proposal), err, Row())
    {
      if L.AllocationLockedIn(status) {
        return Some(L.AllocationLocked);
      }
      var i := FindFile(kind);
      if i == |allocationFiles| {
        return Some(L.AllocationNotFound);
      }
      if allocationFiles[i].sha256 != hash {
        return Some(L.AllocationStaleHash);
      }
      allocationFiles := allocationFiles[i := allocationFiles[i].(
        status := L.AllocationApproved, approvedBy := Some(proposal))];
      return None;
    }

    method RejectAllocationFile(kind: L.AllocationType, hash: Hash) returns (rejected: bool)
      modifies this`allocationFiles
      ensures Row() == L.RejectAllocation(old(Row()), kind, hash)
      ensures rejected <==> L.CanRejectAllocation(old(Row()), kind, hash)
    {
      var i := FindFile(kind);
      if i == |allocationFiles| || allocationFiles[i].sha256 != hash {
        return false;
      }
      allocationFiles := allocationFiles[i := allocationFiles[i].(status := L.AllocationRejected, approvedBy := None)];
      return true;
    }

    // ----- Voting power

    /** Records an approval and warns when some operator now holds a third of the power. */
    method RecordValidatorApproval(round: Rounding, operator: Account, power: nat) returns (warning: bool)
      modifies this`approvedVotingPower
      ensures approvedVotingPower == old(approvedVotingPower)[operator := power]
      ensures warning <==> Dominated(round, approvedVotingPower)
    {
      approvedVotingPower := approvedVotingPower[operator := power];
      var _, pct := DominantVotingPowerPct(round, approvedVotingPower);
      return pct >= round(100.0 / 3.0);
    }

    method RemoveValidatorApproval(operator: Account)
      modifies this`approvedVotingPower
      ensures approvedVotingPower == old(approvedVotingPower) - {operator}
    {
      approvedVotingPower := approvedVotingPower - {operator};
    }
  }
}
