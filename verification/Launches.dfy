/** The launch aggregate: lifecycle, committee, allocation files (internal/domain/launch/launch.go). */
module Launches {
  import opened Prelude

  datatype Status = Draft | Published | WindowOpen | WindowClosed | GenesisReady | Launched | Canceled

  datatype LaunchError =
    | InvalidStatusTransition
    | GenesisHashRequired
    | InsufficientValidators
    | DominantVotingPower
    | CommitteeMemberNotFound
    | CommitteeMemberExists
    | InvalidCommitteeChange
    | CommitteeThresholdRange
    | CommitteeSizeMismatch
    | LeadNotFirstMember
    | AllocationLocked
    | AllocationEmptyHash
    | AllocationNotFound
    | AllocationStaleHash

  datatype Member = Member(address: Account, moniker: string)

  datatype Committee = Committee(members: seq<Member>, thresholdM: int, totalN: int, lead: Account)

  datatype AllocationType = Accounts | Claims | Grants | Authz | Feegrant

  datatype AllocationStatus = AllocationPending | AllocationApproved | AllocationRejected

  datatype AllocationFile =
    AllocationFile(kind: AllocationType, sha256: Hash, status: AllocationStatus, approvedBy: Option<nat>)

  datatype ChainRecord = ChainRecord(
    chainId: string, bech32Prefix: string, denom: string, totalSupply: string,
    minSelfDelegation: string, maxCommissionRate: string, maxCommissionChangeRate: string,
    minValidatorCount: int, genesisTime: Option<Time>,
    binaryName: string, binaryVersion: string, binarySha256: Hash, repoUrl: string, repoCommit: string,
    gentxDeadline: Time)

  /** One row of the launches table with the rows it owns. */
  datatype LaunchRow = LaunchRow(
    record: ChainRecord, status: Status, committee: Committee,
    initialGenesisSha256: Hash, finalGenesisSha256: Hash, finalGenesisInputSetHash: Hash,
    allocationFiles: seq<AllocationFile>, rehearsalServiceKey: string)

  // ----- Committee

  /** Position of the first member with this address, or the number of members. */
  function MemberIndex(members: seq<Member>, a: Account): (i: nat)
    ensures i <= |members|
    ensures i < |members| ==> members[i].address == a
    ensures forall j :: 0 <= j < i ==> members[j].address != a
  {
    if members == [] then 0
    else if members[0].address == a then 0
    else 1 + MemberIndex(members[1..], a)
  }

  predicate HasMember(c: Committee, a: Account) {
    MemberIndex(c.members, a) < |c.members|
  }

  /** N members, a threshold between 1 and N, and the lead in position 0. */
  predicate WellFormed(c: Committee) {
    && |c.members| == c.totalN
    && 1 <= c.thresholdM <= c.totalN
    && c.members[0].address == c.lead
  }

  /** The checks of New and SetCommittee, in their order. */
  function CheckCommittee(c: Committee): (r: Result<Committee, LaunchError>)
    ensures r.Ok? <==> WellFormed(c)
    ensures r.Ok? ==> r.value == c
  {
    if c.thresholdM < 1 || c.thresholdM > c.totalN then Err(CommitteeThresholdRange)
    else if |c.members| != c.totalN then Err(CommitteeSizeMismatch)
    else if c.members[0].address != c.lead then Err(LeadNotFirstMember)
    else Ok(c)
  }

  function Replace(c: Committee, prior: Account, newcomer: Member): Result<Committee, LaunchError> {
    var i := MemberIndex(c.members, prior);
    if i == |c.members| then Err(CommitteeMemberNotFound)
    else Ok(c.(members := c.members[i := newcomer], lead := if c.lead == prior then newcomer.address else c.lead))
  }

  function Expand(c: Committee, newcomer: Member, m: int): Result<Committee, LaunchError> {
    var n := |c.members| + 1;
    if HasMember(c, newcomer.address) then Err(CommitteeMemberExists)
    else if m < 1 || m >= n then Err(InvalidCommitteeChange)
    else Ok(c.(members := c.members + [newcomer], totalN := n, thresholdM := m))
  }

  function Shrink(c: Committee, gone: Account, m: int): Result<Committee, LaunchError> {
    var i := MemberIndex(c.members, gone);
    var n := |c.members| - 1;
    if i == |c.members| then Err(CommitteeMemberNotFound)
    else if n < 1 then Err(InvalidCommitteeChange)
    else if m < 1 || m >= n then Err(InvalidCommitteeChange)
    else
      var members := c.members[..i] + c.members[i + 1..];
      Ok(c.(members := members, totalN := n, thresholdM := m,
            lead := if c.lead == gone then members[0].address else c.lead))
  }

  /** The threshold a resize uses: the override as given, else the current one clamped to [1, newN - 1]. */
  function ResolveThreshold(currentM: int, newN: int, override: Option<int>): (m: int)
    ensures override.Some? ==> m == override.value
    ensures override.None? && newN >= 2 ==> 1 <= m < newN
    ensures override.None? && newN >= 2 && currentM >= 1 ==> m <= currentM && (m == currentM || m == newN - 1)
  {
    if override.Some? then override.value
    else
      var m := if currentM >= newN then newN - 1 else currentM;
      if m < 1 then 1 else m
  }

  // ----- Lifecycle

  function Publish(l: LaunchRow, hash: Hash): Result<LaunchRow, LaunchError> {
    if l.status != Draft then Err(InvalidStatusTransition)
    else if !IsSha256Hex(hash) then Err(GenesisHashRequired)
    else Ok(l.(initialGenesisSha256 := hash, status := Published))
  }

  function OpenWindow(l: LaunchRow): Result<LaunchRow, LaunchError> {
    if l.status != Published then Err(InvalidStatusTransition)
    else Ok(l.(status := WindowOpen))
  }

  /** `dominated` is the outcome of the one-third test on the voting powers. */
  function CloseWindow(l: LaunchRow, approved: nat, dominated: bool): Result<LaunchRow, LaunchError> {
    if l.status != WindowOpen then Err(InvalidStatusTransition)
    else if approved < l.record.minValidatorCount then Err(InsufficientValidators)
    else if dominated then Err(DominantVotingPower)
    else Ok(l.(status := WindowClosed))
  }

  function PublishGenesis(l: LaunchRow, hash: Hash): Result<LaunchRow, LaunchError> {
    if l.status != WindowClosed then Err(InvalidStatusTransition)
    else if !IsSha256Hex(hash) then Err(GenesisHashRequired)
    else Ok(l.(finalGenesisSha256 := hash, status := GenesisReady))
  }

  function Cancel(l: LaunchRow): Result<LaunchRow, LaunchError> {
    if l.status == Canceled || l.status == Launched then Err(InvalidStatusTransition)
    else Ok(l.(status := Canceled))
  }

  function ReopenForRevision(l: LaunchRow): Result<LaunchRow, LaunchError> {
    if l.status != GenesisReady then Err(InvalidStatusTransition)
    else Ok(l.(finalGenesisSha256 := "", status := WindowClosed))
  }

  function MarkLaunched(l: LaunchRow): Result<LaunchRow, LaunchError> {
    if l.status != GenesisReady then Err(InvalidStatusTransition)
    else Ok(l.(status := Launched))
  }

  // ----- Allocation files

  predicate AllocationLockedIn(s: Status) {
    s == GenesisReady || s == Launched || s == Canceled
  }

  /** Position of the first file of this type, or the number of files. */
  function FileIndex(files: seq<AllocationFile>, kind: AllocationType): (i: nat)
    ensures i <= |files|
    ensures i < |files| ==> files[i].kind == kind
    ensures forall j :: 0 <= j < i ==> files[j].kind != kind
  {
    if files == [] then 0
    else if files[0].kind == kind then 0
    else 1 + FileIndex(files[1..], kind)
  }

  ghost predicate OneFilePerType(files: seq<AllocationFile>) {
    forall i, j :: 0 <= i < j < |files| ==> files[i].kind != files[j].kind
  }

  function UploadAllocation(l: LaunchRow, kind: AllocationType, sha256: Hash): Result<LaunchRow, LaunchError> {
    var i := FileIndex(l.allocationFiles, kind);
    var file := AllocationFile(kind, sha256, AllocationPending, None);
    if AllocationLockedIn(l.status) then Err(AllocationLocked)
    else if !IsSha256Hex(sha256) then Err(AllocationEmptyHash)
    else if i < |l.allocationFiles| then Ok(l.(allocationFiles := l.allocationFiles[i := file]))
    else Ok(l.(allocationFiles := l.allocationFiles + [file]))
  }

  function ApproveAllocation(l: LaunchRow, kind: AllocationType, hash: Hash, proposal: nat): Result<LaunchRow, LaunchError> {
    var i := FileIndex(l.allocationFiles, kind);
    if AllocationLockedIn(l.status) then Err(AllocationLocked)
    else if i == |l.allocationFiles| then Err(AllocationNotFound)
    else if l.allocationFiles[i].sha256 != hash then Err(AllocationStaleHash)
    else Ok(l.(allocationFiles :=
      l.allocationFiles[i := l.allocationFiles[i].(status := AllocationApproved, approvedBy := Some(proposal))]))
  }

  /** True when a veto on this hash has a file to reject: no status guard. */
  predicate CanRejectAllocation(l: LaunchRow, kind: AllocationType, hash: Hash) {
    var i := FileIndex(l.allocationFiles, kind);
    i < |l.allocationFiles| && l.allocationFiles[i].sha256 == hash
  }

  function RejectAllocation(l: LaunchRow, kind: AllocationType, hash: Hash): LaunchRow {
    var i := FileIndex(l.allocationFiles, kind);
    if !CanRejectAllocation(l, kind, hash) then l
    else l.(allocationFiles :=
      l.allocationFiles[i := l.allocationFiles[i].(status := AllocationRejected, approvedBy := None)])
  }

  // ----- What the committee operations keep

  lemma ReplaceKeepsWellFormed(c: Committee, prior: Account, newcomer: Member)
    requires WellFormed(c)
    ensures var r := Replace(c, prior, newcomer);
            r.Ok? ==>
              && WellFormed(r.value)
              && r.value.totalN == c.totalN && r.value.thresholdM == c.thresholdM
  {
  }

  /** Distinct addresses survive a replacement exactly when the newcomer was not already elsewhere on the committee. */
  lemma ReplaceDistinctIff(c: Committee, prior: Account, newcomer: Member)
    requires WellFormed(c) && HasMember(c, prior) && DistinctMembers(c)
    ensures DistinctMembers(Replace(c, prior, newcomer).value)
            <==> newcomer.address == prior || !HasMember(c, newcomer.address)
  {
    var i := MemberIndex(c.members, prior);
    var k := MemberIndex(c.members, newcomer.address);
    var r := Replace(c, prior, newcomer).value;
    if k < |c.members| && newcomer.address != prior {
      assert r.members[i].address == r.members[k].address == newcomer.address;
    }
  }

  ghost predicate DistinctMembers(c: Committee) {
    forall i, j :: 0 <= i < j < |c.members| ==> c.members[i].address != c.members[j].address
  }

  /**
   * A resize that succeeds leaves M < N with at least two members, the lead first, and the membership
   * changed by exactly the one address; with no override it succeeds whenever the new size is at least two.
   */
  lemma ExpandResult(c: Committee, newcomer: Member, override: Option<int>)
    requires WellFormed(c)
    ensures var m := ResolveThreshold(c.thresholdM, c.totalN + 1, override);
            var r := Expand(c, newcomer, m);
            && (override.None? && !HasMember(c, newcomer.address) ==> r.Ok?)
            && (r.Ok? ==>
                  && WellFormed(r.value)
                  && r.value.thresholdM == m < r.value.totalN == c.totalN + 1
                  && (override.None? ==> m == c.thresholdM)
                  && r.value.totalN >= 2
                  && (forall a :: HasMember(r.value, a) <==> HasMember(c, a) || a == newcomer.address))
  {
    var m := ResolveThreshold(c.thresholdM, c.totalN + 1, override);
    var r := Expand(c, newcomer, m);
    if r.Ok? {
      forall a
        ensures HasMember(r.value, a) <==> HasMember(c, a) || a == newcomer.address
      {
        var i := MemberIndex(c.members, a);
        if i < |c.members| {
          assert r.value.members[i].address == a;
        } else if a == newcomer.address {
          assert r.value.members[|c.members|].address == a;
        }
      }
    }
  }

  lemma WithoutMember(members: seq<Member>, g: nat, a: Account)
    requires g < |members| && members[g].address != a
    ensures MemberIndex(members[..g] + members[g + 1..], a) < |members| - 1 <==> MemberIndex(members, a) < |members|
  {
    var out := members[..g] + members[g + 1..];
    var i, k := MemberIndex(members, a), MemberIndex(out, a);
    if i < |members| {
      assert i < g ==> out[i] == members[i];
      assert i > g ==> out[i - 1] == members[i];
    }
    if k < |out| {
      assert k < g ==> members[k] == out[k];
      assert k >= g ==> members[k + 1] == out[k];
    }
  }

  lemma ShrinkMembers(c: Committee, gone: Account, m: int)
    requires WellFormed(c) && Shrink(c, gone, m).Ok?
    ensures var r := Shrink(c, gone, m).value;
            && (forall a :: a != gone ==> (HasMember(r, a) <==> HasMember(c, a)))
            && (DistinctMembers(c) ==> !HasMember(r, gone) && DistinctMembers(r))
  {
    var r := Shrink(c, gone, m).value;
    forall a | a != gone ensures HasMember(r, a) <==> HasMember(c, a) {
      WithoutMember(c.members, MemberIndex(c.members, gone), a);
    }
  }

  lemma ShrinkResult(c: Committee, gone: Account, override: Option<int>)
    requires WellFormed(c)
    ensures var m := ResolveThreshold(c.thresholdM, c.totalN - 1, override);
            var r := Shrink(c, gone, m);
            && (override.None? && HasMember(c, gone) && c.totalN >= 3 ==> r.Ok?)
            && (r.Ok? ==>
                  && WellFormed(r.value)
                  && r.value.thresholdM == m < r.value.totalN == c.totalN - 1
                  && (override.None? ==> m <= c.thresholdM && (m == c.thresholdM || m == r.value.totalN - 1))
                  && r.value.totalN >= 2
                  && (forall a :: a != gone ==> (HasMember(r.value, a) <==> HasMember(c, a)))
                  && (DistinctMembers(c) ==> !HasMember(r.value, gone) && DistinctMembers(r.value)))
  {
    var m := ResolveThreshold(c.thresholdM, c.totalN - 1, override);
    if Shrink(c, gone, m).Ok? {
      ShrinkMembers(c, gone, m);
    }
  }

  // ----- What the allocation operations keep

  lemma AllocationsStayUnique(l: LaunchRow, kind: AllocationType, hash: Hash, proposal: nat)
    requires OneFilePerType(l.allocationFiles)
    ensures var r := UploadAllocation(l, kind, hash); r.Ok? ==> OneFilePerType(r.value.allocationFiles)
    ensures var r := ApproveAllocation(l, kind, hash, proposal); r.Ok? ==> OneFilePerType(r.value.allocationFiles)
    ensures OneFilePerType(RejectAllocation(l, kind, hash).allocationFiles)
  {
  }
}
