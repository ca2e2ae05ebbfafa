/** When an executed proposal goes through, action by action. */
module ExecutionTheorems {
  import opened Prelude
  import opened Launches
  import opened Proposals
  import opened JoinRequests
  import opened VotingPower
  import opened Rehearsals
  import opened Coordinator
  import opened Invariants
  import opened Steps

  ghost predicate OnCommittee(c: Committee, a: Account) {
    exists i :: 0 <= i < |c.members| && c.members[i].address == a
  }

  ghost predicate HasFile(files: seq<AllocationFile>, kind: AllocationType, hash: Hash) {
    exists i :: 0 <= i < |files| && files[i].kind == kind && files[i].sha256 == hash
  }

  ghost predicate InStatus(rows: seq<JoinRow>, i: nat, status: JoinStatus) {
    i < |rows| && rows[i].status == status
  }

  /** What each action needs of the launch at the moment it executes. */
  ghost predicate Applicable(cfg: Config, s: State, a: Action) {
    var l := s.launch;
    match a
    case ApproveValidator(i, _) => InStatus(s.requests, i, Pending)
    case RejectValidator(i, _, _) => InStatus(s.requests, i, Pending)
    case RemoveApprovedValidator(i, _, _) =>
      (l.status == WindowOpen || l.status == WindowClosed) && InStatus(s.requests, i, Approved)
    case PublishChainRecord(h) => l.status == Draft && h == l.initialGenesisSha256 && IsSha256Hex(h)
    case CloseApplicationWindow =>
      && l.status == WindowOpen
      && |ApprovedRows(s.requests)| >= l.record.minValidatorCount
      && !Dominated(cfg.round, PowersOf(ApprovedRows(s.requests)))
    case PublishFinalGenesis(h) =>
      && l.status == WindowClosed && h == l.finalGenesisSha256 && IsSha256Hex(h)
      && l.finalGenesisInputSetHash != "" && Current(cfg, s) == l.finalGenesisInputSetHash
      && (cfg.gate == GateRequired ==>
            && l.rehearsalServiceKey != "" && LatestResult(s.results).Some?
            && LatestResult(s.results).value.outcome == Pass
            && LatestResult(s.results).value.inputSetHash == Current(cfg, s))
    case UpdateGenesisTime(_, _) => l.status != Launched && l.status != Canceled
    case ApproveAllocationFile(kind, hash) =>
      && l.status != GenesisReady && l.status != Launched && l.status != Canceled
      && HasFile(l.allocationFiles, kind, hash)
    case ReplaceCommitteeMember(o, _) => OnCommittee(l.committee, o)
    case ReviseGenesis => l.status == GenesisReady
    case ExpandCommittee(m, override) =>
      && !OnCommittee(l.committee, m.address)
      && (override.Some? ==> 1 <= override.value <= |l.committee.members|)
    case ShrinkCommittee(gone, override) =>
      && OnCommittee(l.committee, gone) && |l.committee.members| >= 3
      && (override.Some? ==> 1 <= override.value <= |l.committee.members| - 2)
    case CancelLaunch => l.status != Launched && l.status != Canceled
  }

  lemma OnCommitteeMeans(c: Committee, a: Account)
    ensures OnCommittee(c, a) <==> HasMember(c, a)
  {
    var i := MemberIndex(c.members, a);
    if i < |c.members| {
      assert c.members[i].address == a;
    }
  }

  lemma HasFileMeans(files: seq<AllocationFile>, kind: AllocationType, hash: Hash)
    requires OneFilePerType(files)
    ensures var i := FileIndex(files, kind);
            HasFile(files, kind, hash) <==> i < |files| && files[i].sha256 == hash
  {
    var i := FileIndex(files, kind);
    if i < |files| && files[i].sha256 == hash {
      assert files[i].kind == kind;
    }
  }

  lemma RequestActionsApply(cfg: Config, s: State, id: nat, p: ProposalRow, now: Time)
    requires p.action.ApproveValidator? || p.action.RejectValidator? || p.action.RemoveApprovedValidator?
    ensures Apply(cfg, s, id, p, now).Ok? <==> Applicable(cfg, s, p.action)
  {
  }

  lemma CommitteeActionsApply(cfg: Config, s: State, id: nat, p: ProposalRow, now: Time)
    requires WellFormed(s.launch.committee) && (p.action.ReplaceCommitteeMember? || Resizes(p.action))
    ensures Apply(cfg, s, id, p, now).Ok? <==> Applicable(cfg, s, p.action)
  {
    match p.action {
      case ReplaceCommitteeMember(o, _) => OnCommitteeMeans(s.launch.committee, o);
      case ExpandCommittee(m, _) => OnCommitteeMeans(s.launch.committee, m.address);
      case ShrinkCommittee(gone, _) => OnCommitteeMeans(s.launch.committee, gone);
      case _ =>
    }
  }

  lemma LaunchActionsApply(cfg: Config, s: State, id: nat, p: ProposalRow, now: Time)
    requires OneFilePerType(s.launch.allocationFiles)
    requires p.action.PublishChainRecord? || p.action.UpdateGenesisTime? || p.action.ApproveAllocationFile?
             || p.action.ReviseGenesis? || p.action.CancelLaunch?
    ensures Apply(cfg, s, id, p, now).Ok? <==> Applicable(cfg, s, p.action)
  {
    if p.action.ApproveAllocationFile? {
      HasFileMeans(s.launch.allocationFiles, p.action.kind, p.action.hash);
    }
  }

  /** An executed proposal goes through iff the launch is as its action needs it. */
  lemma AppliesIff(cfg: Config, s: State, id: nat, p: ProposalRow, now: Time)
    requires WellFormed(s.launch.committee) && OneFilePerType(s.launch.allocationFiles)
    ensures Apply(cfg, s, id, p, now).Ok? <==> Applicable(cfg, s, p.action)
  {
    var a := p.action;
    if a.CloseApplicationWindow? {
      assert Apply(cfg, s, id, p, now) == ApplyClose(cfg, s, id, p);
    } else if a.PublishFinalGenesis? {
      assert Apply(cfg, s, id, p, now) == ApplyPublishGenesis(cfg, s, id, p);
    } else if a.ApproveValidator? || a.RejectValidator? || a.RemoveApprovedValidator? {
      RequestActionsApply(cfg, s, id, p, now);
    } else if a.ReplaceCommitteeMember? || Resizes(a) {
      CommitteeActionsApply(cfg, s, id, p, now);
    } else {
      LaunchActionsApply(cfg, s, id, p, now);
    }
  }

  /**
   * On every run, a proposal that reaches quorum commits iff its intent is written, the transaction does not fail,
   * and the launch is as its action needs it.
   */
  lemma CommitsIff(cfg: Config, states: seq<State>, xs: seq<Input>, k: nat)
    requires Run(cfg, states, xs) && k < |xs| && ExecutionOf(cfg, states[k], xs[k]).Some?
    ensures var e := ExecutionOf(cfg, states[k], xs[k]).value;
            Committed(cfg, states[k], xs[k])
            <==> e.weather.intent == Written && !e.weather.txFails && Applicable(cfg, states[k], e.row.action)
  {
    Reachable(cfg, states, xs, k);
    var e := ExecutionOf(cfg, states[k], xs[k]).value;
    ExecutionIsSavable(cfg, states[k], xs[k]);
    var base := Logged(e.base, e.id);
    AppliesIff(cfg, base, e.id, e.row, e.now);
    SameApplicable(cfg, states[k], base, e.row.action);
  }

  lemma SameApplicable(cfg: Config, s: State, t: State, a: Action)
    requires t.launch == s.launch && t.requests == s.requests && t.results == s.results
    ensures Applicable(cfg, s, a) <==> Applicable(cfg, t, a)
  {
  }
}
