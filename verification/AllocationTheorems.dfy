/** Allocation files and the committee decisions behind them, on every run. */
module AllocationTheorems {
  import opened Prelude
  import opened Launches
  import opened Proposals
  import opened Coordinator
  import opened Invariants
  import opened Steps

  /** Proposal q is the executed approval of this type and exactly this hash. */
  ghost predicate ApprovalOf(ps: map<nat, ProposalRow>, q: nat, f: AllocationFile) {
    q in ps && ps[q].status == Executed && ps[q].action == ApproveAllocationFile(f.kind, f.sha256)
  }

  /** Proposal q is the vetoed approval of this type and exactly this hash. */
  ghost predicate VetoOf(ps: map<nat, ProposalRow>, q: nat, f: AllocationFile) {
    q in ps && ps[q].status == Vetoed && ps[q].action == ApproveAllocationFile(f.kind, f.sha256)
  }

  /** A file is APPROVED iff it names its approval, and REJECTED only by a veto; both were about its present content. */
  ghost predicate Backed(ps: map<nat, ProposalRow>, f: AllocationFile) {
    && (f.status == AllocationApproved <==> f.approvedBy.Some?)
    && (f.approvedBy.Some? ==> ApprovalOf(ps, f.approvedBy.value, f))
    && (f.status == AllocationRejected ==> exists q :: VetoOf(ps, q, f))
  }

  ghost predicate FilesInv(files: seq<AllocationFile>, ps: map<nat, ProposalRow>) {
    forall i :: 0 <= i < |files| ==> Backed(ps, files[i])
  }

  lemma BackedStays(ps: map<nat, ProposalRow>, after: map<nat, ProposalRow>, f: AllocationFile)
    requires Backed(ps, f) && Evolves(ps, after)
    ensures Backed(after, f)
  {
    if f.approvedBy.Some? {
      assert ApprovalOf(ps, f.approvedBy.value, f);
    }
    if f.status == AllocationRejected {
      var q :| VetoOf(ps, q, f);
      assert VetoOf(after, q, f);
    }
  }

  lemma FilesStay(files: seq<AllocationFile>, ps: map<nat, ProposalRow>, after: map<nat, ProposalRow>)
    requires FilesInv(files, ps) && Evolves(ps, after)
    ensures FilesInv(files, after)
  {
    forall i | 0 <= i < |files| ensures Backed(after, files[i]) {
      BackedStays(ps, after, files[i]);
    }
  }

  // ----- The three operations

  lemma UploadBacked(l: LaunchRow, kind: AllocationType, hash: Hash, ps: map<nat, ProposalRow>)
    requires FilesInv(l.allocationFiles, ps) && UploadAllocation(l, kind, hash).Ok?
    ensures FilesInv(UploadAllocation(l, kind, hash).value.allocationFiles, ps)
  {
  }

  lemma ApproveBacked(l: LaunchRow, kind: AllocationType, hash: Hash, id: nat, ps: map<nat, ProposalRow>)
    requires FilesInv(l.allocationFiles, ps) && ApproveAllocation(l, kind, hash, id).Ok?
    requires id in ps && ps[id].status == Executed && ps[id].action == ApproveAllocationFile(kind, hash)
    ensures FilesInv(ApproveAllocation(l, kind, hash, id).value.allocationFiles, ps)
  {
    var i := FileIndex(l.allocationFiles, kind);
    var files := ApproveAllocation(l, kind, hash, id).value.allocationFiles;
    assert ApprovalOf(ps, id, files[i]);
  }

  lemma RejectBacked(l: LaunchRow, kind: AllocationType, hash: Hash, id: nat, ps: map<nat, ProposalRow>)
    requires FilesInv(l.allocationFiles, ps)
    requires id in ps && ps[id].status == Vetoed && ps[id].action == ApproveAllocationFile(kind, hash)
    ensures FilesInv(RejectAllocation(l, kind, hash).allocationFiles, ps)
  {
    if CanRejectAllocation(l, kind, hash) {
      var i := FileIndex(l.allocationFiles, kind);
      assert VetoOf(ps, id, RejectAllocation(l, kind, hash).allocationFiles[i]);
    }
  }

  // ----- Which steps touch the files

  lemma ApplyKeepsFilesSome(cfg: Config, s: State, id: nat, p: ProposalRow, now: Time)
    requires Apply(cfg, s, id, p, now).Ok?
    requires p.action.ApproveValidator? || p.action.RejectValidator? || p.action.RemoveApprovedValidator?
             || p.action.ReplaceCommitteeMember? || Resizes(p.action)
    ensures Apply(cfg, s, id, p, now).value.launch.allocationFiles == s.launch.allocationFiles
  {
  }

  lemma ApplyKeepsFilesRest(cfg: Config, s: State, id: nat, p: ProposalRow, now: Time)
    requires Apply(cfg, s, id, p, now).Ok?
    requires p.action.PublishChainRecord? || p.action.CloseApplicationWindow? || p.action.UpdateGenesisTime?
             || p.action.ReviseGenesis? || p.action.CancelLaunch?
    ensures Apply(cfg, s, id, p, now).value.launch.allocationFiles == s.launch.allocationFiles
  {
  }

  lemma ApplyFiles(cfg: Config, s: State, id: nat, p: ProposalRow, now: Time)
    requires Apply(cfg, s, id, p, now).Ok?
    ensures var t := Apply(cfg, s, id, p, now).value;
            if p.action.ApproveAllocationFile? then
              var r := ApproveAllocation(s.launch, p.action.kind, p.action.hash, id);
              r.Ok? && t.launch.allocationFiles == r.value.allocationFiles
            else t.launch.allocationFiles == s.launch.allocationFiles
  {
    if p.action.PublishFinalGenesis? {
      assert Apply(cfg, s, id, p, now) == ApplyPublishGenesis(cfg, s, id, p);
    } else if p.action.ApproveValidator? || p.action.RejectValidator? || p.action.RemoveApprovedValidator?
              || p.action.ReplaceCommitteeMember? || Resizes(p.action) {
      ApplyKeepsFilesSome(cfg, s, id, p, now);
    } else if p.action.ApproveAllocationFile? {
      assert Apply(cfg, s, id, p, now)
             == WithLaunch(s, id, p, ApproveAllocation(s.launch, p.action.kind, p.action.hash, id));
    } else {
      ApplyKeepsFilesRest(cfg, s, id, p, now);
    }
  }

  lemma CommittedFiles(cfg: Config, s: State, x: Input)
    requires Inv(cfg, s) && Committed(cfg, s, x) && FilesInv(s.launch.allocationFiles, s.proposals)
    ensures FilesInv(Next(cfg, s, x).launch.allocationFiles, Next(cfg, s, x).proposals)
  {
    var e, t := ExecutionOf(cfg, s, x).value, Next(cfg, s, x);
    CommittedEffect(cfg, s, x);
    ExecutionIsSavable(cfg, s, x);
    var base := Logged(e.base, e.id);
    ApplyFiles(cfg, base, e.id, e.row, e.now);
    ApplyEvolves(cfg, base, e.id, e.row, e.now);
    FilesStay(s.launch.allocationFiles, s.proposals, t.proposals);
    if e.row.action.ApproveAllocationFile? {
      ApproveBacked(base.launch, e.row.action.kind, e.row.action.hash, e.id, t.proposals);
    }
  }

  lemma VetoFiles(s: State, id: nat, p: ProposalRow, w: Weather)
    requires Savable(s, id, p) && p.action.ApproveAllocationFile? && p.status == Vetoed
    requires FilesInv(s.launch.allocationFiles, s.proposals)
    ensures var t := VetoAllocation(s, id, p, w); FilesInv(t.launch.allocationFiles, t.proposals)
  {
    var kind, hash, ps := p.action.kind, p.action.hash, s.proposals[id := p];
    SaveEvolves(s, id, p);
    FilesStay(s.launch.allocationFiles, s.proposals, ps);
    RejectBacked(s.launch, kind, hash, id, ps);
    var saved := SaveLaunchAndProposal(s, RejectAllocation(s.launch, kind, hash), id, p);
    DispatchKeepsData(saved, id, [VetoEffect(id, AllocationFileRejected(kind, hash))], w.completion);
  }

  lemma UncommittedFiles(cfg: Config, s: State, x: Input)
    requires Inv(cfg, s) && (x.Raise? || x.Decide?) && !Committed(cfg, s, x)
    requires FilesInv(s.launch.allocationFiles, s.proposals)
    ensures FilesInv(Next(cfg, s, x).launch.allocationFiles, Next(cfg, s, x).proposals)
  {
    var t := Next(cfg, s, x);
    ProposalsStep(cfg, s, x);
    FilesStay(s.launch.allocationFiles, s.proposals, t.proposals);
    if ExecutionOf(cfg, s, x).Some? {
      var e := ExecutionOf(cfg, s, x).value;
      ExecutionIsSavable(cfg, s, x);
      ExecuteShape(cfg, e.base, e.id, e.row, e.weather, e.now);
    } else if s.running && x.Decide? && HasMember(s.launch.committee, x.member) && IsPending(s.proposals, x.proposal) {
      var m := s.launch.committee.thresholdM;
      var r := SignProposal(s.proposals[x.proposal], x.member, x.decision, m, x.now);
      SignOutcome(s.proposals[x.proposal], x.member, x.decision, m, x.now);
      if r.Ok? && r.value.status == Vetoed && r.value.action.ApproveAllocationFile? {
        VetoFiles(s, x.proposal, r.value, x.weather);
      }
    }
  }

  lemma OtherFiles(cfg: Config, s: State, x: Input)
    requires !x.Raise? && !x.Decide? && !x.UploadAllocationFile?
    ensures Next(cfg, s, x).launch.allocationFiles == s.launch.allocationFiles
  {
  }

  lemma FilesStep(cfg: Config, states: seq<State>, xs: seq<Input>, k: nat)
    requires Run(cfg, states, xs) && k < |xs| && FilesInv(states[k].launch.allocationFiles, states[k].proposals)
    ensures FilesInv(states[k + 1].launch.allocationFiles, states[k + 1].proposals)
  {
    Reachable(cfg, states, xs, k);
    assert StepAt(cfg, states, xs, k);
    var s, x, t := states[k], xs[k], states[k + 1];
    if Committed(cfg, s, x) {
      CommittedFiles(cfg, s, x);
    } else if x.Raise? || x.Decide? {
      UncommittedFiles(cfg, s, x);
    } else if x.UploadAllocationFile? {
      if UploadAllocation(s.launch, x.kind, x.hash).Ok? {
        UploadBacked(s.launch, x.kind, x.hash, s.proposals);
      }
    } else {
      OtherFiles(cfg, s, x);
      ProposalsStep(cfg, s, x);
      FilesStay(s.launch.allocationFiles, s.proposals, t.proposals);
    }
  }

  /**
   * In every reachable state a file is APPROVED iff it names an approving proposal, that proposal is an EXECUTED
   * approval of this type and exactly this file's hash, and a REJECTED file has a VETOED one of the same.
   */
  lemma {:induction false} FilesAreBacked(cfg: Config, states: seq<State>, xs: seq<Input>, k: nat)
    requires Run(cfg, states, xs) && k <= |xs|
    ensures FilesInv(states[k].launch.allocationFiles, states[k].proposals)
    decreases k
  {
    if k > 0 {
      FilesAreBacked(cfg, states, xs, k - 1);
      FilesStep(cfg, states, xs, k - 1);
    }
  }

  // ----- The trail of a veto

  /**
   * A veto that takes a file down logs the rejection of exactly this file, once, unless the write is lost; a write
   * that does not go through cleanly stops the process.
   */
  lemma VetoIsLogged(s: State, id: nat, p: ProposalRow, w: Weather)
    requires p.action.ApproveAllocationFile?
    ensures var t := VetoAllocation(s, id, p, w);
            if CanRejectAllocation(s.launch, p.action.kind, p.action.hash) && !w.txFails then
              && t.audit == s.audit + (if w.completion == Lost then []
                                       else [VetoEffect(id, AllocationFileRejected(p.action.kind, p.action.hash))])
              && t.running == (s.running && w.completion == Written)
            else t.audit == s.audit && t.running == s.running
  {
    var r := VetoEffect(id, AllocationFileRejected(p.action.kind, p.action.hash));
    var saved := SaveLaunchAndProposal(s, RejectAllocation(s.launch, p.action.kind, p.action.hash), id, p);
    assert [r][0] == r && [r][1..] == [];
    assert Dispatch(saved, id, [r], Written) == Dispatch(saved.(audit := saved.audit + [r]), id, [], Written);
    assert VetoAllocation(s, id, p, w)
           == if !CanRejectAllocation(s.launch, p.action.kind, p.action.hash) then SaveProposal(s, id, p)
              else if w.txFails then s else Dispatch(saved, id, [r], w.completion);
  }
}
