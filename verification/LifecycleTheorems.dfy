/** Who may change a launch, and what of it ever changes, on every run. */
module LifecycleTheorems {
  import opened Prelude
  import opened Launches
  import opened Proposals
  import opened FinalGenesis
  import opened Coordinator
  import opened Invariants
  import opened Steps
  import opened GenesisStoreTheorems

  // ----- Authority

  /** The input comes from someone entitled to change the launch: a member, the lead where only the lead may, or block one. */
  ghost predicate Entitled(c: Committee, x: Input) {
    match x
    case Raise(member, _, _, _) => HasMember(c, member)
    case Decide(_, member, _, _, _) => HasMember(c, member)
    case UploadInitial(caller, _) => HasMember(c, caller)
    case UploadFinal(caller, _, _, _) => HasMember(c, caller)
    case UploadFinalRef(caller, _, _, _, _) => HasMember(c, caller)
    case UploadAllocationFile(caller, _, _) => HasMember(c, caller)
    case PatchDraft(caller, _) => HasMember(c, caller)
    case PatchServiceKey(caller, _) => HasMember(c, caller)
    case OpenApplications(caller) => HasMember(c, caller)
    case SetCommittee(caller, _) => caller == c.lead
    case CancelDirect(caller) => caller == c.lead
    case BlockOneSeen => true
    case _ => false
  }

  lemma GovernanceEntitled(cfg: Config, s: State, x: Input)
    requires (x.Raise? || x.Decide?) && !HasMember(s.launch.committee, x.member)
    ensures Next(cfg, s, x).launch == s.launch && Next(cfg, s, x).store == s.store
  {
  }

  lemma OtherEntitled(cfg: Config, s: State, x: Input)
    requires !x.Raise? && !x.Decide? && !Entitled(s.launch.committee, x)
    ensures Next(cfg, s, x).launch == s.launch && Next(cfg, s, x).store == s.store
  {
  }

  /** On every run the launch row and the genesis store change only at the hands of someone entitled. */
  lemma ChangesAreEntitled(cfg: Config, states: seq<State>, xs: seq<Input>, k: nat)
    requires Run(cfg, states, xs) && k < |xs|
    requires states[k + 1].launch != states[k].launch || states[k + 1].store != states[k].store
    ensures states[k].running && Entitled(states[k].launch.committee, xs[k])
  {
    assert StepAt(cfg, states, xs, k);
    if !Entitled(states[k].launch.committee, xs[k]) {
      if xs[k].Raise? || xs[k].Decide? {
        GovernanceEntitled(cfg, states[k], xs[k]);
      } else {
        OtherEntitled(cfg, states[k], xs[k]);
      }
    }
  }

  // ----- The chain record

  /** Only the version, digest and source of the binary, the genesis time, the supply and the minimum count may differ. */
  ghost predicate DraftPatch(a: ChainRecord, b: ChainRecord) {
    && a.chainId == b.chainId && a.bech32Prefix == b.bech32Prefix && a.denom == b.denom && a.binaryName == b.binaryName
    && a.minSelfDelegation == b.minSelfDelegation && a.gentxDeadline == b.gentxDeadline
    && a.maxCommissionRate == b.maxCommissionRate && a.maxCommissionChangeRate == b.maxCommissionChangeRate
    && b.minValidatorCount >= 1
  }

  /** The genesis time a step sets: a committed update's, or that of a saved final upload. */
  ghost function TimeSet(cfg: Config, s: State, x: Input): Option<Time> {
    if Committed(cfg, s, x) && ExecutionOf(cfg, s, x).value.row.action.UpdateGenesisTime?
    then Some(ExecutionOf(cfg, s, x).value.row.action.newGenesisTime)
    else if WritesStore(s, x) && x.saved then Some(if x.UploadFinal? then x.file.genesisTime else x.genesisTime)
    else None
  }

  lemma ApplyRecordSome(cfg: Config, s: State, id: nat, p: ProposalRow, now: Time)
    requires Apply(cfg, s, id, p, now).Ok?
    requires p.action.ApproveValidator? || p.action.RejectValidator? || p.action.RemoveApprovedValidator?
             || p.action.ReplaceCommitteeMember? || Resizes(p.action)
    ensures Apply(cfg, s, id, p, now).value.launch.record == s.launch.record
    ensures Apply(cfg, s, id, p, now).value.launch.initialGenesisSha256 == s.launch.initialGenesisSha256
  {
  }

  lemma ApplyRecordRest(cfg: Config, s: State, id: nat, p: ProposalRow, now: Time)
    requires Apply(cfg, s, id, p, now).Ok?
    requires p.action.PublishChainRecord? || p.action.CloseApplicationWindow? || p.action.UpdateGenesisTime?
             || p.action.ApproveAllocationFile? || p.action.ReviseGenesis? || p.action.CancelLaunch?
    ensures Apply(cfg, s, id, p, now).value.launch.record
            == (if p.action.UpdateGenesisTime? then s.launch.record.(genesisTime := Some(p.action.newGenesisTime))
                else s.launch.record)
    ensures Apply(cfg, s, id, p, now).value.launch.initialGenesisSha256 == s.launch.initialGenesisSha256
    ensures p.action.PublishChainRecord? ==>
              p.action.initialGenesisHash == s.launch.initialGenesisSha256 && IsSha256Hex(s.launch.initialGenesisSha256)
  {
  }

  lemma ApplyRecord(cfg: Config, s: State, id: nat, p: ProposalRow, now: Time)
    requires Apply(cfg, s, id, p, now).Ok?
    ensures var t := Apply(cfg, s, id, p, now).value;
            && t.launch.record == (if p.action.UpdateGenesisTime?
                                   then s.launch.record.(genesisTime := Some(p.action.newGenesisTime))
                                   else s.launch.record)
            && t.launch.initialGenesisSha256 == s.launch.initialGenesisSha256
            && (p.action.PublishChainRecord? ==>
                  p.action.initialGenesisHash == s.launch.initialGenesisSha256
                  && IsSha256Hex(s.launch.initialGenesisSha256))
  {
    if p.action.PublishFinalGenesis? {
      assert Apply(cfg, s, id, p, now) == ApplyPublishGenesis(cfg, s, id, p);
    } else if p.action.ApproveValidator? || p.action.RejectValidator? || p.action.RemoveApprovedValidator?
              || p.action.ReplaceCommitteeMember? || Resizes(p.action) {
      ApplyRecordSome(cfg, s, id, p, now);
    } else {
      ApplyRecordRest(cfg, s, id, p, now);
    }
  }

  /** What a step leaves of the record and of the initial genesis hash. */
  ghost predicate RecordMoves(cfg: Config, s: State, x: Input, t: State) {
    && (match TimeSet(cfg, s, x)
        case Some(time) => t.launch.record == s.launch.record.(genesisTime := Some(time))
        case None => t.launch.record == s.launch.record
                     || (x.PatchDraft? && s.launch.status == Draft && t.launch.record == x.record
                         && DraftPatch(s.launch.record, x.record)))
    && (t.launch.initialGenesisSha256 == s.launch.initialGenesisSha256
        || (s.launch.status == Draft && x.UploadInitial? && t.launch.initialGenesisSha256 == x.hash))
  }

  lemma CommittedRecord(cfg: Config, s: State, x: Input, t: State)
    requires Inv(cfg, s) && Committed(cfg, s, x) && t == Next(cfg, s, x)
    ensures RecordMoves(cfg, s, x, t)
    ensures var a := ExecutionOf(cfg, s, x).value.row.action;
            a.PublishChainRecord? ==>
              a.initialGenesisHash == t.launch.initialGenesisSha256 && IsSha256Hex(t.launch.initialGenesisSha256)
  {
    var e := ExecutionOf(cfg, s, x).value;
    CommittedEffect(cfg, s, x);
    ExecutionIsSavable(cfg, s, x);
    ApplyRecord(cfg, Logged(e.base, e.id), e.id, e.row, e.now);
  }

  lemma OtherKeepsRecord(cfg: Config, s: State, x: Input)
    requires !x.Raise? && !x.Decide? && !x.UploadFinal? && !x.UploadFinalRef? && !x.PatchDraft? && !x.UploadInitial?
    ensures Next(cfg, s, x).launch.record == s.launch.record
    ensures Next(cfg, s, x).launch.initialGenesisSha256 == s.launch.initialGenesisSha256
  {
  }

  lemma OtherRecord(cfg: Config, s: State, x: Input)
    requires !x.Raise? && !x.Decide? && !x.UploadFinal? && !x.UploadFinalRef?
    ensures RecordMoves(cfg, s, x, Next(cfg, s, x))
  {
    if !x.PatchDraft? && !x.UploadInitial? {
      OtherKeepsRecord(cfg, s, x);
    }
  }

  lemma UploadRecord(cfg: Config, s: State, x: Input)
    requires x.UploadFinal? || x.UploadFinalRef?
    ensures RecordMoves(cfg, s, x, Next(cfg, s, x))
  {
  }

  lemma RecordStepMoves(cfg: Config, s: State, x: Input, t: State)
    requires Inv(cfg, s) && t == Next(cfg, s, x)
    ensures RecordMoves(cfg, s, x, t)
  {
    if Committed(cfg, s, x) {
      CommittedRecord(cfg, s, x, t);
    } else if x.Raise? || x.Decide? {
      UncommittedEffect(cfg, s, x);
    } else if x.UploadFinal? || x.UploadFinalRef? {
      UploadRecord(cfg, s, x);
    } else {
      OtherRecord(cfg, s, x);
    }
  }

  /**
   * On every run a step leaves the chain record as it is, but for a member's patch of the patchable fields in DRAFT and
   * for the genesis time, which takes the value of a committed update or of a saved final upload; the initial genesis
   * hash is only ever set by an upload in DRAFT.
   */
  lemma RecordChanges(cfg: Config, states: seq<State>, xs: seq<Input>, k: nat)
    requires Run(cfg, states, xs) && k < |xs|
    ensures RecordMoves(cfg, states[k], xs[k], states[k + 1])
  {
    Reachable(cfg, states, xs, k);
    assert StepAt(cfg, states, xs, k);
    RecordStepMoves(cfg, states[k], xs[k], states[k + 1]);
  }

  lemma DraftIsLeftForGood(cfg: Config, states: seq<State>, xs: seq<Input>, k: nat)
    requires Run(cfg, states, xs) && k < |xs| && states[k].launch.status != Draft
    ensures states[k + 1].launch.status != Draft
  {
    Reachable(cfg, states, xs, k);
    assert StepAt(cfg, states, xs, k);
    if states[k + 1].launch.status != states[k].launch.status {
      StatusChange(cfg, states[k], xs[k]);
    }
  }

  /** From the moment a launch leaves DRAFT, its record is fixed but for the genesis time, and so is its initial hash. */
  lemma {:induction false} RecordFixedAfterDraft(cfg: Config, states: seq<State>, xs: seq<Input>, i: nat, j: nat)
    requires Run(cfg, states, xs) && i <= j <= |xs| && states[i].launch.status != Draft
    ensures states[j].launch.status != Draft
    ensures states[j].launch.record.(genesisTime := None) == states[i].launch.record.(genesisTime := None)
    ensures states[j].launch.initialGenesisSha256 == states[i].launch.initialGenesisSha256
    decreases j - i
  {
    if i < j {
      RecordFixedAfterDraft(cfg, states, xs, i, j - 1);
      DraftIsLeftForGood(cfg, states, xs, j - 1);
      RecordChanges(cfg, states, xs, j - 1);
    }
  }

  lemma InitialStep(cfg: Config, states: seq<State>, xs: seq<Input>, k: nat)
    requires Run(cfg, states, xs) && k < |xs|
    requires states[k].launch.status != Draft && states[k].launch.status != Canceled ==>
               IsSha256Hex(states[k].launch.initialGenesisSha256)
    ensures states[k + 1].launch.status != Draft && states[k + 1].launch.status != Canceled ==>
              IsSha256Hex(states[k + 1].launch.initialGenesisSha256)
  {
    RecordChanges(cfg, states, xs, k);
    Reachable(cfg, states, xs, k);
    assert StepAt(cfg, states, xs, k);
    var s, x, t := states[k], xs[k], states[k + 1];
    if t.launch.status != s.launch.status {
      StatusChangeIff(cfg, s, x, t);
      if Committed(cfg, s, x) {
        CommittedRecord(cfg, s, x, t);
      }
    }
  }

  /** A launch past DRAFT, unless canceled, has a well-formed initial genesis hash. */
  lemma {:induction false} PublishedHasInitial(cfg: Config, states: seq<State>, xs: seq<Input>, k: nat)
    requires Run(cfg, states, xs) && k <= |xs|
    ensures states[k].launch.status != Draft && states[k].launch.status != Canceled ==>
              IsSha256Hex(states[k].launch.initialGenesisSha256)
    decreases k
  {
    if k > 0 {
      PublishedHasInitial(cfg, states, xs, k - 1);
      InitialStep(cfg, states, xs, k - 1);
    }
  }

  // ----- The committee

  /** What each committee action leaves: the membership by exactly the accounts named, and the threshold. */
  ghost predicate CommitteeMoves(a: Action, c: Committee, d: Committee) {
    match a
    case ReplaceCommitteeMember(o, m) =>
      && HasMember(c, o) && HasMember(d, m.address)
      && (forall b :: b != o && b != m.address ==> (HasMember(d, b) <==> HasMember(c, b)))
      && (DistinctMembers(c) && o != m.address ==> !HasMember(d, o))
      && d.thresholdM == c.thresholdM && d.totalN == c.totalN
    case ExpandCommittee(m, override) =>
      && !HasMember(c, m.address)
      && (forall b :: HasMember(d, b) <==> HasMember(c, b) || b == m.address)
      && d.thresholdM == (if override.Some? then override.value else c.thresholdM)
    case ShrinkCommittee(gone, override) =>
      && HasMember(c, gone)
      && (forall b :: b != gone ==> (HasMember(d, b) <==> HasMember(c, b)))
      && (DistinctMembers(c) ==> !HasMember(d, gone))
      && (override.Some? ==> d.thresholdM == override.value)
      && (override.None? ==> d.thresholdM == c.thresholdM
                             || (d.thresholdM == d.totalN - 1 && d.thresholdM < c.thresholdM))
    case _ => d == c
  }

  lemma ReplaceMembers(c: Committee, prior: Account, newcomer: Member)
    requires WellFormed(c) && Replace(c, prior, newcomer).Ok?
    ensures CommitteeMoves(ReplaceCommitteeMember(prior, newcomer), c, Replace(c, prior, newcomer).value)
  {
    var d := Replace(c, prior, newcomer).value;
    var i := MemberIndex(c.members, prior);
    assert d.members[i].address == newcomer.address;
    forall b | b != prior && b != newcomer.address ensures HasMember(d, b) <==> HasMember(c, b) {
      var j, k := MemberIndex(c.members, b), MemberIndex(d.members, b);
      if j < |c.members| {
        assert d.members[j] == c.members[j];
      }
      if k < |d.members| {
        assert d.members[k] == c.members[k];
      }
    }
  }

  lemma ApplyCommittee(cfg: Config, s: State, id: nat, p: ProposalRow, now: Time)
    requires Apply(cfg, s, id, p, now).Ok? && WellFormed(s.launch.committee)
    requires p.action.ReplaceCommitteeMember? || Resizes(p.action)
    ensures CommitteeMoves(p.action, s.launch.committee, Apply(cfg, s, id, p, now).value.launch.committee)
  {
    var c := s.launch.committee;
    match p.action {
      case ReplaceCommitteeMember(o, m) => ReplaceMembers(c, o, m);
      case ExpandCommittee(m, override) => ExpandResult(c, m, override);
      case ShrinkCommittee(gone, override) => ShrinkResult(c, gone, override);
      case _ =>
    }
  }

  lemma ApplyKeepsCommitteeSome(cfg: Config, s: State, id: nat, p: ProposalRow, now: Time)
    requires Apply(cfg, s, id, p, now).Ok?
    requires p.action.ApproveValidator? || p.action.RejectValidator? || p.action.RemoveApprovedValidator?
             || p.action.PublishChainRecord?
    ensures Apply(cfg, s, id, p, now).value.launch.committee == s.launch.committee
  {
  }

  lemma ApplyKeepsCommitteeRest(cfg: Config, s: State, id: nat, p: ProposalRow, now: Time)
    requires Apply(cfg, s, id, p, now).Ok?
    requires p.action.CloseApplicationWindow? || p.action.UpdateGenesisTime? || p.action.ApproveAllocationFile?
             || p.action.ReviseGenesis? || p.action.CancelLaunch?
    ensures Apply(cfg, s, id, p, now).value.launch.committee == s.launch.committee
  {
  }

  lemma ApplyMovesCommittee(cfg: Config, s: State, id: nat, p: ProposalRow, now: Time)
    requires Apply(cfg, s, id, p, now).Ok? && WellFormed(s.launch.committee)
    ensures CommitteeMoves(p.action, s.launch.committee, Apply(cfg, s, id, p, now).value.launch.committee)
  {
    var a := p.action;
    if a.ReplaceCommitteeMember? || Resizes(a) {
      ApplyCommittee(cfg, s, id, p, now);
    } else if a.PublishFinalGenesis? {
      assert Apply(cfg, s, id, p, now) == ApplyPublishGenesis(cfg, s, id, p);
    } else if a.ApproveValidator? || a.RejectValidator? || a.RemoveApprovedValidator? || a.PublishChainRecord? {
      ApplyKeepsCommitteeSome(cfg, s, id, p, now);
    } else {
      ApplyKeepsCommitteeRest(cfg, s, id, p, now);
    }
  }

  lemma CommittedCommittee(cfg: Config, s: State, x: Input)
    requires Inv(cfg, s) && Committed(cfg, s, x)
    ensures CommitteeMoves(ExecutionOf(cfg, s, x).value.row.action, s.launch.committee, Next(cfg, s, x).launch.committee)
  {
    var e := ExecutionOf(cfg, s, x).value;
    CommittedEffect(cfg, s, x);
    ExecutionIsSavable(cfg, s, x);
    ApplyMovesCommittee(cfg, Logged(e.base, e.id), e.id, e.row, e.now);
  }

  lemma OtherCommittee(cfg: Config, s: State, x: Input)
    requires !x.Raise? && !x.Decide?
    ensures var c, d := s.launch.committee, Next(cfg, s, x).launch.committee;
            d == c || (s.launch.status == Draft && x.SetCommittee? && x.caller == c.lead && d == x.committee)
  {
  }

  /**
   * On every run the committee changes only by a committed replacement, expansion or shrinking, each by exactly the
   * accounts it names and with its threshold, or by the lead in DRAFT.
   */
  lemma CommitteeChanges(cfg: Config, states: seq<State>, xs: seq<Input>, k: nat)
    requires Run(cfg, states, xs) && k < |xs|
    ensures var c, d := states[k].launch.committee, states[k + 1].launch.committee;
            if Committed(cfg, states[k], xs[k])
            then CommitteeMoves(ExecutionOf(cfg, states[k], xs[k]).value.row.action, c, d)
            else d == c || (states[k].launch.status == Draft && xs[k].SetCommittee? && xs[k].caller == c.lead
                            && d == xs[k].committee)
  {
    Reachable(cfg, states, xs, k);
    assert StepAt(cfg, states, xs, k);
    if Committed(cfg, states[k], xs[k]) {
      CommittedCommittee(cfg, states[k], xs[k]);
    } else if xs[k].Raise? || xs[k].Decide? {
      UncommittedEffect(cfg, states[k], xs[k]);
    } else {
      OtherCommittee(cfg, states[k], xs[k]);
    }
  }
}
