/** Which step does what: the executions behind the lifecycle, and the frame of everything else. */
module Steps {
  import opened Prelude
  import opened Launches
  import opened Proposals
  import opened JoinRequests
  import opened InputSets
  import opened Rehearsals
  import opened Coordinator
  import opened Invariants

  /** An execution attempt: the state it starts from and the row that reached quorum. */
  datatype Execution = Execution(base: State, id: nat, row: ProposalRow, weather: Weather, now: Time)

  /** The execution attempted by this step, if any. */
  ghost function ExecutionOf(cfg: Config, s: State, x: Input): Option<Execution> {
    if !s.running then None
    else if x.Raise? && RaiseAllowed(cfg, s, x.member, x.action) then
      var p := CheckQuorum(NewProposal(x.action, x.member, x.now), s.launch.committee.thresholdM, x.now);
      if p.status == Executed
      then Some(Execution(s.(nextProposal := s.nextProposal + 1), s.nextProposal, p, x.weather, x.now)) else None
    else if x.Decide? && HasMember(s.launch.committee, x.member) && IsPending(s.proposals, x.proposal) then
      match SignProposal(s.proposals[x.proposal], x.member, x.decision, s.launch.committee.thresholdM, x.now)
      case Ok(p) => if p.status == Executed then Some(Execution(s, x.proposal, p, x.weather, x.now)) else None
      case Err(_) => None
    else None
  }

  ghost predicate Committed(cfg: Config, s: State, x: Input) {
    var e := ExecutionOf(cfg, s, x);
    e.Some? && Commits(cfg, e.value.base, e.value.id, e.value.row, e.value.weather, e.value.now)
  }

  ghost function Effect(cfg: Config, s: State, x: Input): State
    requires Committed(cfg, s, x)
  {
    var e := ExecutionOf(cfg, s, x).value;
    Apply(cfg, Logged(e.base, e.id), e.id, e.row, e.now).value
  }

  lemma ExecutionIsSavable(cfg: Config, s: State, x: Input)
    requires Inv(cfg, s) && ExecutionOf(cfg, s, x).Some?
    ensures var e := ExecutionOf(cfg, s, x).value;
            && Inv(cfg, e.base) && Savable(e.base, e.id, e.row) && e.row.status == Executed
            && SameData(e.base, s.(nextProposal := e.base.nextProposal))
            && Next(cfg, s, x) == Execute(cfg, e.base, e.id, e.row, e.weather, e.now)
  {
    if x.Raise? {
      NewIsSound(x.action, x.member, s.launch.committee.thresholdM, x.now);
    } else {
      SignOutcome(s.proposals[x.proposal], x.member, x.decision, s.launch.committee.thresholdM, x.now);
    }
  }

  /** A committed execution has exactly its action's effect on the tables. */
  lemma CommittedEffect(cfg: Config, s: State, x: Input)
    requires Inv(cfg, s) && Committed(cfg, s, x)
    ensures SameData(Effect(cfg, s, x), Next(cfg, s, x))
  {
    var e := ExecutionOf(cfg, s, x).value;
    ExecutionIsSavable(cfg, s, x);
    ExecuteShape(cfg, e.base, e.id, e.row, e.weather, e.now);
  }

  lemma CommittedFrame(cfg: Config, s: State, x: Input)
    requires Inv(cfg, s) && Committed(cfg, s, x)
    ensures var t, a := Next(cfg, s, x), ExecutionOf(cfg, s, x).value.row.action;
            && (t.launch.status == s.launch.status || MovesTo(a, s.launch.status, t.launch.status))
            && (t.requests == s.requests || TouchesRequests(a))
            && t.attempts == s.attempts && t.results == s.results && t.store == s.store
  {
    var e := ExecutionOf(cfg, s, x).value;
    CommittedEffect(cfg, s, x);
    ExecutionIsSavable(cfg, s, x);
    ApplyFrame(cfg, Logged(e.base, e.id), e.id, e.row, e.now);
  }

  /** Raising or deciding without a committed execution touches the proposals and at most one allocation file. */
  lemma UncommittedEffect(cfg: Config, s: State, x: Input)
    requires Inv(cfg, s) && (x.Raise? || x.Decide?) && !Committed(cfg, s, x)
    ensures var t := Next(cfg, s, x);
            && t.requests == s.requests && t.readiness == s.readiness && t.attempts == s.attempts
            && t.results == s.results && t.store == s.store
            && t.launch == s.launch.(allocationFiles := t.launch.allocationFiles)
  {
    var e := ExecutionOf(cfg, s, x);
    if e.Some? {
      ExecutionIsSavable(cfg, s, x);
      ExecuteShape(cfg, e.value.base, e.value.id, e.value.row, e.value.weather, e.value.now);
    } else if s.running && x.Decide? && HasMember(s.launch.committee, x.member) && IsPending(s.proposals, x.proposal) {
      var r := SignProposal(s.proposals[x.proposal], x.member, x.decision, s.launch.committee.thresholdM, x.now);
      if r.Ok? && r.value.status == Vetoed && r.value.action.ApproveAllocationFile? {
        var p := r.value;
        var saved := SaveLaunchAndProposal(s, RejectAllocation(s.launch, p.action.kind, p.action.hash), x.proposal, p);
        DispatchKeepsData(saved, x.proposal,
                          [VetoEffect(x.proposal, AllocationFileRejected(p.action.kind, p.action.hash))],
                          x.weather.completion);
      }
    }
  }

  // ----- One action

  /** The one action that moves a launch between two statuses, when it is an action that does. */
  ghost predicate MovesTo(a: Action, before: Status, after: Status) {
    || (a.PublishChainRecord? && before == Draft && after == Published)
    || (a.CloseApplicationWindow? && before == WindowOpen && after == WindowClosed)
    || (a.PublishFinalGenesis? && before == WindowClosed && after == GenesisReady)
    || (a.ReviseGenesis? && before == GenesisReady && after == WindowClosed)
    || (a.CancelLaunch? && before != Launched && before != Canceled && after == Canceled)
  }

  ghost predicate Resizes(a: Action) {
    a.ExpandCommittee? || a.ShrinkCommittee?
  }

  /** The tables an action may touch. */
  ghost predicate Framed(s: State, id: nat, p: ProposalRow, t: State) {
    && (t.launch.status == s.launch.status || MovesTo(p.action, s.launch.status, t.launch.status))
    && (t.requests == s.requests || TouchesRequests(p.action))
    && t.proposals == (if Resizes(p.action) then ExpireAllPending(s.proposals) else s.proposals)[id := p]
    && t.nextProposal == s.nextProposal && t.attempts == s.attempts && t.results == s.results
    && t.store == s.store
  }

  lemma ApplyFrameSome(cfg: Config, s: State, id: nat, p: ProposalRow, now: Time)
    requires Apply(cfg, s, id, p, now).Ok?
    requires p.action.ApproveValidator? || p.action.RejectValidator? || p.action.RemoveApprovedValidator?
             || p.action.ReplaceCommitteeMember? || Resizes(p.action)
    ensures Framed(s, id, p, Apply(cfg, s, id, p, now).value)
  {
  }

  lemma ApplyFrameRest(cfg: Config, s: State, id: nat, p: ProposalRow, now: Time)
    requires Apply(cfg, s, id, p, now).Ok?
    requires p.action.PublishChainRecord? || p.action.CloseApplicationWindow? || p.action.UpdateGenesisTime?
             || p.action.ApproveAllocationFile? || p.action.ReviseGenesis? || p.action.CancelLaunch?
    ensures Framed(s, id, p, Apply(cfg, s, id, p, now).value)
  {
  }

  lemma ApplyFrame(cfg: Config, s: State, id: nat, p: ProposalRow, now: Time)
    requires Apply(cfg, s, id, p, now).Ok?
    ensures Framed(s, id, p, Apply(cfg, s, id, p, now).value)
  {
    if p.action.PublishFinalGenesis? {
      assert Apply(cfg, s, id, p, now) == ApplyPublishGenesis(cfg, s, id, p);
    } else if p.action.ApproveValidator? || p.action.RejectValidator? || p.action.RemoveApprovedValidator?
              || p.action.ReplaceCommitteeMember? || Resizes(p.action) {
      ApplyFrameSome(cfg, s, id, p, now);
    } else {
      ApplyFrameRest(cfg, s, id, p, now);
    }
  }

  // ----- The lifecycle

  /**
   * Every status change is a committed proposal of the matching action, or one of three direct calls:
   * opening the window, the lead's cancel before it opens, and the sight of block one.
   */
  lemma StatusChange(cfg: Config, s: State, x: Input)
    requires Inv(cfg, s) && Next(cfg, s, x).launch.status != s.launch.status
    ensures var t := Next(cfg, s, x);
            || (Committed(cfg, s, x) &&
                MovesTo(ExecutionOf(cfg, s, x).value.row.action, s.launch.status, t.launch.status))
            || (x.OpenApplications? && t.launch.status == WindowOpen
                && (s.launch.status == Draft || s.launch.status == Published))
            || (x.CancelDirect? && t.launch.status == Canceled
                && (s.launch.status == Draft || s.launch.status == Published))
            || (x.BlockOneSeen? && s.launch.status == GenesisReady && t.launch.status == Launched)
  {
    if Committed(cfg, s, x) {
      CommittedFrame(cfg, s, x);
    } else if x.Raise? || x.Decide? {
      UncommittedEffect(cfg, s, x);
    }
  }

  /** The actions that move the launch along its lifecycle. */
  ghost predicate MovesStatus(a: Action) {
    a.PublishChainRecord? || a.CloseApplicationWindow? || a.PublishFinalGenesis? || a.ReviseGenesis? || a.CancelLaunch?
  }

  lemma ApplyMoves(cfg: Config, s: State, id: nat, p: ProposalRow, now: Time)
    requires Apply(cfg, s, id, p, now).Ok?
    ensures Apply(cfg, s, id, p, now).value.launch.status != s.launch.status <==> MovesStatus(p.action)
  {
    ApplyFrame(cfg, s, id, p, now);
    if p.action.PublishFinalGenesis? {
      assert Apply(cfg, s, id, p, now) == ApplyPublishGenesis(cfg, s, id, p);
    } else if MovesStatus(p.action) {
      ApplyMovesOther(cfg, s, id, p, now);
    }
  }

  lemma ApplyMovesOther(cfg: Config, s: State, id: nat, p: ProposalRow, now: Time)
    requires Apply(cfg, s, id, p, now).Ok? && MovesStatus(p.action) && !p.action.PublishFinalGenesis?
    ensures Apply(cfg, s, id, p, now).value.launch.status != s.launch.status
  {
  }

  /** One member's call opens the window: from PUBLISHED, or from DRAFT once an initial genesis is there. */
  ghost predicate OpensDirectly(s: State, x: Input) {
    && s.running && x.OpenApplications? && HasMember(s.launch.committee, x.caller)
    && (s.launch.status == Published || (s.launch.status == Draft && IsSha256Hex(s.launch.initialGenesisSha256)))
  }

  /** The lead's call cancels before the window opens. */
  ghost predicate CancelsDirectly(s: State, x: Input) {
    && s.running && x.CancelDirect? && x.caller == s.launch.committee.lead
    && (s.launch.status == Draft || s.launch.status == Published)
  }

  ghost predicate SeesBlockOne(s: State, x: Input) {
    s.running && x.BlockOneSeen? && s.launch.status == GenesisReady
  }

  lemma OtherMoves(cfg: Config, s: State, x: Input)
    requires !x.Raise? && !x.Decide?
    ensures Next(cfg, s, x).launch.status != s.launch.status
            <==> OpensDirectly(s, x) || CancelsDirectly(s, x) || SeesBlockOne(s, x)
    ensures OpensDirectly(s, x) ==> Next(cfg, s, x).launch.status == WindowOpen
    ensures CancelsDirectly(s, x) ==> Next(cfg, s, x).launch.status == Canceled
    ensures SeesBlockOne(s, x) ==> Next(cfg, s, x).launch.status == Launched
  {
  }

  lemma CommittedMoves(cfg: Config, s: State, x: Input)
    requires Inv(cfg, s) && Committed(cfg, s, x)
    ensures var a, t := ExecutionOf(cfg, s, x).value.row.action, Next(cfg, s, x);
            && (t.launch.status != s.launch.status <==> MovesStatus(a))
            && (MovesStatus(a) ==> MovesTo(a, s.launch.status, t.launch.status))
  {
    var e := ExecutionOf(cfg, s, x).value;
    CommittedEffect(cfg, s, x);
    CommittedFrame(cfg, s, x);
    ExecutionIsSavable(cfg, s, x);
    ApplyMoves(cfg, Logged(e.base, e.id), e.id, e.row, e.now);
  }

  /**
   * The status changes iff a lifecycle proposal commits or one of the three direct calls meets its own guard, and
   * each moves it to its own next status.
   */
  lemma StatusChangeIff(cfg: Config, s: State, x: Input, t: State)
    requires Inv(cfg, s) && t == Next(cfg, s, x)
    ensures t.launch.status != s.launch.status
            <==> || (Committed(cfg, s, x) && MovesStatus(ExecutionOf(cfg, s, x).value.row.action))
                 || OpensDirectly(s, x) || CancelsDirectly(s, x) || SeesBlockOne(s, x)
    ensures OpensDirectly(s, x) ==> t.launch.status == WindowOpen
    ensures CancelsDirectly(s, x) ==> t.launch.status == Canceled
    ensures SeesBlockOne(s, x) ==> t.launch.status == Launched
    ensures Committed(cfg, s, x) && MovesStatus(ExecutionOf(cfg, s, x).value.row.action) ==>
              MovesTo(ExecutionOf(cfg, s, x).value.row.action, s.launch.status, t.launch.status)
  {
    if Committed(cfg, s, x) {
      CommittedMoves(cfg, s, x);
    } else if x.Raise? || x.Decide? {
      UncommittedEffect(cfg, s, x);
    } else {
      OtherMoves(cfg, s, x);
    }
  }

  // ----- Join requests

  /** The committed action decides on a validator or closes the window. */
  ghost predicate TouchesRequests(a: Action) {
    a.ApproveValidator? || a.RejectValidator? || a.RemoveApprovedValidator? || a.CloseApplicationWindow?
  }

  /** Outside an open window, requests change only by a committed decision. */
  lemma RequestsFrame(cfg: Config, s: State, x: Input)
    requires Inv(cfg, s) && Next(cfg, s, x).requests != s.requests
    ensures || (Committed(cfg, s, x) && TouchesRequests(ExecutionOf(cfg, s, x).value.row.action))
            || (x.Submit? && s.launch.status == WindowOpen)
  {
    if Committed(cfg, s, x) {
      CommittedFrame(cfg, s, x);
    } else if x.Raise? || x.Decide? {
      UncommittedEffect(cfg, s, x);
    }
  }

  // ----- Proposals

  lemma SaveEvolves(s: State, id: nat, p: ProposalRow)
    requires Savable(s, id, p)
    ensures Evolves(s.proposals, s.proposals[id := p])
  {
  }

  lemma ApplyEvolves(cfg: Config, s: State, id: nat, p: ProposalRow, now: Time)
    requires Savable(s, id, p) && ProposalsInv(s.proposals, s.nextProposal) && p.status == Executed
    requires Apply(cfg, s, id, p, now).Ok?
    ensures var t := Apply(cfg, s, id, p, now).value;
            && Evolves(s.proposals, t.proposals) && t.nextProposal == s.nextProposal
            && id in t.proposals && t.proposals[id] == p
            && (forall q :: q in t.proposals && q != id ==>
                  q in s.proposals && t.proposals[q].signatures == s.proposals[q].signatures
                  && (t.proposals[q].status == Executed ==> s.proposals[q].status == Executed))
  {
    SaveEvolves(s, id, p);
    ResizeSaves(s, id, p);
    ApplyFrame(cfg, s, id, p, now);
  }

  lemma ExecutionEvolves(cfg: Config, s: State, x: Input)
    requires Inv(cfg, s) && ExecutionOf(cfg, s, x).Some?
    ensures Evolves(s.proposals, Next(cfg, s, x).proposals)
  {
    var e := ExecutionOf(cfg, s, x).value;
    ExecutionIsSavable(cfg, s, x);
    ExecuteShape(cfg, e.base, e.id, e.row, e.weather, e.now);
    if Committed(cfg, s, x) {
      CommittedEffect(cfg, s, x);
      ApplyEvolves(cfg, Logged(e.base, e.id), e.id, e.row, e.now);
    }
  }

  lemma RaisedEvolves(cfg: Config, s: State, x: Input)
    requires Inv(cfg, s) && x.Raise? && ExecutionOf(cfg, s, x).None?
    ensures Evolves(s.proposals, Next(cfg, s, x).proposals)
  {
  }

  lemma OtherKeepsProposals(cfg: Config, s: State, x: Input)
    requires !x.Raise? && !x.Decide? && !x.ExpireStale?
    ensures Next(cfg, s, x).proposals == s.proposals
  {
  }

  lemma OtherEvolves(cfg: Config, s: State, x: Input)
    requires Inv(cfg, s) && !x.Raise? && !x.Decide?
    ensures Evolves(s.proposals, Next(cfg, s, x).proposals)
  {
    if x.ExpireStale? {
      ExpireStaleKeeps(s.proposals, s.nextProposal, x.now);
    } else {
      OtherKeepsProposals(cfg, s, x);
    }
  }

  /** A step never changes a decided proposal, nor what was signed on an open one. */
  lemma ProposalsStep(cfg: Config, s: State, x: Input)
    requires Inv(cfg, s)
    ensures Evolves(s.proposals, Next(cfg, s, x).proposals)
  {
    if ExecutionOf(cfg, s, x).Some? {
      ExecutionEvolves(cfg, s, x);
    } else if s.running && x.Decide? && HasMember(s.launch.committee, x.member) && IsPending(s.proposals, x.proposal) {
      DecideEvolves(cfg, s, x);
    } else if x.Raise? {
      RaisedEvolves(cfg, s, x);
    } else if !x.Decide? {
      OtherEvolves(cfg, s, x);
    }
  }

  lemma DecideEvolves(cfg: Config, s: State, x: Input)
    requires Inv(cfg, s) && s.running && x.Decide? && ExecutionOf(cfg, s, x).None?
    requires HasMember(s.launch.committee, x.member) && IsPending(s.proposals, x.proposal)
    ensures var r := SignProposal(s.proposals[x.proposal], x.member, x.decision, s.launch.committee.thresholdM, x.now);
            var t := Next(cfg, s, x);
            && (t.proposals == s.proposals || (r.Ok? && t.proposals == s.proposals[x.proposal := r.value]))
            && Evolves(s.proposals, t.proposals)
  {
    var m := s.launch.committee.thresholdM;
    SignOutcome(s.proposals[x.proposal], x.member, x.decision, m, x.now);
    var r := SignProposal(s.proposals[x.proposal], x.member, x.decision, m, x.now);
    if r.Ok? {
      SaveEvolves(s, x.proposal, r.value);
      if r.value.status == Vetoed && r.value.action.ApproveAllocationFile? {
        var p := r.value;
        var saved := SaveLaunchAndProposal(s, RejectAllocation(s.launch, p.action.kind, p.action.hash), x.proposal, p);
        DispatchKeepsData(saved, x.proposal,
                          [VetoEffect(x.proposal, AllocationFileRejected(p.action.kind, p.action.hash))],
                          x.weather.completion);
      }
    }
  }
}
