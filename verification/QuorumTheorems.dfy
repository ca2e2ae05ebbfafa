/** M-of-N: what every executed proposal went through, on every run. */
module QuorumTheorems {
  import opened Prelude
  import opened Launches
  import opened Proposals
  import opened Rehearsals
  import opened Coordinator
  import opened Invariants
  import opened Steps

  ghost predicate IsExecuted(s: State, id: nat) {
    id in s.proposals && s.proposals[id].status == Executed
  }

  ghost predicate HasEntry(s: State, id: nat, e: SignatureEntry) {
    id in s.proposals && e in s.proposals[id].signatures
  }

  /** What one step can do to a proposal: execute it on quorum, and add entries of current members only. */
  ghost predicate QuorumStep(s: State, t: State) {
    forall id :: id in t.proposals ==>
      && (IsExecuted(t, id) && !IsExecuted(s, id) ==>
            |Signers(t.proposals[id].signatures)| >= s.launch.committee.thresholdM)
      && (forall e :: HasEntry(t, id, e) && !HasEntry(s, id, e) ==> HasMember(s.launch.committee, e.member))
  }

  lemma ExecutedRow(cfg: Config, s: State, x: Input)
    requires Inv(cfg, s) && ExecutionOf(cfg, s, x).Some?
    ensures var e := ExecutionOf(cfg, s, x).value;
            && |Signers(e.row.signatures)| >= s.launch.committee.thresholdM
            && (forall v :: v in e.row.signatures ==> HasEntry(s, e.id, v) || HasMember(s.launch.committee, v.member))
  {
    var m := s.launch.committee.thresholdM;
    if x.Raise? {
      RaiseOutcome(x.action, x.member, m, x.now);
    } else {
      SignOutcome(s.proposals[x.proposal], x.member, x.decision, m, x.now);
    }
  }

  lemma CommittedQuorum(cfg: Config, s: State, x: Input)
    requires Inv(cfg, s) && Committed(cfg, s, x)
    ensures QuorumStep(s, Next(cfg, s, x))
  {
    var e := ExecutionOf(cfg, s, x).value;
    CommittedEffect(cfg, s, x);
    ExecutionIsSavable(cfg, s, x);
    ExecutedRow(cfg, s, x);
    ApplyEvolves(cfg, Logged(e.base, e.id), e.id, e.row, e.now);
  }

  lemma OtherProposals(cfg: Config, s: State, x: Input)
    requires !x.Raise? && !x.Decide?
    ensures Next(cfg, s, x).proposals == s.proposals
            || (x.ExpireStale? && Next(cfg, s, x).proposals == ExpireAllStale(s.proposals, x.now))
  {
  }

  lemma RolledBackQuorum(cfg: Config, s: State, x: Input)
    requires Inv(cfg, s) && !Committed(cfg, s, x) && ExecutionOf(cfg, s, x).Some?
    ensures Next(cfg, s, x).proposals == s.proposals
  {
    var e := ExecutionOf(cfg, s, x).value;
    ExecutionIsSavable(cfg, s, x);
    ExecuteShape(cfg, e.base, e.id, e.row, e.weather, e.now);
  }

  lemma RaisedQuorum(cfg: Config, s: State, x: Input)
    requires Inv(cfg, s) && x.Raise? && ExecutionOf(cfg, s, x).None?
    ensures QuorumStep(s, Next(cfg, s, x))
  {
    if s.running && RaiseAllowed(cfg, s, x.member, x.action) {
      var p := CheckQuorum(NewProposal(x.action, x.member, x.now), s.launch.committee.thresholdM, x.now);
      assert Next(cfg, s, x).proposals == s.proposals[s.nextProposal := p];
    }
  }

  /** One more decision of a current member, executing on quorum only. */
  lemma SavedQuorum(s: State, t: State, id: nat, row: ProposalRow, e: SignatureEntry)
    requires IsPending(s.proposals, id) && t.proposals == s.proposals[id := row]
    requires row.signatures == s.proposals[id].signatures + [e] && HasMember(s.launch.committee, e.member)
    requires row.status == Executed ==> |Signers(row.signatures)| >= s.launch.committee.thresholdM
    ensures QuorumStep(s, t)
  {
  }

  lemma DecidedQuorum(cfg: Config, s: State, x: Input)
    requires Inv(cfg, s) && x.Decide? && ExecutionOf(cfg, s, x).None?
    ensures QuorumStep(s, Next(cfg, s, x))
  {
    if s.running && HasMember(s.launch.committee, x.member) && IsPending(s.proposals, x.proposal) {
      var t := Next(cfg, s, x);
      DecideEvolves(cfg, s, x);
      SignOutcome(s.proposals[x.proposal], x.member, x.decision, s.launch.committee.thresholdM, x.now);
      if t.proposals != s.proposals {
        SavedQuorum(s, t, x.proposal, t.proposals[x.proposal], SignatureEntry(x.member, x.decision, x.now));
      }
    }
  }

  lemma ExpiredQuorum(s: State, t: State, now: Time)
    requires t.proposals == s.proposals || t.proposals == ExpireAllStale(s.proposals, now)
    ensures QuorumStep(s, t)
  {
  }

  lemma OtherQuorum(cfg: Config, s: State, x: Input)
    requires !x.Raise? && !x.Decide?
    ensures QuorumStep(s, Next(cfg, s, x))
  {
    OtherProposals(cfg, s, x);
    ExpiredQuorum(s, Next(cfg, s, x), if x.ExpireStale? then x.now else 0);
  }

  lemma StepQuorum(cfg: Config, s: State, x: Input)
    requires Inv(cfg, s)
    ensures QuorumStep(s, Next(cfg, s, x))
  {
    if Committed(cfg, s, x) {
      CommittedQuorum(cfg, s, x);
    } else if ExecutionOf(cfg, s, x).Some? {
      RolledBackQuorum(cfg, s, x);
    } else if x.Raise? {
      RaisedQuorum(cfg, s, x);
    } else if x.Decide? {
      DecidedQuorum(cfg, s, x);
    } else {
      OtherQuorum(cfg, s, x);
    }
  }

  lemma StepAtFacts(cfg: Config, states: seq<State>, xs: seq<Input>, k: nat)
    requires Run(cfg, states, xs) && k < |xs|
    ensures QuorumStep(states[k], states[k + 1])
    ensures Evolves(states[k].proposals, states[k + 1].proposals)
  {
    Reachable(cfg, states, xs, k);
    assert StepAt(cfg, states, xs, k);
    StepQuorum(cfg, states[k], xs[k]);
    ProposalsStep(cfg, states[k], xs[k]);
  }

  /** EXECUTED, VETOED and EXPIRED are never left: the row is the same ever after. */
  lemma {:induction false} TerminalForever(cfg: Config, states: seq<State>, xs: seq<Input>, i: nat, j: nat, id: nat)
    requires Run(cfg, states, xs) && i <= j <= |xs|
    requires id in states[i].proposals && states[i].proposals[id].status != PendingSignatures
    ensures id in states[j].proposals && states[j].proposals[id] == states[i].proposals[id]
    decreases j - i
  {
    if i < j {
      TerminalForever(cfg, states, xs, i, j - 1, id);
      StepAtFacts(cfg, states, xs, j - 1);
    }
  }

  /** Step k gave this proposal its quorum under the committee then in force. */
  ghost predicate ReachedQuorum(states: seq<State>, k: int, id: nat, row: ProposalRow) {
    && 0 <= k < |states| - 1
    && !IsExecuted(states[k], id)
    && id in states[k + 1].proposals && states[k + 1].proposals[id] == row
    && |Signers(row.signatures)| >= states[k].launch.committee.thresholdM
  }

  /** Step k added this entry while its author was on the committee. */
  ghost predicate SignedAsMember(states: seq<State>, k: int, id: nat, e: SignatureEntry) {
    && 0 <= k < |states| - 1
    && !HasEntry(states[k], id, e) && HasEntry(states[k + 1], id, e)
    && HasMember(states[k].launch.committee, e.member)
  }

  lemma ExecutedHasNoVeto(cfg: Config, states: seq<State>, xs: seq<Input>, n: nat, id: nat)
    requires Run(cfg, states, xs) && n <= |xs| && IsExecuted(states[n], id)
    ensures NoVeto(states[n].proposals[id].signatures)
  {
    Reachable(cfg, states, xs, n);
    assert Sound(states[n].proposals[id]);
  }

  /**
   * An executed proposal carries no veto, and SIGN decisions of at least M distinct accounts, with M the
   * threshold at the step that executed it.
   */
  lemma {:induction false} ExecutedHadQuorum(cfg: Config, states: seq<State>, xs: seq<Input>, n: nat, id: nat)
    returns (k: nat)
    requires Run(cfg, states, xs) && n <= |xs| && IsExecuted(states[n], id)
    ensures k < n && ReachedQuorum(states, k, id, states[n].proposals[id])
    ensures NoVeto(states[n].proposals[id].signatures)
    decreases n
  {
    ExecutedHasNoVeto(cfg, states, xs, n, id);
    StepAtFacts(cfg, states, xs, n - 1);
    if IsExecuted(states[n - 1], id) {
      k := ExecutedHadQuorum(cfg, states, xs, n - 1, id);
    } else {
      k := n - 1;
    }
  }

  /** Every entry on every proposal was put there by an account that was a committee member at that step. */
  lemma {:induction false} EntriesAreMembers(cfg: Config, states: seq<State>, xs: seq<Input>, n: nat, id: nat, e: SignatureEntry)
    returns (k: nat)
    requires Run(cfg, states, xs) && n <= |xs| && HasEntry(states[n], id, e)
    ensures k < n && SignedAsMember(states, k, id, e)
    decreases n
  {
    StepAtFacts(cfg, states, xs, n - 1);
    if HasEntry(states[n - 1], id, e) {
      k := EntriesAreMembers(cfg, states, xs, n - 1, id, e);
    } else {
      k := n - 1;
    }
  }

  /** On every run, every decision on a proposal was taken within 48 hours of its raising, and so was its execution. */
  lemma DecidedInTime(cfg: Config, states: seq<State>, xs: seq<Input>, k: nat, id: nat)
    requires Run(cfg, states, xs) && k <= |xs| && id in states[k].proposals
    ensures var p := states[k].proposals[id];
            && (forall e :: e in p.signatures ==> e.timestamp <= p.proposedAt + 48 * HOUR)
            && (p.status == Executed ==> p.executedAt.Some? && p.executedAt.value <= p.proposedAt + 48 * HOUR)
  {
    Reachable(cfg, states, xs, k);
    assert Sound(states[k].proposals[id]);
  }

  /** A decision on this join request. */
  ghost predicate DecidesOn(a: Action, request: nat) {
    match a
    case ApproveValidator(r, _) => r == request
    case RejectValidator(r, _, _) => r == request
    case RemoveApprovedValidator(r, _, _) => r == request
    case _ => false
  }

  lemma SharedKeyIff(a: Action, b: Action)
    ensures ConflictKeyOf(a) == ConflictKeyOf(b) <==> a == b || exists r :: DecidesOn(a, r) && DecidesOn(b, r)
  {
    if ConflictKeyOf(a).ValidatorKey? {
      assert DecidesOn(a, a.joinRequest);
    }
  }

  /**
   * On every run: N members, 1 <= M <= N, lead first; and of two pending proposals, neither repeats the other's
   * action, both are not decisions on one join request, and a genesis publication is not beside an approval or removal.
   */
  lemma GovernanceInvariant(cfg: Config, states: seq<State>, xs: seq<Input>, k: nat)
    requires Run(cfg, states, xs) && k <= |xs|
    ensures WellFormed(states[k].launch.committee)
    ensures forall a, b :: a != b && IsPending(states[k].proposals, a) && IsPending(states[k].proposals, b) ==>
              var x, y := states[k].proposals[a].action, states[k].proposals[b].action;
              && x != y
              && !(exists r :: DecidesOn(x, r) && DecidesOn(y, r))
              && !(x.PublishFinalGenesis? && (y.ApproveValidator? || y.RemoveApprovedValidator?))
  {
    Reachable(cfg, states, xs, k);
    var ps := states[k].proposals;
    forall a, b | a != b && IsPending(ps, a) && IsPending(ps, b)
      ensures var x, y := ps[a].action, ps[b].action;
              && x != y
              && !(exists r :: DecidesOn(x, r) && DecidesOn(y, r))
              && !(x.PublishFinalGenesis? && (y.ApproveValidator? || y.RemoveApprovedValidator?))
    {
      SharedKeyIff(ps[a].action, ps[b].action);
    }
  }

  // ----- Raising

  ghost predicate PendingAction(s: State, id: nat, a: Action) {
    id in s.proposals && s.proposals[id].status == PendingSignatures && s.proposals[id].action == a
  }

  /** What a raise is allowed by, beside a complete payload. */
  ghost predicate MayBeRaised(cfg: Config, s: State, member: Account, a: Action) {
    && s.running && HasMember(s.launch.committee, member)
    && (a.PublishFinalGenesis? ==>
          && s.launch.finalGenesisInputSetHash != "" && Current(cfg, s) == s.launch.finalGenesisInputSetHash
          && (forall id, b :: PendingAction(s, id, b) ==> !b.ApproveValidator? && !b.RemoveApprovedValidator?)
          && (cfg.gate == GateRequired ==>
                && s.launch.rehearsalServiceKey != "" && LatestResult(s.results).Some?
                && LatestResult(s.results).value.outcome == Pass
                && LatestResult(s.results).value.inputSetHash == Current(cfg, s)))
    && (a.ApproveValidator? || a.RemoveApprovedValidator? ==>
          forall id, b :: PendingAction(s, id, b) ==> !b.PublishFinalGenesis?)
    && (a.CancelLaunch? ==> s.launch.status != Launched && s.launch.status != Canceled)
    && (forall id, b :: PendingAction(s, id, b) ==> b != a && !(exists r :: DecidesOn(a, r) && DecidesOn(b, r)))
  }

  lemma ConflictMeans(s: State, a: Action)
    ensures HasConflict(s.proposals, a)
            <==> exists id, b :: PendingAction(s, id, b) && (b == a || exists r :: DecidesOn(a, r) && DecidesOn(b, r))
  {
    if HasConflict(s.proposals, a) {
      var id :| id in s.proposals && IsPending(s.proposals, id)
                && ConflictKeyOf(s.proposals[id].action) == ConflictKeyOf(a);
      SharedKeyIff(a, s.proposals[id].action);
      assert PendingAction(s, id, s.proposals[id].action);
    }
    if id, b :| PendingAction(s, id, b) && (b == a || exists r :: DecidesOn(a, r) && DecidesOn(b, r)) {
      SharedKeyIff(a, b);
      assert IsPending(s.proposals, id);
    }
  }

  lemma FreezeMeans(s: State)
    ensures HasPendingSetChange(s.proposals)
            <==> exists id, b :: PendingAction(s, id, b) && (b.ApproveValidator? || b.RemoveApprovedValidator?)
    ensures HasPendingPublication(s.proposals) <==> exists id, b :: PendingAction(s, id, b) && b.PublishFinalGenesis?
  {
    if HasPendingSetChange(s.proposals) {
      var id :| id in s.proposals && IsPending(s.proposals, id) && ChangesSet(s.proposals[id].action);
      assert PendingAction(s, id, s.proposals[id].action);
    }
    if HasPendingPublication(s.proposals) {
      var id :| id in s.proposals && IsPending(s.proposals, id) && s.proposals[id].action.PublishFinalGenesis?;
      assert PendingAction(s, id, s.proposals[id].action);
    }
    if id, b :| PendingAction(s, id, b) && (b.ApproveValidator? || b.RemoveApprovedValidator?) {
      assert IsPending(s.proposals, id);
    }
    if id, b :| PendingAction(s, id, b) && b.PublishFinalGenesis? {
      assert IsPending(s.proposals, id);
    }
  }

  lemma AllowedMeans(cfg: Config, s: State, member: Account, a: Action)
    requires s.running
    ensures RaiseAllowed(cfg, s, member, a) <==> MayBeRaised(cfg, s, member, a) && ValidPayload(a)
  {
    ConflictMeans(s, a);
    FreezeMeans(s);
  }

  lemma EnterCounts(cfg: Config, s: State, member: Account, a: Action, w: Weather, now: Time)
    ensures EnterProposal(cfg, s, member, a, w, now).nextProposal == s.nextProposal + 1
  {
    var p := CheckQuorum(NewProposal(a, member, now), s.launch.committee.thresholdM, now);
    var s1 := s.(nextProposal := s.nextProposal + 1);
    if p.status == Executed {
      ExecuteShape(cfg, s1, s.nextProposal, p, w, now);
      if Commits(cfg, s1, s.nextProposal, p, w, now) {
        ApplyFrame(cfg, Logged(s1, s.nextProposal), s.nextProposal, p, now);
      }
    }
  }

  /**
   * A raise takes up a new identifier iff it is by a member, with a complete payload, beside nothing pending that it
   * conflicts with, and for a publication fresh, through the gate and with no approval or removal pending.
   */
  lemma RaiseIff(cfg: Config, states: seq<State>, xs: seq<Input>, k: nat)
    requires Run(cfg, states, xs) && k < |xs| && xs[k].Raise?
    ensures states[k + 1].nextProposal != states[k].nextProposal
            <==> MayBeRaised(cfg, states[k], xs[k].member, xs[k].action) && ValidPayload(xs[k].action)
  {
    assert StepAt(cfg, states, xs, k);
    var s, x := states[k], xs[k];
    if s.running {
      AllowedMeans(cfg, s, x.member, x.action);
      EnterCounts(cfg, s, x.member, x.action, x.weather, x.now);
    }
  }

  /** The fields each payload must have. */
  ghost predicate Complete(a: Action) {
    && (a.ApproveValidator? ==> a.operator != "")
    && (a.ApproveAllocationFile? ==> a.hash != "")
    && (a.PublishChainRecord? ==> a.initialGenesisHash != "")
    && (a.PublishFinalGenesis? ==> a.genesisHash != "")
    && (a.UpdateGenesisTime? ==> a.newGenesisTime != 0)
    && (a.ReplaceCommitteeMember? ==> a.oldAddress != "" && a.newMember.address != "")
    && (a.ExpandCommittee? ==> a.addedMember.address != "" && a.addedMember.moniker != "")
    && (a.ShrinkCommittee? ==> a.removeAddress != "")
  }

  /** A step adds a proposal only as the raise of it, under the next identifier. */
  lemma AddedProposal(cfg: Config, s: State, x: Input, t: State, id: nat)
    requires Inv(cfg, s) && t == Next(cfg, s, x) && id in t.proposals && id !in s.proposals
    ensures id == s.nextProposal && x.Raise? && t.proposals[id].action == x.action && t.proposals[id].proposedBy == x.member
    ensures MayBeRaised(cfg, s, x.member, x.action) && ValidPayload(x.action)
  {
    if ExecutionOf(cfg, s, x).Some? {
      var e := ExecutionOf(cfg, s, x).value;
      ExecutionIsSavable(cfg, s, x);
      if Committed(cfg, s, x) {
        CommittedEffect(cfg, s, x);
        ApplyEvolves(cfg, Logged(e.base, e.id), e.id, e.row, e.now);
      } else {
        RolledBackQuorum(cfg, s, x);
      }
    } else if x.Decide? {
      if s.running && HasMember(s.launch.committee, x.member) && IsPending(s.proposals, x.proposal) {
        DecideEvolves(cfg, s, x);
      }
    } else if !x.Raise? {
      OtherProposals(cfg, s, x);
    }
    if s.running && x.Raise? {
      AllowedMeans(cfg, s, x.member, x.action);
    }
  }

  lemma AddedAt(cfg: Config, states: seq<State>, xs: seq<Input>, k: nat, id: nat)
    requires Run(cfg, states, xs) && k < |xs| && id in states[k + 1].proposals && id !in states[k].proposals
    ensures xs[k].Raise? && states[k + 1].proposals[id].action == xs[k].action
    ensures states[k + 1].proposals[id].proposedBy == xs[k].member
    ensures MayBeRaised(cfg, states[k], xs[k].member, xs[k].action) && ValidPayload(xs[k].action)
  {
    Reachable(cfg, states, xs, k);
    assert StepAt(cfg, states, xs, k);
    AddedProposal(cfg, states[k], xs[k], states[k + 1], id);
  }

  /** Every stored proposal was raised, as it stands, by a member under the guards of a raise, with a complete payload. */
  lemma {:induction false} ProposalOrigin(cfg: Config, states: seq<State>, xs: seq<Input>, n: nat, id: nat)
    returns (k: nat)
    requires Run(cfg, states, xs) && n <= |xs| && id in states[n].proposals
    ensures k < n && xs[k].Raise? && states[n].proposals[id].action == xs[k].action
    ensures MayBeRaised(cfg, states[k], xs[k].member, xs[k].action)
    ensures Complete(states[n].proposals[id].action)
    decreases n
  {
    if id in states[n - 1].proposals {
      k := ProposalOrigin(cfg, states, xs, n - 1, id);
      StepAtFacts(cfg, states, xs, n - 1);
    } else {
      k := n - 1;
      AddedAt(cfg, states, xs, k, id);
    }
  }

  // ----- Expiry

  /** The expiry job ends exactly the pending proposals raised more than 48 hours ago, and touches nothing else. */
  lemma ExpiryEndsExactly(cfg: Config, states: seq<State>, xs: seq<Input>, k: nat, id: nat)
    requires Run(cfg, states, xs) && k < |xs| && states[k].running && xs[k].ExpireStale? && id in states[k].proposals
    ensures id in states[k + 1].proposals
    ensures var before, after := states[k].proposals[id], states[k + 1].proposals[id];
            if before.status == PendingSignatures && before.proposedAt + 48 * HOUR < xs[k].now
            then after == before.(status := Expired) else after == before
    ensures states[k + 1] == states[k].(proposals := states[k + 1].proposals)
  {
    Reachable(cfg, states, xs, k);
    assert StepAt(cfg, states, xs, k);
    assert Sound(states[k].proposals[id]);
  }

  /** An override is taken as given; without one the threshold falls only as far as M < N forces. */
  ghost predicate DefaultThreshold(a: Action, before: Committee, after: Committee)
    requires Resizes(a)
  {
    match a.newThresholdM
    case Some(m) => after.thresholdM == m
    case None => after.thresholdM == before.thresholdM
                 || (after.thresholdM == after.totalN - 1 && after.thresholdM < before.thresholdM)
  }

  lemma ResizeApplies(cfg: Config, s: State, id: nat, p: ProposalRow, now: Time)
    requires Inv(cfg, s) && Savable(s, id, p) && p.status == Executed && Resizes(p.action)
    requires Apply(cfg, s, id, p, now).Ok?
    ensures var t := Apply(cfg, s, id, p, now).value;
            && t.launch.committee.thresholdM < t.launch.committee.totalN
            && t.launch.committee.totalN >= 2
            && WellFormed(t.launch.committee)
            && DefaultThreshold(p.action, s.launch.committee, t.launch.committee)
            && t.proposals == ExpireAllPending(s.proposals)[id := p]
  {
    match p.action {
      case ExpandCommittee(m, override) => ExpandResult(s.launch.committee, m, override);
      case ShrinkCommittee(a, override) => ShrinkResult(s.launch.committee, a, override);
      case _ =>
    }
  }

  /** After a committed resize: M < N, at least two members, nothing pending, the resizing proposal EXECUTED. */
  lemma ResizeSettles(cfg: Config, s: State, x: Input)
    requires Inv(cfg, s) && Committed(cfg, s, x) && Resizes(ExecutionOf(cfg, s, x).value.row.action)
    ensures var t, id := Next(cfg, s, x), ExecutionOf(cfg, s, x).value.id;
            && t.launch.committee.thresholdM < t.launch.committee.totalN
            && t.launch.committee.totalN >= 2
            && WellFormed(t.launch.committee)
            && DefaultThreshold(ExecutionOf(cfg, s, x).value.row.action, s.launch.committee, t.launch.committee)
            && IsExecuted(t, id)
            && (forall q :: !IsPending(t.proposals, q))
  {
    var e := ExecutionOf(cfg, s, x).value;
    CommittedEffect(cfg, s, x);
    ExecutionIsSavable(cfg, s, x);
    var base := Logged(e.base, e.id);
    ResizeApplies(cfg, base, e.id, e.row, e.now);
    ResizeSaves(base, e.id, e.row);
  }
}
