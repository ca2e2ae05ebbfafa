/** The proposal aggregate: M-of-N signatures and what they trigger (internal/domain/proposal). */
module Proposals {
  import opened Prelude
  import opened Launches

  /** The thirteen actions with their typed payloads. */
  datatype Action =
    | ApproveValidator(joinRequest: nat, operator: Account)
    | RejectValidator(joinRequest: nat, operator: Account, reason: string)
    | RemoveApprovedValidator(joinRequest: nat, operator: Account, reason: string)
    | ApproveAllocationFile(kind: AllocationType, hash: Hash)
    | PublishChainRecord(initialGenesisHash: Hash)
    | CloseApplicationWindow
    | PublishFinalGenesis(genesisHash: Hash)
    | UpdateGenesisTime(newGenesisTime: Time, prevGenesisTime: Time)
    | ReplaceCommitteeMember(oldAddress: Account, newMember: Member)
    | ReviseGenesis
    | ExpandCommittee(addedMember: Member, newThresholdM: Option<int>)
    | ShrinkCommittee(removeAddress: Account, newThresholdM: Option<int>)
    | CancelLaunch

  datatype ProposalStatus = PendingSignatures | Executed | Vetoed | Expired

  /** The wire form is a free string; anything but the two known decisions has no effect of its own. */
  datatype Decision = Sign | Veto | Other(text: string)

  datatype SignatureEntry = SignatureEntry(member: Account, decision: Decision, timestamp: Time)

  datatype ProposalRow = ProposalRow(
    action: Action, proposedBy: Account, proposedAt: Time, ttlExpires: Time,
    status: ProposalStatus, executedAt: Option<Time>, signatures: seq<SignatureEntry>)

  datatype ProposalError = PayloadInvalid | NotPending | TtlExpired | MemberAlreadySigned

  const PROPOSAL_TTL: Time := 48 * HOUR

  /** The required fields of each payload. */
  predicate ValidPayload(a: Action) {
    match a
    case ApproveValidator(_, operator) => operator != ""
    case PublishFinalGenesis(hash) => hash != ""
    case UpdateGenesisTime(t, _) => t != 0
    case ApproveAllocationFile(_, hash) => hash != ""
    case ReplaceCommitteeMember(o, m) => o != "" && m.address != ""
    case PublishChainRecord(hash) => hash != ""
    case ExpandCommittee(m, _) => m.address != "" && m.moniker != ""
    case ShrinkCommittee(a, _) => a != ""
    case _ => true
  }

  function SignCount(sigs: seq<SignatureEntry>): nat {
    if sigs == [] then 0
    else SignCount(sigs[..|sigs| - 1]) + if sigs[|sigs| - 1].decision == Sign then 1 else 0
  }

  predicate HasSigned(sigs: seq<SignatureEntry>, a: Account) {
    exists i | 0 <= i < |sigs| :: sigs[i].member == a
  }

  function NewProposal(a: Action, proposer: Account, now: Time): ProposalRow {
    ProposalRow(a, proposer, now, now + PROPOSAL_TTL, PendingSignatures, None, [SignatureEntry(proposer, Sign, now)])
  }

  function CheckQuorum(p: ProposalRow, m: int, now: Time): ProposalRow {
    if p.status == PendingSignatures && SignCount(p.signatures) >= m
    then p.(status := Executed, executedAt := Some(now))
    else p
  }

  function SignProposal(p: ProposalRow, member: Account, d: Decision, m: int, now: Time)
    : Result<ProposalRow, ProposalError>
  {
    if p.status != PendingSignatures then Err(NotPending)
    else if p.ttlExpires < now then Err(TtlExpired)
    else if HasSigned(p.signatures, member) then Err(MemberAlreadySigned)
    else
      var q := p.(signatures := p.signatures + [SignatureEntry(member, d, now)]);
      Ok(if d == Veto then q.(status := Vetoed) else CheckQuorum(q, m, now))
  }

  predicate Stale(p: ProposalRow, now: Time) {
    p.status == PendingSignatures && p.ttlExpires < now
  }

  function ExpireIfStale(p: ProposalRow, now: Time): ProposalRow {
    if Stale(p, now) then p.(status := Expired) else p
  }

  // ----- What every proposal keeps

  ghost predicate DistinctSigners(sigs: seq<SignatureEntry>) {
    forall i, j :: 0 <= i < j < |sigs| ==> sigs[i].member != sigs[j].member
  }

  ghost predicate NoVeto(sigs: seq<SignatureEntry>) {
    forall e :: e in sigs ==> e.decision != Veto
  }

  /** The proposer signed first; every decision, and the execution, fell within the 48 hours the proposal had. */
  ghost predicate InTime(p: ProposalRow) {
    && p.signatures != [] && p.signatures[0] == SignatureEntry(p.proposedBy, Sign, p.proposedAt)
    && p.ttlExpires == p.proposedAt + PROPOSAL_TTL
    && (forall e :: e in p.signatures ==> e.timestamp <= p.ttlExpires)
    && (p.executedAt.Some? ==> p.executedAt.value <= p.ttlExpires)
  }

  /** No account decides twice, all in time, and a veto is on record exactly when the proposal is VETOED. */
  ghost predicate Sound(p: ProposalRow) {
    && DistinctSigners(p.signatures)
    && InTime(p)
    && (p.status == Vetoed <==> !NoVeto(p.signatures))
    && (p.status == Executed <==> p.executedAt.Some?)
  }

  ghost function Signers(sigs: seq<SignatureEntry>): set<Account> {
    set e | e in sigs && e.decision == Sign :: e.member
  }

  /** Counting SIGN entries counts accounts. */
  lemma {:induction false} SignCountIsSigners(sigs: seq<SignatureEntry>)
    requires DistinctSigners(sigs)
    ensures |Signers(sigs)| == SignCount(sigs)
  {
    if sigs != [] {
      var front, last := sigs[..|sigs| - 1], sigs[|sigs| - 1];
      assert sigs == front + [last];
      SignCountIsSigners(front);
      if last.decision == Sign {
        assert Signers(sigs) == Signers(front) + {last.member};
        forall e | e in front ensures e.member != last.member {
          var i :| 0 <= i < |front| && front[i] == e;
          assert sigs[i] == e;
        }
      } else {
        assert Signers(sigs) == Signers(front);
      }
    }
  }

  lemma NewIsSound(a: Action, proposer: Account, m: int, now: Time)
    ensures Sound(NewProposal(a, proposer, now)) && Sound(CheckQuorum(NewProposal(a, proposer, now), m, now))
  {
  }

  lemma EntryAdded(sigs: seq<SignatureEntry>, e: SignatureEntry)
    requires DistinctSigners(sigs) && !HasSigned(sigs, e.member)
    ensures DistinctSigners(sigs + [e])
    ensures NoVeto(sigs + [e]) <==> NoVeto(sigs) && e.decision != Veto
    ensures |Signers(sigs + [e])| == SignCount(sigs + [e])
  {
    assert e in sigs + [e];
    assert forall x :: x in sigs ==> x in sigs + [e];
    SignCountIsSigners(sigs + [e]);
  }

  /**
   * A decision that is taken adds exactly that entry; a veto ends the proposal as VETOED, and it ends
   * EXECUTED exactly when it is not a veto and at least m distinct accounts have signed.
   */
  lemma SignOutcome(p: ProposalRow, member: Account, d: Decision, m: int, now: Time)
    requires Sound(p)
    ensures var r := SignProposal(p, member, d, m, now);
            r.Ok? ==>
              && Sound(r.value)
              && r.value.action == p.action
              && r.value.signatures == p.signatures + [SignatureEntry(member, d, now)]
              && (r.value.status == Executed <==> d != Veto && |Signers(r.value.signatures)| >= m)
              && (r.value.status == Vetoed <==> d == Veto)
              && r.value.status != Expired
  {
    var r := SignProposal(p, member, d, m, now);
    if r.Ok? {
      EntryAdded(p.signatures, SignatureEntry(member, d, now));
    }
  }

  /** A 1-of-N committee executes on the proposer's own signature, and only then. */
  lemma RaiseOutcome(a: Action, proposer: Account, m: int, now: Time)
    ensures CheckQuorum(NewProposal(a, proposer, now), m, now).status == Executed <==> m <= 1
    ensures Signers(NewProposal(a, proposer, now).signatures) == {proposer}
  {
    var p := NewProposal(a, proposer, now);
    assert p.signatures[..0] == [];
    assert SignCount(p.signatures) == 1;
  }

  /** A decision is taken iff the proposal is pending, at most 48 hours old, and without an entry of this account. */
  lemma SignAcceptedIff(p: ProposalRow, member: Account, d: Decision, m: int, now: Time)
    requires Sound(p)
    ensures SignProposal(p, member, d, m, now).Ok?
            <==> && p.status == PendingSignatures && now <= p.proposedAt + 48 * HOUR
                 && forall e :: e in p.signatures ==> e.member != member
  {
    if HasSigned(p.signatures, member) {
      var i :| 0 <= i < |p.signatures| && p.signatures[i].member == member;
      assert p.signatures[i] in p.signatures;
    }
  }
}
