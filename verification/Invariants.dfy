/** What every step keeps, with no hypothesis at all. */
module Invariants {
  import opened Prelude
  import opened Launches
  import opened Proposals
  import opened JoinRequests
  import opened InputSets
  import opened FinalGenesis
  import opened Rehearsals
  import opened Coordinator

  // ----- The invariants, one per group of tables

  ghost predicate ProposalsInv(ps: map<nat, ProposalRow>, next: nat) {
    forall id :: id in ps ==> id < next && Sound(ps[id])
  }

  /** No two pending proposals share a conflict key, and a publication is never pending beside a set change. */
  ghost predicate PendingInv(ps: map<nat, ProposalRow>) {
    forall a, b :: a != b && IsPending(ps, a) && IsPending(ps, b) ==>
      && ConflictKeyOf(ps[a].action) != ConflictKeyOf(ps[b].action)
      && !(ps[a].action.PublishFinalGenesis? && ChangesSet(ps[b].action))
  }

  ghost predicate ApprovedBy(ps: map<nat, ProposalRow>, q: nat, request: nat) {
    q in ps && ps[q].status == Executed && ps[q].action.ApproveValidator? && ps[q].action.joinRequest == request
  }

  /** A request names an approving proposal iff it is APPROVED, and that proposal executed its approval. */
  ghost predicate ApproverInv(rows: seq<JoinRow>, ps: map<nat, ProposalRow>) {
    forall i :: 0 <= i < |rows| ==>
      && (rows[i].status == Approved <==> rows[i].approvedBy.Some?)
      && (rows[i].approvedBy.Some? ==> ApprovedBy(ps, rows[i].approvedBy.value, i))
  }

  ghost predicate Vouched(l: LaunchRow, rows: seq<JoinRow>, c: Confirmation) {
    && (l.status == GenesisReady || l.status == Launched)
    && c.genesisHash == l.finalGenesisSha256
    && (l.record.binarySha256 != "" ==> c.binaryHash == l.record.binarySha256)
    && c.joinRequest < |rows|
    && rows[c.joinRequest].status == Approved
    && rows[c.joinRequest].operator == c.operator
  }

  ghost predicate ReadinessInv(l: LaunchRow, rows: seq<JoinRow>, cs: seq<Confirmation>) {
    forall c :: c in cs && ValidConfirmation(c) ==> Vouched(l, rows, c)
  }

  /** Every stored result is bound to an attempt minted here for its input set. */
  ghost predicate ResultsInv(attempts: seq<AttemptRow>, results: seq<ResultRow>) {
    && (forall i, j :: 0 <= i < j < |attempts| ==> attempts[i].inputSetHash != attempts[j].inputSetHash)
    && (forall r :: r in results ==> r.attempt < |attempts| && attempts[r.attempt].inputSetHash == r.inputSetHash)
  }

  ghost predicate Inv(cfg: Config, s: State) {
    && WellFormed(s.launch.committee)
    && OneFilePerType(s.launch.allocationFiles)
    && ProposalsInv(s.proposals, s.nextProposal)
    && PendingInv(s.proposals)
    && ActiveUnique(s.requests)
    && ApproverInv(s.requests, s.proposals)
    && ReadinessInv(s.launch, s.requests, s.readiness)
    && ResultsInv(s.attempts, s.results)
  }

  // ----- Proposals: a terminal row never changes

  ghost predicate Evolves(before: map<nat, ProposalRow>, after: map<nat, ProposalRow>) {
    forall id :: id in before ==>
      && id in after
      && after[id].action == before[id].action
      && before[id].signatures <= after[id].signatures
      && (before[id].status != PendingSignatures ==> after[id] == before[id])
  }

  lemma ApproverKept(rows: seq<JoinRow>, ps: map<nat, ProposalRow>, after: map<nat, ProposalRow>)
    requires ApproverInv(rows, ps) && Evolves(ps, after)
    ensures ApproverInv(rows, after)
  {
    forall i | 0 <= i < |rows| && rows[i].approvedBy.Some?
      ensures ApprovedBy(after, rows[i].approvedBy.value, i)
    {
      assert ApprovedBy(ps, rows[i].approvedBy.value, i);
    }
  }

  /** A row that may be saved under this identifier: new, or the continuation of a pending one. */
  ghost predicate Savable(s: State, id: nat, p: ProposalRow) {
    && id < s.nextProposal
    && Sound(p)
    && (id in s.proposals ==>
          && s.proposals[id].status == PendingSignatures
          && s.proposals[id].action == p.action
          && s.proposals[id].signatures <= p.signatures)
  }

  lemma SaveKeeps(s: State, id: nat, p: ProposalRow)
    requires ProposalsInv(s.proposals, s.nextProposal) && PendingInv(s.proposals) && Savable(s, id, p)
    requires id in s.proposals || p.status != PendingSignatures
    ensures var ps := s.proposals[id := p];
            ProposalsInv(ps, s.nextProposal) && PendingInv(ps) && Evolves(s.proposals, ps)
  {
    var ps := s.proposals[id := p];
    assert forall a :: IsPending(ps, a) ==> IsPending(s.proposals, a) && ps[a].action == s.proposals[a].action;
  }

  lemma ExpireAllKeeps(ps: map<nat, ProposalRow>, next: nat)
    requires ProposalsInv(ps, next)
    ensures var out := ExpireAllPending(ps);
            && ProposalsInv(out, next) && PendingInv(out) && Evolves(ps, out)
            && (forall id :: !IsPending(out, id))
  {
    var out := ExpireAllPending(ps);
    forall id | id in out ensures id < next && Sound(out[id]) {
      ExpiredSound(ps[id]);
    }
  }

  lemma ExpiredSound(p: ProposalRow)
    requires Sound(p)
    ensures p.status == PendingSignatures ==> Sound(p.(status := Expired))
  {
  }

  lemma ExpireStaleKeeps(ps: map<nat, ProposalRow>, next: nat, now: Time)
    requires ProposalsInv(ps, next) && PendingInv(ps)
    ensures var out := ExpireAllStale(ps, now);
            ProposalsInv(out, next) && PendingInv(out) && Evolves(ps, out)
  {
    var out := ExpireAllStale(ps, now);
    forall id | id in out ensures id < next && Sound(out[id]) {
      ExpiredSound(ps[id]);
    }
    assert forall a :: IsPending(out, a) ==> IsPending(ps, a) && out[a].action == ps[a].action;
  }

  // ----- Executing a proposal

  /** Equal in every table; the audit log, exits and running flag may differ. */
  ghost predicate SameData(a: State, b: State) {
    a.(audit := b.audit, exits := b.exits, running := b.running) == b
  }

  ghost function Logged(s: State, id: nat): State {
    s.(audit := s.audit + [Intent(id)])
  }

  /** The transaction of this execution commits. */
  ghost predicate Commits(cfg: Config, s: State, id: nat, p: ProposalRow, w: Weather, now: Time) {
    w.intent == Written && !w.txFails && Apply(cfg, Logged(s, id), id, p, now).Ok?
  }

  lemma {:induction false} DispatchKeepsData(s: State, id: nat, records: seq<AuditRecord>, outcome: WriteOutcome)
    ensures SameData(s, Dispatch(s, id, records, outcome))
    decreases |records|
  {
    if records != [] && outcome == Written {
      DispatchKeepsData(s.(audit := s.audit + [records[0]]), id, records[1..], outcome);
    }
  }

  /** An execution either changes no table, or has exactly the effect of its action. */
  lemma ExecuteShape(cfg: Config, s: State, id: nat, p: ProposalRow, w: Weather, now: Time)
    ensures var t := Execute(cfg, s, id, p, w, now);
            if Commits(cfg, s, id, p, w, now)
            then SameData(Apply(cfg, Logged(s, id), id, p, now).value, t)
            else SameData(s, t)
  {
    if Commits(cfg, s, id, p, w, now) {
      var done := Apply(cfg, Logged(s, id), id, p, now).value;
      var events := ExecutionEvents(p.action)
                    + RecordedEvents(p.action, s.launch.committee, done.launch.committee);
      DispatchKeepsData(done, id, Records(id, events), w.completion);
    }
  }

  lemma RowChangeKeepsActive(rows: seq<JoinRow>, i: nat, r: JoinRow)
    requires ActiveUnique(rows) && i < |rows|
    requires r.operator == rows[i].operator && r.consensusKey == rows[i].consensusKey
    requires Active(r) ==> Active(rows[i])
    ensures ActiveUnique(rows[i := r])
  {
  }

  /** A decided row in place of the old one, with the proposal saved, keeps the invariant. */
  lemma DecidedRowKeeps(cfg: Config, s: State, id: nat, p: ProposalRow, i: nat, r: JoinRow)
    requires Inv(cfg, s) && Savable(s, id, p) && p.status == Executed && i < |s.requests|
    requires r.operator == s.requests[i].operator && r.consensusKey == s.requests[i].consensusKey
    requires Active(r) ==> Active(s.requests[i])
    requires r.status == Approved <==> r.approvedBy.Some?
    requires r.approvedBy.Some? ==>
               r.approvedBy.value == id && p.action.ApproveValidator? && p.action.joinRequest == i
    requires s.requests[i].status == Approved ==> s.launch.status != GenesisReady && s.launch.status != Launched
    ensures Inv(cfg, SaveProposal(s.(requests := s.requests[i := r]), id, p))
  {
    var ps, rows := s.proposals[id := p], s.requests[i := r];
    SaveKeeps(s, id, p);
    ApproverKept(s.requests, s.proposals, ps);
    RowChangeKeepsActive(s.requests, i, r);
    assert r.approvedBy.Some? ==> ApprovedBy(ps, id, i);
    forall c | c in s.readiness && ValidConfirmation(c) ensures Vouched(s.launch, rows, c) {
      assert Vouched(s.launch, s.requests, c);
    }
  }

  lemma ApplyApproveKeeps(cfg: Config, s: State, id: nat, p: ProposalRow)
    requires Inv(cfg, s) && Savable(s, id, p) && p.status == Executed && p.action.ApproveValidator?
    ensures var r := ApplyApprove(s, id, p); r.Ok? ==> Inv(cfg, r.value)
  {
    var i := p.action.joinRequest;
    if ApplyApprove(s, id, p).Ok? {
      DecidedRowKeeps(cfg, s, id, p, i, Approve(s.requests[i], id).value);
    }
  }

  lemma ApplyRejectKeeps(cfg: Config, s: State, id: nat, p: ProposalRow)
    requires Inv(cfg, s) && Savable(s, id, p) && p.status == Executed && p.action.RejectValidator?
    ensures var r := ApplyReject(s, id, p); r.Ok? ==> Inv(cfg, r.value)
  {
    var i := p.action.joinRequest;
    if ApplyReject(s, id, p).Ok? {
      DecidedRowKeeps(cfg, s, id, p, i, Reject(s.requests[i], p.action.reason).value);
    }
  }

  lemma ApplyRemoveKeeps(cfg: Config, s: State, id: nat, p: ProposalRow)
    requires Inv(cfg, s) && Savable(s, id, p) && p.status == Executed && p.action.RemoveApprovedValidator?
    ensures var r := ApplyRemove(s, id, p); r.Ok? ==> Inv(cfg, r.value)
  {
    var i := p.action.joinRequest;
    if ApplyRemove(s, id, p).Ok? {
      DecidedRowKeeps(cfg, s, id, p, i, Revoke(s.requests[i], p.action.reason).value);
    }
  }

  /** A launch row that differs in the committee only keeps what was confirmed. */
  lemma CommitteeKeepsReadiness(l: LaunchRow, c: Committee, rows: seq<JoinRow>, cs: seq<Confirmation>)
    requires ReadinessInv(l, rows, cs)
    ensures ReadinessInv(l.(committee := c), rows, cs)
  {
    forall v | v in cs && ValidConfirmation(v) ensures Vouched(l.(committee := c), rows, v) {
      assert Vouched(l, rows, v);
    }
  }

  lemma ApplyReplaceKeeps(cfg: Config, s: State, id: nat, p: ProposalRow, now: Time)
    requires Inv(cfg, s) && Savable(s, id, p) && p.status == Executed && p.action.ReplaceCommitteeMember?
    ensures var r := Apply(cfg, s, id, p, now); r.Ok? ==> Inv(cfg, r.value)
  {
    var r := Apply(cfg, s, id, p, now);
    if r.Ok? {
      ReplaceKeepsWellFormed(s.launch.committee, p.action.oldAddress, p.action.newMember);
      SaveKeeps(s, id, p);
      ApproverKept(s.requests, s.proposals, r.value.proposals);
      CommitteeKeepsReadiness(s.launch, r.value.launch.committee, s.requests, s.readiness);
    }
  }

  lemma ApplyExpandKeeps(cfg: Config, s: State, id: nat, p: ProposalRow, now: Time)
    requires Inv(cfg, s) && Savable(s, id, p) && p.status == Executed && p.action.ExpandCommittee?
    ensures var r := Apply(cfg, s, id, p, now); r.Ok? ==> Inv(cfg, r.value)
  {
    var r := Apply(cfg, s, id, p, now);
    if r.Ok? {
      ExpandResult(s.launch.committee, p.action.addedMember, p.action.newThresholdM);
      ResizeSaves(s, id, p);
      ApproverKept(s.requests, s.proposals, r.value.proposals);
      CommitteeKeepsReadiness(s.launch, r.value.launch.committee, s.requests, s.readiness);
    }
  }

  lemma ApplyShrinkKeeps(cfg: Config, s: State, id: nat, p: ProposalRow, now: Time)
    requires Inv(cfg, s) && Savable(s, id, p) && p.status == Executed && p.action.ShrinkCommittee?
    ensures var r := Apply(cfg, s, id, p, now); r.Ok? ==> Inv(cfg, r.value)
  {
    var r := Apply(cfg, s, id, p, now);
    if r.Ok? {
      ShrinkResult(s.launch.committee, p.action.removeAddress, p.action.newThresholdM);
      ResizeSaves(s, id, p);
      ApproverKept(s.requests, s.proposals, r.value.proposals);
      CommitteeKeepsReadiness(s.launch, r.value.launch.committee, s.requests, s.readiness);
    }
  }

  /** A resize leaves nothing pending, and the resizing proposal itself ends EXECUTED. */
  lemma ResizeSaves(s: State, id: nat, p: ProposalRow)
    requires ProposalsInv(s.proposals, s.nextProposal) && Savable(s, id, p) && p.status == Executed
    ensures var ps := ExpireAllPending(s.proposals)[id := p];
            && ProposalsInv(ps, s.nextProposal) && PendingInv(ps) && Evolves(s.proposals, ps)
            && ps[id].status == Executed
            && (forall q :: !IsPending(ps, q))
  {
    ExpireAllKeeps(s.proposals, s.nextProposal);
    var mid := ExpireAllPending(s.proposals);
    var ps := mid[id := p];
    forall q | q in ps ensures q < s.nextProposal && Sound(ps[q]) {
      assert q != id ==> q in mid && ps[q] == mid[q];
    }
    forall q ensures !IsPending(ps, q) {
      assert !IsPending(mid, q);
    }
  }

  lemma ApplyPublishKeeps(cfg: Config, s: State, id: nat, p: ProposalRow, now: Time)
    requires Inv(cfg, s) && Savable(s, id, p) && p.status == Executed
    requires p.action.PublishChainRecord? || p.action.PublishFinalGenesis?
    ensures var r := Apply(cfg, s, id, p, now); r.Ok? ==> Inv(cfg, r.value)
  {
    var r := Apply(cfg, s, id, p, now);
    if r.Ok? {
      SaveKeeps(s, id, p);
      ApproverKept(s.requests, s.proposals, r.value.proposals);
      NoneValidBeforeReady(cfg, s);
    }
  }

  lemma ApplyAllocationKeeps(cfg: Config, s: State, id: nat, p: ProposalRow, now: Time)
    requires Inv(cfg, s) && Savable(s, id, p) && p.status == Executed && p.action.ApproveAllocationFile?
    ensures var r := Apply(cfg, s, id, p, now); r.Ok? ==> Inv(cfg, r.value)
  {
    var r := Apply(cfg, s, id, p, now);
    if r.Ok? {
      SaveKeeps(s, id, p);
      ApproverKept(s.requests, s.proposals, r.value.proposals);
      AllocationsStayUnique(s.launch, p.action.kind, p.action.hash, id);
      NoneValidBeforeReady(cfg, s);
    }
  }

  lemma ExpiringKeepsRows(rows: seq<JoinRow>, ps: map<nat, ProposalRow>, budget: nat)
    requires ActiveUnique(rows) && ApproverInv(rows, ps)
    ensures ActiveUnique(ExpirePending(rows, budget)) && ApproverInv(ExpirePending(rows, budget), ps)
  {
    var out := ExpirePending(rows, budget);
    forall i | 0 <= i < |rows|
      ensures Active(out[i]) ==> out[i] == rows[i]
      ensures out[i].status == Approved <==> rows[i].status == Approved
      ensures out[i].approvedBy == rows[i].approvedBy
    {
    }
  }

  lemma ApplyCloseKeeps(cfg: Config, s: State, id: nat, p: ProposalRow)
    requires Inv(cfg, s) && Savable(s, id, p) && p.status == Executed && p.action.CloseApplicationWindow?
    ensures var r := ApplyClose(cfg, s, id, p); r.Ok? ==> Inv(cfg, r.value)
  {
    var r := ApplyClose(cfg, s, id, p);
    if r.Ok? {
      SaveKeeps(s, id, p);
      ApproverKept(s.requests, s.proposals, r.value.proposals);
      ExpiringKeepsRows(s.requests, r.value.proposals, PENDING_PAGE);
      NoneValidBeforeReady(cfg, s);
    }
  }

  lemma ApplyInvalidatingKeeps(cfg: Config, s: State, id: nat, p: ProposalRow, now: Time)
    requires Inv(cfg, s) && Savable(s, id, p) && p.status == Executed
    requires p.action.UpdateGenesisTime? || p.action.ReviseGenesis? || p.action.CancelLaunch?
    ensures var r := Apply(cfg, s, id, p, now); r.Ok? ==> Inv(cfg, r.value)
  {
    var r := Apply(cfg, s, id, p, now);
    if r.Ok? {
      var t := r.value;
      SaveKeeps(s, id, p);
      ApproverKept(s.requests, s.proposals, t.proposals);
      if p.action.CancelLaunch? && s.launch.status != GenesisReady {
        NoneValidBeforeReady(cfg, s);
      }
      assert forall c :: c in t.readiness ==> !ValidConfirmation(c);
    }
  }

  lemma ApplyKeeps(cfg: Config, s: State, id: nat, p: ProposalRow, now: Time)
    requires Inv(cfg, s) && Savable(s, id, p) && p.status == Executed
    ensures var r := Apply(cfg, s, id, p, now); r.Ok? ==> Inv(cfg, r.value)
  {
    match p.action {
      case ApproveValidator(_, _) => ApplyApproveKeeps(cfg, s, id, p);
      case RejectValidator(_, _, _) => ApplyRejectKeeps(cfg, s, id, p);
      case RemoveApprovedValidator(_, _, _) => ApplyRemoveKeeps(cfg, s, id, p);
      case ReplaceCommitteeMember(_, _) => ApplyReplaceKeeps(cfg, s, id, p, now);
      case ExpandCommittee(_, _) => ApplyExpandKeeps(cfg, s, id, p, now);
      case ShrinkCommittee(_, _) => ApplyShrinkKeeps(cfg, s, id, p, now);
      case PublishChainRecord(_) => ApplyPublishKeeps(cfg, s, id, p, now);
      case PublishFinalGenesis(_) => ApplyPublishKeeps(cfg, s, id, p, now);
      case ApproveAllocationFile(_, _) => ApplyAllocationKeeps(cfg, s, id, p, now);
      case CloseApplicationWindow => ApplyCloseKeeps(cfg, s, id, p);
      case UpdateGenesisTime(_, _) => ApplyInvalidatingKeeps(cfg, s, id, p, now);
      case ReviseGenesis => ApplyInvalidatingKeeps(cfg, s, id, p, now);
      case CancelLaunch => ApplyInvalidatingKeeps(cfg, s, id, p, now);
    }
  }

  lemma ExecuteKeeps(cfg: Config, s: State, id: nat, p: ProposalRow, w: Weather, now: Time)
    requires Inv(cfg, s) && Savable(s, id, p) && p.status == Executed
    ensures Inv(cfg, Execute(cfg, s, id, p, w, now))
  {
    ExecuteShape(cfg, s, id, p, w, now);
    ApplyKeeps(cfg, Logged(s, id), id, p, now);
  }

  // ----- Raising and deciding

  lemma NewPendingKeeps(cfg: Config, s: State, member: Account, a: Action, p: ProposalRow)
    requires Inv(cfg, s) && RaiseAllowed(cfg, s, member, a)
    requires Sound(p) && p.action == a
    ensures Inv(cfg, SaveProposal(s.(nextProposal := s.nextProposal + 1), s.nextProposal, p))
  {
    var id := s.nextProposal;
    var ps := s.proposals[id := p];
    assert id !in s.proposals;
    forall x, y | x != y && IsPending(ps, x) && IsPending(ps, y)
      ensures ConflictKeyOf(ps[x].action) != ConflictKeyOf(ps[y].action)
      ensures !(ps[x].action.PublishFinalGenesis? && ChangesSet(ps[y].action))
    {
      assert x != id ==> IsPending(s.proposals, x);
      assert y != id ==> IsPending(s.proposals, y);
    }
    assert Evolves(s.proposals, ps);
    ApproverKept(s.requests, s.proposals, ps);
  }

  lemma ExecuteNewKeeps(cfg: Config, s: State, p: ProposalRow, w: Weather, now: Time)
    requires Inv(cfg, s) && Sound(p) && p.status == Executed
    ensures Inv(cfg, Execute(cfg, s.(nextProposal := s.nextProposal + 1), s.nextProposal, p, w, now))
  {
    var s1 := s.(nextProposal := s.nextProposal + 1);
    assert s.nextProposal !in s.proposals;
    assert Inv(cfg, s1);
    ExecuteKeeps(cfg, s1, s.nextProposal, p, w, now);
  }

  lemma EnterKeeps(cfg: Config, s: State, member: Account, a: Action, w: Weather, now: Time)
    requires Inv(cfg, s) && RaiseAllowed(cfg, s, member, a)
    ensures Inv(cfg, EnterProposal(cfg, s, member, a, w, now))
  {
    var m := s.launch.committee.thresholdM;
    var p := CheckQuorum(NewProposal(a, member, now), m, now);
    NewIsSound(a, member, m, now);
    if p.status == Executed {
      ExecuteNewKeeps(cfg, s, p, w, now);
    } else {
      NewPendingKeeps(cfg, s, member, a, p);
    }
  }

  lemma RaiseKeeps(cfg: Config, s: State, member: Account, a: Action, w: Weather, now: Time)
    requires Inv(cfg, s)
    ensures Inv(cfg, RaiseProposal(cfg, s, member, a, w, now))
  {
    if RaiseAllowed(cfg, s, member, a) {
      EnterKeeps(cfg, s, member, a, w, now);
    }
  }

  lemma VetoKeeps(cfg: Config, s: State, id: nat, p: ProposalRow, w: Weather)
    requires Inv(cfg, s) && Savable(s, id, p) && id in s.proposals && p.action.ApproveAllocationFile?
    ensures Inv(cfg, VetoAllocation(s, id, p, w))
  {
    var kind, hash := p.action.kind, p.action.hash;
    SaveKeeps(s, id, p);
    ApproverKept(s.requests, s.proposals, s.proposals[id := p]);
    AllocationsStayUnique(s.launch, kind, hash, id);
    if CanRejectAllocation(s.launch, kind, hash) && !w.txFails {
      var saved := SaveLaunchAndProposal(s, RejectAllocation(s.launch, kind, hash), id, p);
      forall c | c in saved.readiness && ValidConfirmation(c) ensures Vouched(saved.launch, saved.requests, c) {
        assert Vouched(s.launch, s.requests, c);
      }
      DispatchKeepsData(saved, id, [VetoEffect(id, AllocationFileRejected(kind, hash))], w.completion);
    }
  }

  lemma DecideKeeps(cfg: Config, s: State, id: nat, member: Account, d: Decision, w: Weather, now: Time)
    requires Inv(cfg, s)
    ensures Inv(cfg, SignStep(cfg, s, id, member, d, w, now))
  {
    if HasMember(s.launch.committee, member) && IsPending(s.proposals, id) {
      var m := s.launch.committee.thresholdM;
      var r := SignProposal(s.proposals[id], member, d, m, now);
      SignOutcome(s.proposals[id], member, d, m, now);
      if r.Ok? {
        var p := r.value;
        if p.status == Executed {
          ExecuteKeeps(cfg, s, id, p, w, now);
        } else if p.status == Vetoed && p.action.ApproveAllocationFile? {
          VetoKeeps(cfg, s, id, p, w);
        } else {
          SaveKeeps(s, id, p);
          ApproverKept(s.requests, s.proposals, s.proposals[id := p]);
        }
      }
    }
  }

  // ----- The other services

  lemma SubmitKeeps(cfg: Config, s: State, operator: Account, submitter: Account, key: string, gentx: string,
                    fieldsOk: bool, now: Time)
    requires Inv(cfg, s)
    ensures Inv(cfg, SubmitStep(cfg, s, operator, submitter, key, gentx, fieldsOk, now))
  {
    var t := SubmitStep(cfg, s, operator, submitter, key, gentx, fieldsOk, now);
    var i := ActiveIndex(s.requests, operator);
    if t != s {
      var rows := if i < |s.requests| then s.requests[i := s.requests[i].(status := ExpiredRequest)] else s.requests;
      if i < |s.requests| {
        RowChangeKeepsActive(s.requests, i, rows[i]);
        SupersededFreesValidator(s.requests, i, operator);
      }
      assert ActiveUnique(rows);
      assert ApproverInv(rows, s.proposals);
      assert ReadinessInv(s.launch, rows, s.readiness);
      if t.requests != rows {
        AppendKeepsActive(rows, NewRequest(operator, submitter, key, gentx, StakeOf(cfg, gentx)));
      }
    }
  }

  lemma SupersededFreesValidator(rows: seq<JoinRow>, i: nat, operator: Account)
    requires ActiveUnique(rows) && i < |rows| && Active(rows[i]) && rows[i].operator == operator
    ensures var out := rows[i := rows[i].(status := ExpiredRequest)];
            forall j :: 0 <= j < |out| && Active(out[j]) ==> out[j].operator != operator
  {
  }

  lemma AppendKeepsActive(rows: seq<JoinRow>, r: JoinRow)
    requires ActiveUnique(rows) && !KeyInUse(rows, r.consensusKey)
    requires forall j :: 0 <= j < |rows| && Active(rows[j]) ==> rows[j].operator != r.operator
    ensures ActiveUnique(rows + [r])
  {
  }

  lemma ConfirmKeeps(cfg: Config, s: State, operator: Account, genesisHash: Hash, binaryHash: Hash, now: Time)
    requires Inv(cfg, s)
    ensures Inv(cfg, ConfirmStep(s, operator, genesisHash, binaryHash, now))
  {
    var t := ConfirmStep(s, operator, genesisHash, binaryHash, now);
    assert forall c :: c in t.readiness ==> c in s.readiness || c == t.readiness[|t.readiness| - 1];
  }

  lemma UploadFinalKeeps(cfg: Config, s: State, caller: Account, file: GenesisFile, now: Time, saved: bool)
    requires Inv(cfg, s)
    ensures Inv(cfg, UploadFinalStep(cfg, s, caller, file, now, saved))
  {
    if UploadFinalAllowed(s, caller, file, now) {
      NoneValidBeforeReady(cfg, s);
    }
  }

  lemma NoneValidBeforeReady(cfg: Config, s: State)
    requires Inv(cfg, s) && s.launch.status != GenesisReady && s.launch.status != Launched
    ensures forall c :: c in s.readiness ==> !ValidConfirmation(c)
  {
  }

  lemma UploadFinalRefKeeps(cfg: Config, s: State, caller: Account, hash: Hash, t: Time, now: Time, saved: bool)
    requires Inv(cfg, s)
    ensures Inv(cfg, UploadFinalRefStep(cfg, s, caller, hash, t, now, saved))
  {
    if UploadFinalRefAllowed(s, caller, hash, t, now) {
      NoneValidBeforeReady(cfg, s);
    }
  }

  lemma UploadAllocationKeeps(cfg: Config, s: State, caller: Account, kind: AllocationType, hash: Hash)
    requires Inv(cfg, s)
    ensures Inv(cfg, UploadAllocationStep(s, caller, kind, hash))
  {
    AllocationsStayUnique(s.launch, kind, hash, 0);
    if UploadAllocationStep(s, caller, kind, hash) != s {
      NoneValidBeforeReady(cfg, s);
    }
  }

  lemma LaunchFieldKeeps(cfg: Config, s: State, l: LaunchRow)
    requires Inv(cfg, s)
    requires WellFormed(l.committee) && l.allocationFiles == s.launch.allocationFiles
    requires l.finalGenesisSha256 == s.launch.finalGenesisSha256
    requires s.launch.status == GenesisReady || s.launch.status == Launched ==> l.record == s.launch.record
    requires s.launch.status == GenesisReady || s.launch.status == Launched ==>
               l.status == s.launch.status || l.status == Launched
    ensures Inv(cfg, s.(launch := l))
  {
    forall c | c in s.readiness && ValidConfirmation(c) ensures Vouched(l, s.requests, c) {
      assert Vouched(s.launch, s.requests, c);
    }
  }

  lemma LaunchStepsKeep(cfg: Config, s: State, x: Input)
    requires Inv(cfg, s) && s.running
    requires x.UploadInitial? || x.PatchDraft? || x.PatchServiceKey? || x.SetCommittee? || x.OpenApplications?
             || x.CancelDirect? || x.BlockOneSeen?
    ensures Inv(cfg, Next(cfg, s, x))
  {
    var t := Next(cfg, s, x);
    LaunchFieldKeeps(cfg, s, t.launch);
    assert t == s.(launch := t.launch);
  }

  lemma ClaimKeeps(cfg: Config, s: State, runner: string, now: Time)
    requires Inv(cfg, s)
    ensures Inv(cfg, ClaimStep(cfg, s, runner, now))
  {
    var t := ClaimStep(cfg, s, runner, now);
    assert t == s.(attempts := t.attempts);
    AttemptsExtend(s.attempts, t.attempts, s.results, Current(cfg, s));
  }

  lemma AttemptsExtend(before: seq<AttemptRow>, after: seq<AttemptRow>, results: seq<ResultRow>, minted: Hash)
    requires ResultsInv(before, results)
    requires |before| <= |after| <= |before| + 1
    requires forall i :: 0 <= i < |before| ==> after[i].inputSetHash == before[i].inputSetHash
    requires |after| > |before| ==>
               after[|before|].inputSetHash == minted && AttemptIndex(before, minted) == |before|
    ensures ResultsInv(after, results)
  {
  }

  lemma RecordResultKeeps(cfg: Config, s: State, f: Fact, verified: bool, released: bool, now: Time)
    requires Inv(cfg, s)
    ensures Inv(cfg, RecordResultStep(cfg, s, f, verified, released, now))
  {
    var t := RecordResultStep(cfg, s, f, verified, released, now);
    if t != s {
      AttemptsExtend(s.attempts, t.attempts, s.results, "");
      assert forall r :: r in t.results ==> r in s.results || r == t.results[|s.results|];
    }
  }

  lemma ResetKeeps(cfg: Config, s: State, caller: Account, i: nat)
    requires Inv(cfg, s)
    ensures Inv(cfg, ResetStep(s, caller, i))
  {
    AttemptsExtend(s.attempts, ResetStep(s, caller, i).attempts, s.results, "");
  }

  lemma GovernanceKeeps(cfg: Config, s: State, x: Input)
    requires Inv(cfg, s) && s.running && (x.Raise? || x.Decide? || x.ExpireStale?)
    ensures Inv(cfg, Next(cfg, s, x))
  {
    match x {
      case Raise(member, action, w, now) => RaiseKeeps(cfg, s, member, action, w, now);
      case Decide(id, member, d, w, now) => DecideKeeps(cfg, s, id, member, d, w, now);
      case ExpireStale(now) =>
        ExpireStaleKeeps(s.proposals, s.nextProposal, now);
        ApproverKept(s.requests, s.proposals, ExpireAllStale(s.proposals, now));
    }
  }

  lemma StepKeeps(cfg: Config, s: State, x: Input)
    requires Inv(cfg, s)
    ensures Inv(cfg, Next(cfg, s, x))
  {
    if s.running {
      match x {
        case Raise(_, _, _, _) => GovernanceKeeps(cfg, s, x);
        case Decide(_, _, _, _, _) => GovernanceKeeps(cfg, s, x);
        case ExpireStale(_) => GovernanceKeeps(cfg, s, x);
        case Submit(op, sub, key, gentx, ok, now) => SubmitKeeps(cfg, s, op, sub, key, gentx, ok, now);
        case Confirm(op, gh, bh, now) => ConfirmKeeps(cfg, s, op, gh, bh, now);
        case UploadFinal(caller, file, now, saved) => UploadFinalKeeps(cfg, s, caller, file, now, saved);
        case UploadFinalRef(caller, hash, t, now, saved) => UploadFinalRefKeeps(cfg, s, caller, hash, t, now, saved);
        case UploadAllocationFile(caller, kind, hash) => UploadAllocationKeeps(cfg, s, caller, kind, hash);
        case ClaimRun(runner, now) => ClaimKeeps(cfg, s, runner, now);
        case RecordResult(f, verified, released, now) => RecordResultKeeps(cfg, s, f, verified, released, now);
        case ResetAttempt(caller, i) => ResetKeeps(cfg, s, caller, i);
        case Restart =>
        case _ => LaunchStepsKeep(cfg, s, x);
      }
    }
  }

  lemma StepAtKeeps(cfg: Config, states: seq<State>, xs: seq<Input>, k: nat)
    requires StepAt(cfg, states, xs, k) && Inv(cfg, states[k])
    ensures Inv(cfg, states[k + 1])
  {
    StepKeeps(cfg, states[k], xs[k]);
  }

  /** Every state of every run satisfies the invariant. */
  lemma {:induction false} Reachable(cfg: Config, states: seq<State>, xs: seq<Input>, k: nat)
    requires Run(cfg, states, xs) && k <= |xs|
    ensures Inv(cfg, states[k])
    decreases k
  {
    if k > 0 {
      Reachable(cfg, states, xs, k - 1);
      StepAtKeeps(cfg, states, xs, k - 1);
    }
  }
}
