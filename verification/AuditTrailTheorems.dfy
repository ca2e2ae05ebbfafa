/** Two-phase auditing: intent before, completion after, for any pattern of write and transaction failures. */
module AuditTrailTheorems {
  import opened Prelude
  import opened Launches
  import opened Proposals
  import opened Coordinator
  import opened Invariants
  import opened Steps
  import opened QuorumTheorems

  /** The event that reports this action. */
  predicate Reports(e: Event, a: Action) {
    match a
    case ApproveValidator(jr, op) => e == ValidatorApproved(jr, op)
    case RejectValidator(jr, _, reason) => e == ValidatorRejected(jr, reason)
    case RemoveApprovedValidator(jr, _, reason) => e == ValidatorRemoved(jr, reason)
    case PublishChainRecord(h) => e == ChainRecordPublished(h)
    case CloseApplicationWindow => e == ApplicationWindowClosed
    case PublishFinalGenesis(h) => e == GenesisPublished(h)
    case UpdateGenesisTime(t, prev) => e == GenesisTimeUpdated(t, prev)
    case ReviseGenesis => e == GenesisRevisionApproved
    case ApproveAllocationFile(k, h) => e == AllocationFileApproved(k, h)
    case CancelLaunch => e == LaunchCancelled
    case ReplaceCommitteeMember(_, _) => e.CommitteeChanged?
    case ExpandCommittee(_, _) => e.CommitteeChanged?
    case ShrinkCommittee(_, _) => e.CommitteeChanged?
  }

  /** Exactly one completion event for each of the thirteen actions, and it reports that action. */
  lemma OneEventPerAction(a: Action, before: Committee, after: Committee)
    ensures var es := ExecutionEvents(a) + RecordedEvents(a, before, after);
            |es| == 1 && Reports(es[0], a)
  {
  }

  function CompletionCount(log: seq<AuditRecord>, id: nat): nat {
    if log == [] then 0
    else
      var n := |log| - 1;
      CompletionCount(log[..n], id) + if log[n].Completion? && log[n].proposal == id then 1 else 0
  }

  lemma {:induction false} CountAppend(log: seq<AuditRecord>, more: seq<AuditRecord>, id: nat)
    ensures CompletionCount(log + more, id) == CompletionCount(log, id) + CompletionCount(more, id)
  {
    if more == [] {
      assert log + more == log;
    } else {
      var n := |more| - 1;
      assert (log + more)[..|log| + n] == log + more[..n];
      assert (log + more)[|log| + n] == more[n];
      CountAppend(log, more[..n], id);
    }
  }

  ghost predicate IntentBefore(log: seq<AuditRecord>, id: nat, j: int) {
    exists i :: 0 <= i < j <= |log| && log[i] == Intent(id)
  }

  /**
   * Every executed proposal has its intent on record; its completion is on record exactly once unless the
   * process stopped while writing it; a proposal not executed has none; and every completion comes after an
   * intent and reports the proposal's own action.
   */
  ghost predicate AuditInv(s: State) {
    && (forall id :: IsExecuted(s, id) ==> IntentBefore(s.audit, id, |s.audit|))
    && (forall id :: CompletionCount(s.audit, id) <= 1)
    && (forall id :: CompletionCount(s.audit, id) == 1 ==> IsExecuted(s, id))
    && (forall id :: IsExecuted(s, id) && id !in s.exits ==> CompletionCount(s.audit, id) == 1)
    && (forall j :: 0 <= j < |s.audit| && s.audit[j].Completion? ==> CompletionAt(s, j))
  }

  ghost predicate CompletionAt(s: State, j: int)
    requires 0 <= j < |s.audit| && s.audit[j].Completion?
  {
    var r := s.audit[j];
    IntentBefore(s.audit, r.proposal, j) && r.proposal in s.proposals
    && Reports(r.event, s.proposals[r.proposal].action)
  }

  /** What one execution attempt adds to the log. */
  ghost function Trail(cfg: Config, s: State, e: Execution): seq<AuditRecord> {
    if e.weather.intent == Lost then []
    else if e.weather.intent == WrittenThenFailed then [Intent(e.id)]
    else if !Commits(cfg, s, e.id, e.row, e.weather, e.now) then
      if e.weather.abort == Lost then [Intent(e.id)] else [Intent(e.id), Aborted(e.id)]
    else
      var done := Apply(cfg, Logged(s, e.id), e.id, e.row, e.now).value;
      var events := ExecutionEvents(e.row.action)
                    + RecordedEvents(e.row.action, s.launch.committee, done.launch.committee);
      [Intent(e.id)] + if e.weather.completion == Lost then [] else Records(e.id, events)
  }

  ghost predicate SameTrail(s: State, t: State) {
    t.audit == s.audit && t.exits == s.exits
  }

  lemma ApplyKeepsAuditSome(cfg: Config, s: State, id: nat, p: ProposalRow, now: Time)
    requires Apply(cfg, s, id, p, now).Ok?
    requires p.action.ApproveValidator? || p.action.RejectValidator? || p.action.RemoveApprovedValidator?
             || p.action.ReplaceCommitteeMember? || Resizes(p.action)
    ensures SameTrail(s, Apply(cfg, s, id, p, now).value)
  {
  }

  lemma ApplyKeepsAuditRest(cfg: Config, s: State, id: nat, p: ProposalRow, now: Time)
    requires Apply(cfg, s, id, p, now).Ok?
    requires p.action.PublishChainRecord? || p.action.CloseApplicationWindow? || p.action.UpdateGenesisTime?
             || p.action.ApproveAllocationFile? || p.action.ReviseGenesis? || p.action.CancelLaunch?
    ensures SameTrail(s, Apply(cfg, s, id, p, now).value)
  {
  }

  lemma ApplyKeepsAudit(cfg: Config, s: State, id: nat, p: ProposalRow, now: Time)
    requires Apply(cfg, s, id, p, now).Ok?
    ensures SameTrail(s, Apply(cfg, s, id, p, now).value)
  {
    if p.action.PublishFinalGenesis? {
      assert Apply(cfg, s, id, p, now) == ApplyPublishGenesis(cfg, s, id, p);
    } else if p.action.ApproveValidator? || p.action.RejectValidator? || p.action.RemoveApprovedValidator?
              || p.action.ReplaceCommitteeMember? || Resizes(p.action) {
      ApplyKeepsAuditSome(cfg, s, id, p, now);
    } else {
      ApplyKeepsAuditRest(cfg, s, id, p, now);
    }
  }

  lemma DispatchOne(s: State, id: nat, r: AuditRecord, outcome: WriteOutcome)
    ensures var t := Dispatch(s, id, [r], outcome);
            && t.audit == s.audit + (if outcome == Lost then [] else [r])
            && t.exits == s.exits + (if outcome == Written then {} else {id})
  {
    assert [r][1..] == [];
  }

  lemma ExecuteTrail(cfg: Config, e: Execution)
    ensures var s, t := e.base, Execute(cfg, e.base, e.id, e.row, e.weather, e.now);
            && t.audit == s.audit + Trail(cfg, s, e)
            && t.exits == s.exits + (if Commits(cfg, s, e.id, e.row, e.weather, e.now) && e.weather.completion != Written
                                     then {e.id} else {})
  {
    var s := e.base;
    if Commits(cfg, s, e.id, e.row, e.weather, e.now) {
      var done := Apply(cfg, Logged(s, e.id), e.id, e.row, e.now).value;
      ApplyKeepsAudit(cfg, Logged(s, e.id), e.id, e.row, e.now);
      var events := ExecutionEvents(e.row.action)
                    + RecordedEvents(e.row.action, s.launch.committee, done.launch.committee);
      OneEventPerAction(e.row.action, s.launch.committee, done.launch.committee);
      var records := Records(e.id, events);
      assert records == [records[0]];
      DispatchOne(done, e.id, records[0], e.weather.completion);
      assert s.audit + [Intent(e.id)] + records == s.audit + ([Intent(e.id)] + records);
    } else {
      assert s.audit + [Intent(e.id)] + [Aborted(e.id)] == s.audit + [Intent(e.id), Aborted(e.id)];
    }
  }

  // ----- Preservation

  lemma IntentStays(log: seq<AuditRecord>, more: seq<AuditRecord>, id: nat, j: int)
    requires IntentBefore(log, id, j)
    ensures IntentBefore(log + more, id, j) && IntentBefore(log + more, id, |log + more|)
  {
    var i :| 0 <= i < j <= |log| && log[i] == Intent(id);
    assert (log + more)[i] == Intent(id);
  }

  /** A state whose log grew by entries that are no completions, and whose executed set is the same. */
  lemma QuietKeeps(s: State, t: State, more: seq<AuditRecord>)
    requires AuditInv(s) && t.audit == s.audit + more && s.exits <= t.exits
    requires Evolves(s.proposals, t.proposals)
    requires forall id :: IsExecuted(t, id) <==> IsExecuted(s, id)
    requires forall r :: r in more ==> !r.Completion?
    ensures AuditInv(t)
  {
    forall id ensures CompletionCount(t.audit, id) == CompletionCount(s.audit, id) {
      CountAppend(s.audit, more, id);
      NoneIn(more, id);
    }
    forall id | IsExecuted(t, id) ensures IntentBefore(t.audit, id, |t.audit|) {
      IntentStays(s.audit, more, id, |s.audit|);
    }
    forall j | 0 <= j < |t.audit| && t.audit[j].Completion? ensures CompletionAt(t, j) {
      assert t.audit[j] in more || j < |s.audit|;
      assert CompletionAt(s, j);
      IntentStays(s.audit, more, s.audit[j].proposal, j);
    }
  }

  lemma {:induction false} NoneIn(log: seq<AuditRecord>, id: nat)
    requires forall r :: r in log ==> !r.Completion?
    ensures CompletionCount(log, id) == 0
  {
    if log != [] {
      NoneIn(log[..|log| - 1], id);
    }
  }

  /** A committed execution: one proposal newly executed, its intent and at most one completion appended. */
  lemma CommitKeeps(s: State, t: State, id: nat, event: Event, logged: bool)
    requires AuditInv(s) && !IsExecuted(s, id) && Evolves(s.proposals, t.proposals)
    requires t.audit == s.audit + if logged then [Intent(id), Completion(id, event)] else [Intent(id)]
    requires t.exits == s.exits || t.exits == s.exits + {id}
    requires logged || id in t.exits
    requires IsExecuted(t, id) && Reports(event, t.proposals[id].action)
    requires forall q :: q != id ==> (IsExecuted(t, q) <==> IsExecuted(s, q))
    ensures AuditInv(t)
  {
    var more := if logged then [Intent(id), Completion(id, event)] else [Intent(id)];
    forall q ensures CompletionCount(t.audit, q) == CompletionCount(s.audit, q) + if logged && q == id then 1 else 0 {
      CountAppend(s.audit, more, q);
      TrailCount(id, event, logged, q);
    }
    assert t.audit[|s.audit|] == Intent(id);
    forall q | IsExecuted(t, q) ensures IntentBefore(t.audit, q, |t.audit|) {
      if q != id {
        IntentStays(s.audit, more, q, |s.audit|);
      }
    }
    forall j | 0 <= j < |t.audit| && t.audit[j].Completion? ensures CompletionAt(t, j) {
      if j < |s.audit| {
        assert CompletionAt(s, j);
        IntentStays(s.audit, more, s.audit[j].proposal, j);
      } else {
        assert j == |s.audit| + 1;
      }
    }
  }

  lemma TrailCount(id: nat, event: Event, logged: bool, q: nat)
    ensures CompletionCount(if logged then [Intent(id), Completion(id, event)] else [Intent(id)], q)
            == if logged && q == id then 1 else 0
  {
    assert [Intent(id)][..0] == [];
    assert CompletionCount([Intent(id)], q) == 0;
    assert [Intent(id), Completion(id, event)][..1] == [Intent(id)];
  }

  lemma CommittedTrail(cfg: Config, s: State, x: Input) returns (event: Event)
    requires Inv(cfg, s) && Committed(cfg, s, x)
    ensures var e, t := ExecutionOf(cfg, s, x).value, Next(cfg, s, x);
            && Reports(event, e.row.action)
            && t.audit == s.audit + (if e.weather.completion != Lost then [Intent(e.id), Completion(e.id, event)]
                                     else [Intent(e.id)])
            && t.exits == s.exits + (if e.weather.completion == Written then {} else {e.id})
  {
    var e := ExecutionOf(cfg, s, x).value;
    ExecutionIsSavable(cfg, s, x);
    ExecuteTrail(cfg, e);
    var done := Effect(cfg, s, x);
    OneEventPerAction(e.row.action, s.launch.committee, done.launch.committee);
    var events := ExecutionEvents(e.row.action)
                  + RecordedEvents(e.row.action, s.launch.committee, done.launch.committee);
    assert Records(e.id, events) == [Completion(e.id, events[0])];
    event := events[0];
  }

  lemma CommittedExecutes(cfg: Config, s: State, x: Input)
    requires Inv(cfg, s) && Committed(cfg, s, x)
    ensures var e, t := ExecutionOf(cfg, s, x).value, Next(cfg, s, x);
            && Evolves(s.proposals, t.proposals)
            && !IsExecuted(s, e.id) && IsExecuted(t, e.id) && t.proposals[e.id] == e.row
            && (forall q :: q != e.id ==> (IsExecuted(t, q) <==> IsExecuted(s, q)))
  {
    var e := ExecutionOf(cfg, s, x).value;
    ExecutionIsSavable(cfg, s, x);
    CommittedEffect(cfg, s, x);
    ApplyEvolves(cfg, Logged(e.base, e.id), e.id, e.row, e.now);
  }

  lemma CommittedAudit(cfg: Config, s: State, x: Input, t: State)
    requires Inv(cfg, s) && AuditInv(s) && Committed(cfg, s, x) && t == Next(cfg, s, x)
    ensures AuditInv(t)
  {
    var e := ExecutionOf(cfg, s, x).value;
    var event := CommittedTrail(cfg, s, x);
    CommittedExecutes(cfg, s, x);
    CommitKeeps(s, t, e.id, event, e.weather.completion != Lost);
  }

  lemma UncommittedAudit(cfg: Config, s: State, x: Input)
    requires Inv(cfg, s) && AuditInv(s) && !Committed(cfg, s, x) && ExecutionOf(cfg, s, x).Some?
    ensures AuditInv(Next(cfg, s, x))
  {
    var e := ExecutionOf(cfg, s, x).value;
    ExecutionIsSavable(cfg, s, x);
    ExecuteTrail(cfg, e);
    ExecuteShape(cfg, e.base, e.id, e.row, e.weather, e.now);
    QuietKeeps(s, Next(cfg, s, x), Trail(cfg, e.base, e));
  }

  /** Every other step appends nothing, or the effect of a veto. */
  lemma OtherTrail(cfg: Config, s: State, x: Input)
    requires Inv(cfg, s) && ExecutionOf(cfg, s, x).None?
    ensures var t := Next(cfg, s, x);
            && s.exits <= t.exits
            && (t.audit == s.audit ||
                (|t.audit| == |s.audit| + 1 && t.audit == s.audit + [t.audit[|s.audit|]]
                 && !t.audit[|s.audit|].Completion?))
  {
    if s.running && x.Decide? && HasMember(s.launch.committee, x.member) && IsPending(s.proposals, x.proposal) {
      var r := SignProposal(s.proposals[x.proposal], x.member, x.decision, s.launch.committee.thresholdM, x.now);
      if r.Ok? && r.value.status == Vetoed && r.value.action.ApproveAllocationFile? {
        var p := r.value;
        var saved := SaveLaunchAndProposal(s, RejectAllocation(s.launch, p.action.kind, p.action.hash), x.proposal, p);
        DispatchOne(saved, x.proposal, VetoEffect(x.proposal, AllocationFileRejected(p.action.kind, p.action.hash)),
                    x.weather.completion);
      }
    }
  }

  lemma OtherExecuted(cfg: Config, s: State, x: Input)
    requires Inv(cfg, s) && ExecutionOf(cfg, s, x).None?
    ensures forall id :: IsExecuted(Next(cfg, s, x), id) <==> IsExecuted(s, id)
  {
    ProposalsStep(cfg, s, x);
    if s.running && x.Decide? && HasMember(s.launch.committee, x.member) && IsPending(s.proposals, x.proposal) {
      DecideEvolves(cfg, s, x);
    } else if !x.Raise? && !x.Decide? {
      OtherProposals(cfg, s, x);
    }
  }

  lemma OtherAudit(cfg: Config, s: State, x: Input, t: State)
    requires Inv(cfg, s) && AuditInv(s) && ExecutionOf(cfg, s, x).None? && t == Next(cfg, s, x)
    ensures AuditInv(t)
  {
    OtherTrail(cfg, s, x);
    OtherExecuted(cfg, s, x);
    ProposalsStep(cfg, s, x);
    QuietKeeps(s, t, t.audit[|s.audit|..]);
  }

  lemma AuditStep(cfg: Config, states: seq<State>, xs: seq<Input>, k: nat)
    requires Run(cfg, states, xs) && k < |xs| && AuditInv(states[k])
    ensures AuditInv(states[k + 1])
  {
    Reachable(cfg, states, xs, k);
    assert StepAt(cfg, states, xs, k);
    var s, x := states[k], xs[k];
    if Committed(cfg, s, x) {
      CommittedAudit(cfg, s, x, states[k + 1]);
    } else if ExecutionOf(cfg, s, x).Some? {
      UncommittedAudit(cfg, s, x);
    } else {
      OtherAudit(cfg, s, x, states[k + 1]);
    }
  }

  /** The trail is complete in every state of every run, whatever failed along the way. */
  lemma {:induction false} TrailIsComplete(cfg: Config, states: seq<State>, xs: seq<Input>, k: nat)
    requires Run(cfg, states, xs) && k <= |xs|
    ensures AuditInv(states[k])
    decreases k
  {
    if k > 0 {
      TrailIsComplete(cfg, states, xs, k - 1);
      AuditStep(cfg, states, xs, k - 1);
    }
  }
}
