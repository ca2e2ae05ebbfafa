/**
 * The services as they run: objects are loaded from the stores, mutated and saved back, transactions roll back,
 * and every call is proved to take exactly the step the step system gives it (internal/application/services).
 */
module Service {
  import opened Prelude
  import L = Launches
  import P = Proposals
  import J = JoinRequests
  import R = Rehearsals
  import I = InputSets
  import F = FinalGenesis
  import C = Coordinator
  import opened LaunchAggregate
  import opened ProposalAggregate
  import opened RequestAggregates

  class Coordd {
    const cfg: C.Config
    var launch: L.LaunchRow
    var requests: seq<J.JoinRow>
    var proposals: map<nat, P.ProposalRow>
    var nextProposal: nat
    var readiness: seq<C.Confirmation>
    var attempts: seq<R.AttemptRow>
    var results: seq<R.ResultRow>
    var store: C.FinalStore
    var audit: seq<C.AuditRecord>
    var exits: set<nat>
    var running: bool

    function View(): C.State
      reads this
    {
      C.State(launch, requests, proposals, nextProposal, readiness, attempts, results, store, audit, exits, running)
    }

    constructor (cfg: C.Config, s: C.State)
      ensures this.cfg == cfg && View() == s
    {
      this.cfg := cfg;
      launch, requests, proposals, nextProposal := s.launch, s.requests, s.proposals, s.nextProposal;
      readiness, attempts, results, store := s.readiness, s.attempts, s.results, s.store;
      audit, exits, running := s.audit, s.exits, s.running;
    }

    // ----- Repositories and checks

    /** `l` is the stored launch as loaded. */
    ghost predicate Loaded(l: Launch)
      reads this, l
    {
      l.Row() == launch && l.approvedVotingPower == J.PowersOf(J.ApprovedRows(requests))
    }

    method FindLaunch() returns (l: Launch)
      ensures fresh(l) && Loaded(l)
    {
      var powers := J.LoadVotingPower(requests);
      l := new Launch(launch, powers);
    }

    method IsMember(l: Launch, a: Account) returns (found: bool)
      ensures found <==> L.HasMember(l.Row().committee, a)
    {
      var i := l.FindMember(a);
      return i < |l.members|;
    }

    method Current(l: Launch) returns (hash: Hash)
      requires l.Row() == launch
      ensures hash == C.Current(cfg, View())
    {
      var _, _, h := I.Assemble(cfg.hashing, l.record, requests, l.allocationFiles);
      return h;
    }

    method SaveLaunchAndProposal(l: Launch, p: Proposal)
      modifies this`launch, this`proposals
      ensures launch == l.Row() && proposals == old(proposals)[p.id := p.Row()]
    {
      launch := l.Row();
      proposals := proposals[p.id := p.Row()];
    }

    /** Some pending proposal's action meets the test. */
    method AnyPending(test: P.Action -> bool) returns (found: bool)
      ensures found <==> exists id | id in proposals :: C.IsPending(proposals, id) && test(proposals[id].action)
    {
      var todo := proposals.Keys;
      while todo != {}
        invariant todo <= proposals.Keys
        invariant forall id :: id in proposals && id !in todo ==>
                    !(C.IsPending(proposals, id) && test(proposals[id].action))
      {
        var id :| id in todo;
        if C.IsPending(proposals, id) && test(proposals[id].action) {
          return true;
        }
        todo := todo - {id};
      }
      return false;
    }

    method CheckGenesisFresh(l: Launch) returns (ok: bool)
      requires l.Row() == launch
      ensures ok <==> C.GenesisFresh(cfg, View())
    {
      if l.finalGenesisInputSetHash == "" {
        return false;
      }
      var current := Current(l);
      return current == l.finalGenesisInputSetHash;
    }

    method GateRehearsal(l: Launch) returns (ok: bool)
      requires l.Row() == launch
      ensures ok <==> C.GatePasses(cfg, View())
    {
      if cfg.gate != R.GateRequired {
        return true;
      }
      if l.rehearsalServiceKey == "" {
        return false;
      }
      var current := Current(l);
      return R.RehearsalReady(R.LatestResult(results), current);
    }

    // ----- Audit

    method WriteAudit(r: C.AuditRecord, outcome: C.WriteOutcome) returns (ok: bool)
      modifies this`audit
      ensures audit == if outcome == C.Lost then old(audit) else old(audit) + [r]
      ensures ok <==> outcome == C.Written
    {
      if outcome != C.Lost {
        audit := audit + [r];
      }
      return outcome == C.Written;
    }

    function RecordsOf(p: Proposal, events: seq<C.Event>): (out: seq<C.AuditRecord>)
      reads p
      ensures |out| == |events|
    {
      if p.status == P.Executed then C.Records(p.id, events)
      else seq(|events|, i requires 0 <= i < |events| => C.VetoEffect(p.id, events[i]))
    }

    /** Writes the queued events one by one; a failed write stops the process. */
    method DispatchEvents(p: Proposal, outcome: C.WriteOutcome)
      modifies this`audit, this`exits, this`running, p`events
      ensures View() == C.Dispatch(old(View()), p.id, old(RecordsOf(p, p.events)), outcome)
    {
      ghost var all := RecordsOf(p, p.events);
      var events := p.PopEvents();
      for i := 0 to |events|
        invariant p.status == old(p.status) && events == old(p.events) && all == RecordsOf(p, events)
        invariant C.Dispatch(old(View()), p.id, all, outcome) == C.Dispatch(View(), p.id, all[i..], outcome)
      {
        var record := if p.status == P.Executed then C.Completion(p.id, events[i]) else C.VetoEffect(p.id, events[i]);
        assert all[i..][0] == record && all[i..][1..] == all[i + 1..];
        var ok := WriteAudit(record, outcome);
        if !ok {
          exits := exits + {p.id};
          running := false;
          return;
        }
      }
    }

    // ----- Applying an executed proposal

    /** The outcome of applying: the tables the dispatcher leaves, or a failure to be rolled back. */
    ghost predicate Applied(r: Result<C.State, C.Failure>, ok: bool)
      reads this
    {
      match r
      case Ok(t) => ok && View() == t
      case Err(_) => !ok
    }

    method ApplyApproveValidator(l: Launch, p: Proposal) returns (ok: bool)
      requires p.action.ApproveValidator? && l.Row() == launch
      modifies this`launch, this`requests, this`proposals, l`approvedVotingPower
      ensures Applied(C.ApplyApprove(old(View()), p.id, p.Row()), ok)
    {
      var id := p.action.joinRequest;
      if id >= |requests| {
        return false;
      }
      var jr := new JoinRequest(requests[id]);
      var err := jr.Approve(p.id);
      if err.Some? {
        return false;
      }
      var _ := l.RecordValidatorApproval(cfg.round, p.action.operator, jr.submitted.selfDelegation);
      requests := requests[id := jr.Row()];
      SaveLaunchAndProposal(l, p);
      return true;
    }

    method ApplyRejectValidator(p: Proposal) returns (ok: bool)
      requires p.action.RejectValidator?
      modifies this`requests, this`proposals
      ensures Applied(C.ApplyReject(old(View()), p.id, p.Row()), ok)
    {
      var id := p.action.joinRequest;
      if id >= |requests| {
        return false;
      }
      var jr := new JoinRequest(requests[id]);
      var err := jr.Reject(p.action.reason);
      if err.Some? {
        return false;
      }
      requests := requests[id := jr.Row()];
      proposals := proposals[p.id := p.Row()];
      return true;
    }

    method ApplyRemoveValidator(l: Launch, p: Proposal) returns (ok: bool)
      requires p.action.RemoveApprovedValidator? && l.Row() == launch
      modifies this`launch, this`requests, this`proposals, l`approvedVotingPower
      ensures Applied(C.ApplyRemove(old(View()), p.id, p.Row()), ok)
    {
      if l.status != L.WindowOpen && l.status != L.WindowClosed {
        return false;
      }
      var id := p.action.joinRequest;
      if id >= |requests| {
        return false;
      }
      var jr := new JoinRequest(requests[id]);
      var err := jr.Revoke(p.action.reason);
      if err.Some? {
        return false;
      }
      l.RemoveValidatorApproval(p.action.operator);
      requests := requests[id := jr.Row()];
      SaveLaunchAndProposal(l, p);
      return true;
    }

    method ApplyPublishChainRecord(l: Launch, p: Proposal) returns (ok: bool)
      requires p.action.PublishChainRecord? && l.Row() == launch
      modifies this`launch, this`proposals, l
      ensures Applied(C.ApplyPublishChainRecord(old(View()), p.id, p.Row()), ok)
    {
      if l.initialGenesisSha256 == "" || p.action.initialGenesisHash != l.initialGenesisSha256 {
        return false;
      }
      var err := l.Publish(p.action.initialGenesisHash);
      if err.Some? {
        return false;
      }
      SaveLaunchAndProposal(l, p);
      return true;
    }

    method ExpireRequest(i: nat)
      requires i < |requests| && requests[i].status == J.Pending
      modifies this`requests
      ensures requests == old(requests)[i := old(requests)[i].(status := J.ExpiredRequest)]
    {
      var jr := new JoinRequest(requests[i]);
      var _ := jr.Expire();
      requests := requests[i := jr.Row()];
    }

    /** Expires the pending requests of the page, newest first. */
    method ExpirePendingRequests()
      modifies this`requests
      ensures requests == J.ExpirePending(old(requests), C.PENDING_PAGE)
    {
      ghost var before := requests;
      var left := C.PENDING_PAGE;
      var i := |requests|;
      assert before[..i] == before;
      while i > 0
        invariant 0 <= i <= |requests| == |before| && left >= 0
        invariant requests[..i] == before[..i]
        invariant J.ExpirePending(before, C.PENDING_PAGE) == J.ExpirePending(before[..i], left) + requests[i..]
      {
        i := i - 1;
        J.ExpireLast(before, i, left);
        ghost var tail := requests[i + 1..];
        assert requests[i] == before[i];
        if requests[i].status == J.Pending && left > 0 {
          ExpireRequest(i);
          left := left - 1;
        }
        assert requests[i..] == [requests[i]] + tail;
      }
    }

    method ApplyCloseWindow(l: Launch, p: Proposal) returns (ok: bool)
      requires p.action.CloseApplicationWindow? && Loaded(l)
      modifies this`launch, this`requests, this`proposals, l
      ensures Applied(C.ApplyClose(cfg, old(View()), p.id, p.Row()), ok)
    {
      var approved := J.ApprovedRows(requests);
      var err := l.CloseWindow(cfg.round, |approved|);
      if err.Some? {
        return false;
      }
      ExpirePendingRequests();
      SaveLaunchAndProposal(l, p);
      return true;
    }

    method ApplyPublishGenesis(l: Launch, p: Proposal) returns (ok: bool)
      requires p.action.PublishFinalGenesis? && l.Row() == launch
      modifies this`launch, this`proposals, l
      ensures Applied(C.ApplyPublishGenesis(cfg, old(View()), p.id, p.Row()), ok)
    {
      if p.action.genesisHash != l.finalGenesisSha256 {
        return false;
      }
      var isFresh := CheckGenesisFresh(l);
      if !isFresh {
        return false;
      }
      if cfg.gate == R.GateRequired {
        var passes := GateRehearsal(l);
        if !passes {
          return false;
        }
      }
      var err := l.PublishGenesis(p.action.genesisHash);
      if err.Some? {
        return false;
      }
      SaveLaunchAndProposal(l, p);
      return true;
    }

    method ApplyUpdateGenesisTime(l: Launch, p: Proposal, now: Time) returns (ok: bool)
      requires p.action.UpdateGenesisTime? && l.Row() == launch
      modifies this`launch, this`proposals, this`readiness, l`record
      ensures Applied(C.ApplyUpdateTime(old(View()), p.id, p.Row(), now), ok)
    {
      if l.status == L.Launched || l.status == L.Canceled {
        return false;
      }
      l.record := l.record.(genesisTime := Some(p.action.newGenesisTime));
      readiness := C.Invalidate(readiness, now);
      SaveLaunchAndProposal(l, p);
      return true;
    }

    method ApplyApproveAllocationFile(l: Launch, p: Proposal) returns (ok: bool)
      requires p.action.ApproveAllocationFile? && l.Row() == launch
      modifies this`launch, this`proposals, l
      ensures Applied(C.WithLaunch(old(View()), p.id, p.Row(),
                                   L.ApproveAllocation(old(launch), p.action.kind, p.action.hash, p.id)), ok)
    {
      var err := l.ApproveAllocationFile(p.action.kind, p.action.hash, p.id);
      if err.Some? {
        return false;
      }
      SaveLaunchAndProposal(l, p);
      return true;
    }

    method ApplyReviseGenesis(l: Launch, p: Proposal, now: Time) returns (ok: bool)
      requires l.Row() == launch
      modifies this`launch, this`proposals, this`readiness, l
      ensures Applied(C.ApplyRevise(old(View()), p.id, p.Row(), now), ok)
    {
      var err := l.ReopenForRevision();
      if err.Some? {
        return false;
      }
      readiness := C.Invalidate(readiness, now);
      SaveLaunchAndProposal(l, p);
      return true;
    }

    method ApplyCancelLaunch(l: Launch, p: Proposal, now: Time) returns (ok: bool)
      requires l.Row() == launch
      modifies this`launch, this`proposals, this`readiness, l
      ensures Applied(C.ApplyCancel(old(View()), p.id, p.Row(), now), ok)
    {
      var prev := l.status;
      var err := l.Cancel();
      if err.Some? {
        return false;
      }
      if prev == L.GenesisReady {
        readiness := C.Invalidate(readiness, now);
      }
      SaveLaunchAndProposal(l, p);
      return true;
    }

    method ApplyReplaceCommitteeMember(l: Launch, p: Proposal) returns (ok: bool)
      requires p.action.ReplaceCommitteeMember? && l.Row() == launch
      modifies this`launch, this`proposals, l, p`events
      ensures Applied(C.WithCommittee(old(View()), p.id, old(p.Row()),
                                      L.Replace(old(launch).committee, p.action.oldAddress, p.action.newMember)), ok)
      ensures ok ==> p.events == old(p.events) + [C.CommitteeChanged(old(launch).committee, launch.committee)]
    {
      var before := l.Row().committee;
      var err := l.ReplaceCommitteeMember(p.action.oldAddress, p.action.newMember);
      if err.Some? {
        return false;
      }
      p.RecordEvent(C.CommitteeChanged(before, l.Row().committee));
      SaveLaunchAndProposal(l, p);
      return true;
    }

    /** Expires everything pending before it resizes, even if the resize then fails. */
    method ApplyExpandCommittee(l: Launch, p: Proposal) returns (ok: bool)
      requires p.action.ExpandCommittee? && l.Row() == launch
      modifies this`launch, this`proposals, l, p`events
      ensures var c := old(launch).committee;
              var m := L.ResolveThreshold(c.thresholdM, c.totalN + 1, p.action.newThresholdM);
              Applied(C.WithCommittee(old(View()).(proposals := C.ExpireAllPending(old(proposals))), p.id, old(p.Row()),
                                      L.Expand(c, p.action.addedMember, m)), ok)
      ensures ok ==> p.events == old(p.events) + [C.CommitteeChanged(old(launch).committee, launch.committee)]
    {
      var m := L.ResolveThreshold(l.thresholdM, l.totalN + 1, p.action.newThresholdM);
      proposals := C.ExpireAllPending(proposals);
      var before := l.Row().committee;
      var err := l.ExpandCommittee(p.action.addedMember, m);
      if err.Some? {
        return false;
      }
      p.RecordEvent(C.CommitteeChanged(before, l.Row().committee));
      SaveLaunchAndProposal(l, p);
      return true;
    }

    method ApplyShrinkCommittee(l: Launch, p: Proposal) returns (ok: bool)
      requires p.action.ShrinkCommittee? && l.Row() == launch
      modifies this`launch, this`proposals, l, p`events
      ensures var c := old(launch).committee;
              var m := L.ResolveThreshold(c.thresholdM, c.totalN - 1, p.action.newThresholdM);
              Applied(C.WithCommittee(old(View()).(proposals := C.ExpireAllPending(old(proposals))), p.id, old(p.Row()),
                                      L.Shrink(c, p.action.removeAddress, m)), ok)
      ensures ok ==> p.events == old(p.events) + [C.CommitteeChanged(old(launch).committee, launch.committee)]
    {
      var m := L.ResolveThreshold(l.thresholdM, l.totalN - 1, p.action.newThresholdM);
      proposals := C.ExpireAllPending(proposals);
      var before := l.Row().committee;
      var err := l.ShrinkCommittee(p.action.removeAddress, m);
      if err.Some? {
        return false;
      }
      p.RecordEvent(C.CommitteeChanged(before, l.Row().committee));
      SaveLaunchAndProposal(l, p);
      return true;
    }

    method ApplyProposal(l: Launch, p: Proposal, now: Time) returns (ok: bool)
      requires Loaded(l)
      modifies this`launch, this`requests, this`proposals, this`readiness, l, p`events
      ensures Applied(C.Apply(cfg, old(View()), p.id, old(p.Row()), now), ok)
      ensures ok ==> p.events == old(p.events) + C.RecordedEvents(p.action, old(launch).committee, launch.committee)
    {
      match p.action {
        case ApproveValidator(_, _) => ok := ApplyApproveValidator(l, p);
        case RejectValidator(_, _, _) => ok := ApplyRejectValidator(p);
        case RemoveApprovedValidator(_, _, _) => ok := ApplyRemoveValidator(l, p);
        case PublishChainRecord(_) => ok := ApplyPublishChainRecord(l, p);
        case CloseApplicationWindow => ok := ApplyCloseWindow(l, p);
        case PublishFinalGenesis(_) => ok := ApplyPublishGenesis(l, p);
        case UpdateGenesisTime(_, _) => ok := ApplyUpdateGenesisTime(l, p, now);
        case ApproveAllocationFile(_, _) => ok := ApplyApproveAllocationFile(l, p);
        case ReviseGenesis => ok := ApplyReviseGenesis(l, p, now);
        case CancelLaunch => ok := ApplyCancelLaunch(l, p, now);
        case ReplaceCommitteeMember(_, _) => ok := ApplyReplaceCommitteeMember(l, p);
        case ExpandCommittee(_, _) => ok := ApplyExpandCommittee(l, p);
        case ShrinkCommittee(_, _) => ok := ApplyShrinkCommittee(l, p);
      }
    }

    /** Intent, transaction, completion; the transaction's writes are undone when it fails. */
    method ApplyAndSave(l: Launch, p: Proposal, w: C.Weather, now: Time)
      requires Loaded(l) && p.status == P.Executed && p.events == C.ExecutionEvents(p.action)
      modifies this, l, p`events
      ensures View() == C.Execute(cfg, old(View()), p.id, old(p.Row()), w, now)
    {
      var logged := WriteAudit(C.Intent(p.id), w.intent);
      if !logged {
        return;
      }
      ghost var start := View();
      var launch0, requests0, proposals0, readiness0 := launch, requests, proposals, readiness;
      var ok := ApplyProposal(l, p, now);
      if !ok || w.txFails {
        launch, requests, proposals, readiness := launch0, requests0, proposals0, readiness0;
        assert View() == start;
        var _ := WriteAudit(C.Aborted(p.id), w.abort);
        return;
      }
      DispatchEvents(p, w.completion);
    }

    // ----- Proposal service

    method GuardFinalizationRaise(l: Launch, a: P.Action) returns (ok: bool)
      requires l.Row() == launch
      ensures ok <==> && (a.PublishFinalGenesis? ==>
                            C.GenesisFresh(cfg, View()) && !C.HasPendingSetChange(proposals) && C.GatePasses(cfg, View()))
                      && (C.ChangesSet(a) ==> !C.HasPendingPublication(proposals))
    {
      if a.PublishFinalGenesis? {
        var isFresh := CheckGenesisFresh(l);
        if !isFresh {
          return false;
        }
        var pending := AnyPending(b => C.ChangesSet(b));
        if pending {
          return false;
        }
        ok := GateRehearsal(l);
        return;
      }
      if C.ChangesSet(a) {
        var pending := AnyPending((b: P.Action) => b.PublishFinalGenesis?);
        return !pending;
      }
      return true;
    }

    /** The guards of a raise, in the order they are made. */
    method MayRaise(l: Launch, member: Account, a: P.Action) returns (ok: bool)
      requires l.Row() == launch
      ensures ok <==> C.RaiseAllowed(cfg, View(), member, a)
    {
      var isMember := IsMember(l, member);
      if !isMember {
        return false;
      }
      var consistent := GuardFinalizationRaise(l, a);
      if !consistent {
        return false;
      }
      if a.CancelLaunch? && (l.status == L.Launched || l.status == L.Canceled) {
        return false;
      }
      var conflict := AnyPending(b => C.ConflictKeyOf(b) == C.ConflictKeyOf(a));
      assert conflict <==> C.HasConflict(proposals, a);
      return !conflict && P.ValidPayload(a);
    }

    /** Executes a proposal that reached its quorum, or stores it as it stands. */
    method Settle(l: Launch, p: Proposal, w: C.Weather, now: Time)
      requires Loaded(l) && (p.status == P.Executed ==> p.events == C.ExecutionEvents(p.action))
      modifies this, l, p`events
      ensures View() == if old(p.status) == P.Executed then C.Execute(cfg, old(View()), p.id, old(p.Row()), w, now)
                        else C.SaveProposal(old(View()), p.id, old(p.Row()))
    {
      if p.status == P.Executed {
        ApplyAndSave(l, p, w, now);
      } else {
        proposals := proposals[p.id := p.Row()];
      }
    }

    /** A new proposal under the next identifier, executed already if its proposer's signature is quorum enough. */
    method Propose(m: int, member: Account, a: P.Action, now: Time) returns (p: Proposal)
      modifies this`nextProposal
      ensures fresh(p) && p.id == old(nextProposal) && p.action == a && nextProposal == old(nextProposal) + 1
      ensures p.Row() == P.CheckQuorum(P.NewProposal(a, member, now), m, now)
      ensures p.status == P.Executed ==> p.events == C.ExecutionEvents(a)
    {
      p := new Proposal.New(nextProposal, a, member, now);
      nextProposal := nextProposal + 1;
      p.CheckQuorum(m, now);
    }

    method Enter(l: Launch, member: Account, a: P.Action, w: C.Weather, now: Time)
      requires Loaded(l)
      modifies this, l
      ensures View() == C.EnterProposal(cfg, old(View()), member, a, w, now)
    {
      var p := Propose(l.thresholdM, member, a, now);
      assert View() == old(View()).(nextProposal := old(nextProposal) + 1);
      Settle(l, p, w, now);
    }

    method Raise(member: Account, a: P.Action, w: C.Weather, now: Time)
      requires running
      modifies this
      ensures View() == C.RaiseProposal(cfg, old(View()), member, a, w, now)
    {
      var l := FindLaunch();
      var allowed := MayRaise(l, member, a);
      if allowed {
        Enter(l, member, a, w, now);
      }
    }

    /** A stale veto only stores the proposal; otherwise the file is rejected and the rejection dispatched. */
    method ApplyAllocationVeto(l: Launch, p: Proposal, w: C.Weather)
      requires p.action.ApproveAllocationFile? && l.Row() == launch && p.status == P.Vetoed && p.events == []
      modifies this, l, p`events
      ensures View() == C.VetoAllocation(old(View()), p.id, old(p.Row()), w)
    {
      var rejected := l.RejectAllocationFile(p.action.kind, p.action.hash);
      if !rejected {
        proposals := proposals[p.id := p.Row()];
        return;
      }
      if w.txFails {
        return;
      }
      SaveLaunchAndProposal(l, p);
      p.RecordEvent(C.AllocationFileRejected(p.action.kind, p.action.hash));
      assert RecordsOf(p, p.events) == [C.VetoEffect(p.id, C.AllocationFileRejected(p.action.kind, p.action.hash))];
      DispatchEvents(p, w.completion);
    }

    method Sign(id: nat, member: Account, d: P.Decision, w: C.Weather, now: Time)
      requires running
      modifies this
      ensures View() == C.SignStep(cfg, old(View()), id, member, d, w, now)
    {
      var l := FindLaunch();
      var isMember := IsMember(l, member);
      if !isMember || id !in proposals {
        return;
      }
      var p := new Proposal.Load(id, proposals[id]);
      if p.status != P.PendingSignatures {
        return;
      }
      var err := p.Sign(member, d, l.thresholdM, now);
      if err.Some? {
        return;
      }
      if p.status == P.Vetoed && p.action.ApproveAllocationFile? {
        ApplyAllocationVeto(l, p, w);
      } else {
        Settle(l, p, w, now);
      }
    }

    method ExpireStale(now: Time)
      modifies this`proposals
      ensures proposals == C.ExpireAllStale(old(proposals), now)
    {
      var todo := proposals.Keys;
      while todo != {}
        invariant todo <= proposals.Keys == old(proposals).Keys
        invariant forall id :: id in proposals ==>
                    proposals[id] == if id in todo then old(proposals)[id] else P.ExpireIfStale(old(proposals)[id], now)
      {
        var id :| id in todo;
        var p := new Proposal.Load(id, proposals[id]);
        var expired := p.ExpireIfStale(now);
        if expired {
          proposals := proposals[id := p.Row()];
        }
        todo := todo - {id};
      }
    }

    // ----- Join requests and readiness

    /** Expires the validator's pending request, or refuses when it has an approved one. */
    method SupersedePending(operator: Account) returns (ok: bool)
      modifies this`requests
      ensures var i := J.ActiveIndex(old(requests), operator);
              if i == |old(requests)| then ok && requests == old(requests)
              else if old(requests)[i].status == J.Approved then !ok && requests == old(requests)
              else ok && requests == old(requests)[i := old(requests)[i].(status := J.ExpiredRequest)]
    {
      var i := J.ActiveIndex(requests, operator);
      if i == |requests| {
        return true;
      }
      if requests[i].status == J.Approved {
        return false;
      }
      ExpireRequest(i);
      return true;
    }

    method Submit(operator: Account, submitter: Account, key: string, gentx: string, fieldsOk: bool, now: Time)
      returns (accepted: bool)
      modifies this`requests
      ensures View() == C.SubmitStep(cfg, old(View()), operator, submitter, key, gentx, fieldsOk, now)
      ensures accepted <==> |requests| == |old(requests)| + 1
    {
      if launch.status != L.WindowOpen || now > launch.record.gentxDeadline {
        return false;
      }
      if J.SubmitterCount(requests, submitter) >= C.SUBMISSION_CAP {
        return false;
      }
      var free := SupersedePending(operator);
      if !free || !fieldsOk || J.KeyInUse(requests, key) {
        return false;
      }
      requests := requests + [J.NewRequest(operator, submitter, key, gentx, C.StakeOf(cfg, gentx))];
      return true;
    }

    method Confirm(operator: Account, genesisHash: Hash, binaryHash: Hash, now: Time) returns (accepted: bool)
      modifies this`readiness
      ensures View() == C.ConfirmStep(old(View()), operator, genesisHash, binaryHash, now)
      ensures accepted <==> C.ConfirmAllowed(old(View()), operator, genesisHash, binaryHash)
    {
      if launch.status != L.GenesisReady {
        return false;
      }
      var i := J.NewestIndex(requests, operator);
      if i == |requests| || requests[i].status != J.Approved {
        return false;
      }
      if genesisHash != launch.finalGenesisSha256 {
        return false;
      }
      if launch.record.binarySha256 != "" && binaryHash != launch.record.binarySha256 {
        return false;
      }
      var c := C.NewestConfirmation(readiness, operator);
      if c < |readiness| && C.ValidConfirmation(readiness[c]) {
        return false;
      }
      readiness := readiness + [C.Confirmation(i, operator, genesisHash, binaryHash, now, None)];
      return true;
    }

    // ----- Launch service

    /** Stores the file and binds its digest to the input set current after the genesis time is taken over. */
    method BindFinal(l: Launch, hash: Hash, genesisTime: Time, file: C.FinalStore, saved: bool)
      requires l.Row() == launch
      modifies this`launch, this`store, l
      ensures View() == C.BindFinal(cfg, old(View()), hash, genesisTime, file, saved)
    {
      l.record := l.record.(genesisTime := Some(genesisTime));
      store := file;
      l.finalGenesisSha256 := hash;
      var _, _, inputSetHash := I.Assemble(cfg.hashing, l.record, requests, l.allocationFiles);
      if saved {
        l.finalGenesisInputSetHash := inputSetHash;
        launch := l.Row();
      }
    }

    method UploadFinalGenesis(caller: Account, file: F.GenesisFile, now: Time, saved: bool)
      modifies this`launch, this`store
      ensures View() == C.UploadFinalStep(cfg, old(View()), caller, file, now, saved)
    {
      var l := FindLaunch();
      var isMember := IsMember(l, caller);
      if !isMember || l.status != L.WindowClosed {
        return;
      }
      if file.chainId == "" || file.chainId != l.record.chainId {
        return;
      }
      var checked := F.ValidateFinalGenesis(file, I.Keys(J.ApprovedRows(requests)), now);
      if checked.Err? {
        return;
      }
      BindFinal(l, cfg.fileDigest(file), checked.value, store.(file := Some(file)), saved);
    }

    method UploadFinalGenesisRef(caller: Account, hash: Hash, genesisTime: Time, now: Time, saved: bool)
      modifies this`launch, this`store
      ensures View() == C.UploadFinalRefStep(cfg, old(View()), caller, hash, genesisTime, now, saved)
    {
      if genesisTime == 0 || genesisTime <= now {
        return;
      }
      var l := FindLaunch();
      var isMember := IsMember(l, caller);
      if !isMember || l.status != L.WindowClosed || !IsSha256Hex(hash) {
        return;
      }
      BindFinal(l, hash, genesisTime, store.(ref := Some(hash)), saved);
    }

    method UploadInitialGenesis(caller: Account, hash: Hash)
      modifies this`launch
      ensures View() == C.UploadInitialStep(old(View()), caller, hash)
    {
      var l := FindLaunch();
      var isMember := IsMember(l, caller);
      if !isMember || l.status != L.Draft {
        return;
      }
      l.initialGenesisSha256 := hash;
      launch := l.Row();
    }

    method UploadAllocationFile(caller: Account, kind: L.AllocationType, hash: Hash)
      modifies this`launch
      ensures View() == C.UploadAllocationStep(old(View()), caller, kind, hash)
    {
      var l := FindLaunch();
      var isMember := IsMember(l, caller);
      if !isMember {
        return;
      }
      var err := l.UploadAllocationFile(kind, hash);
      if err.None? {
        launch := l.Row();
      }
    }

    method PatchDraft(caller: Account, record: L.ChainRecord)
      modifies this`launch
      ensures View() == C.PatchDraftStep(old(View()), caller, record)
    {
      var l := FindLaunch();
      var isMember := IsMember(l, caller);
      if !isMember || l.status != L.Draft || !C.PatchAllowed(l.record, record) {
        return;
      }
      l.record := record;
      launch := l.Row();
    }

    method PatchServiceKey(caller: Account, key: string)
      modifies this`launch
      ensures View() == C.PatchServiceKeyStep(old(View()), caller, key)
    {
      var l := FindLaunch();
      var isMember := IsMember(l, caller);
      if isMember {
        l.rehearsalServiceKey := key;
        launch := l.Row();
      }
    }

    method SetCommittee(caller: Account, c: L.Committee)
      modifies this`launch
      ensures View() == C.SetCommitteeStep(old(View()), caller, c)
    {
      var l := FindLaunch();
      if l.leadAddress != caller || l.status != L.Draft {
        return;
      }
      if c.thresholdM < 1 || c.thresholdM > c.totalN || |c.members| != c.totalN || c.members[0].address != c.lead {
        return;
      }
      l.members, l.thresholdM, l.totalN, l.leadAddress := c.members, c.thresholdM, c.totalN, c.lead;
      launch := l.Row();
    }

    method OpenWindow(caller: Account)
      modifies this`launch
      ensures View() == C.OpenWindowStep(old(View()), caller)
    {
      var l := FindLaunch();
      var isMember := IsMember(l, caller);
      if !isMember {
        return;
      }
      if l.status == L.Draft {
        if l.initialGenesisSha256 == "" {
          return;
        }
        var err := l.Publish(l.initialGenesisSha256);
        if err.Some? {
          return;
        }
      }
      var err := l.OpenWindow();
      if err.None? {
        launch := l.Row();
      }
    }

    method CancelLaunch(caller: Account)
      modifies this`launch
      ensures View() == C.CancelDirectStep(old(View()), caller)
    {
      var l := FindLaunch();
      if l.leadAddress != caller {
        return;
      }
      if l.status != L.Draft && l.status != L.Published {
        return;
      }
      var err := l.Cancel();
      if err.None? {
        launch := l.Row();
      }
    }

    method MarkLaunched()
      modifies this`launch
      ensures View() == C.MarkLaunchedStep(old(View()))
    {
      var l := FindLaunch();
      var err := l.MarkLaunched();
      if err.None? {
        launch := l.Row();
      }
    }

    // ----- Rehearsal bridge

    /** Mints or loads the attempt of the current input set, then leases it; a minted attempt stays on refusal. */
    method ClaimRehearsalRun(runner: string, now: Time) returns (granted: Option<nat>)
      modifies this`attempts
      ensures View() == C.ClaimStep(cfg, old(View()), runner, now)
      ensures granted.Some? ==> granted.value < |attempts| && attempts[granted.value].runner == runner
      ensures granted.Some? ==> R.IsLeased(attempts[granted.value], now) || cfg.leaseTtl == 0
    {
      var l := FindLaunch();
      var hash := Current(l);
      var i := R.AttemptIndex(attempts, hash);
      if i == |attempts| {
        attempts := attempts + [R.NewAttempt(hash, now)];
      }
      var attempt := new RehearsalAttempt(attempts[i]);
      var err := attempt.Claim(runner, now, now + cfg.leaseTtl);
      if err.Some? {
        return None;
      }
      attempts := attempts[i := attempt.Row()];
      return Some(i);
    }

    method FindResultBySignature(signature: string) returns (found: Option<R.ResultRow>)
      ensures found.None? <==> forall r :: r in results ==> r.signature != signature
      ensures found.Some? ==> found.value in results && found.value.signature == signature
    {
      for i := 0 to |results|
        invariant forall r :: r in results[..i] ==> r.signature != signature
      {
        if results[i].signature == signature {
          return Some(results[i]);
        }
        assert results[..i + 1] == results[..i] + [results[i]];
      }
      assert results[..|results|] == results;
      return None;
    }

    method RecordRehearsalResult(f: C.Fact, verified: bool, released: bool, now: Time) returns (result: Option<R.ResultRow>)
      modifies this`results, this`attempts
      ensures View() == C.RecordResultStep(cfg, old(View()), f, verified, released, now)
      ensures result.Some? ==> result.value in results && result.value.signature == f.signature
    {
      var l := FindLaunch();
      if l.rehearsalServiceKey == "" || !verified {
        return None;
      }
      var existing := FindResultBySignature(f.signature);
      if existing.Some? {
        return existing;
      }
      if f.outcome.None? {
        return None;
      }
      if f.attempt.None? || f.attempt.value >= |attempts| {
        return None;
      }
      var i := f.attempt.value;
      var attempt := new RehearsalAttempt(attempts[i]);
      if attempt.inputSetHash != f.inputSetHash {
        return None;
      }
      var current := Current(l);
      var row := R.ResultRow(i, f.inputSetHash, f.outcome.value, f.signature, attempt.inputSetHash != current, now);
      results := results + [row];
      attempt.Release();
      if released {
        attempts := attempts[i := attempt.Row()];
      }
      return Some(row);
    }

    method ResetRehearsalAttempt(caller: Account, i: nat)
      modifies this`attempts
      ensures View() == C.ResetStep(old(View()), caller, i)
    {
      var l := FindLaunch();
      var isMember := IsMember(l, caller);
      if !isMember || i >= |attempts| {
        return;
      }
      var attempt := new RehearsalAttempt(attempts[i]);
      attempt.Reset();
      attempts := attempts[i := attempt.Row()];
    }

    // ----- All together

    method HandleGovernance(x: C.Input)
      requires running && (x.Raise? || x.Decide? || x.ExpireStale?)
      modifies this
      ensures View() == C.Next(cfg, old(View()), x)
    {
      match x {
        case Raise(member, a, w, now) => Raise(member, a, w, now);
        case Decide(id, member, d, w, now) => Sign(id, member, d, w, now);
        case ExpireStale(now) => ExpireStale(now);
      }
    }

    method HandleUpload(x: C.Input)
      requires running
      requires x.UploadInitial? || x.UploadFinal? || x.UploadFinalRef? || x.UploadAllocationFile?
      modifies this`launch, this`store
      ensures View() == C.Next(cfg, old(View()), x)
    {
      match x {
        case UploadInitial(caller, hash) => UploadInitialGenesis(caller, hash);
        case UploadFinal(caller, file, now, saved) => UploadFinalGenesis(caller, file, now, saved);
        case UploadFinalRef(caller, hash, t, now, saved) => UploadFinalGenesisRef(caller, hash, t, now, saved);
        case UploadAllocationFile(caller, kind, hash) => UploadAllocationFile(caller, kind, hash);
      }
    }

    method HandleDraft(x: C.Input)
      requires running && (x.PatchDraft? || x.PatchServiceKey? || x.SetCommittee?)
      modifies this`launch
      ensures View() == C.Next(cfg, old(View()), x)
    {
      match x {
        case PatchDraft(caller, record) => PatchDraft(caller, record);
        case PatchServiceKey(caller, key) => PatchServiceKey(caller, key);
        case SetCommittee(caller, c) => SetCommittee(caller, c);
      }
    }

    method HandleLaunch(x: C.Input)
      requires running
      requires x.OpenApplications? || x.CancelDirect? || x.BlockOneSeen?
      modifies this`launch
      ensures View() == C.Next(cfg, old(View()), x)
    {
      match x {
        case OpenApplications(caller) => OpenWindow(caller);
        case CancelDirect(caller) => CancelLaunch(caller);
        case BlockOneSeen => MarkLaunched();
      }
    }

    /** Whatever comes in, the object takes the step of the step system; a stopped process only restarts. */
    method Handle(x: C.Input)
      modifies this
      ensures View() == C.Next(cfg, old(View()), x)
    {
      if !running {
        running := x.Restart?;
        return;
      }
      match x {
        case Submit(op, sub, key, gentx, ok, now) => var _ := Submit(op, sub, key, gentx, ok, now);
        case Confirm(op, gh, bh, now) => var _ := Confirm(op, gh, bh, now);
        case ClaimRun(runner, now) => var _ := ClaimRehearsalRun(runner, now);
        case RecordResult(f, verified, released, now) =>
          var _ := RecordRehearsalResult(f, verified, released, now);
        case ResetAttempt(caller, i) => ResetRehearsalAttempt(caller, i);
        case Restart =>
        case Raise(_, _, _, _) => HandleGovernance(x);
        case Decide(_, _, _, _, _) => HandleGovernance(x);
        case ExpireStale(_) => HandleGovernance(x);
        case UploadInitial(_, _) => HandleUpload(x);
        case UploadFinal(_, _, _, _) => HandleUpload(x);
        case UploadFinalRef(_, _, _, _, _) => HandleUpload(x);
        case UploadAllocationFile(_, _, _) => HandleUpload(x);
        case PatchDraft(_, _) => HandleDraft(x);
        case PatchServiceKey(_, _) => HandleDraft(x);
        case SetCommittee(_, _) => HandleDraft(x);
        case _ => HandleLaunch(x);
      }
    }
  }
}
