/** The Proposal object with its signatures and its queue of events, updated in place (internal/domain/proposal). */
module ProposalAggregate {
  import opened Prelude
  import P = Proposals
  import opened Coordinator

  class Proposal {
    const id: nat
    const action: P.Action
    const proposedBy: Account
    const proposedAt: Time
    const ttlExpires: Time
    var status: P.ProposalStatus
    var executedAt: Option<Time>
    var signatures: seq<P.SignatureEntry>
    var events: seq<Event>

    function Row(): P.ProposalRow
      reads this
    {
      P.ProposalRow(action, proposedBy, proposedAt, ttlExpires, status, executedAt, signatures)
    }

    /** A new proposal carries its proposer's signature. */
    constructor New(id: nat, action: P.Action, proposer: Account, now: Time)
      ensures this.id == id && this.action == action
      ensures Row() == P.NewProposal(action, proposer, now) && events == []
    {
      this.id, this.action, proposedBy, proposedAt := id, action, proposer, now;
      ttlExpires := now + P.PROPOSAL_TTL;
      status, executedAt := P.PendingSignatures, None;
      signatures := [P.SignatureEntry(proposer, P.Sign, now)];
      events := [];
    }

    constructor Load(id: nat, row: P.ProposalRow)
      ensures this.id == id && action == row.action && Row() == row && events == []
    {
      this.id, action, proposedBy, proposedAt := id, row.action, row.proposedBy, row.proposedAt;
      ttlExpires, status, executedAt, signatures := row.ttlExpires, row.status, row.executedAt, row.signatures;
      events := [];
    }

    method SignCount() returns (n: nat)
      ensures n == P.SignCount(signatures)
    {
      n := 0;
      for i := 0 to |signatures|
        invariant n == P.SignCount(signatures[..i])
      {
        assert signatures[..i + 1][..i] == signatures[..i];
        if signatures[i].decision == P.Sign {
          n := n + 1;
        }
      }
      assert signatures[..|signatures|] == signatures;
    }

    method HasSigned(member: Account) returns (found: bool)
      ensures found <==> P.HasSigned(signatures, member)
    {
      for i := 0 to |signatures|
        invariant forall j :: 0 <= j < i ==> signatures[j].member != member
      {
        if signatures[i].member == member {
          return true;
        }
      }
      return false;
    }

    /** Executes on quorum and queues the events of the action; a proposal already decided is left alone. */
    method CheckQuorum(thresholdM: int, now: Time)
      modifies this
      ensures Row() == P.CheckQuorum(old(Row()), thresholdM, now)
      ensures events == old(events)
                        + if Row().status == P.Executed && old(status) != P.Executed then ExecutionEvents(action) else []
    {
      if status != P.PendingSignatures {
        return;
      }
      var n := SignCount();
      if n >= thresholdM {
        status, executedAt := P.Executed, Some(now);
        events := events + ExecutionEvents(action);
      }
    }

    method Sign(member: Account, d: P.Decision, thresholdM: int, now: Time) returns (err: Option<P.ProposalError>)
      modifies this
      ensures match P.SignProposal(old(Row()), member, d, thresholdM, now)
              case Ok(row) => err == None && Row() == row
              case Err(e) => err == Some(e) && Row() == old(Row())
      ensures events == old(events)
                        + if err == None && status == P.Executed then ExecutionEvents(action) else []
    {
      if status != P.PendingSignatures {
        return Some(P.NotPending);
      }
      if ttlExpires < now {
        return Some(P.TtlExpired);
      }
      var signed := HasSigned(member);
      if signed {
        return Some(P.MemberAlreadySigned);
      }
      signatures := signatures + [P.SignatureEntry(member, d, now)];
      if d == P.Veto {
        status := P.Vetoed;
        return None;
      }
      CheckQuorum(thresholdM, now);
      return None;
    }

    method ExpireIfStale(now: Time) returns (expired: bool)
      modifies this`status
      ensures Row() == P.ExpireIfStale(old(Row()), now)
      ensures expired <==> P.Stale(old(Row()), now)
    {
      if status == P.PendingSignatures && ttlExpires < now {
        status := P.Expired;
        return true;
      }
      return false;
    }

    /** Hands over the queued events; each is handed over once. */
    method PopEvents() returns (popped: seq<Event>)
      modifies this`events
      ensures popped == old(events) && events == []
    {
      popped := events;
      events := [];
    }

    method RecordEvent(e: Event)
      modifies this`events
      ensures events == old(events) + [e]
    {
      events := events + [e];
    }
  }
}
