/** Intake: one active request per validator and per key, who approved it, and what a submission can change. */
module IntakeTheorems {
  import opened Prelude
  import opened Launches
  import opened Proposals
  import opened JoinRequests
  import opened VotingPower
  import opened Coordinator
  import opened Invariants
  import opened Steps
  import opened ClosureTheorems

  /**
   * In every state of every run: no two active requests share a validator or a consensus key, and a request
   * names an approving proposal iff it is APPROVED, that proposal being an executed approval of this request.
   */
  lemma OneActiveRequest(cfg: Config, states: seq<State>, xs: seq<Input>, k: nat)
    requires Run(cfg, states, xs) && k <= |xs|
    ensures var rows := states[k].requests;
            forall i, j :: 0 <= i < j < |rows| && Active(rows[i]) && Active(rows[j]) ==>
              rows[i].operator != rows[j].operator && rows[i].consensusKey != rows[j].consensusKey
    ensures var rows, ps := states[k].requests, states[k].proposals;
            forall i :: 0 <= i < |rows| ==>
              && (rows[i].status == Approved <==> rows[i].approvedBy.Some?)
              && (rows[i].status == Approved ==> ApprovedBy(ps, rows[i].approvedBy.value, i))
  {
    Reachable(cfg, states, xs, k);
  }

  // ----- Submission

  ghost predicate HasRequest(rows: seq<JoinRow>, operator: Account, status: JoinStatus) {
    exists i :: 0 <= i < |rows| && rows[i].operator == operator && rows[i].status == status
  }

  ghost predicate KeyHeldByAnother(rows: seq<JoinRow>, operator: Account, key: string) {
    exists i :: 0 <= i < |rows| && Active(rows[i]) && rows[i].consensusKey == key && rows[i].operator != operator
  }

  /** The submission gets as far as the dedup: open window, in time, under the cap, nothing approved yet. */
  ghost predicate ReachesDedup(s: State, operator: Account, submitter: Account, now: Time) {
    && s.launch.status == WindowOpen && now <= s.launch.record.gentxDeadline
    && |SubmittedBy(s.requests, submitter)| < 50
    && !HasRequest(s.requests, operator, Approved)
  }

  ghost function SubmittedBy(rows: seq<JoinRow>, a: Account): set<nat> {
    set i: nat | i < |rows| && rows[i].submitter == a
  }

  lemma {:induction false} SubmitterCountAppend(rows: seq<JoinRow>, r: JoinRow, a: Account)
    ensures SubmitterCount(rows + [r], a) == SubmitterCount(rows, a) + if r.submitter == a then 1 else 0
  {
    if rows == [] {
      assert rows + [r] == [r] && [r][1..] == [];
    } else {
      assert (rows + [r])[1..] == rows[1..] + [r];
      SubmitterCountAppend(rows[1..], r, a);
    }
  }

  lemma {:induction false} SubmitterCountIs(rows: seq<JoinRow>, a: Account)
    ensures SubmitterCount(rows, a) == |SubmittedBy(rows, a)|
  {
    if rows != [] {
      var n := |rows| - 1;
      var front, r := rows[..n], rows[n];
      assert rows == front + [r];
      SubmitterCountIs(front, a);
      SubmitterCountAppend(front, r, a);
      assert SubmittedBy(rows, a) == SubmittedBy(front, a) + if r.submitter == a then {n} else {};
    }
  }

  lemma ActiveIndexMeans(rows: seq<JoinRow>, operator: Account)
    requires ActiveUnique(rows)
    ensures var i := ActiveIndex(rows, operator);
            && (HasRequest(rows, operator, Approved) <==> i < |rows| && rows[i].status == Approved)
            && (HasRequest(rows, operator, Pending) <==> i < |rows| && rows[i].status == Pending)
            && (forall j :: 0 <= j < |rows| && Active(rows[j]) && rows[j].operator == operator ==> j == i)
  {
  }

  /** After superseding, the key check sees exactly the other validators' keys. */
  lemma KeyCheckSeesOthers(rows: seq<JoinRow>, operator: Account, key: string)
    requires ActiveUnique(rows)
    ensures var i := ActiveIndex(rows, operator);
            var out := if i < |rows| then rows[i := rows[i].(status := ExpiredRequest)] else rows;
            KeyInUse(out, key) <==> KeyHeldByAnother(rows, operator, key)
  {
    ActiveIndexMeans(rows, operator);
    var i := ActiveIndex(rows, operator);
    var out := if i < |rows| then rows[i := rows[i].(status := ExpiredRequest)] else rows;
    if KeyHeldByAnother(rows, operator, key) {
      var j :| 0 <= j < |rows| && Active(rows[j]) && rows[j].consensusKey == key && rows[j].operator != operator;
      assert Active(out[j]) && out[j].consensusKey == key;
    }
    if KeyInUse(out, key) {
      var j :| 0 <= j < |out| && Active(out[j]) && out[j].consensusKey == key;
      assert Active(rows[j]) && rows[j].consensusKey == key && rows[j].operator != operator;
    }
  }

  /**
   * A submission adds a request iff it reaches the dedup with good fields and a key no other validator holds;
   * and a refused one still changes something, namely it expires the validator's own pending request, iff it
   * reaches the dedup and there is such a request.
   */
  lemma SubmitOutcome(cfg: Config, s: State, operator: Account, submitter: Account, key: string, gentx: string,
                      fieldsOk: bool, now: Time)
    requires ActiveUnique(s.requests)
    ensures var t := SubmitStep(cfg, s, operator, submitter, key, gentx, fieldsOk, now);
            var added := |t.requests| == |s.requests| + 1;
            && (added <==> ReachesDedup(s, operator, submitter, now) && fieldsOk
                           && !KeyHeldByAnother(s.requests, operator, key))
            && (added ==> t.requests[|s.requests|] == NewRequest(operator, submitter, key, gentx, StakeOf(cfg, gentx)))
            && (!added ==> |t.requests| == |s.requests|)
            && (!added ==> (t != s <==> ReachesDedup(s, operator, submitter, now)
                                        && HasRequest(s.requests, operator, Pending)
                                        && (!fieldsOk || KeyHeldByAnother(s.requests, operator, key))))
            && (forall i :: 0 <= i < |s.requests| && t.requests[i] != s.requests[i] ==>
                  && s.requests[i].operator == operator && s.requests[i].status == Pending
                  && t.requests[i] == s.requests[i].(status := ExpiredRequest))
  {
    ActiveIndexMeans(s.requests, operator);
    KeyCheckSeesOthers(s.requests, operator, key);
    SubmitterCountIs(s.requests, submitter);
    var t := SubmitStep(cfg, s, operator, submitter, key, gentx, fieldsOk, now);
    var i := ActiveIndex(s.requests, operator);
    if i < |s.requests| && s.requests[i].status == Pending && t != s {
      assert t.requests[i].status == ExpiredRequest;
    }
  }

  // ----- Lifecycle of a request

  /** What was submitted stays as it was; PENDING may be decided, APPROVED only revoked, the rest is final. */
  ghost predicate RowEvolves(a: JoinRow, b: JoinRow) {
    && b == a.(status := b.status, rejectionReason := b.rejectionReason, approvedBy := b.approvedBy)
    && (a.status == Approved ==> b == a || b.status == Rejected)
    && (a.status == Rejected || a.status == ExpiredRequest ==> b == a)
  }

  ghost predicate RowsEvolve(a: seq<JoinRow>, b: seq<JoinRow>) {
    |a| <= |b| && forall i :: 0 <= i < |a| ==> RowEvolves(a[i], b[i])
  }

  lemma DecisionRows(cfg: Config, s: State, id: nat, p: ProposalRow, now: Time)
    requires p.action.ApproveValidator? || p.action.RejectValidator? || p.action.RemoveApprovedValidator?
    requires Apply(cfg, s, id, p, now).Ok?
    ensures RowsEvolve(s.requests, Apply(cfg, s, id, p, now).value.requests)
  {
  }

  lemma ApplyRows(cfg: Config, s: State, id: nat, p: ProposalRow, now: Time)
    requires Apply(cfg, s, id, p, now).Ok?
    ensures RowsEvolve(s.requests, Apply(cfg, s, id, p, now).value.requests)
  {
    var t := Apply(cfg, s, id, p, now).value;
    ApplyFrame(cfg, s, id, p, now);
    if t.requests != s.requests {
      if p.action.CloseApplicationWindow? {
        assert t == ApplyClose(cfg, s, id, p).value;
      } else {
        DecisionRows(cfg, s, id, p, now);
      }
    }
  }

  lemma RowsStep(cfg: Config, states: seq<State>, xs: seq<Input>, k: nat)
    requires Run(cfg, states, xs) && k < |xs|
    ensures RowsEvolve(states[k].requests, states[k + 1].requests)
  {
    Reachable(cfg, states, xs, k);
    assert StepAt(cfg, states, xs, k);
    var s, x := states[k], xs[k];
    if Committed(cfg, s, x) {
      var e := ExecutionOf(cfg, s, x).value;
      CommittedEffect(cfg, s, x);
      ExecutionIsSavable(cfg, s, x);
      ApplyRows(cfg, Logged(e.base, e.id), e.id, e.row, e.now);
    } else if states[k + 1].requests != s.requests {
      RequestsFrame(cfg, s, x);
    }
  }

  /** On every run a decided request is never reopened: REJECTED and EXPIRED are final, APPROVED ends only in REJECTED. */
  lemma {:induction false} RequestsNeverReopen(cfg: Config, states: seq<State>, xs: seq<Input>, i: nat, j: nat)
    requires Run(cfg, states, xs) && i <= j <= |xs|
    ensures RowsEvolve(states[i].requests, states[j].requests)
    decreases j - i
  {
    if i < j {
      RequestsNeverReopen(cfg, states, xs, i, j - 1);
      RowsStep(cfg, states, xs, j - 1);
      forall n | 0 <= n < |states[i].requests| ensures RowEvolves(states[i].requests[n], states[j].requests[n]) {
        assert RowEvolves(states[i].requests[n], states[j - 1].requests[n]);
        assert RowEvolves(states[j - 1].requests[n], states[j].requests[n]);
      }
    }
  }

  // ----- Stakes

  /** Every stored request carries the stake its gentx commits. */
  ghost predicate StakesInv(cfg: Config, rows: seq<JoinRow>) {
    forall i :: 0 <= i < |rows| ==> rows[i].selfDelegation == StakeOf(cfg, rows[i].gentx)
  }

  /** Only a submission adds a request, and it takes the stake from the gentx. */
  lemma RowsAdded(cfg: Config, s: State, x: Input, t: State)
    requires Inv(cfg, s) && t == Next(cfg, s, x)
    ensures |t.requests| == |s.requests|
            || (|t.requests| == |s.requests| + 1
                && t.requests[|s.requests|].selfDelegation == StakeOf(cfg, t.requests[|s.requests|].gentx))
  {
    if t.requests != s.requests {
      RequestsFrame(cfg, s, x);
      if Committed(cfg, s, x) {
        var e := ExecutionOf(cfg, s, x).value;
        CommittedEffect(cfg, s, x);
        ExecutionIsSavable(cfg, s, x);
        DecisionOnRequests(cfg, s, x);
        if e.row.action.CloseApplicationWindow? {
          ApplyCloses(cfg, Logged(e.base, e.id), e.id, e.row, e.now);
        }
      }
    }
  }

  lemma RowsAddedAt(cfg: Config, states: seq<State>, xs: seq<Input>, k: nat)
    requires Run(cfg, states, xs) && k < |xs|
    ensures var before, after := states[k].requests, states[k + 1].requests;
            |after| == |before|
            || (|after| == |before| + 1 && after[|before|].selfDelegation == StakeOf(cfg, after[|before|].gentx))
  {
    Reachable(cfg, states, xs, k);
    assert StepAt(cfg, states, xs, k);
    RowsAdded(cfg, states[k], xs[k], states[k + 1]);
  }

  lemma StakesStep(cfg: Config, states: seq<State>, xs: seq<Input>, k: nat)
    requires Run(cfg, states, xs) && k < |xs| && StakesInv(cfg, states[k].requests)
    ensures StakesInv(cfg, states[k + 1].requests)
  {
    RowsStep(cfg, states, xs, k);
    RowsAddedAt(cfg, states, xs, k);
    var before, after := states[k].requests, states[k + 1].requests;
    forall i | 0 <= i < |before| ensures after[i].selfDelegation == StakeOf(cfg, after[i].gentx) {
      assert RowEvolves(before[i], after[i]);
    }
  }

  lemma {:induction false} StakesReachable(cfg: Config, states: seq<State>, xs: seq<Input>, k: nat)
    requires Run(cfg, states, xs) && k <= |xs|
    ensures StakesInv(cfg, states[k].requests)
    decreases k
  {
    if k > 0 {
      StakesReachable(cfg, states, xs, k - 1);
      StakesStep(cfg, states, xs, k - 1);
    }
  }

  /**
   * In every reachable state the powers a load builds give each APPROVED request's operator the stake of its
   * gentx, hold nobody else, and add up to the approved stakes.
   */
  lemma LoadedPowersAreStakes(cfg: Config, states: seq<State>, xs: seq<Input>, k: nat)
    requires Run(cfg, states, xs) && k <= |xs|
    ensures var rows := states[k].requests; var powers := PowersOf(ApprovedRows(rows));
            && (forall r :: r in rows && r.status == Approved ==>
                  r.operator in powers && powers[r.operator] == StakeOf(cfg, r.gentx))
            && (forall a :: a in powers ==> exists r :: r in rows && r.status == Approved && r.operator == a)
            && Total(powers) == TotalDelegation(ApprovedRows(rows))
  {
    Reachable(cfg, states, xs, k);
    StakesReachable(cfg, states, xs, k);
    var rows := states[k].requests;
    var approved := ApprovedRows(rows);
    var powers := PowersOf(approved);
    ApprovedDistinct(rows);
    PowersEntries(approved);
    PowersTotal(approved);
    forall r | r in rows && r.status == Approved
      ensures r.operator in powers && powers[r.operator] == StakeOf(cfg, r.gentx)
    {
      ApprovedMembers(rows, r);
      var i :| 0 <= i < |approved| && approved[i] == r;
      var n :| 0 <= n < |rows| && rows[n] == r;
    }
    forall a | a in powers ensures exists r :: r in rows && r.status == Approved && r.operator == a {
      var i :| 0 <= i < |approved| && approved[i].operator == a;
      ApprovedMembers(rows, approved[i]);
    }
  }

  // ----- The cap on submissions

  lemma SameSubmitters(a: seq<JoinRow>, b: seq<JoinRow>, who: Account)
    requires RowsEvolve(a, b) && |b| == |a|
    ensures SubmittedBy(b, who) == SubmittedBy(a, who)
  {
    forall i | 0 <= i < |a| ensures b[i].submitter == a[i].submitter {
      assert RowEvolves(a[i], b[i]);
    }
  }

  /** One more row of this submitter, where fewer than fifty were. */
  lemma OneMoreSubmission(a: seq<JoinRow>, b: seq<JoinRow>, who: Account)
    requires RowsEvolve(a, b) && |b| == |a| + 1
    ensures SubmittedBy(b, who) == SubmittedBy(a, who) + if b[|a|].submitter == who then {|a|} else {}
  {
    forall i | 0 <= i < |a| ensures b[i].submitter == a[i].submitter {
      assert RowEvolves(a[i], b[i]);
    }
  }

  lemma AddedUnderCap(cfg: Config, states: seq<State>, xs: seq<Input>, k: nat)
    requires Run(cfg, states, xs) && k < |xs| && |states[k + 1].requests| > |states[k].requests|
    ensures var n := |states[k].requests|;
            |states[k + 1].requests| == n + 1
            && |SubmittedBy(states[k].requests, states[k + 1].requests[n].submitter)| < 50
  {
    RowsAddedAt(cfg, states, xs, k);
    Reachable(cfg, states, xs, k);
    assert StepAt(cfg, states, xs, k);
    var s, x, t := states[k], xs[k], states[k + 1];
    RequestsFrame(cfg, s, x);
    if x.Submit? {
      SubmitOutcome(cfg, s, x.operator, x.submitter, x.key, x.gentx, x.fieldsOk, x.now);
    } else {
      DecisionOnRequests(cfg, s, x);
      if ExecutionOf(cfg, s, x).value.row.action.CloseApplicationWindow? {
        CloseKeepsLength(cfg, s, x);
      }
    }
  }

  lemma CloseKeepsLength(cfg: Config, s: State, x: Input)
    requires Inv(cfg, s) && Committed(cfg, s, x) && ExecutionOf(cfg, s, x).value.row.action.CloseApplicationWindow?
    ensures |Next(cfg, s, x).requests| == |s.requests|
  {
    var e := ExecutionOf(cfg, s, x).value;
    CommittedEffect(cfg, s, x);
    ExecutionIsSavable(cfg, s, x);
    ApplyCloses(cfg, Logged(e.base, e.id), e.id, e.row, e.now);
  }

  /** No submitter ever has more than fifty requests in a launch, whatever became of them. */
  lemma {:induction false} SubmissionsAreCapped(cfg: Config, states: seq<State>, xs: seq<Input>, k: nat, who: Account)
    requires Run(cfg, states, xs) && k <= |xs|
    ensures |SubmittedBy(states[k].requests, who)| <= 50
    decreases k
  {
    if k > 0 {
      SubmissionsAreCapped(cfg, states, xs, k - 1, who);
      RowsStep(cfg, states, xs, k - 1);
      var before, after := states[k - 1].requests, states[k].requests;
      if |after| == |before| {
        SameSubmitters(before, after, who);
      } else {
        AddedUnderCap(cfg, states, xs, k - 1);
        OneMoreSubmission(before, after, who);
      }
    } else {
      assert SubmittedBy(states[0].requests, who) == {};
    }
  }

  // ----- Why a request ended

  /** Proposal q is the executed rejection or removal of this request for this reason. */
  ghost predicate RejectionOf(ps: map<nat, ProposalRow>, q: nat, request: nat, reason: string) {
    && q in ps && ps[q].status == Executed
    && match ps[q].action
       case RejectValidator(r, _, why) => r == request && why == reason
       case RemoveApprovedValidator(r, _, why) => r == request && why == reason
       case _ => false
  }

  ghost predicate HasRejection(s: State, i: nat)
    requires i < |s.requests|
  {
    exists q :: RejectionOf(s.proposals, q, i, s.requests[i].rejectionReason)
  }

  lemma ApplyRejects(cfg: Config, s: State, id: nat, p: ProposalRow, now: Time, i: nat)
    requires Apply(cfg, s, id, p, now).Ok? && p.status == Executed && i < |s.requests|
    requires p.action.ApproveValidator? || p.action.RejectValidator? || p.action.RemoveApprovedValidator?
    requires s.requests[i].status != Rejected
    ensures var t := Apply(cfg, s, id, p, now).value;
            |t.requests| == |s.requests|
            && (t.requests[i].status == Rejected ==> RejectionOf(t.proposals, id, i, t.requests[i].rejectionReason))
  {
  }

  lemma RejectedCommit(cfg: Config, s: State, x: Input, t: State, i: nat)
    requires Inv(cfg, s) && Committed(cfg, s, x) && t == Next(cfg, s, x)
    requires TouchesRequests(ExecutionOf(cfg, s, x).value.row.action)
    requires i < |s.requests| <= |t.requests| && s.requests[i].status != Rejected && t.requests[i].status == Rejected
    ensures HasRejection(t, i)
  {
    var e := ExecutionOf(cfg, s, x).value;
    CommittedEffect(cfg, s, x);
    ExecutionIsSavable(cfg, s, x);
    var base := Logged(e.base, e.id);
    if e.row.action.CloseApplicationWindow? {
      ApplyCloses(cfg, base, e.id, e.row, e.now);
    } else {
      ApplyRejects(cfg, base, e.id, e.row, e.now, i);
    }
  }

  /** A request becomes REJECTED only by the rejection or removal, then executed, that gives its reason. */
  lemma RejectedStep(cfg: Config, states: seq<State>, xs: seq<Input>, k: nat, i: nat)
    requires Run(cfg, states, xs) && k < |xs| && i < |states[k].requests| <= |states[k + 1].requests|
    requires states[k].requests[i].status != Rejected && states[k + 1].requests[i].status == Rejected
    ensures HasRejection(states[k + 1], i)
  {
    Reachable(cfg, states, xs, k);
    assert StepAt(cfg, states, xs, k);
    var s, x := states[k], xs[k];
    RequestsFrame(cfg, s, x);
    if Committed(cfg, s, x) {
      RejectedCommit(cfg, s, x, states[k + 1], i);
    } else {
      SubmitOutcome(cfg, s, x.operator, x.submitter, x.key, x.gentx, x.fieldsOk, x.now);
    }
  }

  lemma RejectionStays(ps: map<nat, ProposalRow>, after: map<nat, ProposalRow>, q: nat, request: nat, reason: string)
    requires Evolves(ps, after) && RejectionOf(ps, q, request, reason)
    ensures RejectionOf(after, q, request, reason)
  {
  }

  /** Every REJECTED request carries the reason of an executed rejection or removal of it. */
  lemma {:induction false} RejectionHasProposal(cfg: Config, states: seq<State>, xs: seq<Input>, k: nat, i: nat)
    requires Run(cfg, states, xs) && k <= |xs| && i < |states[k].requests| && states[k].requests[i].status == Rejected
    ensures HasRejection(states[k], i)
    decreases k
  {
    RowsStep(cfg, states, xs, k - 1);
    RowsAddedPending(cfg, states, xs, k - 1, i);
    if states[k - 1].requests[i].status == Rejected {
      RejectionHasProposal(cfg, states, xs, k - 1, i);
      assert RowEvolves(states[k - 1].requests[i], states[k].requests[i]);
      var q :| RejectionOf(states[k - 1].proposals, q, i, states[k - 1].requests[i].rejectionReason);
      StepEvolves(cfg, states, xs, k - 1);
      RejectionStays(states[k - 1].proposals, states[k].proposals, q, i, states[k].requests[i].rejectionReason);
    } else {
      RejectedStep(cfg, states, xs, k - 1, i);
    }
  }

  lemma StepEvolves(cfg: Config, states: seq<State>, xs: seq<Input>, k: nat)
    requires Run(cfg, states, xs) && k < |xs|
    ensures Evolves(states[k].proposals, states[k + 1].proposals)
  {
    Reachable(cfg, states, xs, k);
    assert StepAt(cfg, states, xs, k);
    ProposalsStep(cfg, states[k], xs[k]);
  }

  /** A request enters as PENDING. */
  lemma RowsAddedPending(cfg: Config, states: seq<State>, xs: seq<Input>, k: nat, i: nat)
    requires Run(cfg, states, xs) && k < |xs| && i < |states[k + 1].requests| && states[k + 1].requests[i].status != Pending
    ensures i < |states[k].requests|
  {
    Reachable(cfg, states, xs, k);
    assert StepAt(cfg, states, xs, k);
    var s, x := states[k], xs[k];
    RowsStep(cfg, states, xs, k);
    if |states[k + 1].requests| > |s.requests| {
      AddedUnderCap(cfg, states, xs, k);
      RequestsFrame(cfg, s, x);
      if x.Submit? {
        SubmitOutcome(cfg, s, x.operator, x.submitter, x.key, x.gentx, x.fieldsOk, x.now);
      } else {
        DecisionOnRequests(cfg, s, x);
        if ExecutionOf(cfg, s, x).value.row.action.CloseApplicationWindow? {
          CloseKeepsLength(cfg, s, x);
        }
      }
    }
  }

  /** A request becomes EXPIRED only by the close of the window, or by a later submission for the same validator. */
  lemma ExpiredStep(cfg: Config, states: seq<State>, xs: seq<Input>, k: nat, i: nat)
    requires Run(cfg, states, xs) && k < |xs| && i < |states[k].requests| <= |states[k + 1].requests|
    requires states[k].requests[i].status != ExpiredRequest && states[k + 1].requests[i].status == ExpiredRequest
    ensures states[k].requests[i].status == Pending
    ensures ClosesAt(states, k)
            || (states[k].launch.status == WindowOpen && xs[k].Submit? && xs[k].operator == states[k].requests[i].operator)
  {
    Reachable(cfg, states, xs, k);
    assert StepAt(cfg, states, xs, k);
    var s, x := states[k], xs[k];
    RequestsFrame(cfg, s, x);
    if Committed(cfg, s, x) {
      DecisionOnRequests(cfg, s, x);
      var e := ExecutionOf(cfg, s, x).value;
      if e.row.action.CloseApplicationWindow? {
        CommittedEffect(cfg, s, x);
        ExecutionIsSavable(cfg, s, x);
        ApplyCloses(cfg, Logged(e.base, e.id), e.id, e.row, e.now);
        StatusChangeIff(cfg, s, x, states[k + 1]);
      }
    } else {
      SubmitOutcome(cfg, s, x.operator, x.submitter, x.key, x.gentx, x.fieldsOk, x.now);
    }
  }
}
