/** What closing the application window guarantees, at the close and ever after. */
module ClosureTheorems {
  import opened Prelude
  import opened Launches
  import opened Proposals
  import opened JoinRequests
  import opened VotingPower
  import opened InputSets
  import opened Coordinator
  import opened Invariants
  import opened Steps

  /** What a close that goes through found, and what it leaves of the requests. */
  lemma ApplyCloses(cfg: Config, s: State, id: nat, p: ProposalRow, now: Time)
    requires p.action.CloseApplicationWindow? && Apply(cfg, s, id, p, now).Ok?
    ensures s.launch.status == WindowOpen
    ensures Apply(cfg, s, id, p, now).value.requests == ExpirePending(s.requests, PENDING_PAGE)
    ensures |ApprovedRows(s.requests)| >= s.launch.record.minValidatorCount
    ensures !Dominated(cfg.round, PowersOf(ApprovedRows(s.requests)))
  {
    assert Apply(cfg, s, id, p, now) == ApplyClose(cfg, s, id, p);
  }

  /** A step that closes the window is a committed close. */
  lemma ClosingStep(cfg: Config, s: State, x: Input, t: State)
    requires Inv(cfg, s) && t == Next(cfg, s, x)
    requires s.launch.status == WindowOpen && t.launch.status == WindowClosed
    ensures t.requests == ExpirePending(s.requests, PENDING_PAGE)
    ensures |ApprovedRows(s.requests)| >= s.launch.record.minValidatorCount
    ensures !Dominated(cfg.round, PowersOf(ApprovedRows(s.requests)))
  {
    StatusChange(cfg, s, x);
    var e := ExecutionOf(cfg, s, x).value;
    CommittedEffect(cfg, s, x);
    ExecutionIsSavable(cfg, s, x);
    ApplyCloses(cfg, Logged(e.base, e.id), e.id, e.row, e.now);
  }

  lemma {:induction false} ExpireKeepsApproved(rows: seq<JoinRow>, budget: nat)
    ensures ApprovedRows(ExpirePending(rows, budget)) == ApprovedRows(rows)
  {
    if rows != [] {
      var last := |rows| - 1;
      var front, r := rows[..last], rows[last];
      assert rows == front + [r];
      ApprovedAppend(front, [r]);
      assert [r][1..] == [];
      if r.status == Pending && budget > 0 {
        ExpireKeepsApproved(front, budget - 1);
        var expired := [r.(status := ExpiredRequest)];
        assert expired[1..] == [];
        ApprovedAppend(ExpirePending(front, budget - 1), expired);
      } else {
        ExpireKeepsApproved(front, budget);
        ApprovedAppend(ExpirePending(front, budget), [r]);
      }
    }
  }

  lemma HoldersAmongRows(approved: seq<JoinRow>)
    requires DistinctOperators(approved)
    ensures var p := PowersOf(approved);
            Holders(p.Keys, p) <= set r | r in approved && r.selfDelegation > 0 :: r.operator
  {
    var p := PowersOf(approved);
    PowersEntries(approved);
    forall a | a in Holders(p.Keys, p) ensures a in set r | r in approved && r.selfDelegation > 0 :: r.operator {
      var i :| 0 <= i < |approved| && approved[i].operator == a;
      assert approved[i] in approved;
    }
  }

  /** Approved rows whose powers pass the test: everyone strictly under one third, at least four with power. */
  lemma UndominatedRows(round: Rounding, approved: seq<JoinRow>)
    requires DistinctOperators(approved) && Monotone(round)
    requires !Dominated(round, PowersOf(approved)) && TotalDelegation(approved) > 0
    ensures forall r :: r in approved ==> 3 * r.selfDelegation < TotalDelegation(approved)
    ensures |set r | r in approved && r.selfDelegation > 0 :: r.operator| >= 4
  {
    var p := PowersOf(approved);
    PowersTotal(approved);
    PowersEntries(approved);
    UndominatedBound(round, p);
    forall r | r in approved ensures 3 * r.selfDelegation < TotalDelegation(approved) {
      var i :| 0 <= i < |approved| && approved[i] == r;
      assert p[approved[i].operator] == r.selfDelegation;
    }
    HoldersAmongRows(approved);
    SubsetCardinality(Holders(p.Keys, p), set r | r in approved && r.selfDelegation > 0 :: r.operator);
  }

  ghost function PendingIds(rows: seq<JoinRow>): set<nat> {
    set i: nat | i < |rows| && rows[i].status == Pending
  }

  lemma {:induction false} PendingCountIs(rows: seq<JoinRow>)
    ensures PendingCount(rows) == |PendingIds(rows)|
  {
    if rows != [] {
      var n := |rows| - 1;
      var front, r := rows[..n], rows[n];
      assert rows == front + [r];
      PendingCountIs(front);
      PendingCountAppend(front, r);
      assert PendingIds(rows) == PendingIds(front) + if r.status == Pending then {n} else {};
    }
  }

  /** Step k of the run closes the window. */
  ghost predicate ClosesAt(states: seq<State>, k: int) {
    0 <= k < |states| - 1 && states[k].launch.status == WindowOpen && states[k + 1].launch.status == WindowClosed
  }

  lemma ClosingAt(cfg: Config, states: seq<State>, xs: seq<Input>, k: nat)
    requires Run(cfg, states, xs) && ClosesAt(states, k)
    ensures states[k + 1].requests == ExpirePending(states[k].requests, PENDING_PAGE)
    ensures |ApprovedRows(states[k].requests)| >= states[k].launch.record.minValidatorCount
    ensures !Dominated(cfg.round, PowersOf(ApprovedRows(states[k].requests)))
  {
    Reachable(cfg, states, xs, k);
    assert StepAt(cfg, states, xs, k);
    ClosingStep(cfg, states[k], xs[k], states[k + 1]);
  }

  /** On every run, a close leaves no request pending exactly when the backlog fits the page it reads. */
  lemma CloseLeavesNonePendingIff(cfg: Config, states: seq<State>, xs: seq<Input>, k: nat)
    requires Run(cfg, states, xs) && ClosesAt(states, k)
    ensures NonePending(states[k + 1].requests) <==> |PendingIds(states[k].requests)| <= 1000
  {
    ClosingAt(cfg, states, xs, k);
    ExpirePendingLeaves(states[k].requests, PENDING_PAGE);
    PendingCountIs(states[k].requests);
  }

  /**
   * On every run, a close with any power committed leaves every approved operator strictly under one third of
   * the total, and therefore at least four operators with power, and at least the declared number of validators.
   */
  lemma ClosedWindowIsBalanced(cfg: Config, states: seq<State>, xs: seq<Input>, k: nat)
    requires Run(cfg, states, xs) && ClosesAt(states, k) && Monotone(cfg.round)
    ensures var approved := ApprovedRows(states[k + 1].requests);
            && |approved| >= states[k].launch.record.minValidatorCount
            && (TotalDelegation(approved) > 0 ==>
                  && (forall r :: r in approved ==> 3 * r.selfDelegation < TotalDelegation(approved))
                  && |set r | r in approved && r.selfDelegation > 0 :: r.operator| >= 4)
  {
    ClosingAt(cfg, states, xs, k);
    Reachable(cfg, states, xs, k);
    ExpireKeepsApproved(states[k].requests, PENDING_PAGE);
    ApprovedDistinct(states[k].requests);
    if TotalDelegation(ApprovedRows(states[k].requests)) > 0 {
      UndominatedRows(cfg.round, ApprovedRows(states[k].requests));
    }
  }

  // ----- Ever after

  /** The window has closed and nothing is pending: the approved set can only shrink from here. */
  ghost predicate Settled(s: State) {
    && NonePending(s.requests)
    && s.launch.status != Draft && s.launch.status != Published && s.launch.status != WindowOpen
  }

  /** What a decision that goes through does to the requests. */
  ghost predicate DecidesRequest(s: State, a: Action, t: State)
    requires a.ApproveValidator? || a.RejectValidator? || a.RemoveApprovedValidator?
  {
    && a.joinRequest < |s.requests| == |t.requests|
    && (a.RemoveApprovedValidator? ==> s.launch.status == WindowOpen || s.launch.status == WindowClosed)
    && s.requests[a.joinRequest].status == (if a.RemoveApprovedValidator? then Approved else Pending)
    && t.requests == s.requests[a.joinRequest := t.requests[a.joinRequest]]
    && t.requests[a.joinRequest].status == (if a.ApproveValidator? then Approved else Rejected)
  }

  lemma ApplyDecides(cfg: Config, s: State, id: nat, p: ProposalRow, now: Time)
    requires p.action.ApproveValidator? || p.action.RejectValidator? || p.action.RemoveApprovedValidator?
    requires Apply(cfg, s, id, p, now).Ok?
    ensures DecidesRequest(s, p.action, Apply(cfg, s, id, p, now).value)
  {
  }

  lemma DecisionOnRequests(cfg: Config, s: State, x: Input)
    requires Inv(cfg, s) && Committed(cfg, s, x)
    ensures var a, t := ExecutionOf(cfg, s, x).value.row.action, Next(cfg, s, x);
            && (a.ApproveValidator? || a.RejectValidator? || a.RemoveApprovedValidator? ==> DecidesRequest(s, a, t))
            && (a.CloseApplicationWindow? ==> s.launch.status == WindowOpen)
  {
    var e := ExecutionOf(cfg, s, x).value;
    CommittedEffect(cfg, s, x);
    ExecutionIsSavable(cfg, s, x);
    var base := Logged(e.base, e.id);
    if e.row.action.CloseApplicationWindow? {
      ApplyCloses(cfg, base, e.id, e.row, e.now);
    } else if e.row.action.ApproveValidator? || e.row.action.RejectValidator? || e.row.action.RemoveApprovedValidator? {
      ApplyDecides(cfg, base, e.id, e.row, e.now);
    }
  }

  /** With nothing pending the only decision that goes through is a removal. */
  lemma SettledDecision(s: State, a: Action, t: State)
    requires NonePending(s.requests)
    requires a.ApproveValidator? || a.RejectValidator? || a.RemoveApprovedValidator?
    requires DecidesRequest(s, a, t)
    ensures a.RemoveApprovedValidator?
    ensures NonePending(t.requests) && ApprovedIds(t.requests) <= ApprovedIds(s.requests)
  {
    assert s.requests[a.joinRequest] in s.requests;
    assert forall r :: r in t.requests ==> r in s.requests || r == t.requests[a.joinRequest];
  }

  /** Once settled, always settled; the approved set never grows; in GENESIS_READY and LAUNCHED no request changes. */
  lemma SettledStays(cfg: Config, s: State, x: Input)
    requires Inv(cfg, s) && Settled(s)
    ensures var t := Next(cfg, s, x);
            && Settled(t)
            && ApprovedIds(t.requests) <= ApprovedIds(s.requests)
            && (s.launch.status == GenesisReady || s.launch.status == Launched ==> t.requests == s.requests)
  {
    var t := Next(cfg, s, x);
    if t.launch.status != s.launch.status {
      StatusChange(cfg, s, x);
    }
    if t.requests != s.requests {
      RequestsFrame(cfg, s, x);
      DecisionOnRequests(cfg, s, x);
      SettledDecision(s, ExecutionOf(cfg, s, x).value.row.action, t);
    }
  }

  /** If this step closed the window, the backlog fitted the page. */
  ghost predicate BacklogFits(states: seq<State>, k: int) {
    ClosesAt(states, k) ==> |PendingIds(states[k].requests)| <= 1000
  }

  /** Every close of this run met a backlog within its page. */
  ghost predicate BacklogsFit(states: seq<State>) {
    forall k :: 0 <= k < |states| - 1 ==> BacklogFits(states, k)
  }

  ghost predicate AfterClose(s: State) {
    s.launch.status == WindowClosed || s.launch.status == GenesisReady || s.launch.status == Launched
  }

  lemma AfterCloseStep(cfg: Config, states: seq<State>, xs: seq<Input>, k: nat)
    requires Run(cfg, states, xs) && k < |xs| && BacklogFits(states, k)
    requires AfterClose(states[k]) ==> Settled(states[k])
    ensures AfterClose(states[k + 1]) ==> Settled(states[k + 1])
  {
    Reachable(cfg, states, xs, k);
    assert StepAt(cfg, states, xs, k);
    var s, x := states[k], xs[k];
    if AfterClose(s) {
      SettledStays(cfg, s, x);
    } else if AfterClose(states[k + 1]) {
      StatusChange(cfg, s, x);
      CloseLeavesNonePendingIff(cfg, states, xs, k);
    }
  }

  /** On every such run, no request is PENDING in WINDOW_CLOSED, GENESIS_READY or LAUNCHED. */
  lemma {:induction false} NonePendingAfterClose(cfg: Config, states: seq<State>, xs: seq<Input>, k: nat)
    requires Run(cfg, states, xs) && BacklogsFit(states) && k <= |xs|
    ensures AfterClose(states[k]) ==> Settled(states[k])
    decreases k
  {
    if k > 0 {
      NonePendingAfterClose(cfg, states, xs, k - 1);
      assert BacklogFits(states, k - 1);
      AfterCloseStep(cfg, states, xs, k - 1);
    }
  }

  lemma SettledStep(cfg: Config, states: seq<State>, xs: seq<Input>, k: nat)
    requires Run(cfg, states, xs) && k < |xs| && Settled(states[k])
    ensures Settled(states[k + 1])
    ensures ApprovedIds(states[k + 1].requests) <= ApprovedIds(states[k].requests)
    ensures states[k].launch.status == GenesisReady || states[k].launch.status == Launched ==>
              states[k + 1].requests == states[k].requests
  {
    Reachable(cfg, states, xs, k);
    assert StepAt(cfg, states, xs, k);
    SettledStays(cfg, states[k], xs[k]);
  }

  /** From the close on, whatever happens, the approved set only loses members. */
  lemma {:induction false} ApprovedNeverGrows(cfg: Config, states: seq<State>, xs: seq<Input>, i: nat, j: nat)
    requires Run(cfg, states, xs) && BacklogsFit(states) && i <= j <= |xs|
    requires AfterClose(states[i])
    ensures ApprovedIds(states[j].requests) <= ApprovedIds(states[i].requests)
    ensures Settled(states[j])
    decreases j - i
  {
    if i == j {
      NonePendingAfterClose(cfg, states, xs, i);
    } else {
      ApprovedNeverGrows(cfg, states, xs, i, j - 1);
      SettledStep(cfg, states, xs, j - 1);
    }
  }

  ghost predicate ReadyOrLaunched(s: State) {
    s.launch.status == GenesisReady || s.launch.status == Launched
  }

  /** Throughout GENESIS_READY and LAUNCHED the requests are constant. */
  lemma {:induction false} RequestsFrozenWhileReady(cfg: Config, states: seq<State>, xs: seq<Input>, i: nat, j: nat)
    requires Run(cfg, states, xs) && BacklogsFit(states) && i <= j <= |xs|
    requires forall k :: i <= k <= j ==> ReadyOrLaunched(states[k])
    ensures states[j].requests == states[i].requests
    decreases j - i
  {
    if i < j {
      RequestsFrozenWhileReady(cfg, states, xs, i, j - 1);
      NonePendingAfterClose(cfg, states, xs, j - 1);
      SettledStep(cfg, states, xs, j - 1);
    }
  }
}
