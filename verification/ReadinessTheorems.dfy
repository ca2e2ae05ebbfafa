/** Readiness confirmations: what a valid one proves, and when an operator can have two. */
module ReadinessTheorems {
  import opened Prelude
  import opened Launches
  import opened Proposals
  import opened JoinRequests
  import opened Coordinator
  import opened Invariants
  import opened Steps

  /**
   * In every reachable state a valid confirmation means the genesis is published, the confirmed hash is the
   * launch's, and the operator's own join request is APPROVED.
   */
  lemma ValidConfirmationVouches(cfg: Config, states: seq<State>, xs: seq<Input>, k: nat, c: Confirmation)
    requires Run(cfg, states, xs) && k <= |xs|
    requires c in states[k].readiness && ValidConfirmation(c)
    ensures states[k].launch.status == GenesisReady || states[k].launch.status == Launched
    ensures c.genesisHash == states[k].launch.finalGenesisSha256
    ensures states[k].launch.record.binarySha256 != "" ==> c.binaryHash == states[k].launch.record.binarySha256
    ensures c.joinRequest < |states[k].requests|
    ensures states[k].requests[c.joinRequest].status == Approved
    ensures states[k].requests[c.joinRequest].operator == c.operator
  {
    Reachable(cfg, states, xs, k);
    assert Vouched(states[k].launch, states[k].requests, c);
  }

  /** No confirmation of an operator is stamped before an earlier one, and all but the last are invalid. */
  ghost predicate OneValid(cs: seq<Confirmation>) {
    forall i, j :: 0 <= i < j < |cs| && cs[i].operator == cs[j].operator ==>
      cs[i].confirmedAt <= cs[j].confirmedAt && !ValidConfirmation(cs[i])
  }

  /** A confirmation is not stamped before any of the operator's earlier ones. */
  ghost predicate ClockHolds(s: State, x: Input) {
    x.Confirm? ==> forall c :: c in s.readiness && c.operator == x.operator ==> c.confirmedAt <= x.now
  }

  ghost predicate ClockHoldsAt(states: seq<State>, xs: seq<Input>, k: int) {
    0 <= k < |xs| && k < |states| ==> ClockHolds(states[k], xs[k])
  }

  /** A step appends one confirmation, invalidates all, or leaves them. */
  lemma ReadinessStep(cfg: Config, s: State, x: Input)
    requires Inv(cfg, s)
    ensures var t := Next(cfg, s, x);
            || t.readiness == s.readiness
            || (exists now :: t.readiness == Invalidate(s.readiness, now))
            || (x.Confirm? && ConfirmAllowed(s, x.operator, x.genesisHash, x.binaryHash)
                && t.readiness == s.readiness + [Confirmation(NewestIndex(s.requests, x.operator), x.operator,
                                                              x.genesisHash, x.binaryHash, x.now, None)])
  {
    if Committed(cfg, s, x) {
      var e := ExecutionOf(cfg, s, x).value;
      CommittedEffect(cfg, s, x);
      ExecutionIsSavable(cfg, s, x);
      ApplyReadiness(cfg, Logged(e.base, e.id), e.id, e.row, e.now);
    } else if x.Raise? || x.Decide? {
      UncommittedEffect(cfg, s, x);
    }
  }

  lemma ApplyReadiness(cfg: Config, s: State, id: nat, p: ProposalRow, now: Time)
    requires Apply(cfg, s, id, p, now).Ok?
    ensures var t := Apply(cfg, s, id, p, now).value;
            t.readiness == s.readiness || t.readiness == Invalidate(s.readiness, now)
  {
    ApplyEnds(cfg, s, id, p, now);
  }

  lemma OneValidAppend(cs: seq<Confirmation>, c: Confirmation)
    requires OneValid(cs)
    requires forall o :: o in cs && o.operator == c.operator ==> o.confirmedAt <= c.confirmedAt
    requires var i := NewestConfirmation(cs, c.operator); i < |cs| ==> !ValidConfirmation(cs[i])
    ensures OneValid(cs + [c])
  {
    var n := NewestConfirmation(cs, c.operator);
    var out := cs + [c];
    forall i, j | 0 <= i < j < |out| && out[i].operator == out[j].operator
      ensures out[i].confirmedAt <= out[j].confirmedAt && !ValidConfirmation(out[i])
    {
      if j < |cs| {
        assert out[i] == cs[i] && out[j] == cs[j];
      } else {
        assert out[i] == cs[i] && cs[i] in cs;
        assert i != n ==> i < n;
      }
    }
  }

  lemma OneValidStep(cfg: Config, states: seq<State>, xs: seq<Input>, k: nat)
    requires Run(cfg, states, xs) && k < |xs|
    requires OneValid(states[k].readiness) && ClockHolds(states[k], xs[k])
    ensures OneValid(states[k + 1].readiness)
  {
    Reachable(cfg, states, xs, k);
    assert StepAt(cfg, states, xs, k);
    var s, x, t := states[k], xs[k], states[k + 1];
    ReadinessStep(cfg, s, x);
    if |t.readiness| == |s.readiness| + 1 {
      OneValidAppend(s.readiness, t.readiness[|s.readiness|]);
    }
  }

  /** On every run whose clock never goes back between an operator's confirmations, no operator has two valid ones. */
  lemma {:induction false} NoTwoValid(cfg: Config, states: seq<State>, xs: seq<Input>, n: nat)
    requires Run(cfg, states, xs) && n <= |xs|
    requires forall k :: 0 <= k < |xs| ==> ClockHoldsAt(states, xs, k)
    ensures OneValid(states[n].readiness)
    decreases n
  {
    if n > 0 {
      NoTwoValid(cfg, states, xs, n - 1);
      assert ClockHoldsAt(states, xs, n - 1);
      OneValidStep(cfg, states, xs, n - 1);
    }
  }

  // ----- When an operator gets two

  ghost predicate HasTwoValid(cs: seq<Confirmation>, operator: Account) {
    exists i, j :: 0 <= i < j < |cs| && cs[i].operator == cs[j].operator == operator
      && ValidConfirmation(cs[i]) && ValidConfirmation(cs[j])
  }

  /** The operator's valid confirmation is stamped before an earlier one that was invalidated: the clock went back. */
  ghost predicate Overtaken(cs: seq<Confirmation>, operator: Account) {
    exists w, v :: 0 <= w < v < |cs| && cs[w].operator == cs[v].operator == operator
      && !ValidConfirmation(cs[w]) && ValidConfirmation(cs[v]) && cs[v].confirmedAt < cs[w].confirmedAt
  }

  /** Invalidation takes all there are, so the valid ones are the latest rows. */
  ghost predicate ValidLast(cs: seq<Confirmation>) {
    forall i, j :: 0 <= i < j < |cs| && ValidConfirmation(cs[i]) ==> ValidConfirmation(cs[j])
  }

  lemma ValidLastStep(cfg: Config, states: seq<State>, xs: seq<Input>, k: nat)
    requires Run(cfg, states, xs) && k < |xs| && ValidLast(states[k].readiness)
    ensures ValidLast(states[k + 1].readiness)
  {
    Reachable(cfg, states, xs, k);
    assert StepAt(cfg, states, xs, k);
    ReadinessStep(cfg, states[k], xs[k]);
  }

  lemma {:induction false} ValidLastReachable(cfg: Config, states: seq<State>, xs: seq<Input>, k: nat)
    requires Run(cfg, states, xs) && k <= |xs|
    ensures ValidLast(states[k].readiness)
    decreases k
  {
    if k > 0 {
      ValidLastReachable(cfg, states, xs, k - 1);
      ValidLastStep(cfg, states, xs, k - 1);
    }
  }

  /** Among confirmations with at most one valid, it hides from the newest-row lookup iff it was overtaken. */
  lemma HiddenIff(cs: seq<Confirmation>, operator: Account, v: nat)
    requires ValidLast(cs) && !HasTwoValid(cs, operator)
    requires v < |cs| && cs[v].operator == operator && ValidConfirmation(cs[v])
    ensures !ValidConfirmation(cs[NewestConfirmation(cs, operator)]) <==> Overtaken(cs, operator)
  {
    var n := NewestConfirmation(cs, operator);
    if !ValidConfirmation(cs[n]) {
      assert n < v && cs[v].confirmedAt < cs[n].confirmedAt;
      assert Overtaken(cs, operator);
    }
    if Overtaken(cs, operator) {
      var w, u :| 0 <= w < u < |cs| && cs[w].operator == cs[u].operator == operator
                  && !ValidConfirmation(cs[w]) && ValidConfirmation(cs[u]) && cs[u].confirmedAt < cs[w].confirmedAt;
      assert u == v;
      assert n != v;
      assert ValidConfirmation(cs[n]) ==> HasTwoValid(cs, operator);
    }
  }

  lemma AppendedTwoValidIff(cs: seq<Confirmation>, c: Confirmation)
    requires !HasTwoValid(cs, c.operator) && ValidConfirmation(c)
    ensures HasTwoValid(cs + [c], c.operator)
            <==> exists v :: 0 <= v < |cs| && cs[v].operator == c.operator && ValidConfirmation(cs[v])
  {
    var out := cs + [c];
    assert out[|cs|] == c;
    if v :| 0 <= v < |cs| && cs[v].operator == c.operator && ValidConfirmation(cs[v]) {
      assert out[v] == cs[v];
    }
    if HasTwoValid(out, c.operator) {
      var i, j :| 0 <= i < j < |out| && out[i].operator == out[j].operator == c.operator
                  && ValidConfirmation(out[i]) && ValidConfirmation(out[j]);
      assert out[i] == cs[i];
    }
  }

  /** A confirmation call that meets its guards is accepted beside a valid one iff that one was overtaken. */
  lemma ConfirmStepIff(s: State, operator: Account, genesisHash: Hash, binaryHash: Hash, now: Time)
    requires ValidLast(s.readiness) && !HasTwoValid(s.readiness, operator)
    ensures HasTwoValid(ConfirmStep(s, operator, genesisHash, binaryHash, now).readiness, operator)
            <==> ConfirmMatches(s, operator, genesisHash, binaryHash) && Overtaken(s.readiness, operator)
  {
    var cs := s.readiness;
    if ConfirmMatches(s, operator, genesisHash, binaryHash) {
      AppendedTwoValidIff(cs, Confirmation(NewestIndex(s.requests, operator), operator, genesisHash, binaryHash, now, None));
      if v: nat :| v < |cs| && cs[v].operator == operator && ValidConfirmation(cs[v]) {
        HiddenIff(cs, operator, v);
      }
    }
  }

  lemma QuietTwoValid(cs: seq<Confirmation>, out: seq<Confirmation>, operator: Account)
    requires !HasTwoValid(cs, operator)
    requires out == cs || (exists now :: out == Invalidate(cs, now))
             || (|out| == |cs| + 1 && out == cs + [out[|cs|]] && out[|cs|].operator != operator)
    ensures !HasTwoValid(out, operator)
  {
  }

  /**
   * On every run, a step gives an operator a second valid confirmation iff it is that operator's confirmation
   * call, meets the guards on status, request and hashes, and the valid one is stamped before one invalidated earlier.
   */
  lemma SecondValidIff(cfg: Config, states: seq<State>, xs: seq<Input>, k: nat, operator: Account)
    requires Run(cfg, states, xs) && k < |xs| && !HasTwoValid(states[k].readiness, operator)
    ensures HasTwoValid(states[k + 1].readiness, operator)
            <==> && states[k].running && xs[k].Confirm? && xs[k].operator == operator
                 && ConfirmMatches(states[k], operator, xs[k].genesisHash, xs[k].binaryHash)
                 && Overtaken(states[k].readiness, operator)
  {
    Reachable(cfg, states, xs, k);
    ValidLastReachable(cfg, states, xs, k);
    assert StepAt(cfg, states, xs, k);
    var s, x, t := states[k], xs[k], states[k + 1];
    if s.running && x.Confirm? && x.operator == operator {
      ConfirmStepIff(s, operator, x.genesisHash, x.binaryHash, x.now);
    } else {
      ReadinessStep(cfg, s, x);
      QuietTwoValid(s.readiness, t.readiness, operator);
    }
  }

  // ----- What ends a confirmation

  /** A committed change of the genesis time, revision of the genesis, or cancellation. */
  ghost predicate EndsConfirmations(cfg: Config, s: State, x: Input) {
    && Committed(cfg, s, x)
    && var a := ExecutionOf(cfg, s, x).value.row.action;
       a.UpdateGenesisTime? || a.ReviseGenesis? || a.CancelLaunch?
  }

  ghost predicate EndsOnApply(s: State, a: Action) {
    a.UpdateGenesisTime? || a.ReviseGenesis? || (a.CancelLaunch? && s.launch.status == GenesisReady)
  }

  lemma ApplyEndsSome(cfg: Config, s: State, id: nat, p: ProposalRow, now: Time)
    requires Apply(cfg, s, id, p, now).Ok?
    requires p.action.UpdateGenesisTime? || p.action.ReviseGenesis? || p.action.CancelLaunch?
    ensures Apply(cfg, s, id, p, now).value.readiness
            == if EndsOnApply(s, p.action) then Invalidate(s.readiness, now) else s.readiness
    ensures p.action.CancelLaunch? ==> s.launch.status != Launched
  {
  }

  lemma ApplyEndsRest(cfg: Config, s: State, id: nat, p: ProposalRow, now: Time)
    requires Apply(cfg, s, id, p, now).Ok?
    requires p.action.PublishChainRecord? || p.action.CloseApplicationWindow? || p.action.ApproveAllocationFile?
             || p.action.ReplaceCommitteeMember? || Resizes(p.action)
    ensures Apply(cfg, s, id, p, now).value.readiness == s.readiness
  {
  }

  lemma ApplyEndsRequests(cfg: Config, s: State, id: nat, p: ProposalRow, now: Time)
    requires Apply(cfg, s, id, p, now).Ok?
    requires p.action.ApproveValidator? || p.action.RejectValidator? || p.action.RemoveApprovedValidator?
    ensures Apply(cfg, s, id, p, now).value.readiness == s.readiness
  {
  }

  lemma ApplyEnds(cfg: Config, s: State, id: nat, p: ProposalRow, now: Time)
    requires Apply(cfg, s, id, p, now).Ok?
    ensures Apply(cfg, s, id, p, now).value.readiness
            == if EndsOnApply(s, p.action) then Invalidate(s.readiness, now) else s.readiness
    ensures p.action.CancelLaunch? ==> s.launch.status != Launched
  {
    if p.action.PublishFinalGenesis? {
      assert Apply(cfg, s, id, p, now) == ApplyPublishGenesis(cfg, s, id, p);
    } else if p.action.ApproveValidator? || p.action.RejectValidator? || p.action.RemoveApprovedValidator? {
      ApplyEndsRequests(cfg, s, id, p, now);
    } else if p.action.UpdateGenesisTime? || p.action.ReviseGenesis? || p.action.CancelLaunch? {
      ApplyEndsSome(cfg, s, id, p, now);
    } else {
      ApplyEndsRest(cfg, s, id, p, now);
    }
  }

  /** Any other step only ever adds to the confirmations. */
  lemma OthersOnlyAdd(cfg: Config, s: State, x: Input)
    requires Inv(cfg, s) && !Committed(cfg, s, x)
    ensures s.readiness <= Next(cfg, s, x).readiness
  {
    if x.Raise? || x.Decide? {
      UncommittedEffect(cfg, s, x);
    }
  }

  lemma ConfirmationStep(cfg: Config, s: State, x: Input, t: State, i: nat)
    requires Inv(cfg, s) && t == Next(cfg, s, x) && i < |s.readiness| && ValidConfirmation(s.readiness[i])
    ensures i < |t.readiness|
    ensures if EndsConfirmations(cfg, s, x) then !ValidConfirmation(t.readiness[i]) else t.readiness[i] == s.readiness[i]
  {
    if Committed(cfg, s, x) {
      var e := ExecutionOf(cfg, s, x).value;
      CommittedEffect(cfg, s, x);
      ExecutionIsSavable(cfg, s, x);
      assert s.readiness[i] in s.readiness;
      assert Vouched(s.launch, s.requests, s.readiness[i]);
      ApplyEnds(cfg, Logged(e.base, e.id), e.id, e.row, e.now);
    } else {
      OthersOnlyAdd(cfg, s, x);
    }
  }

  /**
   * On every run a valid confirmation stays as it is, step by step, until a committed genesis-time update,
   * genesis revision or cancellation, and each of these ends it.
   */
  lemma ConfirmationEndsIff(cfg: Config, states: seq<State>, xs: seq<Input>, k: nat, i: nat)
    requires Run(cfg, states, xs) && k < |xs| && i < |states[k].readiness| && ValidConfirmation(states[k].readiness[i])
    ensures i < |states[k + 1].readiness|
    ensures if EndsConfirmations(cfg, states[k], xs[k]) then !ValidConfirmation(states[k + 1].readiness[i])
            else states[k + 1].readiness[i] == states[k].readiness[i]
  {
    Reachable(cfg, states, xs, k);
    assert StepAt(cfg, states, xs, k);
    ConfirmationStep(cfg, states[k], xs[k], states[k + 1], i);
  }

  // ----- Accepting a confirmation

  /** The operator's newest request is APPROVED. */
  ghost predicate NewestApproved(rows: seq<JoinRow>, operator: Account, i: nat) {
    && i < |rows| && rows[i].operator == operator && rows[i].status == Approved
    && forall j :: i < j < |rows| ==> rows[j].operator != operator
  }

  /** No confirmation of the operator is valid and stamped as late as all its others. */
  ghost predicate NewestVoid(cs: seq<Confirmation>, operator: Account) {
    forall i :: 0 <= i < |cs| && cs[i].operator == operator && ValidConfirmation(cs[i]) ==>
      exists j :: 0 <= j < |cs| && cs[j].operator == operator && Outdates(cs, i, j)
  }

  /** Row j is stamped after row i, or with it and stored later. */
  ghost predicate Outdates(cs: seq<Confirmation>, i: int, j: int)
    requires 0 <= i < |cs| && 0 <= j < |cs|
  {
    cs[i].confirmedAt < cs[j].confirmedAt || (cs[i].confirmedAt == cs[j].confirmedAt && i < j)
  }

  lemma NewestVoidMeans(cs: seq<Confirmation>, operator: Account)
    ensures var n := NewestConfirmation(cs, operator);
            NewestVoid(cs, operator) <==> (n < |cs| ==> !ValidConfirmation(cs[n]))
  {
    var n := NewestConfirmation(cs, operator);
    forall i | 0 <= i < |cs| && cs[i].operator == operator && i != n ensures Outdates(cs, i, n) {
    }
    if n < |cs| {
      forall j | 0 <= j < |cs| && cs[j].operator == operator ensures !Outdates(cs, n, j) {
      }
    }
  }

  lemma NewestApprovedMeans(rows: seq<JoinRow>, operator: Account)
    ensures var n := NewestIndex(rows, operator);
            (exists i :: NewestApproved(rows, operator, i)) <==> n < |rows| && rows[n].status == Approved
  {
    var n := NewestIndex(rows, operator);
    if n < |rows| && rows[n].status == Approved {
      assert NewestApproved(rows, operator, n);
    }
  }

  /**
   * A confirmation is added iff the genesis is out, the operator's newest request is APPROVED, the hash is the
   * launch's, so is the binary hash where one is declared, and the operator's newest confirmation is not valid.
   */
  lemma ConfirmedIff(cfg: Config, states: seq<State>, xs: seq<Input>, k: nat)
    requires Run(cfg, states, xs) && k < |xs| && states[k].running && xs[k].Confirm?
    ensures var s, x := states[k], xs[k];
            |states[k + 1].readiness| == |s.readiness| + 1
            <==> && s.launch.status == GenesisReady
                 && (exists i :: NewestApproved(s.requests, x.operator, i))
                 && x.genesisHash == s.launch.finalGenesisSha256
                 && (s.launch.record.binarySha256 == "" || x.binaryHash == s.launch.record.binarySha256)
                 && NewestVoid(s.readiness, x.operator)
  {
    assert StepAt(cfg, states, xs, k);
    NewestVoidMeans(states[k].readiness, xs[k].operator);
    NewestApprovedMeans(states[k].requests, xs[k].operator);
  }
}
