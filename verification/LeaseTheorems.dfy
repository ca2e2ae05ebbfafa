/** The run lease of a rehearsal attempt, over every run: who was granted what, and until when. */
module LeaseTheorems {
  import opened Prelude
  import opened Launches
  import opened Rehearsals
  import opened Coordinator
  import opened Invariants
  import opened Steps

  /** A claim call that is served, whatever it answers. */
  ghost predicate Asks(states: seq<State>, xs: seq<Input>, k: int) {
    0 <= k < |xs| && |states| == |xs| + 1 && states[k].running && xs[k].ClaimRun?
  }

  /** The attempt a claim call is about: the one minted for the current input set, or about to be. */
  ghost function Target(cfg: Config, s: State): nat {
    AttemptIndex(s.attempts, Current(cfg, s))
  }

  /** Step k answered a claim on attempt a with a lease. */
  ghost predicate Granted(cfg: Config, states: seq<State>, xs: seq<Input>, k: int, a: nat) {
    && Asks(states, xs, k)
    && Target(cfg, states[k]) == a
    && (a < |states[k].attempts| ==>
          !IsLeased(states[k].attempts[a], xs[k].now) || states[k].attempts[a].runner == xs[k].runner)
  }

  /** The expiry a granted claim was answered with. */
  ghost function Promise(states: seq<State>, k: int, a: nat): Time
    requires 0 <= k < |states| - 1 && a < |states[k + 1].attempts|
  {
    var lease := states[k + 1].attempts[a].leaseExpiresAt;
    if lease.Some? then lease.value else 0
  }

  /** Step k recorded a result for attempt a, or a member reset it. */
  ghost predicate Ends(states: seq<State>, xs: seq<Input>, k: int, a: nat) {
    && 0 <= k < |xs| && |states| == |xs| + 1 && states[k].running
    && (match xs[k]
        case RecordResult(f, verified, released, _) => released && FactAccepted(states[k], f, verified) && f.attempt.value == a
        case ResetAttempt(caller, i) => i == a && HasMember(states[k].launch.committee, caller)
        case _ => false)
  }

  ghost predicate Uninterrupted(states: seq<State>, xs: seq<Input>, i: int, j: int, a: nat) {
    forall k :: i < k < j ==> !Ends(states, xs, k, a)
  }

  /** Claims read a clock that never goes back. */
  ghost predicate ClaimClock(xs: seq<Input>) {
    forall i, j :: 0 <= i < j < |xs| && xs[i].ClaimRun? && xs[j].ClaimRun? ==> xs[i].now <= xs[j].now
  }

  // ----- One step

  /** Only claims, results and resets touch the attempts. */
  lemma AttemptsFrame(cfg: Config, s: State, x: Input)
    requires Inv(cfg, s) && !(x.ClaimRun? || x.RecordResult? || x.ResetAttempt?)
    ensures Next(cfg, s, x).attempts == s.attempts
  {
    if Committed(cfg, s, x) {
      CommittedFrame(cfg, s, x);
    } else if x.Raise? || x.Decide? {
      UncommittedEffect(cfg, s, x);
    }
  }

  /** A step that does not end attempt a leaves it alone, unless it is a claim granted on it. */
  lemma AttemptStep(cfg: Config, states: seq<State>, xs: seq<Input>, k: nat, a: nat)
    requires StepAt(cfg, states, xs, k) && Inv(cfg, states[k])
    ensures |states[k].attempts| <= |states[k + 1].attempts|
    ensures a < |states[k].attempts| && !Ends(states, xs, k, a) && !Granted(cfg, states, xs, k, a) ==>
              states[k + 1].attempts[a] == states[k].attempts[a]
    ensures a < |states[k].attempts| && Ends(states, xs, k, a) ==> states[k + 1].attempts[a].leaseExpiresAt == None
    ensures |states[k].attempts| <= a < |states[k + 1].attempts| && !Granted(cfg, states, xs, k, a) ==>
              states[k + 1].attempts[a].leaseExpiresAt == None
  {
    var s, x := states[k], xs[k];
    if !(x.ClaimRun? || x.RecordResult? || x.ResetAttempt?) {
      AttemptsFrame(cfg, s, x);
    }
  }

  /** A granted claim renews nothing: it keeps the lease it finds in force, and otherwise starts one of a full TTL. */
  lemma GrantStep(cfg: Config, states: seq<State>, xs: seq<Input>, k: nat, a: nat)
    requires StepAt(cfg, states, xs, k) && Granted(cfg, states, xs, k, a)
    ensures a < |states[k + 1].attempts|
    ensures var after := states[k + 1].attempts[a];
            && after.status == AttemptRunning && after.runner == xs[k].runner && after.leaseExpiresAt.Some?
            && (if a < |states[k].attempts| && IsLeased(states[k].attempts[a], xs[k].now)
                then after == states[k].attempts[a]
                else after.leaseExpiresAt == Some(xs[k].now + cfg.leaseTtl) && after.claimedAt == Some(xs[k].now))
  {
    var s, x := states[k], xs[k];
    assert states[k + 1] == ClaimStep(cfg, s, x.runner, x.now);
  }

  /** What the step after state k of a run does to attempt a. */
  ghost predicate LeaseMove(cfg: Config, states: seq<State>, xs: seq<Input>, k: nat, a: nat)
    requires k < |xs| && |states| == |xs| + 1
  {
    var before, after := states[k].attempts, states[k + 1].attempts;
    && |before| <= |after|
    && (if Granted(cfg, states, xs, k, a) then
          && a < |after| && after[a].status == AttemptRunning && after[a].runner == xs[k].runner
          && (if a < |before| && IsLeased(before[a], xs[k].now) then after[a] == before[a]
              else after[a].leaseExpiresAt == Some(xs[k].now + cfg.leaseTtl) && after[a].claimedAt == Some(xs[k].now))
        else if Ends(states, xs, k, a) then a < |after| ==> after[a].leaseExpiresAt == None
        else if a < |before| then after[a] == before[a]
        else a < |after| ==> after[a].leaseExpiresAt == None)
  }

  lemma LeaseMoves(cfg: Config, states: seq<State>, xs: seq<Input>, k: nat, a: nat)
    requires Run(cfg, states, xs) && k < |xs|
    ensures LeaseMove(cfg, states, xs, k, a)
  {
    Reachable(cfg, states, xs, k);
    AttemptStep(cfg, states, xs, k, a);
    if Granted(cfg, states, xs, k, a) {
      GrantStep(cfg, states, xs, k, a);
    }
  }

  // ----- Holds

  /** Attempt a is still as the grant at step i left it, or a later claim found that grant expired. */
  ghost predicate HeldOrExpired(cfg: Config, states: seq<State>, xs: seq<Input>, i: nat, j: nat, a: nat)
    requires |states| == |xs| + 1 && i < j <= |xs| && xs[i].ClaimRun? && a < |states[i + 1].attempts|
  {
    && a < |states[j].attempts|
    && (|| states[j].attempts[a] == states[i + 1].attempts[a]
        || exists k :: i < k < j && xs[k].ClaimRun? && xs[k].now >= Promise(states, i, a))
  }

  lemma {:induction false} HoldLasts(cfg: Config, states: seq<State>, xs: seq<Input>, i: nat, j: nat, a: nat)
    requires Run(cfg, states, xs) && i < j <= |xs|
    requires Granted(cfg, states, xs, i, a) && Uninterrupted(states, xs, i, j, a)
    ensures a < |states[i + 1].attempts|
    ensures HeldOrExpired(cfg, states, xs, i, j, a)
    decreases j
  {
    LeaseMoves(cfg, states, xs, i, a);
    if j > i + 1 {
      HoldLasts(cfg, states, xs, i, j - 1, a);
      LeaseMoves(cfg, states, xs, j - 1, a);
    }
  }

  /**
   * While a grant is in force and nothing ended it, nobody else is granted the attempt, and the holder's
   * repeated claims are answered with the same expiry.
   */
  lemma LeaseIsExclusive(cfg: Config, states: seq<State>, xs: seq<Input>, i: nat, j: nat, a: nat)
    requires Run(cfg, states, xs) && ClaimClock(xs) && i < j < |xs|
    requires Granted(cfg, states, xs, i, a) && Uninterrupted(states, xs, i, j, a)
    requires Asks(states, xs, j) && Target(cfg, states[j]) == a
    ensures a < |states[i + 1].attempts|
    ensures xs[j].now < Promise(states, i, a) ==>
              && (Granted(cfg, states, xs, j, a) <==> xs[j].runner == xs[i].runner)
              && (Granted(cfg, states, xs, j, a) ==>
                    a < |states[j + 1].attempts| && Promise(states, j, a) == Promise(states, i, a))
  {
    HoldLasts(cfg, states, xs, i, j, a);
    LeaseMoves(cfg, states, xs, i, a);
    LeaseMoves(cfg, states, xs, j, a);
  }

  /** A lease on record comes from an uninterrupted grant to its runner, taken one TTL before it expires. */
  ghost predicate FirstClaim(cfg: Config, states: seq<State>, xs: seq<Input>, i: int, j: int, a: nat, runner: string, expiry: Time)
  {
    && Granted(cfg, states, xs, i, a) && i < j
    && xs[i].runner == runner && expiry == xs[i].now + cfg.leaseTtl
    && a < |states[i + 1].attempts| && Promise(states, i, a) == expiry
    && Uninterrupted(states, xs, i, j, a)
  }

  lemma FirstClaimLasts(cfg: Config, states: seq<State>, xs: seq<Input>, i: int, j: int, a: nat, runner: string, expiry: Time)
    requires FirstClaim(cfg, states, xs, i, j, a, runner, expiry) && !Ends(states, xs, j, a)
    ensures FirstClaim(cfg, states, xs, i, j + 1, a, runner, expiry)
  {
  }

  lemma {:induction false} LeaseOrigin(cfg: Config, states: seq<State>, xs: seq<Input>, j: nat, a: nat) returns (i: nat)
    requires Run(cfg, states, xs) && j <= |xs| && a < |states[j].attempts|
    requires states[j].attempts[a].leaseExpiresAt.Some?
    ensures FirstClaim(cfg, states, xs, i, j, a, states[j].attempts[a].runner, states[j].attempts[a].leaseExpiresAt.value)
    ensures states[j].attempts[a].claimedAt == Some(xs[i].now)
    decreases j
  {
    var k := j - 1;
    LeaseMoves(cfg, states, xs, k, a);
    if Granted(cfg, states, xs, k, a) {
      if a < |states[k].attempts| && IsLeased(states[k].attempts[a], xs[k].now) {
        i := LeaseOrigin(cfg, states, xs, k, a);
        FirstClaimLasts(cfg, states, xs, i, k, a, states[k].attempts[a].runner, states[k].attempts[a].leaseExpiresAt.value);
      } else {
        i := k;
      }
    } else {
      i := LeaseOrigin(cfg, states, xs, k, a);
      FirstClaimLasts(cfg, states, xs, i, k, a, states[k].attempts[a].runner, states[k].attempts[a].leaseExpiresAt.value);
    }
  }

  /** However often it is re-claimed, a hold ends one TTL after the claim that began it. */
  lemma HoldEndsOneTtlAfterFirstClaim(cfg: Config, states: seq<State>, xs: seq<Input>, j: nat, a: nat) returns (i: nat)
    requires Run(cfg, states, xs) && j < |xs| && Granted(cfg, states, xs, j, a)
    ensures a < |states[j + 1].attempts|
    ensures FirstClaim(cfg, states, xs, i, j + 1, a, xs[j].runner, Promise(states, j, a))
  {
    LeaseMoves(cfg, states, xs, j, a);
    i := LeaseOrigin(cfg, states, xs, j + 1, a);
  }

  /** A claim is refused iff some other runner's uninterrupted grant is still in force. */
  lemma RefusedIffHeldByAnother(cfg: Config, states: seq<State>, xs: seq<Input>, j: nat, a: nat)
    requires Run(cfg, states, xs) && ClaimClock(xs) && j < |xs|
    requires Asks(states, xs, j) && Target(cfg, states[j]) == a
    ensures !Granted(cfg, states, xs, j, a) <==> HeldByAnother(cfg, states, xs, j, a)
  {
    if !Granted(cfg, states, xs, j, a) {
      var i := LeaseOrigin(cfg, states, xs, j, a);
      assert HeldByAnotherSince(cfg, states, xs, i, j, a);
    }
    if HeldByAnother(cfg, states, xs, j, a) {
      var i: nat :| HeldByAnotherSince(cfg, states, xs, i, j, a);
      LeaseIsExclusive(cfg, states, xs, i, j, a);
    }
  }

  ghost predicate HeldByAnotherSince(cfg: Config, states: seq<State>, xs: seq<Input>, i: nat, j: nat, a: nat) {
    && i < j < |xs| && Granted(cfg, states, xs, i, a) && Uninterrupted(states, xs, i, j, a)
    && Asks(states, xs, j) && xs[i].runner != xs[j].runner
    && a < |states[i + 1].attempts| && xs[j].now < Promise(states, i, a)
  }

  ghost predicate HeldByAnother(cfg: Config, states: seq<State>, xs: seq<Input>, j: nat, a: nat) {
    exists i: nat :: HeldByAnotherSince(cfg, states, xs, i, j, a)
  }
}
