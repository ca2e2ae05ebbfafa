/** Where rehearsal results and attempts come from, on every run. */
module RehearsalTheorems {
  import opened Prelude
  import opened Launches
  import opened Rehearsals
  import opened Coordinator
  import opened Invariants
  import opened Steps
  import opened LeaseTheorems

  // ----- Results

  /** Step j recorded this result from a fact that verified, and that said exactly this. */
  ghost predicate ResultFrom(cfg: Config, states: seq<State>, xs: seq<Input>, j: int, r: ResultRow) {
    && 0 <= j < |xs| && |states| == |xs| + 1 && states[j].running
    && xs[j].RecordResult? && xs[j].verified && states[j].launch.rehearsalServiceKey != ""
    && xs[j].fact == Fact(Some(r.attempt), r.inputSetHash, Some(r.outcome), r.signature)
    && r.attempt < |states[j].attempts| && states[j].attempts[r.attempt].inputSetHash == r.inputSetHash
    && (r.stale <==> r.inputSetHash != Current(cfg, states[j]))
    && r.recordedAt == xs[j].now
  }

  lemma ResultsFrame(cfg: Config, s: State, x: Input)
    requires Inv(cfg, s) && !x.RecordResult?
    ensures Next(cfg, s, x).results == s.results
  {
    if Committed(cfg, s, x) {
      CommittedFrame(cfg, s, x);
    } else if x.Raise? || x.Decide? {
      UncommittedEffect(cfg, s, x);
    }
  }

  /** A step keeps the results, or appends one of this origin with a signature not seen before. */
  lemma ResultsStep(cfg: Config, states: seq<State>, xs: seq<Input>, k: nat)
    requires Run(cfg, states, xs) && k < |xs|
    ensures var before, after := states[k].results, states[k + 1].results;
            after == before
            || (|after| == |before| + 1 && after == before + [after[|before|]]
                && ResultFrom(cfg, states, xs, k, after[|before|])
                && forall r :: r in before ==> r.signature != after[|before|].signature)
  {
    Reachable(cfg, states, xs, k);
    assert StepAt(cfg, states, xs, k);
    if !xs[k].RecordResult? {
      ResultsFrame(cfg, states[k], xs[k]);
    }
  }

  /** Every stored result was recorded by a verified fact that carried its outcome, input set, attempt and signature. */
  lemma {:induction false} ResultOrigin(cfg: Config, states: seq<State>, xs: seq<Input>, n: nat, r: ResultRow)
    returns (j: nat)
    requires Run(cfg, states, xs) && n <= |xs| && r in states[n].results
    ensures j < n && ResultFrom(cfg, states, xs, j, r)
    decreases n
  {
    ResultsStep(cfg, states, xs, n - 1);
    if r in states[n - 1].results {
      j := ResultOrigin(cfg, states, xs, n - 1, r);
    } else {
      j := n - 1;
    }
  }

  ghost predicate DistinctSignatures(rs: seq<ResultRow>) {
    forall i, j :: 0 <= i < j < |rs| ==> rs[i].signature != rs[j].signature
  }

  /** A fact is recorded once however often it is sent, and no result is ever dropped or changed. */
  lemma {:induction false} ResultsOnlyAdd(cfg: Config, states: seq<State>, xs: seq<Input>, i: nat, j: nat)
    requires Run(cfg, states, xs) && i <= j <= |xs|
    ensures states[i].results <= states[j].results && DistinctSignatures(states[j].results)
    decreases j
  {
    if j > 0 {
      ResultsOnlyAdd(cfg, states, xs, if i < j then i else j - 1, j - 1);
      ResultsStep(cfg, states, xs, j - 1);
      var before, after := states[j - 1].results, states[j].results;
      forall a, b | 0 <= a < b < |after| ensures after[a].signature != after[b].signature {
        if b < |before| {
          assert after[a] == before[a] && after[b] == before[b];
        } else {
          assert after[a] == before[a] && before[a] in before;
        }
      }
    }
  }

  // ----- Attempts

  /** Step j minted this attempt for the input set it served then, which had none yet. */
  ghost predicate AttemptFrom(cfg: Config, states: seq<State>, xs: seq<Input>, j: int, a: AttemptRow) {
    && Asks(states, xs, j)
    && a.inputSetHash == Current(cfg, states[j]) && a.issuedAt == xs[j].now
    && forall i :: 0 <= i < |states[j].attempts| ==> states[j].attempts[i].inputSetHash != a.inputSetHash
  }

  lemma AttemptsStep(cfg: Config, states: seq<State>, xs: seq<Input>, k: nat)
    requires Run(cfg, states, xs) && k < |xs|
    ensures var before, after := states[k].attempts, states[k + 1].attempts;
            && |before| <= |after| <= |before| + 1
            && (forall i :: 0 <= i < |before| ==>
                  after[i].inputSetHash == before[i].inputSetHash && after[i].issuedAt == before[i].issuedAt)
            && (|after| > |before| ==> AttemptFrom(cfg, states, xs, k, after[|before|]))
  {
    Reachable(cfg, states, xs, k);
    assert StepAt(cfg, states, xs, k);
    var x := xs[k];
    if x.ClaimRun? {
      if states[k].running {
        ClaimMints(cfg, states[k], x.runner, x.now);
      }
    } else if !x.RecordResult? && !x.ResetAttempt? {
      AttemptsFrame(cfg, states[k], x);
    }
  }

  lemma ClaimMints(cfg: Config, s: State, runner: string, now: Time)
    ensures var before, after := s.attempts, ClaimStep(cfg, s, runner, now).attempts;
            && |before| <= |after| <= |before| + 1
            && (forall i :: 0 <= i < |before| ==>
                  after[i].inputSetHash == before[i].inputSetHash && after[i].issuedAt == before[i].issuedAt)
            && (|after| > |before| ==>
                  && after[|before|].inputSetHash == Current(cfg, s) && after[|before|].issuedAt == now
                  && forall i :: 0 <= i < |before| ==> before[i].inputSetHash != Current(cfg, s))
  {
  }

  /** No attempt exists but for an input set that a claim was served. */
  lemma {:induction false} AttemptOrigin(cfg: Config, states: seq<State>, xs: seq<Input>, n: nat, i: nat) returns (j: nat)
    requires Run(cfg, states, xs) && n <= |xs| && i < |states[n].attempts|
    ensures j < n && AttemptFrom(cfg, states, xs, j, states[n].attempts[i])
    decreases n
  {
    AttemptsStep(cfg, states, xs, n - 1);
    if i < |states[n - 1].attempts| {
      j := AttemptOrigin(cfg, states, xs, n - 1, i);
    } else {
      j := n - 1;
    }
  }

  /** The result is a PASS by a verified fact on an attempt whose input set a claim was served earlier. */
  ghost predicate PassedFor(cfg: Config, states: seq<State>, xs: seq<Input>, i: int, j: int, r: ResultRow) {
    && i < j && ResultFrom(cfg, states, xs, j, r) && r.outcome == Pass
    && xs[j].fact.outcome == Some(Pass)
    && Asks(states, xs, i) && Current(cfg, states[i]) == r.inputSetHash
  }

  lemma PassOrigin(cfg: Config, states: seq<State>, xs: seq<Input>, n: nat, r: ResultRow) returns (i: nat, j: nat)
    requires Run(cfg, states, xs) && n <= |xs| && r in states[n].results && r.outcome == Pass
    ensures j < n && PassedFor(cfg, states, xs, i, j, r)
  {
    j := ResultOrigin(cfg, states, xs, n, r);
    i := AttemptOrigin(cfg, states, xs, j, r.attempt);
  }

  /**
   * A fact is recorded iff it verified against a trusted key, its signature is new, its outcome is known, and it
   * names an attempt minted here for the input set it names.
   */
  lemma RecordedIff(cfg: Config, states: seq<State>, xs: seq<Input>, k: nat)
    requires Run(cfg, states, xs) && k < |xs| && states[k].running && xs[k].RecordResult?
    ensures var s, f := states[k], xs[k].fact;
            states[k + 1].results != s.results
            <==> && xs[k].verified && s.launch.rehearsalServiceKey != "" && f.outcome.Some?
                 && (forall r :: r in s.results ==> r.signature != f.signature)
                 && f.attempt.Some? && f.attempt.value < |s.attempts|
                 && s.attempts[f.attempt.value].inputSetHash == f.inputSetHash
  {
    assert StepAt(cfg, states, xs, k);
    var s, t := states[k], states[k + 1];
    if FactAccepted(s, xs[k].fact, xs[k].verified) {
      assert |t.results| == |s.results| + 1;
    }
  }
}
