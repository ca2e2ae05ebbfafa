/** The published genesis and the approved validator set. */
module GenesisTheorems {
  import opened Prelude
  import opened Launches
  import opened Proposals
  import opened JoinRequests
  import opened InputSets
  import opened FinalGenesis
  import opened Rehearsals
  import opened Coordinator
  import opened Invariants
  import opened Steps
  import opened ClosureTheorems
  import opened GenesisStoreTheorems
  import opened RehearsalTheorems
  import opened QuorumTheorems
  import opened AuditTrailTheorems

  // ----- Publication

  /** A file that is served carries exactly the approved consensus keys, each once. */
  ghost predicate CarriesApproved(s: State) {
    Served(s.store).Bytes? && ApprovedRows(s.requests) != [] ==>
      Rearrangement(Served(s.store).file, ApprovedKeys(s))
  }

  /** The latest result is a PASS on this input set, bound to an attempt minted here for it. */
  ghost predicate Rehearsed(s: State, hash: Hash) {
    var latest := LatestResult(s.results);
    && latest.Some?
    && latest.value.outcome == Pass
    && latest.value.inputSetHash == hash
    && latest.value.attempt < |s.attempts|
    && s.attempts[latest.value.attempt].inputSetHash == hash
  }

  lemma ApplyPublishes(cfg: Config, s: State, id: nat, p: ProposalRow, now: Time)
    requires p.action.PublishFinalGenesis? && Apply(cfg, s, id, p, now).Ok?
    ensures var t := Apply(cfg, s, id, p, now).value;
            && GenesisFresh(cfg, s) && GatePasses(cfg, s)
            && IsSha256Hex(s.launch.finalGenesisSha256)
            && p.action == PublishFinalGenesis(s.launch.finalGenesisSha256)
            && t.launch == s.launch.(status := GenesisReady)
            && t.requests == s.requests && t.store == s.store && t.results == s.results && t.attempts == s.attempts
  {
    assert Apply(cfg, s, id, p, now) == ApplyPublishGenesis(cfg, s, id, p);
  }

  lemma PublishingStep(cfg: Config, s: State, x: Input, t: State)
    requires Inv(cfg, s) && t == Next(cfg, s, x)
    requires s.launch.status == WindowClosed && t.launch.status == GenesisReady
    ensures GenesisFresh(cfg, s) && GatePasses(cfg, s)
    ensures IsSha256Hex(s.launch.finalGenesisSha256)
    ensures t.launch == s.launch.(status := GenesisReady)
    ensures t.requests == s.requests && t.store == s.store && t.results == s.results && t.attempts == s.attempts
    ensures Committed(cfg, s, x)
    ensures ExecutionOf(cfg, s, x).value.row.action == PublishFinalGenesis(s.launch.finalGenesisSha256)
  {
    StatusChange(cfg, s, x);
    CommittedEffect(cfg, s, x);
    ExecutionIsSavable(cfg, s, x);
    var e := ExecutionOf(cfg, s, x).value;
    ApplyPublishes(cfg, Logged(e.base, e.id), e.id, e.row, e.now);
  }

  /** Step k executed a proposal to publish exactly the published hash, signed by at least M distinct accounts. */
  ghost predicate SignedFor(states: seq<State>, k: int, id: nat) {
    && 0 <= k < |states| - 1
    && !IsExecuted(states[k], id) && IsExecuted(states[k + 1], id)
    && states[k + 1].proposals[id].action == PublishFinalGenesis(states[k + 1].launch.finalGenesisSha256)
    && |Signers(states[k + 1].proposals[id].signatures)| >= states[k].launch.committee.thresholdM
  }

  lemma PublicationIsSigned(cfg: Config, states: seq<State>, xs: seq<Input>, k: nat) returns (id: nat)
    requires Run(cfg, states, xs) && PublishesAt(states, k)
    ensures SignedFor(states, k, id)
  {
    Reachable(cfg, states, xs, k);
    assert StepAt(cfg, states, xs, k);
    PublishingStep(cfg, states[k], xs[k], states[k + 1]);
    CommittedExecutes(cfg, states[k], xs[k]);
    StepQuorum(cfg, states[k], xs[k]);
    id := ExecutionOf(cfg, states[k], xs[k]).value.id;
  }

  /** A fresh bound file carries the keys approved now, though it was checked against those approved at upload. */
  lemma FreshCarriesApproved(cfg: Config, s: State)
    requires Inv(cfg, s) && CollisionFree(cfg.hashing) && FinalInv(cfg, s.launch, s.store)
    requires GenesisFresh(cfg, s) && s.launch.finalGenesisSha256 != ""
    ensures CarriesApproved(s)
  {
    if Served(s.store).Bytes? && ApprovedRows(s.requests) != [] {
      var file := Served(s.store).file;
      var r, rows, files :|
        && s.launch.finalGenesisInputSetHash == Fingerprint(cfg.hashing, r, rows, files)
        && DistinctOperators(ApprovedRows(rows))
        && (ApprovedRows(rows) != [] ==> Rearrangement(file, Keys(ApprovedRows(rows))));
      ApprovedDistinct(s.requests);
      FingerprintFixesKeys(cfg.hashing, s.launch.record, s.requests, s.launch.allocationFiles, r, rows, files);
      KeyBagEmpty(s.requests);
      KeyBagEmpty(rows);
    }
  }

  /** The same of a file whose own row was never saved, when nothing was approved since the record. */
  lemma FreshSqueezes(cfg: Config, s: State)
    requires Inv(cfg, s) && CollisionFree(cfg.hashing) && KeysInv(cfg, s)
    requires GenesisFresh(cfg, s) && s.launch.finalGenesisSha256 != ""
    ensures CarriesApproved(s)
  {
    if Served(s.store).Bytes? && ApprovedRows(s.requests) != [] {
      var r, rows, files :| BoundSet(cfg, s.launch.finalGenesisInputSetHash, r, rows, files)
                            && Squeezed(cfg, s, s.store.file.value, rows);
      ApprovedDistinct(s.requests);
      FingerprintFixesKeys(cfg.hashing, s.launch.record, s.requests, s.launch.allocationFiles, r, rows, files);
    }
  }

  ghost predicate PublishesAt(states: seq<State>, k: int) {
    0 <= k < |states| - 1 && states[k].launch.status == WindowClosed && states[k + 1].launch.status == GenesisReady
  }

  lemma PublicationFacts(cfg: Config, states: seq<State>, xs: seq<Input>, k: nat)
    requires Run(cfg, states, xs) && PublishesAt(states, k)
    ensures Inv(cfg, states[k]) && GenesisFresh(cfg, states[k]) && GatePasses(cfg, states[k])
    ensures states[k].launch.finalGenesisSha256 != ""
    ensures states[k + 1].launch == states[k].launch.(status := GenesisReady)
    ensures states[k + 1].requests == states[k].requests && states[k + 1].store == states[k].store
    ensures states[k + 1].results == states[k].results && states[k + 1].attempts == states[k].attempts
  {
    Reachable(cfg, states, xs, k);
    assert StepAt(cfg, states, xs, k);
    PublishingStep(cfg, states[k], xs[k], states[k + 1]);
  }

  /** Under the required gate: a trusted key, and the latest result a PASS that a verified fact gave this input set. */
  ghost predicate GateMet(cfg: Config, states: seq<State>, xs: seq<Input>, k: int)
    requires PublishesAt(states, k)
  {
    var t := states[k + 1];
    && t.launch.rehearsalServiceKey != ""
    && Rehearsed(t, t.launch.finalGenesisInputSetHash)
    && exists i, j :: j < k && PassedFor(cfg, states, xs, i, j, LatestResult(t.results).value)
  }

  /**
   * On every run, the step that publishes executes a proposal signed for exactly the hash it publishes, of an upload
   * made since the window closed or was last reopened, with the input set on record. Under the required gate the latest rehearsal is a PASS on that same input set, given by a
   * verified fact that said PASS, on an attempt minted here when a claim was served that input set. If every backlog
   * fitted, or the last upload saved its row, a served file carries exactly the keys of the requests approved then.
   */
  lemma PublicationIsExact(cfg: Config, states: seq<State>, xs: seq<Input>, k: nat)
    requires Run(cfg, states, xs) && CollisionFree(cfg.hashing) && PublishesAt(states, k)
    ensures Current(cfg, states[k + 1]) == states[k + 1].launch.finalGenesisInputSetHash
    ensures exists id :: SignedFor(states, k, id)
    ensures exists j :: RecordedAt(cfg, states, xs, j, k)
    ensures cfg.gate == GateRequired ==> GateMet(cfg, states, xs, k)
    ensures BacklogsFit(states) || Intact(states, xs, k) ==> CarriesApproved(states[k + 1])
  {
    PublicationFacts(cfg, states, xs, k);
    if Intact(states, xs, k) {
      BindingHolds(cfg, states, xs, k);
      FreshCarriesApproved(cfg, states[k]);
    } else if BacklogsFit(states) {
      KeysReachable(cfg, states, xs, k);
      FreshSqueezes(cfg, states[k]);
    }
    if cfg.gate == GateRequired {
      var i, j := PassOrigin(cfg, states, xs, k, LatestResult(states[k].results).value);
    }
    var id := PublicationIsSigned(cfg, states, xs, k);
    var u := RecordedUpload(cfg, states, xs, k);
  }

  /**
   * On every run, what a download gets after a publication has the published digest iff, before it, the stored
   * reference had the recorded digest, or there was no reference and the last upload saved its row or repeated
   * the digest on record.
   */
  lemma PublicationServesIff(cfg: Config, states: seq<State>, xs: seq<Input>, k: nat)
    requires Run(cfg, states, xs) && PublishesAt(states, k)
    ensures ServesRecorded(cfg, states[k + 1])
            <==> match states[k].store.ref
                 case Some(hash) => hash == states[k].launch.finalGenesisSha256
                 case None => Harmless(cfg, states, xs, k)
    ensures Intact(states, xs, k) ==>
              (ServesRecorded(cfg, states[k + 1])
               <==> states[k].store.ref == None || states[k].store.ref == Some(states[k].launch.finalGenesisSha256))
  {
    PublicationFacts(cfg, states, xs, k);
    ServesRecordedIff(cfg, states, xs, k);
    if Intact(states, xs, k) {
      IntactIsHarmless(cfg, states, xs, k);
    }
  }

  lemma StoreFrozen(cfg: Config, s: State, x: Input)
    requires Inv(cfg, s) && s.launch.status != WindowClosed
    ensures Next(cfg, s, x).store == s.store
  {
    if Committed(cfg, s, x) {
      CommittedFrame(cfg, s, x);
    } else if x.Raise? || x.Decide? {
      UncommittedEffect(cfg, s, x);
    }
  }

  lemma ReadyStep(cfg: Config, states: seq<State>, xs: seq<Input>, k: nat)
    requires Run(cfg, states, xs) && k < |xs| && ReadyOrLaunched(states[k])
    requires Settled(states[k]) && CarriesApproved(states[k])
    ensures CarriesApproved(states[k + 1])
  {
    Reachable(cfg, states, xs, k);
    assert StepAt(cfg, states, xs, k);
    SettledStays(cfg, states[k], xs[k]);
    StoreFrozen(cfg, states[k], xs[k]);
  }

  /** The only way into GENESIS_READY or LAUNCHED from outside is a publication. */
  lemma EntersReady(cfg: Config, states: seq<State>, xs: seq<Input>, k: nat)
    requires Run(cfg, states, xs) && k < |xs| && !ReadyOrLaunched(states[k]) && ReadyOrLaunched(states[k + 1])
    ensures PublishesAt(states, k)
  {
    Reachable(cfg, states, xs, k);
    assert StepAt(cfg, states, xs, k);
    StatusChange(cfg, states[k], xs[k]);
  }

  /** In every reachable GENESIS_READY or LAUNCHED state a served file still carries exactly the approved keys. */
  lemma {:induction false} ReadyGenesisCarriesApproved(cfg: Config, states: seq<State>, xs: seq<Input>, k: nat)
    requires Run(cfg, states, xs) && CollisionFree(cfg.hashing) && BacklogsFit(states) && k <= |xs|
    ensures ReadyOrLaunched(states[k]) ==> CarriesApproved(states[k])
    decreases k
  {
    if k > 0 && ReadyOrLaunched(states[k]) {
      if ReadyOrLaunched(states[k - 1]) {
        ReadyGenesisCarriesApproved(cfg, states, xs, k - 1);
        NonePendingAfterClose(cfg, states, xs, k - 1);
        ReadyStep(cfg, states, xs, k - 1);
      } else {
        EntersReady(cfg, states, xs, k - 1);
        PublicationIsExact(cfg, states, xs, k - 1);
      }
    }
  }

  // ----- How long the fingerprint stays fresh

  /** A committed genesis-time update to another second. */
  ghost predicate MovesGenesisTime(cfg: Config, s: State, x: Input) {
    && Committed(cfg, s, x)
    && var a := ExecutionOf(cfg, s, x).value.row.action;
       a.UpdateGenesisTime? && SecondOf(Some(a.newGenesisTime)) != SecondOf(s.launch.record.genesisTime)
  }

  /** A veto that takes effect on a file the committee had approved. */
  ghost predicate UnapprovesFile(s: State, x: Input) {
    && s.running && x.Decide? && x.decision == Veto && !x.weather.txFails
    && HasMember(s.launch.committee, x.member)
    && IsPending(s.proposals, x.proposal)
    && SignProposal(s.proposals[x.proposal], x.member, Veto, s.launch.committee.thresholdM, x.now).Ok?
    && var a := s.proposals[x.proposal].action;
       a.ApproveAllocationFile? && ApprovedHash(s.launch.allocationFiles, a.kind) == Some(a.hash)
  }

  lemma RejectedHashes(l: LaunchRow, kind: AllocationType, hash: Hash)
    requires CanRejectAllocation(l, kind, hash)
    ensures var out := RejectAllocation(l, kind, hash).allocationFiles;
            && ApprovedHash(out, kind) == None
            && (forall k :: k != kind ==> ApprovedHash(out, k) == ApprovedHash(l.allocationFiles, k))
  {
    var i := FileIndex(l.allocationFiles, kind);
    var out := RejectAllocation(l, kind, hash).allocationFiles;
    assert out[i].kind == kind;
    assert FileIndex(out, kind) == i;
    forall k | k != kind ensures ApprovedHash(out, k) == ApprovedHash(l.allocationFiles, k) {
      var j := FileIndex(l.allocationFiles, k);
      var j' := FileIndex(out, k);
      assert j < |out| ==> out[j].kind == k;
      assert j' < |out| ==> l.allocationFiles[j'].kind == k;
      assert j == j';
    }
  }

  /** In GENESIS_READY a committed action changes the record only by the genesis time, and no allocation file. */
  lemma ReadyCommitted(cfg: Config, s: State, x: Input)
    requires Inv(cfg, s) && Committed(cfg, s, x) && s.launch.status == GenesisReady
    ensures var a, t := ExecutionOf(cfg, s, x).value.row.action, Next(cfg, s, x);
            && t.launch.allocationFiles == s.launch.allocationFiles
            && t.launch.record == (if a.UpdateGenesisTime?
                                   then s.launch.record.(genesisTime := Some(a.newGenesisTime)) else s.launch.record)
  {
    CommittedEffect(cfg, s, x);
    ExecutionIsSavable(cfg, s, x);
    var e := ExecutionOf(cfg, s, x).value;
    ReadyApply(cfg, Logged(e.base, e.id), e.id, e.row, e.now);
  }

  lemma ReadyApply(cfg: Config, s: State, id: nat, p: ProposalRow, now: Time)
    requires s.launch.status == GenesisReady && Apply(cfg, s, id, p, now).Ok?
    ensures var t := Apply(cfg, s, id, p, now).value;
            && t.launch.allocationFiles == s.launch.allocationFiles
            && t.launch.record == (if p.action.UpdateGenesisTime?
                                   then s.launch.record.(genesisTime := Some(p.action.newGenesisTime))
                                   else s.launch.record)
  {
  }

  lemma ReadyVeto(cfg: Config, s: State, x: Input)
    requires Inv(cfg, s) && s.launch.status == GenesisReady && (x.Raise? || x.Decide?) && !Committed(cfg, s, x)
    ensures var t := Next(cfg, s, x);
            && t.launch.record == s.launch.record
            && ((forall k :: ApprovedHash(t.launch.allocationFiles, k) == ApprovedHash(s.launch.allocationFiles, k))
                <==> !UnapprovesFile(s, x))
  {
    UncommittedEffect(cfg, s, x);
    if ExecutionOf(cfg, s, x).Some? {
      ExecutionIsSavable(cfg, s, x);
      var e := ExecutionOf(cfg, s, x).value;
      ExecuteShape(cfg, e.base, e.id, e.row, e.weather, e.now);
    } else if s.running && x.Decide? && HasMember(s.launch.committee, x.member) && IsPending(s.proposals, x.proposal) {
      var a := s.proposals[x.proposal].action;
      var r := SignProposal(s.proposals[x.proposal], x.member, x.decision, s.launch.committee.thresholdM, x.now);
      SignOutcome(s.proposals[x.proposal], x.member, x.decision, s.launch.committee.thresholdM, x.now);
      if r.Ok? && r.value.status == Vetoed && a.ApproveAllocationFile?
         && CanRejectAllocation(s.launch, a.kind, a.hash) && !x.weather.txFails {
        var saved := SaveLaunchAndProposal(s, RejectAllocation(s.launch, a.kind, a.hash), x.proposal, r.value);
        DispatchKeepsData(saved, x.proposal, [VetoEffect(x.proposal, AllocationFileRejected(a.kind, a.hash))],
                          x.weather.completion);
        RejectedHashes(s.launch, a.kind, a.hash);
      }
    }
  }

  /** Every other step leaves what is hashed alone. */
  lemma ReadyOther(cfg: Config, s: State, x: Input)
    requires s.launch.status == GenesisReady && !x.Raise? && !x.Decide?
    ensures var t := Next(cfg, s, x);
            t.launch.record == s.launch.record && t.launch.allocationFiles == s.launch.allocationFiles
  {
  }

  lemma TimeMoveChangesChain(r: ChainRecord, t: Time)
    ensures SameChain(r, r.(genesisTime := Some(t))) <==> SecondOf(Some(t)) == SecondOf(r.genesisTime)
    ensures SameChain(r, r)
  {
  }

  /** The two ways a step can touch what is hashed, in GENESIS_READY. */
  lemma DriftParts(cfg: Config, s: State, x: Input, t: State)
    requires Inv(cfg, s) && s.launch.status == GenesisReady && t == Next(cfg, s, x)
    ensures SameChain(s.launch.record, t.launch.record) <==> !MovesGenesisTime(cfg, s, x)
    ensures (forall k :: ApprovedHash(s.launch.allocationFiles, k) == ApprovedHash(t.launch.allocationFiles, k))
            <==> !UnapprovesFile(s, x)
  {
    TimeMoveChangesChain(s.launch.record, 0);
    if Committed(cfg, s, x) {
      ReadyCommitted(cfg, s, x);
      CommittedIsNoVeto(cfg, s, x);
      var a := ExecutionOf(cfg, s, x).value.row.action;
      if a.UpdateGenesisTime? {
        TimeMoveChangesChain(s.launch.record, a.newGenesisTime);
      }
    } else if x.Raise? || x.Decide? {
      ReadyVeto(cfg, s, x);
    } else {
      ReadyOther(cfg, s, x);
    }
  }

  lemma DriftStep(cfg: Config, s: State, x: Input, t: State)
    requires Inv(cfg, s) && Settled(s) && CollisionFree(cfg.hashing) && t == Next(cfg, s, x)
    requires s.launch.status == GenesisReady
    ensures Current(cfg, t) != Current(cfg, s) <==> MovesGenesisTime(cfg, s, x) || UnapprovesFile(s, x)
  {
    DriftParts(cfg, s, x, t);
    SettledStays(cfg, s, x);
    StepKeeps(cfg, s, x);
    ApprovedDistinct(s.requests);
    CurrentIff(cfg, s, t);
  }

  /**
   * Freshness holds at publication but not ever after: on every run a step out of GENESIS_READY changes the
   * fingerprint iff it moves the genesis time to another second or vetoes an approved allocation file.
   */
  lemma FingerprintDriftIff(cfg: Config, states: seq<State>, xs: seq<Input>, k: nat)
    requires Run(cfg, states, xs) && CollisionFree(cfg.hashing) && BacklogsFit(states) && k < |xs|
    requires states[k].launch.status == GenesisReady
    ensures Current(cfg, states[k + 1]) != Current(cfg, states[k])
            <==> MovesGenesisTime(cfg, states[k], xs[k]) || UnapprovesFile(states[k], xs[k])
  {
    Reachable(cfg, states, xs, k);
    NonePendingAfterClose(cfg, states, xs, k);
    assert StepAt(cfg, states, xs, k);
    DriftStep(cfg, states[k], xs[k], states[k + 1]);
  }

  lemma CurrentIff(cfg: Config, s: State, t: State)
    requires CollisionFree(cfg.hashing) && t.requests == s.requests && DistinctOperators(ApprovedRows(s.requests))
    requires OneFilePerType(s.launch.allocationFiles) && OneFilePerType(t.launch.allocationFiles)
    ensures Current(cfg, t) == Current(cfg, s)
            <==> && SameChain(s.launch.record, t.launch.record)
                 && forall k :: ApprovedHash(s.launch.allocationFiles, k) == ApprovedHash(t.launch.allocationFiles, k)
  {
    FingerprintIff(cfg.hashing, s.launch.record, s.requests, s.launch.allocationFiles,
                   t.launch.record, t.requests, t.launch.allocationFiles);
  }

  lemma CommittedIsNoVeto(cfg: Config, s: State, x: Input)
    requires Inv(cfg, s) && Committed(cfg, s, x)
    ensures !UnapprovesFile(s, x)
  {
    if x.Decide? && IsPending(s.proposals, x.proposal) {
      SignOutcome(s.proposals[x.proposal], x.member, x.decision, s.launch.committee.thresholdM, x.now);
    }
  }
}
