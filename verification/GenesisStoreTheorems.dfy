/** The final-genesis store beside the launch row: which upload a download gets, and which one is bound. */
module GenesisStoreTheorems {
  import opened Prelude
  import opened Launches
  import opened Proposals
  import opened JoinRequests
  import opened InputSets
  import opened FinalGenesis
  import opened Coordinator
  import opened Invariants
  import opened Steps
  import opened ClosureTheorems

  /** The step writes the final-genesis store. */
  ghost predicate WritesStore(s: State, x: Input) {
    s.running && match x
      case UploadFinal(caller, file, now, _) => UploadFinalAllowed(s, caller, file, now)
      case UploadFinalRef(caller, hash, t, now, _) => UploadFinalRefAllowed(s, caller, hash, t, now)
      case _ => false
  }

  ghost function UploadedDigest(cfg: Config, x: Input): Hash
    requires x.UploadFinal? || x.UploadFinalRef?
  {
    if x.UploadFinal? then cfg.fileDigest(x.file) else x.hash
  }

  /** What an upload does, with the launch row saved or not. */
  lemma WriteStep(cfg: Config, s: State, x: Input)
    requires WritesStore(s, x)
    ensures var t := Next(cfg, s, x);
            && s.launch.status == t.launch.status == WindowClosed && t.requests == s.requests
            && t.store == (if x.UploadFinal? then s.store.(file := Some(x.file)) else s.store.(ref := Some(x.hash)))
            && (if x.saved
                then t.launch.finalGenesisSha256 == UploadedDigest(cfg, x)
                     && t.launch.finalGenesisInputSetHash
                        == Fingerprint(cfg.hashing, t.launch.record, s.requests, t.launch.allocationFiles)
                else t.launch == s.launch)
  {
  }

  /** Nothing but a revision changes the binding, and that only clears the hash. */
  ghost predicate KeepsBinding(s: State, t: State) {
    && (t.launch.finalGenesisSha256 == s.launch.finalGenesisSha256 || t.launch.finalGenesisSha256 == "")
    && t.launch.finalGenesisInputSetHash == s.launch.finalGenesisInputSetHash
  }

  lemma ApplyKeepsBindingSome(cfg: Config, s: State, id: nat, p: ProposalRow, now: Time)
    requires Apply(cfg, s, id, p, now).Ok?
    requires p.action.ApproveValidator? || p.action.RejectValidator? || p.action.RemoveApprovedValidator?
             || p.action.ReplaceCommitteeMember? || Resizes(p.action)
    ensures KeepsBinding(s, Apply(cfg, s, id, p, now).value)
  {
  }

  lemma ApplyKeepsBindingRest(cfg: Config, s: State, id: nat, p: ProposalRow, now: Time)
    requires Apply(cfg, s, id, p, now).Ok?
    requires p.action.PublishChainRecord? || p.action.CloseApplicationWindow? || p.action.UpdateGenesisTime?
             || p.action.ApproveAllocationFile? || p.action.ReviseGenesis? || p.action.CancelLaunch?
    ensures KeepsBinding(s, Apply(cfg, s, id, p, now).value)
  {
  }

  lemma ApplyKeepsBinding(cfg: Config, s: State, id: nat, p: ProposalRow, now: Time)
    requires Apply(cfg, s, id, p, now).Ok?
    ensures KeepsBinding(s, Apply(cfg, s, id, p, now).value)
  {
    if p.action.PublishFinalGenesis? {
      assert Apply(cfg, s, id, p, now) == ApplyPublishGenesis(cfg, s, id, p);
    } else if p.action.ApproveValidator? || p.action.RejectValidator? || p.action.RemoveApprovedValidator?
              || p.action.ReplaceCommitteeMember? || Resizes(p.action) {
      ApplyKeepsBindingSome(cfg, s, id, p, now);
    } else {
      ApplyKeepsBindingRest(cfg, s, id, p, now);
    }
  }

  /** Only an upload touches the store or sets the binding; a revision clears the hash. */
  lemma BindingFrame(cfg: Config, s: State, x: Input, t: State)
    requires Inv(cfg, s) && !WritesStore(s, x) && t == Next(cfg, s, x)
    ensures t.store == s.store && KeepsBinding(s, t)
  {
    if Committed(cfg, s, x) {
      CommittedFrame(cfg, s, x);
      CommittedEffect(cfg, s, x);
      ExecutionIsSavable(cfg, s, x);
      var e := ExecutionOf(cfg, s, x).value;
      ApplyKeepsBinding(cfg, Logged(e.base, e.id), e.id, e.row, e.now);
    } else if x.Raise? || x.Decide? {
      UncommittedEffect(cfg, s, x);
    } else {
      OtherBinding(cfg, s, x);
    }
  }

  lemma OtherKeepsStore(cfg: Config, s: State, x: Input)
    requires !x.Raise? && !x.Decide? && !x.UploadFinal? && !x.UploadFinalRef?
    ensures Next(cfg, s, x).store == s.store
    ensures Next(cfg, s, x).launch.finalGenesisSha256 == s.launch.finalGenesisSha256
    ensures Next(cfg, s, x).launch.finalGenesisInputSetHash == s.launch.finalGenesisInputSetHash
  {
  }

  lemma RefusedUpload(cfg: Config, s: State, x: Input)
    requires (x.UploadFinal? || x.UploadFinalRef?) && !WritesStore(s, x)
    ensures Next(cfg, s, x).store == s.store && Next(cfg, s, x).launch == s.launch
  {
  }

  lemma OtherBinding(cfg: Config, s: State, x: Input)
    requires !WritesStore(s, x) && !x.Raise? && !x.Decide?
    ensures var t := Next(cfg, s, x);
            t.store == s.store && KeepsBinding(s, t)
  {
    if x.UploadFinal? || x.UploadFinalRef? {
      RefusedUpload(cfg, s, x);
    } else {
      OtherKeepsStore(cfg, s, x);
    }
  }

  // ----- Which digest is recorded, and which is served

  /** The last write of the store, if any, was followed by the save of the launch row. */
  ghost predicate Intact(states: seq<State>, xs: seq<Input>, k: nat)
    requires |states| == |xs| + 1 && k <= |xs|
  {
    k == 0 || if WritesStore(states[k - 1], xs[k - 1]) then xs[k - 1].saved else Intact(states, xs, k - 1)
  }

  /** The last write of the store was followed by the save of the row, or its digest was on record already. */
  ghost predicate Harmless(cfg: Config, states: seq<State>, xs: seq<Input>, k: nat)
    requires |states| == |xs| + 1 && k <= |xs|
  {
    k == 0 || var s, x := states[k - 1], xs[k - 1];
              if WritesStore(s, x) then x.saved || UploadedDigest(cfg, x) == s.launch.finalGenesisSha256
              else Harmless(cfg, states, xs, k - 1)
  }

  lemma {:induction false} IntactIsHarmless(cfg: Config, states: seq<State>, xs: seq<Input>, k: nat)
    requires |states| == |xs| + 1 && k <= |xs| && Intact(states, xs, k)
    ensures Harmless(cfg, states, xs, k)
  {
    if k > 0 && !WritesStore(states[k - 1], xs[k - 1]) {
      IntactIsHarmless(cfg, states, xs, k - 1);
    }
  }

  ghost function DigestOf(cfg: Config, d: Download): Option<Hash> {
    match d
    case NothingStored => None
    case Bytes(file) => Some(cfg.fileDigest(file))
    case Redirect(hash) => Some(hash)
  }

  /** A download gets something with the recorded digest. */
  ghost predicate ServesRecorded(cfg: Config, s: State) {
    DigestOf(cfg, Served(s.store)) == Some(s.launch.finalGenesisSha256)
  }

  /** Without a reference, the file has the recorded digest iff its upload was harmless. */
  ghost predicate FileInv(cfg: Config, s: State, harmless: bool) {
    s.launch.finalGenesisSha256 != "" && s.store.ref.None? ==>
      s.store.file.Some? && (s.launch.finalGenesisSha256 == cfg.fileDigest(s.store.file.value) <==> harmless)
  }

  lemma FileStep(cfg: Config, states: seq<State>, xs: seq<Input>, k: nat)
    requires Run(cfg, states, xs) && k < |xs| && FileInv(cfg, states[k], Harmless(cfg, states, xs, k))
    ensures FileInv(cfg, states[k + 1], Harmless(cfg, states, xs, k + 1))
  {
    Reachable(cfg, states, xs, k);
    assert StepAt(cfg, states, xs, k);
    if WritesStore(states[k], xs[k]) {
      WriteStep(cfg, states[k], xs[k]);
    } else {
      BindingFrame(cfg, states[k], xs[k], states[k + 1]);
    }
  }

  lemma {:induction false} FileReachable(cfg: Config, states: seq<State>, xs: seq<Input>, k: nat)
    requires Run(cfg, states, xs) && k <= |xs|
    ensures FileInv(cfg, states[k], Harmless(cfg, states, xs, k))
    decreases k
  {
    if k > 0 {
      FileReachable(cfg, states, xs, k - 1);
      FileStep(cfg, states, xs, k - 1);
    }
  }

  /**
   * On every run, while a final hash is on record, a download gets something with that digest iff the stored
   * reference has it, or there is no reference and the last upload saved its row or repeated the recorded digest.
   */
  lemma ServesRecordedIff(cfg: Config, states: seq<State>, xs: seq<Input>, k: nat)
    requires Run(cfg, states, xs) && k <= |xs| && states[k].launch.finalGenesisSha256 != ""
    ensures ServesRecorded(cfg, states[k])
            <==> match states[k].store.ref
                 case Some(hash) => hash == states[k].launch.finalGenesisSha256
                 case None => Harmless(cfg, states, xs, k)
  {
    FileReachable(cfg, states, xs, k);
  }

  // ----- What a stored file is bound to

  /** The digest was taken of an input set whose approved keys the file carries. */
  ghost predicate BoundTo(cfg: Config, hash: Hash, file: GenesisFile) {
    exists r, rows, files ::
      && hash == Fingerprint(cfg.hashing, r, rows, files)
      && DistinctOperators(ApprovedRows(rows))
      && (ApprovedRows(rows) != [] ==> Rearrangement(file, Keys(ApprovedRows(rows))))
  }

  /** The recorded digest is that of the stored reference, or of the stored file, bound to its input set. */
  ghost predicate FinalInv(cfg: Config, l: LaunchRow, store: FinalStore) {
    l.finalGenesisSha256 != "" ==>
      || store.ref == Some(l.finalGenesisSha256)
      || (&& store.file.Some?
          && l.finalGenesisSha256 == cfg.fileDigest(store.file.value)
          && BoundTo(cfg, l.finalGenesisInputSetHash, store.file.value))
  }

  /** An accepted file carries the keys approved at its upload. */
  lemma AcceptedCarries(cfg: Config, s: State, x: Input)
    requires Inv(cfg, s) && WritesStore(s, x) && x.UploadFinal?
    ensures DistinctOperators(ApprovedRows(s.requests))
    ensures ApprovedRows(s.requests) != [] ==> Rearrangement(x.file, ApprovedKeys(s))
  {
    ApprovedDistinct(s.requests);
    if ApprovedRows(s.requests) != [] {
      assert Distinct(ApprovedKeys(s));
      assert |ApprovedKeys(s)| == |ApprovedRows(s.requests)|;
      AcceptsIff(x.file, ApprovedKeys(s), x.now);
    }
  }

  lemma BindingStep(cfg: Config, states: seq<State>, xs: seq<Input>, k: nat)
    requires Run(cfg, states, xs) && k < |xs|
    requires WritesStore(states[k], xs[k]) ==> xs[k].saved
    requires !WritesStore(states[k], xs[k]) ==> FinalInv(cfg, states[k].launch, states[k].store)
    ensures FinalInv(cfg, states[k + 1].launch, states[k + 1].store)
  {
    Reachable(cfg, states, xs, k);
    assert StepAt(cfg, states, xs, k);
    var s, x, t := states[k], xs[k], states[k + 1];
    if !WritesStore(s, x) {
      BindingFrame(cfg, s, x, t);
    } else {
      WriteStep(cfg, s, x);
      if x.UploadFinal? {
        AcceptedCarries(cfg, s, x);
        assert BoundTo(cfg, t.launch.finalGenesisInputSetHash, x.file);
      }
    }
  }

  /** While the store and the row went together, what is on record is stored, and a file is bound to its input set. */
  lemma {:induction false} BindingHolds(cfg: Config, states: seq<State>, xs: seq<Input>, k: nat)
    requires Run(cfg, states, xs) && k <= |xs| && Intact(states, xs, k)
    ensures FinalInv(cfg, states[k].launch, states[k].store)
    decreases k
  {
    if k > 0 {
      if !WritesStore(states[k - 1], xs[k - 1]) {
        BindingHolds(cfg, states, xs, k - 1);
      }
      BindingStep(cfg, states, xs, k - 1);
    }
  }

  // ----- The upload behind the record

  lemma EarlyStep(cfg: Config, states: seq<State>, xs: seq<Input>, k: nat)
    requires Run(cfg, states, xs) && k < |xs|
    requires BeforeClose(states[k]) ==> states[k].launch.finalGenesisSha256 == ""
    ensures BeforeClose(states[k + 1]) ==> states[k + 1].launch.finalGenesisSha256 == ""
  {
    Reachable(cfg, states, xs, k);
    assert StepAt(cfg, states, xs, k);
    if WritesStore(states[k], xs[k]) {
      WriteStep(cfg, states[k], xs[k]);
    } else {
      BindingFrame(cfg, states[k], xs[k], states[k + 1]);
      if states[k + 1].launch.status != states[k].launch.status {
        StatusChange(cfg, states[k], xs[k]);
      }
    }
  }

  ghost predicate BeforeClose(s: State) {
    s.launch.status == Draft || s.launch.status == Published || s.launch.status == WindowOpen
  }

  /** No final hash is on record before the window closes. */
  lemma {:induction false} NoneRecordedEarly(cfg: Config, states: seq<State>, xs: seq<Input>, k: nat)
    requires Run(cfg, states, xs) && k <= |xs|
    ensures BeforeClose(states[k]) ==> states[k].launch.finalGenesisSha256 == ""
    decreases k
  {
    if k > 0 {
      NoneRecordedEarly(cfg, states, xs, k - 1);
      EarlyStep(cfg, states, xs, k - 1);
    }
  }

  lemma ApplyReviseClears(cfg: Config, s: State, id: nat, p: ProposalRow, now: Time)
    requires p.action.ReviseGenesis? && Apply(cfg, s, id, p, now).Ok?
    ensures Apply(cfg, s, id, p, now).value.launch.finalGenesisSha256 == ""
  {
    assert Apply(cfg, s, id, p, now) == ApplyRevise(s, id, p, now);
  }

  /** WINDOW_CLOSED is entered without a final hash: by the close, or by a revision that clears it. */
  lemma EntersClosed(cfg: Config, states: seq<State>, xs: seq<Input>, k: nat)
    requires Run(cfg, states, xs) && k < |xs|
    requires states[k].launch.status != WindowClosed && states[k + 1].launch.status == WindowClosed
    ensures states[k + 1].launch.finalGenesisSha256 == ""
  {
    Reachable(cfg, states, xs, k);
    NoneRecordedEarly(cfg, states, xs, k);
    assert StepAt(cfg, states, xs, k);
    var s, x := states[k], xs[k];
    StatusChange(cfg, s, x);
    if s.launch.status == WindowOpen {
      BindingFrame(cfg, s, x, states[k + 1]);
    } else {
      CommittedEffect(cfg, s, x);
      ExecutionIsSavable(cfg, s, x);
      var e := ExecutionOf(cfg, s, x).value;
      ApplyReviseClears(cfg, Logged(e.base, e.id), e.id, e.row, e.now);
    }
  }

  /** Step j is a member's saved upload, dated ahead, of what is on record at k, and the window stayed closed since. */
  ghost predicate RecordedAt(cfg: Config, states: seq<State>, xs: seq<Input>, j: int, k: int) {
    && 0 <= j < k <= |xs| && |states| == |xs| + 1
    && WritesStore(states[j], xs[j]) && xs[j].saved
    && HasMember(states[j].launch.committee, xs[j].caller)
    && (if xs[j].UploadFinal? then xs[j].file.genesisTime else xs[j].genesisTime) > xs[j].now
    && states[k].launch.finalGenesisSha256 == UploadedDigest(cfg, xs[j])
    && states[k].launch.finalGenesisInputSetHash == states[j + 1].launch.finalGenesisInputSetHash
    && forall i :: j < i <= k ==> states[i].launch.status == WindowClosed
  }

  lemma RecordStep(cfg: Config, states: seq<State>, xs: seq<Input>, k: nat)
    requires Run(cfg, states, xs) && k < |xs|
    ensures if WritesStore(states[k], xs[k]) && xs[k].saved
            then states[k + 1].launch.status == WindowClosed
                 && states[k + 1].launch.finalGenesisSha256 == UploadedDigest(cfg, xs[k])
            else states[k + 1].launch.finalGenesisSha256 != "" ==>
                   && states[k + 1].launch.finalGenesisSha256 == states[k].launch.finalGenesisSha256
                   && states[k + 1].launch.finalGenesisInputSetHash == states[k].launch.finalGenesisInputSetHash
  {
    Reachable(cfg, states, xs, k);
    assert StepAt(cfg, states, xs, k);
    if WritesStore(states[k], xs[k]) {
      WriteStep(cfg, states[k], xs[k]);
    } else {
      BindingFrame(cfg, states[k], xs[k], states[k + 1]);
    }
  }

  /** Behind every hash on record in WINDOW_CLOSED is an upload made since the window closed or was last reopened. */
  lemma {:induction false} RecordedUpload(cfg: Config, states: seq<State>, xs: seq<Input>, k: nat) returns (j: nat)
    requires Run(cfg, states, xs) && k <= |xs|
    requires states[k].launch.status == WindowClosed && states[k].launch.finalGenesisSha256 != ""
    ensures RecordedAt(cfg, states, xs, j, k)
    decreases k
  {
    RecordStep(cfg, states, xs, k - 1);
    if WritesStore(states[k - 1], xs[k - 1]) && xs[k - 1].saved {
      j := k - 1;
    } else {
      if states[k - 1].launch.status != WindowClosed {
        EntersClosed(cfg, states, xs, k - 1);
      }
      j := RecordedUpload(cfg, states, xs, k - 1);
    }
  }

  // ----- Keys, with or without the save

  ghost function KeyBag(rows: seq<JoinRow>): multiset<string> {
    multiset(Keys(ApprovedRows(rows)))
  }

  lemma KeyBagAppend(a: seq<JoinRow>, b: seq<JoinRow>)
    ensures KeyBag(a + b) == KeyBag(a) + KeyBag(b)
  {
    ApprovedAppend(a, b);
    KeysAppend(ApprovedRows(a), ApprovedRows(b));
  }

  lemma KeysAppend(a: seq<JoinRow>, b: seq<JoinRow>)
    ensures Keys(a + b) == Keys(a) + Keys(b)
  {
    var x, y := Keys(a + b), Keys(a) + Keys(b);
    assert |x| == |y|;
    forall i | 0 <= i < |x| ensures x[i] == y[i] {
      assert i < |a| ==> (a + b)[i] == a[i];
      assert i >= |a| ==> (a + b)[i] == b[i - |a|];
    }
  }

  lemma KeyBagEmpty(rows: seq<JoinRow>)
    ensures ApprovedRows(rows) == [] <==> KeyBag(rows) == multiset{}
  {
    assert |Keys(ApprovedRows(rows))| == |ApprovedRows(rows)|;
    assert |KeyBag(rows)| == |Keys(ApprovedRows(rows))|;
  }

  /** A row that ends up not approved takes at most its own key away. */
  lemma KeyBagShrinks(rows: seq<JoinRow>, i: nat, r: JoinRow)
    requires i < |rows| && r.status != Approved
    ensures KeyBag(rows[i := r]) <= KeyBag(rows)
  {
    var a, b := rows[..i], rows[i + 1..];
    assert rows == a + ([rows[i]] + b);
    assert rows[i := r] == a + ([r] + b);
    KeyBagAppend(a, [rows[i]] + b);
    KeyBagAppend([rows[i]], b);
    KeyBagAppend(a, [r] + b);
    KeyBagAppend([r], b);
    assert ApprovedRows([r]) == ApprovedRows([r][1..]) == [];
    KeyBagEmpty([r]);
  }

  /** Once settled, the approved keys only get fewer. */
  lemma SettledKeys(cfg: Config, s: State, x: Input)
    requires Inv(cfg, s) && Settled(s)
    ensures KeyBag(Next(cfg, s, x).requests) <= KeyBag(s.requests)
  {
    var t := Next(cfg, s, x);
    SettledStays(cfg, s, x);
    if t.requests != s.requests {
      RequestsFrame(cfg, s, x);
      DecisionOnRequests(cfg, s, x);
      var a := ExecutionOf(cfg, s, x).value.row.action;
      assert s.requests[a.joinRequest] in s.requests;
      KeyBagShrinks(s.requests, a.joinRequest, t.requests[a.joinRequest]);
    }
  }

  /**
   * The file's keys lie between those approved now and those of the input set on record: the file may be of a
   * later upload than the record, but no request was approved in between.
   */
  ghost predicate Squeezed(cfg: Config, s: State, file: GenesisFile, bound: seq<JoinRow>) {
    && DistinctOperators(ApprovedRows(bound))
    && KeyBag(s.requests) <= KeyBag(bound)
    && (ApprovedRows(s.requests) != [] ==>
          && "" !in FormKeys(file) && Distinct(FormKeys(file))
          && KeyBag(s.requests) <= multiset(FormKeys(file)) <= KeyBag(bound))
  }

  ghost predicate BoundSet(cfg: Config, hash: Hash, r: ChainRecord, rows: seq<JoinRow>, files: seq<AllocationFile>) {
    hash == Fingerprint(cfg.hashing, r, rows, files)
  }

  ghost predicate KeysInv(cfg: Config, s: State) {
    s.launch.finalGenesisSha256 != "" && s.store.ref.None? ==>
      && s.store.file.Some? && Settled(s)
      && exists r, rows, files ::
           BoundSet(cfg, s.launch.finalGenesisInputSetHash, r, rows, files)
           && Squeezed(cfg, s, s.store.file.value, rows)
  }

  lemma SqueezedShrinks(cfg: Config, s: State, t: State, file: GenesisFile, bound: seq<JoinRow>)
    requires Squeezed(cfg, s, file, bound) && KeyBag(t.requests) <= KeyBag(s.requests)
    ensures Squeezed(cfg, t, file, bound)
  {
    KeyBagEmpty(s.requests);
    KeyBagEmpty(t.requests);
  }

  /** A step that leaves the store alone. */
  lemma KeysFrame(cfg: Config, s: State, x: Input, t: State)
    requires Inv(cfg, s) && KeysInv(cfg, s) && t == Next(cfg, s, x) && !WritesStore(s, x)
    ensures KeysInv(cfg, t)
  {
    BindingFrame(cfg, s, x, t);
    if t.launch.finalGenesisSha256 != "" && t.store.ref.None? {
      SettledStays(cfg, s, x);
      SettledKeys(cfg, s, x);
      var r, rows, files :| BoundSet(cfg, s.launch.finalGenesisInputSetHash, r, rows, files)
                            && Squeezed(cfg, s, s.store.file.value, rows);
      SqueezedShrinks(cfg, s, t, s.store.file.value, rows);
      assert BoundSet(cfg, t.launch.finalGenesisInputSetHash, r, rows, files);
    }
  }

  /** An upload, saved or not: its file's keys are the ones approved now. */
  lemma KeysWrite(cfg: Config, s: State, x: Input, t: State)
    requires Inv(cfg, s) && KeysInv(cfg, s) && t == Next(cfg, s, x) && WritesStore(s, x) && Settled(s)
    ensures KeysInv(cfg, t)
  {
    WriteStep(cfg, s, x);
    if t.launch.finalGenesisSha256 != "" && t.store.ref.None? {
      AcceptedCarries(cfg, s, x);
      if x.saved {
        assert BoundSet(cfg, t.launch.finalGenesisInputSetHash, t.launch.record, s.requests, t.launch.allocationFiles);
        assert Squeezed(cfg, t, x.file, s.requests);
      } else {
        var r, rows, files :| BoundSet(cfg, s.launch.finalGenesisInputSetHash, r, rows, files)
                              && Squeezed(cfg, s, s.store.file.value, rows);
        assert Squeezed(cfg, t, x.file, rows);
      }
    }
  }

  lemma KeysStep(cfg: Config, states: seq<State>, xs: seq<Input>, k: nat)
    requires Run(cfg, states, xs) && BacklogsFit(states) && k < |xs| && KeysInv(cfg, states[k])
    ensures KeysInv(cfg, states[k + 1])
  {
    Reachable(cfg, states, xs, k);
    assert StepAt(cfg, states, xs, k);
    if WritesStore(states[k], xs[k]) {
      NonePendingAfterClose(cfg, states, xs, k);
      KeysWrite(cfg, states[k], xs[k], states[k + 1]);
    } else {
      KeysFrame(cfg, states[k], xs[k], states[k + 1]);
    }
  }

  lemma {:induction false} KeysReachable(cfg: Config, states: seq<State>, xs: seq<Input>, k: nat)
    requires Run(cfg, states, xs) && BacklogsFit(states) && k <= |xs|
    ensures KeysInv(cfg, states[k])
    decreases k
  {
    if k > 0 {
      KeysReachable(cfg, states, xs, k - 1);
      KeysStep(cfg, states, xs, k - 1);
    }
  }

  // ----- Of which chain

  /** A final genesis is stored iff a member uploads it in WINDOW_CLOSED, for this chain, dated ahead, with the approved keys. */
  lemma UploadAcceptedIff(cfg: Config, s: State, caller: Account, file: GenesisFile, now: Time)
    requires Inv(cfg, s) && ApprovedRows(s.requests) != []
    ensures UploadFinalAllowed(s, caller, file, now)
            <==> && HasMember(s.launch.committee, caller) && s.launch.status == WindowClosed
                 && file.chainId != "" && file.chainId == s.launch.record.chainId
                 && file.genesisTime != 0 && file.genesisTime > now
                 && Rearrangement(file, ApprovedKeys(s))
  {
    ApprovedDistinct(s.requests);
    assert |ApprovedKeys(s)| == |ApprovedRows(s.requests)|;
    assert Distinct(ApprovedKeys(s));
    AcceptsIff(file, ApprovedKeys(s), now);
  }
}
