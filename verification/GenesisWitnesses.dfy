/** Runs on which a download, or a readiness confirmation, is not what the record says. */
module GenesisWitnesses {
  import opened Prelude
  import opened Launches
  import opened Proposals
  import opened JoinRequests
  import opened VotingPower
  import opened InputSets
  import opened FinalGenesis
  import opened Rehearsals
  import opened Coordinator
  import opened Invariants
  import opened Steps
  import opened ClosureTheorems
  import opened GenesisStoreTheorems
  import opened GenesisTheorems
  import opened ReadinessTheorems
  import opened WitnessRuns

  // ----- Uploading a final genesis

  /** Four approved validators behind a closed window. */
  ghost predicate Closed(cfg: Config, s: State, store: FinalStore) {
    && Solo(s) && s.launch.status == WindowClosed && s.launch.record.chainId == "c"
    && s.launch.record.binarySha256 == "" && s.readiness == []
    && Applied(cfg, s.requests, 4, 0)
    && s.store == store
  }

  lemma ClosedFour(cfg: Config) returns (tr: Trace)
    requires Ordinary(cfg) && StakeOf(cfg, "g") > 0
    ensures Runs(cfg, tr) && Closed(cfg, Last(tr), FinalStore(None, None))
  {
    tr := Admitted(cfg, 4);
    var rows := Last(tr).requests;
    tr := Close(cfg, tr, 0);
    forall i | 0 <= i < 4 ensures Last(tr).requests[i] == rows[i] {
      assert IsRow(cfg, rows[i], i, Approved);
    }
    assert Last(tr).requests == rows;
  }

  /** A genesis of the four validators, dated t. */
  function File(t: Time): GenesisFile {
    GenesisFile("c", t, [Some(Name(0)), Some(Name(1)), Some(Name(2)), Some(Name(3))], [])
  }

  lemma FileKeys(cfg: Config, s: State, t: Time)
    requires Applied(cfg, s.requests, 4, 0)
    ensures FormKeys(File(t)) == ApprovedKeys(s) == [Name(0), Name(1), Name(2), Name(3)]
  {
    AppliedApproved(cfg, s.requests, 4, 0);
    assert s.requests[..4] == s.requests;
    forall i | 0 <= i < 4 ensures s.requests[i].consensusKey == Name(i) {
      assert IsRow(cfg, s.requests[i], i, Approved);
    }
  }

  lemma FileAllowed(cfg: Config, s: State, store: FinalStore, t: Time)
    requires Closed(cfg, s, store) && t > 0
    ensures UploadFinalAllowed(s, MEMBER, File(t), 0)
  {
    SoloMember();
    FileKeys(cfg, s, t);
    var keys := FormKeys(File(t));
    forall i, j | 0 <= i < j < 4 ensures keys[i] != keys[j] {
      assert |keys[i]| == i + 1 && |keys[j]| == j + 1;
    }
    assert forall i :: 0 <= i < 4 ==> |keys[i]| == i + 1;
    assert Covers(keys, ApprovedKeys(s));
  }

  /** The upload of a file; without the save, the launch row is as before. */
  lemma UploadFile(cfg: Config, tr: Trace, store: FinalStore, t: Time, saved: bool) returns (out: Trace)
    requires Ordinary(cfg) && Runs(cfg, tr) && Closed(cfg, Last(tr), store) && t > 0
    ensures Runs(cfg, out) && Closed(cfg, Last(out), store.(file := Some(File(t))))
    ensures out == Then(cfg, tr, UploadFinal(MEMBER, File(t), 0, saved))
    ensures WritesStore(Last(tr), UploadFinal(MEMBER, File(t), 0, saved))
    ensures saved ==> GenesisFresh(cfg, Last(out)) && Last(out).launch.finalGenesisSha256 == cfg.fileDigest(File(t))
    ensures !saved ==> Last(out).launch == Last(tr).launch && Last(out).requests == Last(tr).requests
  {
    var x := UploadFinal(MEMBER, File(t), 0, saved);
    FileAllowed(cfg, Last(tr), store, t);
    ThenRuns(cfg, tr, x);
    out := Then(cfg, tr, x);
  }

  lemma UploadReference(cfg: Config, tr: Trace, store: FinalStore, hash: Hash) returns (out: Trace)
    requires Ordinary(cfg) && Runs(cfg, tr) && Closed(cfg, Last(tr), store) && IsSha256Hex(hash)
    ensures Runs(cfg, out) && Closed(cfg, Last(out), store.(ref := Some(hash)))
    ensures GenesisFresh(cfg, Last(out)) && Last(out).launch.finalGenesisSha256 == hash
  {
    var x := UploadFinalRef(MEMBER, hash, 10, 0, true);
    SoloMember();
    ThenRuns(cfg, tr, x);
    out := Then(cfg, tr, x);
  }

  /** The genesis is out. */
  ghost predicate Ready(cfg: Config, s: State, store: FinalStore, hash: Hash) {
    && Solo(s) && s.launch.status == GenesisReady && s.launch.record.binarySha256 == ""
    && Applied(cfg, s.requests, 4, 0)
    && s.store == store && s.launch.finalGenesisSha256 == hash
  }

  lemma PublishIt(cfg: Config, tr: Trace, store: FinalStore) returns (out: Trace)
    requires Ordinary(cfg) && Runs(cfg, tr) && Closed(cfg, Last(tr), store)
    requires GenesisFresh(cfg, Last(tr)) && IsSha256Hex(Last(tr).launch.finalGenesisSha256)
    ensures Runs(cfg, out) && Continues(tr, out) && |out.xs| == |tr.xs| + 1
    ensures PublishesAt(out.states, |tr.xs|)
    ensures Ready(cfg, Last(out), store, Last(tr).launch.finalGenesisSha256) && Last(out).readiness == []
  {
    var s := Last(tr);
    var x := Raise(MEMBER, PublishFinalGenesis(s.launch.finalGenesisSha256), FINE, 0);
    ThenRuns(cfg, tr, x);
    SoloPublish(cfg, s, 0);
    out := Then(cfg, tr, x);
  }

  lemma {:induction false} IntactContinues(tr: Trace, out: Trace, k: nat)
    requires |tr.states| == |tr.xs| + 1 && |out.states| == |out.xs| + 1 && Continues(tr, out) && k <= |tr.xs|
    ensures Intact(tr.states, tr.xs, k) == Intact(out.states, out.xs, k)
  {
    if k > 0 {
      IntactContinues(tr, out, k - 1);
      assert tr.states[k - 1] == out.states[k - 1] && tr.xs[k - 1] == out.xs[k - 1];
    }
  }

  /**
   * A reference first and a checked file after it, every row saved: the file's digest is published, and a
   * download is still sent to the reference nobody looked into.
   */
  lemma StaleReferenceIsServed(cfg: Config, hash: Hash) returns (tr: Trace, k: nat)
    requires Ordinary(cfg) && StakeOf(cfg, "g") > 0 && IsSha256Hex(hash)
    requires IsSha256Hex(cfg.fileDigest(File(10))) && hash != cfg.fileDigest(File(10))
    ensures Runs(cfg, tr) && PublishesAt(tr.states, k) && Intact(tr.states, tr.xs, k)
    ensures tr.states[k + 1].launch.finalGenesisSha256 == cfg.fileDigest(File(10))
    ensures Served(tr.states[k + 1].store) == Redirect(hash) && !ServesRecorded(cfg, tr.states[k + 1])
  {
    tr := ClosedFour(cfg);
    tr := UploadReference(cfg, tr, FinalStore(None, None), hash);
    tr := UploadFile(cfg, tr, FinalStore(None, Some(hash)), 10, true);
    k := |tr.xs|;
    var before := tr;
    assert Intact(before.states, before.xs, k);
    tr := PublishIt(cfg, tr, FinalStore(Some(File(10)), Some(hash)));
    IntactContinues(before, tr, k);
  }

  /** A file uploaded and recorded, a second one stored whose row lost the race: the second is served under the first's digest. */
  lemma TornUploadIsServed(cfg: Config) returns (tr: Trace, k: nat)
    requires Ordinary(cfg) && StakeOf(cfg, "g") > 0
    requires IsSha256Hex(cfg.fileDigest(File(10))) && cfg.fileDigest(File(10)) != cfg.fileDigest(File(20))
    ensures Runs(cfg, tr) && PublishesAt(tr.states, k)
    ensures tr.states[k + 1].launch.finalGenesisSha256 == cfg.fileDigest(File(10))
    ensures Served(tr.states[k + 1].store) == Bytes(File(20)) && !ServesRecorded(cfg, tr.states[k + 1])
  {
    tr := ClosedFour(cfg);
    tr := UploadFile(cfg, tr, FinalStore(None, None), 10, true);
    tr := UploadFile(cfg, tr, FinalStore(Some(File(10)), None), 20, false);
    k := |tr.xs|;
    tr := PublishIt(cfg, tr, FinalStore(Some(File(20)), None));
  }

  // ----- Two valid confirmations

  function Stamped(hash: Hash, at: Time, ended: Option<Time>): Confirmation {
    Confirmation(0, Name(0), hash, "", at, ended)
  }

  /** The first validator confirms, its newest confirmation being void if there is one. */
  lemma ConfirmNext(cfg: Config, tr: Trace, store: FinalStore, hash: Hash, now: Time) returns (out: Trace)
    requires Runs(cfg, tr) && Ready(cfg, Last(tr), store, hash)
    requires var cs := Last(tr).readiness; var c := NewestConfirmation(cs, Name(0)); c < |cs| ==> !ValidConfirmation(cs[c])
    ensures Runs(cfg, out) && Ready(cfg, Last(out), store, hash)
    ensures Last(out).readiness == Last(tr).readiness + [Stamped(hash, now, None)]
  {
    var s := Last(tr);
    var x := Confirm(Name(0), hash, "", now);
    var i := NewestIndex(s.requests, Name(0));
    assert IsRow(cfg, s.requests[0], 0, Approved);
    assert IsRow(cfg, s.requests[i], i, Approved);
    assert i == 0;
    ThenRuns(cfg, tr, x);
    out := Then(cfg, tr, x);
  }

  lemma MoveTime(cfg: Config, tr: Trace, store: FinalStore, hash: Hash, now: Time) returns (out: Trace)
    requires Ordinary(cfg) && Runs(cfg, tr) && Ready(cfg, Last(tr), store, hash)
    ensures Runs(cfg, out) && Ready(cfg, Last(out), store, hash)
    ensures Last(out).readiness == Invalidate(Last(tr).readiness, now)
  {
    var x := Raise(MEMBER, UpdateGenesisTime(30, 0), FINE, now);
    ThenRuns(cfg, tr, x);
    SoloUpdateTime(cfg, Last(tr), 30, now);
    out := Then(cfg, tr, x);
  }

  /** In the confirmed rows below, the lookup returns the void one stamped 9. */
  lemma LookupReturnsVoid(cs: seq<Confirmation>, hash: Hash)
    requires |cs| > 0 && cs[0] == Stamped(hash, 9, Some(9))
    requires forall i :: 0 < i < |cs| ==> cs[i].confirmedAt < 9
    ensures NewestConfirmation(cs, Name(0)) == 0
  {
    var n := NewestConfirmation(cs, Name(0));
    assert n < |cs|;
    assert cs[0].confirmedAt <= cs[n].confirmedAt;
  }

  /**
   * Confirmed at 9, voided by a new genesis time, confirmed again at 5 after the clock stepped back, and once
   * more at 6: the validator holds two valid confirmations.
   */
  lemma ClockStepBackDuplicates(cfg: Config) returns (tr: Trace)
    requires Ordinary(cfg) && StakeOf(cfg, "g") > 0
    ensures Runs(cfg, tr) && Last(tr).launch.status == GenesisReady
    ensures Last(tr).readiness == [Stamped(HEX, 9, Some(9)), Stamped(HEX, 5, None), Stamped(HEX, 6, None)]
    ensures HasTwoValid(Last(tr).readiness, Name(0))
  {
    var store := FinalStore(None, Some(HEX));
    tr := ClosedFour(cfg);
    tr := UploadReference(cfg, tr, FinalStore(None, None), HEX);
    tr := PublishIt(cfg, tr, store);
    tr := ConfirmNext(cfg, tr, store, HEX, 9);
    tr := MoveTime(cfg, tr, store, HEX, 9);
    assert Last(tr).readiness == [Stamped(HEX, 9, Some(9))];
    LookupReturnsVoid(Last(tr).readiness, HEX);
    tr := ConfirmNext(cfg, tr, store, HEX, 5);
    LookupReturnsVoid(Last(tr).readiness, HEX);
    tr := ConfirmNext(cfg, tr, store, HEX, 6);
    var cs := Last(tr).readiness;
    assert cs == [Stamped(HEX, 9, Some(9)), Stamped(HEX, 5, None), Stamped(HEX, 6, None)];
    assert cs[1].operator == cs[2].operator == Name(0) && ValidConfirmation(cs[1]) && ValidConfirmation(cs[2]);
  }

  // ----- An oversized backlog and a torn upload together

  /** A genesis of just these keys. */
  function KeysFile(keys: seq<string>): GenesisFile {
    GenesisFile("c", 10, seq(|keys|, i requires 0 <= i < |keys| => Some(keys[i])), [])
  }

  ghost predicate Uploadable(s: State) {
    && Solo(s) && s.launch.status == WindowClosed && s.launch.record.chainId == "c"
    && ApprovedRows(s.requests) != [] && "" !in ApprovedKeys(s) && s.store.ref.None?
  }

  lemma KeysFileAllowed(cfg: Config, s: State)
    requires Inv(cfg, s) && Uploadable(s)
    ensures FormKeys(KeysFile(ApprovedKeys(s))) == ApprovedKeys(s)
    ensures UploadFinalAllowed(s, MEMBER, KeysFile(ApprovedKeys(s)), 0)
  {
    SoloMember();
    ApprovedDistinct(s.requests);
    var keys := ApprovedKeys(s);
    assert |keys| == |ApprovedRows(s.requests)|;
    assert Distinct(keys);
    assert FormKeys(KeysFile(keys)) == keys;
    assert Covers(keys, keys);
  }

  lemma UploadKeys(cfg: Config, tr: Trace, saved: bool) returns (out: Trace)
    requires Ordinary(cfg) && Runs(cfg, tr) && Inv(cfg, Last(tr)) && Uploadable(Last(tr))
    ensures Runs(cfg, out) && Inv(cfg, Last(out)) && Uploadable(Last(out)) && Last(out).requests == Last(tr).requests
    ensures Last(out).store == FinalStore(Some(KeysFile(ApprovedKeys(Last(tr)))), None)
    ensures saved ==> GenesisFresh(cfg, Last(out))
                      && Last(out).launch.finalGenesisSha256 == cfg.fileDigest(KeysFile(ApprovedKeys(Last(tr))))
    ensures !saved ==> Last(out).launch == Last(tr).launch
  {
    var x := UploadFinal(MEMBER, KeysFile(ApprovedKeys(Last(tr))), 0, saved);
    KeysFileAllowed(cfg, Last(tr));
    ThenRuns(cfg, tr, x);
    out := Then(cfg, tr, x);
  }

  lemma ApprovedSkip(rows: seq<JoinRow>, i: nat, r: JoinRow)
    requires i < |rows| && rows[i].status != Approved && r.status != Approved
    ensures ApprovedRows(rows[i := r]) == ApprovedRows(rows)
  {
    var a, b := rows[..i], rows[i + 1..];
    assert rows == a + ([rows[i]] + b) && rows[i := r] == a + ([r] + b);
    ApprovedAppend(a, [rows[i]] + b);
    ApprovedAppend(a, [r] + b);
    ApprovedAppend([rows[i]], b);
    ApprovedAppend([r], b);
    NoneApproved([rows[i]]);
    NoneApproved([r]);
  }

  /** Approval puts the key among the approved ones. */
  lemma ApprovedKeyIn(s: State, i: nat)
    requires i < |s.requests| && s.requests[i].status == Approved
    ensures s.requests[i].consensusKey in ApprovedKeys(s)
  {
    ApprovedMembers(s.requests, s.requests[i]);
    var n :| 0 <= n < |ApprovedRows(s.requests)| && ApprovedRows(s.requests)[n] == s.requests[i];
    assert ApprovedKeys(s)[n] == s.requests[i].consensusKey;
  }

  /** Nobody else has this validator's key. */
  ghost predicate OwnKeys(rows: seq<JoinRow>) {
    forall i, j :: 0 <= i < j < |rows| ==> rows[i].consensusKey != rows[j].consensusKey
  }

  lemma UnapprovedKeyOut(s: State, i: nat)
    requires i < |s.requests| && s.requests[i].status != Approved && OwnKeys(s.requests)
    ensures s.requests[i].consensusKey !in ApprovedKeys(s)
  {
    var key := s.requests[i].consensusKey;
    forall n | 0 <= n < |ApprovedKeys(s)| ensures ApprovedKeys(s)[n] != key {
      var r := ApprovedRows(s.requests)[n];
      assert r in ApprovedRows(s.requests);
      ApprovedMembers(s.requests, r);
      var j :| 0 <= j < |s.requests| && s.requests[j] == r;
      assert j != i;
    }
  }

  /** A closed window with a pending request left over: four approved, every key its own and not empty. */
  ghost predicate Leftover(s: State, i: nat) {
    && Plain(s, WindowClosed)
    && i < |s.requests| && s.requests[i].status == Pending && s.requests[i].operator != ""
    && OwnKeys(s.requests) && (forall j :: 0 <= j < |s.requests| ==> s.requests[j].consensusKey != "")
    && ApprovedRows(s.requests) != []
  }

  /** What a close leaves of the rows: the approved ones, and every key its owner's. */
  lemma ExpiredRows(cfg: Config, rows: seq<JoinRow>, m: nat)
    requires Applied(cfg, rows, 4, m)
    ensures var out := ExpirePending(rows, PENDING_PAGE);
            && OwnKeys(out) && (forall j :: 0 <= j < |out| ==> out[j].consensusKey != "")
            && ApprovedRows(out) != []
  {
    var out := ExpirePending(rows, PENDING_PAGE);
    AppliedApproved(cfg, rows, 4, m);
    ExpireKeepsApproved(rows, PENDING_PAGE);
    forall j | 0 <= j < |rows| ensures |out[j].consensusKey| == j + 1 {
      assert IsRow(cfg, rows[j], j, if j < 4 then Approved else Pending);
    }
  }

  lemma LeftoverRun(cfg: Config) returns (tr: Trace, i: nat)
    requires Ordinary(cfg) && StakeOf(cfg, "g") > 0
    ensures Runs(cfg, tr) && Leftover(Last(tr), i)
  {
    tr := Waiting(cfg, 4, PENDING_PAGE + 1);
    var rows := Last(tr).requests;
    i := LeftoverExists(cfg, rows);
    ExpiredRows(cfg, rows, PENDING_PAGE + 1);
    tr := Close(cfg, tr, PENDING_PAGE + 1);
  }

  lemma NonEmptyKeys(s: State)
    requires forall j :: 0 <= j < |s.requests| ==> s.requests[j].consensusKey != ""
    ensures "" !in ApprovedKeys(s)
  {
    forall n | 0 <= n < |ApprovedKeys(s)| ensures ApprovedKeys(s)[n] != "" {
      var r := ApprovedRows(s.requests)[n];
      assert r in ApprovedRows(s.requests);
      ApprovedMembers(s.requests, r);
    }
  }

  /** The leftover is approved, and a file with its key can be made. */
  lemma ApproveLeftover(cfg: Config, tr: Trace, i: nat) returns (out: Trace)
    requires Ordinary(cfg) && Runs(cfg, tr) && Inv(cfg, Last(tr)) && Uploadable(Last(tr))
    requires i < |Last(tr).requests| && Last(tr).requests[i].status == Pending && Last(tr).requests[i].operator != ""
    requires forall j :: 0 <= j < |Last(tr).requests| ==> Last(tr).requests[j].consensusKey != ""
    ensures Runs(cfg, out) && Inv(cfg, Last(out)) && Uploadable(Last(out)) && Last(out).launch == Last(tr).launch
    ensures Last(out).requests == Last(tr).requests[i := Approve(Last(tr).requests[i], Last(tr).nextProposal).value]
    ensures Last(tr).requests[i].consensusKey in ApprovedKeys(Last(out))
  {
    var s := Last(tr);
    var x := Raise(MEMBER, ApproveValidator(i, s.requests[i].operator), FINE, 0);
    ThenRuns(cfg, tr, x);
    SoloApprove(cfg, s, i, 0);
    out := Then(cfg, tr, x);
    ApprovedKeyIn(Last(out), i);
    NonEmptyKeys(Last(out));
  }

  lemma RevokeIt(cfg: Config, tr: Trace, i: nat) returns (out: Trace)
    requires Ordinary(cfg) && Runs(cfg, tr) && Inv(cfg, Last(tr)) && Solo(Last(tr)) && Last(tr).launch.status == WindowClosed
    requires i < |Last(tr).requests| && Last(tr).requests[i].status == Approved
    ensures Runs(cfg, out) && Inv(cfg, Last(out)) && Solo(Last(out))
    ensures Last(out).launch == Last(tr).launch && Last(out).store == Last(tr).store
    ensures Last(out).requests == Last(tr).requests[i := Revoke(Last(tr).requests[i], "").value]
  {
    var s := Last(tr);
    var x := Raise(MEMBER, RemoveApprovedValidator(i, s.requests[i].operator, ""), FINE, 0);
    ThenRuns(cfg, tr, x);
    SoloRemove(cfg, s, i, 0);
    out := Then(cfg, tr, x);
  }

  /** The leftover is approved, its file stored without the row, and its approval revoked. */
  lemma InAndOut(cfg: Config, tr: Trace, i: nat) returns (out: Trace, r: JoinRow)
    requires Ordinary(cfg) && Runs(cfg, tr) && Inv(cfg, Last(tr)) && Uploadable(Last(tr))
    requires i < |Last(tr).requests| && Last(tr).requests[i].status == Pending && Last(tr).requests[i].operator != ""
    requires forall j :: 0 <= j < |Last(tr).requests| ==> Last(tr).requests[j].consensusKey != ""
    ensures Runs(cfg, out) && Inv(cfg, Last(out)) && Solo(Last(out)) && Last(out).launch == Last(tr).launch
    ensures r.status == Rejected && r.consensusKey == Last(tr).requests[i].consensusKey
    ensures Last(out).requests == Last(tr).requests[i := r]
    ensures Served(Last(out).store).Bytes?
    ensures r.consensusKey in FormKeys(Served(Last(out).store).file)
  {
    out := ApproveLeftover(cfg, tr, i);
    var s := Last(out);
    KeysFileAllowed(cfg, s);
    out := UploadKeys(cfg, out, false);
    r := Revoke(s.requests[i], "").value;
    out := RevokeIt(cfg, out, i);
    assert Last(out).requests == Last(tr).requests[i := r];
  }

  /** Back to the approved set on record. */
  lemma BackToRecord(cfg: Config, s: State, t: State, i: nat, r: JoinRow)
    requires Uploadable(s) && GenesisFresh(cfg, s) && Solo(t) && t.launch == s.launch && Served(t.store).Bytes?
    requires i < |s.requests| && s.requests[i].status == Pending && r.status == Rejected
    requires t.requests == s.requests[i := r]
    ensures Uploadable(t) && GenesisFresh(cfg, t) && ApprovedRows(t.requests) == ApprovedRows(s.requests)
  {
    ApprovedSkip(s.requests, i, r);
    assert Current(cfg, t) == Current(cfg, s);
  }

  lemma PublishKeys(cfg: Config, tr: Trace) returns (out: Trace)
    requires Ordinary(cfg) && Runs(cfg, tr) && Inv(cfg, Last(tr)) && Uploadable(Last(tr))
    requires GenesisFresh(cfg, Last(tr)) && IsSha256Hex(Last(tr).launch.finalGenesisSha256)
    ensures Runs(cfg, out) && Continues(tr, out) && |out.xs| == |tr.xs| + 1 && PublishesAt(out.states, |tr.xs|)
    ensures Last(out).store == Last(tr).store && Last(out).requests == Last(tr).requests
  {
    var s := Last(tr);
    var x := Raise(MEMBER, PublishFinalGenesis(s.launch.finalGenesisSha256), FINE, 0);
    ThenRuns(cfg, tr, x);
    SoloPublish(cfg, s, 0);
    out := Then(cfg, tr, x);
  }

  /** The leftover still pending, a file of the approved keys on record. */
  ghost predicate LeftoverBound(cfg: Config, s: State, i: nat) {
    && Inv(cfg, s) && Uploadable(s) && GenesisFresh(cfg, s) && IsSha256Hex(s.launch.finalGenesisSha256)
    && i < |s.requests| && s.requests[i].status == Pending && s.requests[i].operator != ""
    && OwnKeys(s.requests) && (forall j :: 0 <= j < |s.requests| ==> s.requests[j].consensusKey != "")
  }

  lemma BindBeside(cfg: Config) returns (tr: Trace, i: nat)
    requires Ordinary(cfg) && StakeOf(cfg, "g") > 0 && forall f :: IsSha256Hex(cfg.fileDigest(f))
    ensures Runs(cfg, tr) && LeftoverBound(cfg, Last(tr), i)
  {
    tr, i := LeftoverRun(cfg);
    Reachable(cfg, tr.states, tr.xs, |tr.xs|);
    NonEmptyKeys(Last(tr));
    tr := UploadKeys(cfg, tr, true);
  }

  /** After the leftover was in and out, its key is in the served file and not among the approved ones. */
  lemma StrangerStored(cfg: Config, tr: Trace, i: nat) returns (out: Trace, key: string)
    requires Ordinary(cfg) && Runs(cfg, tr) && LeftoverBound(cfg, Last(tr), i)
    ensures Runs(cfg, out) && Inv(cfg, Last(out)) && Uploadable(Last(out)) && GenesisFresh(cfg, Last(out))
    ensures Last(out).launch == Last(tr).launch
    ensures Served(Last(out).store).Bytes? && key in FormKeys(Served(Last(out).store).file)
    ensures key !in ApprovedKeys(Last(out))
  {
    var s := Last(tr);
    var r;
    out, r := InAndOut(cfg, tr, i);
    key := r.consensusKey;
    BackToRecord(cfg, s, Last(out), i, r);
    UnapprovedKeyOut(Last(out), i);
  }

  /**
   * With neither hypothesis the key clause of a publication fails: bound without the leftover, stored with it by
   * an upload that lost the race, published after its approval was revoked again.
   */
  lemma StrangerIsServed(cfg: Config) returns (tr: Trace, k: nat)
    requires Ordinary(cfg) && StakeOf(cfg, "g") > 0 && forall f :: IsSha256Hex(cfg.fileDigest(f))
    ensures Runs(cfg, tr) && PublishesAt(tr.states, k) && !CarriesApproved(tr.states[k + 1])
  {
    var i, key;
    tr, i := BindBeside(cfg);
    tr, key := StrangerStored(cfg, tr, i);
    k := |tr.xs|;
    tr := PublishKeys(cfg, tr);
    StrangerBreaks(Last(tr), key);
  }

  lemma StrangerBreaks(s: State, key: string)
    requires Served(s.store).Bytes? && key in FormKeys(Served(s.store).file) && key !in ApprovedKeys(s)
    requires ApprovedRows(s.requests) != []
    ensures !CarriesApproved(s)
  {
    assert key in multiset(FormKeys(Served(s.store).file)) && key !in multiset(ApprovedKeys(s));
  }
}
