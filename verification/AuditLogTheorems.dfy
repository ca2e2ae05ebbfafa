/** Completeness of the verifier and tamper evidence of the chain. */
module AuditLogTheorems {
  import opened Prelude
  import opened AuditLog

  // ----- Runs of the writer

  datatype LogInput = AppendEvent(event: AuditEvent, outcome: AppendOutcome) | RestartWriter(full: bool)

  ghost function LogStep(c: Codec, key: Option<string>, w: LogState, x: LogInput): LogState {
    match x
    case AppendEvent(e, outcome) => AppendLine(c, key, w, e, outcome)
    case RestartWriter(full) => RestartLog(c, key, w, full)
  }

  /** What writeAuditEvent passes: the required fields, and no signature yet. */
  predicate WellFormedInput(x: LogInput) {
    x.AppendEvent? ==> FieldsPresent(x.event) && x.event.signature == ""
  }

  const FRESH_LOG := LogState([], "", 0, "", false)

  ghost predicate LogStepAt(c: Codec, key: Option<string>, ws: seq<LogState>, xs: seq<LogInput>, k: int) {
    && 0 <= k < |xs| && |ws| == |xs| + 1
    && WellFormedInput(xs[k])
    && ws[k + 1] == LogStep(c, key, ws[k], xs[k])
  }

  /** Any interleaving of appends, failed or not, and restarts, refused or not, from an empty file. */
  ghost predicate LogRun(c: Codec, key: Option<string>, ws: seq<LogState>, xs: seq<LogInput>) {
    && |ws| == |xs| + 1
    && ws[0] == FRESH_LOG
    && forall k :: 0 <= k < |xs| ==> LogStepAt(c, key, ws, xs, k)
  }

  // ----- What the writer keeps

  ghost predicate GoodLine(c: Codec, key: Option<string>, file: seq<string>, i: int)
    requires 0 <= i < |file|
  {
    && file[i] != ""
    && c.unmarshal(file[i]).Some?
    && var e := c.unmarshal(file[i]).value;
       && FieldsPresent(e)
       && SignatureOk(c, e, PublicKeyOf(c, key))
       && (key.Some? ==> c.verify(c.publicKey(key.value), c.signingBytes(e.(signature := "")), e.signature))
       && (e.prevHash == "" || (i > 0 && e.prevHash == c.sha256(file[i - 1])))
  }

  ghost predicate GoodFile(c: Codec, key: Option<string>, file: seq<string>) {
    forall i :: 0 <= i < |file| ==> GoodLine(c, key, file, i)
  }

  ghost predicate LogInv(c: Codec, key: Option<string>, w: LogState) {
    && GoodFile(c, key, w.file)
    && (w.up && w.prevHash != "" ==> w.file != [] && w.prevHash == c.sha256(w.file[|w.file| - 1]))
    && (w.up ==> w.lastOccurredAt == FileTime(c, w.file))
  }

  /** When the last line is dated, 0 for an empty file. */
  ghost function FileTime(c: Codec, file: seq<string>): Time {
    if file == [] then 0
    else match c.unmarshal(file[|file| - 1])
      case None => 0
      case Some(e) => e.occurredAt
  }

  lemma SealIsGood(c: Codec, key: Option<string>, file: seq<string>, prevHash: Hash, e: AuditEvent)
    requires Faithful(c) && GoodFile(c, key, file)
    requires FieldsPresent(e) && e.signature == ""
    requires prevHash != "" ==> file != [] && prevHash == c.sha256(file[|file| - 1])
    ensures GoodFile(c, key, file + [c.marshal(Seal(c, key, prevHash, e))])
  {
    var sealed := Seal(c, key, prevHash, e);
    var line := c.marshal(sealed);
    var out := file + [line];
    var linked := e.(prevHash := prevHash);
    assert sealed.(signature := "") == linked;
    if key.Some? {
      assert c.verify(c.publicKey(key.value), c.signingBytes(linked), c.sign(key.value, c.signingBytes(linked)));
    }
    assert SignatureOk(c, sealed, PublicKeyOf(c, key));
    assert GoodLine(c, key, out, |file|);
    forall i | 0 <= i < |file| ensures GoodLine(c, key, out, i) {
      assert GoodLine(c, key, file, i);
    }
  }

  lemma LogStepKeeps(c: Codec, key: Option<string>, w: LogState, x: LogInput)
    requires Faithful(c) && WellFormedInput(x) && LogInv(c, key, w)
    ensures LogInv(c, key, LogStep(c, key, w, x))
  {
    match x {
      case AppendEvent(e, outcome) =>
        if w.up && outcome != WriteFails {
          SealIsGood(c, key, w.file, w.prevHash, e);
        }
      case RestartWriter(full) =>
        if w.file != [] {
          assert GoodLine(c, key, w.file, |w.file| - 1);
          assert LastLine(w.file) == w.file[|w.file| - 1];
        }
    }
  }

  lemma LogStepAtKeeps(c: Codec, key: Option<string>, ws: seq<LogState>, xs: seq<LogInput>, k: nat)
    requires LogStepAt(c, key, ws, xs, k) && Faithful(c) && LogInv(c, key, ws[k])
    ensures LogInv(c, key, ws[k + 1])
  {
    LogStepKeeps(c, key, ws[k], xs[k]);
  }

  lemma {:induction false} LogReachable(c: Codec, key: Option<string>, ws: seq<LogState>, xs: seq<LogInput>, k: nat)
    requires LogRun(c, key, ws, xs) && Faithful(c) && k <= |xs|
    ensures LogInv(c, key, ws[k])
    decreases k
  {
    if k > 0 {
      LogReachable(c, key, ws, xs, k - 1);
      LogStepAtKeeps(c, key, ws, xs, k - 1);
    }
  }

  // ----- Completeness

  ghost function TimeOf(c: Codec, key: Option<string>, file: seq<string>, i: int): Time
    requires GoodFile(c, key, file) && 0 <= i < |file|
  {
    assert GoodLine(c, key, file, i);
    c.unmarshal(file[i]).value.occurredAt
  }

  /** The clock anomalies a scan of a good file reports. */
  ghost function Backward(c: Codec, key: Option<string>, file: seq<string>, k: nat): seq<Anomaly>
    requires GoodFile(c, key, file) && k <= |file|
  {
    if k == 0 then []
    else Backward(c, key, file, k - 1)
         + if k >= 2 && TimeOf(c, key, file, k - 1) < TimeOf(c, key, file, k - 2) then [Anomaly(k, Clock)] else []
  }

  lemma {:induction false} GoodScan(c: Codec, key: Option<string>, pub: Option<string>, file: seq<string>, k: nat)
    requires GoodFile(c, key, file) && k <= |file|
    requires pub.None? || pub == PublicKeyOf(c, key)
    ensures var st := ScanPrefix(c, pub, file, k);
            && st.result.count == k
            && st.result.anomalies == Backward(c, key, file, k)
            && st.prevLine == (if k == 0 then "" else file[k - 1])
            && st.prevTime == (if k == 0 then 0 else TimeOf(c, key, file, k - 1))
    decreases k
  {
    if k > 0 {
      GoodScan(c, key, pub, file, k - 1);
      assert GoodLine(c, key, file, k - 1);
      if k > 1 {
        assert GoodLine(c, key, file, k - 2);
      }
    }
  }

  lemma {:induction false} BackwardMembers(c: Codec, key: Option<string>, file: seq<string>, k: nat, a: Anomaly)
    requires GoodFile(c, key, file) && k <= |file|
    ensures a in Backward(c, key, file, k)
            <==> a.kind == Clock && 2 <= a.line <= k && TimeOf(c, key, file, a.line - 1) < TimeOf(c, key, file, a.line - 2)
    decreases k
  {
    if k > 0 {
      BackwardMembers(c, key, file, k - 1, a);
    }
  }

  /** The line's entry carries a signature under this key, over the entry without it. */
  ghost predicate SignedBy(c: Codec, pub: string, line: string) {
    && c.unmarshal(line).Some?
    && var e := c.unmarshal(line).value;
       c.verify(pub, c.signingBytes(e.(signature := "")), e.signature)
  }

  /**
   * Every log the writer can produce scans with no tamper anomaly, counts every entry, and reports a clock
   * anomaly at exactly the entries whose time precedes the previous one; with or without the writer's key. A writer
   * with a key signs every line, and a running writer remembers the time of the last one, across restarts.
   */
  lemma ScanIsComplete(c: Codec, key: Option<string>, ws: seq<LogState>, xs: seq<LogInput>, k: nat, pub: Option<string>)
    requires LogRun(c, key, ws, xs) && Faithful(c) && k <= |xs|
    requires pub.None? || pub == PublicKeyOf(c, key)
    ensures GoodFile(c, key, ws[k].file)
    ensures key.Some? ==> forall i :: 0 <= i < |ws[k].file| ==> SignedBy(c, c.publicKey(key.value), ws[k].file[i])
    ensures ws[k].up ==> ws[k].lastOccurredAt == FileTime(c, ws[k].file)
    ensures var file := ws[k].file;
            var r := ScanPrefix(c, pub, file, |file|).result;
            && r.count == |file|
            && !HasTamper(r)
            && (forall a :: a in r.anomalies <==>
                  a.kind == Clock && 2 <= a.line <= |file|
                  && TimeOf(c, key, file, a.line - 1) < TimeOf(c, key, file, a.line - 2))
  {
    LogReachable(c, key, ws, xs, k);
    var file := ws[k].file;
    if key.Some? {
      forall i | 0 <= i < |file| ensures SignedBy(c, c.publicKey(key.value), file[i]) {
        assert GoodLine(c, key, file, i);
      }
    }
    GoodScan(c, key, pub, file, |file|);
    var r := ScanPrefix(c, pub, file, |file|).result;
    forall a
      ensures a in r.anomalies <==>
                a.kind == Clock && 2 <= a.line <= |file|
                && TimeOf(c, key, file, a.line - 1) < TimeOf(c, key, file, a.line - 2)
    {
      BackwardMembers(c, key, file, |file|, a);
    }
    forall i | 0 <= i < |r.anomalies| ensures r.anomalies[i].kind != Tamper {
      assert r.anomalies[i] in r.anomalies;
    }
  }

  /** So a full-check restart of an untouched log is refused only over a stale tip or a line too long to read. */
  lemma RestartIff(c: Codec, key: Option<string>, ws: seq<LogState>, xs: seq<LogInput>, k: nat)
    requires LogRun(c, key, ws, xs) && Faithful(c) && k <= |xs|
    ensures CanRestart(c, key, ws[k], true)
            <==> && (ws[k].tip == "" || (ws[k].file != [] && c.sha256(ws[k].file[|ws[k].file| - 1]) == ws[k].tip))
                 && AllFit(ws[k].file)
  {
    ScanIsComplete(c, key, ws, xs, k, PublicKeyOf(c, key));
    var file := ws[k].file;
    if file != [] {
      assert GoodLine(c, key, file, |file| - 1);
      assert LastLine(file) == file[|file| - 1];
    }
  }

  // ----- Tamper evidence

  /** The non-empty lines. */
  ghost function Kept(lines: seq<string>): seq<string> {
    if lines == [] then []
    else
      var n := |lines| - 1;
      Kept(lines[..n]) + if lines[n] == "" then [] else [lines[n]]
  }

  lemma {:induction false} LastKept(lines: seq<string>)
    ensures LastLine(lines) == if Kept(lines) == [] then "" else Kept(lines)[|Kept(lines)| - 1]
    ensures "" !in Kept(lines)
  {
    if lines != [] {
      LastKept(lines[..|lines| - 1]);
    }
  }

  /** Each line links to the one before it, unless it starts a chain. */
  ghost predicate Linked(c: Codec, lines: seq<string>) {
    forall i :: 0 <= i < |lines| ==> LinkedAt(c, lines, i)
  }

  ghost predicate LinkedAt(c: Codec, lines: seq<string>, i: int)
    requires 0 <= i < |lines|
  {
    && c.unmarshal(lines[i]).Some?
    && LinkOk(c, c.unmarshal(lines[i]).value, if i == 0 then "" else lines[i - 1])
  }

  lemma {:induction false} ScanPrefixOf(c: Codec, pub: Option<string>, lines: seq<string>, more: seq<string>, k: nat)
    requires k <= |lines|
    ensures ScanPrefix(c, pub, lines + more, k) == ScanPrefix(c, pub, lines, k)
    decreases k
  {
    if k > 0 {
      ScanPrefixOf(c, pub, lines, more, k - 1);
    }
  }

  lemma TamperStays(c: Codec, pub: Option<string>, st: ScanState, line: string, n: nat)
    ensures st.result.anomalies <= ScanLine(c, pub, st, line, n).result.anomalies
    ensures HasTamper(st.result) ==> HasTamper(ScanLine(c, pub, st, line, n).result)
  {
    var out := ScanLine(c, pub, st, line, n).result.anomalies;
    assert forall i :: 0 <= i < |st.result.anomalies| ==> out[i] == st.result.anomalies[i];
  }

  lemma CleanLine(c: Codec, pub: Option<string>, st: ScanState, line: string, n: nat)
    requires !HasTamper(ScanLine(c, pub, st, line, n).result) && line != ""
    ensures c.unmarshal(line).Some?
    ensures LinkOk(c, c.unmarshal(line).value, st.prevLine)
    ensures ScanLine(c, pub, st, line, n).prevLine == line
  {
    var out := ScanLine(c, pub, st, line, n).result.anomalies;
    assert out != [] ==> out[|out| - 1].kind != Tamper;
  }

  /** A scan without tamper anomalies has checked that the non-empty lines form a linked sequence. */
  lemma {:induction false} CleanScanIsLinked(c: Codec, pub: Option<string>, lines: seq<string>)
    requires !HasTamper(ScanPrefix(c, pub, lines, |lines|).result)
    ensures Linked(c, Kept(lines))
    ensures ScanPrefix(c, pub, lines, |lines|).prevLine == LastLine(lines)
  {
    if lines != [] {
      var n := |lines| - 1;
      var front, line := lines[..n], lines[n];
      assert lines == front + [line];
      ScanPrefixOf(c, pub, front, [line], n);
      var st := ScanPrefix(c, pub, front, n);
      TamperStays(c, pub, st, line, n + 1);
      CleanScanIsLinked(c, pub, front);
      LastKept(front);
      if line != "" {
        CleanLine(c, pub, st, line, n + 1);
        var ks := Kept(front);
        forall i | 0 <= i <= |ks| ensures LinkedAt(c, Kept(lines), i) {
          if i < |ks| {
            assert LinkedAt(c, ks, i);
          }
        }
      } else {
        assert Kept(lines) == Kept(front);
      }
    }
  }

  /** Written one after the other by one chain: each line carries the digest of the one before. */
  ghost predicate Chained(c: Codec, lines: seq<string>) {
    forall i :: 0 < i < |lines| ==> ChainedAt(c, lines, i)
  }

  ghost predicate ChainedAt(c: Codec, lines: seq<string>, i: int)
    requires 0 < i < |lines|
  {
    c.unmarshal(lines[i]).Some? && c.unmarshal(lines[i]).value.prevHash == c.sha256(lines[i - 1])
  }

  /** From a common last line the links force the whole chain, backwards. */
  lemma {:induction false} ChainIsSuffix(c: Codec, lines: seq<string>, chain: seq<string>)
    requires Faithful(c) && CollisionFree(c)
    requires Linked(c, lines) && Chained(c, chain)
    requires lines != [] && chain != [] && c.sha256(lines[|lines| - 1]) == c.sha256(chain[|chain| - 1])
    ensures |chain| <= |lines| && lines[|lines| - |chain|..] == chain
    decreases |chain|
  {
    var m, n := |lines| - 1, |chain| - 1;
    assert lines[m] == chain[n];
    if n > 0 {
      assert ChainedAt(c, chain, n);
      assert LinkedAt(c, lines, m);
      var lines', chain' := lines[..m], chain[..n];
      forall i | 0 <= i < |lines'| ensures LinkedAt(c, lines', i) {
        assert LinkedAt(c, lines, i);
      }
      forall i | 0 < i < |chain'| ensures ChainedAt(c, chain', i) {
        assert ChainedAt(c, chain, i);
      }
      ChainIsSuffix(c, lines', chain');
      assert chain == chain' + [chain[n]];
      assert lines[|lines| - |chain|..] == lines'[|lines'| - |chain'|..] + [lines[m]];
    } else {
      assert lines[m..] == [lines[m]];
    }
  }

  /**
   * Any file, however obtained, that scans with no tamper anomaly and whose last line hashes to the tip of a
   * chain ends with exactly that chain: none of its lines was deleted, changed or reordered.
   */
  lemma TamperEvidence(c: Codec, pub: Option<string>, found: seq<string>, chain: seq<string>)
    requires Faithful(c) && CollisionFree(c) && Chained(c, chain) && chain != []
    requires !HasTamper(ScanPrefix(c, pub, found, |found|).result)
    requires TipMatches(c, found, c.sha256(chain[|chain| - 1]))
    ensures var kept := Kept(found);
            |chain| <= |kept| && kept[|kept| - |chain|..] == chain
  {
    CleanScanIsLinked(c, pub, found);
    LastKept(found);
    ChainIsSuffix(c, Kept(found), chain);
  }

  // ----- The chain a run writes

  ghost predicate TipsStored(xs: seq<LogInput>) {
    forall k :: 0 <= k < |xs| ==> xs[k].AppendEvent? ==> xs[k].outcome != TipFails
  }

  ghost predicate ChainInv(c: Codec, w: LogState) {
    && Chained(c, w.file)
    && w.tip == (if w.file == [] then "" else c.sha256(w.file[|w.file| - 1]))
    && (w.up ==> w.prevHash == w.tip)
  }

  lemma ChainStep(c: Codec, key: Option<string>, w: LogState, x: LogInput)
    requires Faithful(c) && WellFormedInput(x) && ChainInv(c, w)
    requires x.AppendEvent? ==> x.outcome != TipFails
    ensures ChainInv(c, LogStep(c, key, w, x))
  {
    var t := LogStep(c, key, w, x);
    if x.AppendEvent? && w.up && x.outcome == AppendOk {
      forall i | 0 < i < |t.file| ensures ChainedAt(c, t.file, i) {
        if i < |w.file| {
          assert ChainedAt(c, w.file, i);
        }
      }
    }
  }

  lemma {:induction false} RunIsChained(c: Codec, key: Option<string>, ws: seq<LogState>, xs: seq<LogInput>, k: nat)
    requires LogRun(c, key, ws, xs) && Faithful(c) && TipsStored(xs) && k <= |xs|
    ensures ChainInv(c, ws[k])
    decreases k
  {
    if k > 0 {
      RunIsChained(c, key, ws, xs, k - 1);
      assert LogStepAt(c, key, ws, xs, k - 1);
      ChainStep(c, key, ws[k - 1], xs[k - 1]);
    }
  }

  /**
   * For every run in which the tips were stored: whatever became of the file, if it scans clean and passes the
   * tip check, its non-empty lines end with everything the run appended, in order.
   */
  lemma AppendedSurvives(c: Codec, key: Option<string>, ws: seq<LogState>, xs: seq<LogInput>, k: nat,
                         pub: Option<string>, found: seq<string>)
    requires LogRun(c, key, ws, xs) && Faithful(c) && CollisionFree(c) && TipsStored(xs) && k <= |xs|
    requires !HasTamper(ScanPrefix(c, pub, found, |found|).result)
    requires TipMatches(c, found, ws[k].tip)
    ensures var kept, appended := Kept(found), ws[k].file;
            |appended| <= |kept| && kept[|kept| - |appended|..] == appended
  {
    RunIsChained(c, key, ws, xs, k);
    if ws[k].file != [] {
      TamperEvidence(c, pub, found, ws[k].file);
    }
  }

  // ----- When the check detects every loss

  /** What an auditor has: a file that scans clean and passes the check against the stored tip. */
  ghost predicate Passes(c: Codec, pub: Option<string>, found: seq<string>, tip: Hash) {
    !HasTamper(ScanPrefix(c, pub, found, |found|).result) && TipMatches(c, found, tip)
  }

  ghost predicate EndsWith(lines: seq<string>, tail: seq<string>) {
    |tail| <= |lines| && lines[|lines| - |tail|..] == tail
  }

  ghost predicate TipIsLine(c: Codec, w: LogState, i: int) {
    0 <= i < |w.file| && w.tip == c.sha256(w.file[i])
  }

  /** Whatever failed, a stored tip is the digest of some line of the file. */
  lemma {:induction false} TipIsALine(c: Codec, key: Option<string>, ws: seq<LogState>, xs: seq<LogInput>, k: nat)
    requires LogRun(c, key, ws, xs) && k <= |xs|
    ensures ws[k].tip == "" || exists i :: TipIsLine(c, ws[k], i)
    decreases k
  {
    if k > 0 {
      TipIsALine(c, key, ws, xs, k - 1);
      assert LogStepAt(c, key, ws, xs, k - 1);
      var w, t := ws[k - 1], ws[k];
      if t.tip != "" {
        if t.tip == w.tip {
          var i :| TipIsLine(c, w, i);
          assert TipIsLine(c, t, i);
        } else {
          assert TipIsLine(c, t, |t.file| - 1);
        }
      }
    }
  }

  lemma {:induction false} KeptAll(lines: seq<string>)
    requires "" !in lines
    ensures Kept(lines) == lines
  {
    if lines != [] {
      KeptAll(lines[..|lines| - 1]);
      assert lines == lines[..|lines| - 1] + [lines[|lines| - 1]];
    }
  }

  lemma GoodPasses(c: Codec, key: Option<string>, file: seq<string>, tip: Hash)
    requires GoodFile(c, key, file) && file != [] && tip == c.sha256(file[|file| - 1])
    ensures Passes(c, PublicKeyOf(c, key), file, tip)
    ensures Kept(file) == file
  {
    GoodScan(c, key, PublicKeyOf(c, key), file, |file|);
    NoTamperInBackward(c, key, file, |file|);
    forall j | 0 <= j < |file| ensures file[j] != "" {
      assert GoodLine(c, key, file, j);
    }
    KeptAll(file);
    LastKept(file);
  }

  lemma CutIsGood(c: Codec, key: Option<string>, file: seq<string>, from: nat, to: nat)
    requires GoodFile(c, key, file) && from < to <= |file|
    requires from > 0 ==> !ChainedAt(c, file, from)
    ensures GoodFile(c, key, file[from..to])
  {
    var cut := file[from..to];
    forall j | 0 <= j < |cut| ensures GoodLine(c, key, cut, j) {
      assert GoodLine(c, key, file, from + j);
      assert j > 0 ==> cut[j - 1] == file[from + j - 1];
    }
  }

  /** Any cut of a good file that starts at a chain start and ends at the tip's line passes. */
  lemma CutPasses(c: Codec, key: Option<string>, w: LogState, from: nat, i: nat)
    requires GoodFile(c, key, w.file) && from <= i && TipIsLine(c, w, i)
    requires from > 0 ==> !ChainedAt(c, w.file, from)
    ensures Passes(c, PublicKeyOf(c, key), w.file[from..i + 1], w.tip)
    ensures |Kept(w.file[from..i + 1])| == i + 1 - from
  {
    CutIsGood(c, key, w.file, from, i + 1);
    GoodPasses(c, key, w.file[from..i + 1], w.tip);
  }

  lemma NoTamperInBackward(c: Codec, key: Option<string>, file: seq<string>, k: nat)
    requires GoodFile(c, key, file) && k <= |file|
    ensures forall i :: 0 <= i < |Backward(c, key, file, k)| ==> Backward(c, key, file, k)[i].kind == Clock
  {
    forall i | 0 <= i < |Backward(c, key, file, k)| ensures Backward(c, key, file, k)[i].kind == Clock {
      BackwardMembers(c, key, file, k, Backward(c, key, file, k)[i]);
    }
  }

  /** The tip is current and the chain never restarted. */
  ghost predicate Anchored(c: Codec, w: LogState) {
    w.file == [] || (Chained(c, w.file) && TipIsLine(c, w, |w.file| - 1))
  }

  lemma EmptyPasses(c: Codec, pub: Option<string>)
    ensures Passes(c, pub, [], "") && Kept([]) == []
  {
    assert ScanPrefix(c, pub, [], 0) == START;
  }

  /** Otherwise some shorter file passes: nothing at all, the lines up to the tip, or those since the restart. */
  lemma UnanchoredMisses(c: Codec, key: Option<string>, w: LogState) returns (found: seq<string>)
    requires GoodFile(c, key, w.file) && !Anchored(c, w)
    requires w.tip == "" || exists i :: TipIsLine(c, w, i)
    ensures Passes(c, PublicKeyOf(c, key), found, w.tip)
    ensures |Kept(found)| < |w.file|
  {
    var last := |w.file| - 1;
    if w.tip == "" {
      found := [];
      EmptyPasses(c, PublicKeyOf(c, key));
    } else {
      var i := last;
      var from := 0;
      if !TipIsLine(c, w, last) {
        i :| TipIsLine(c, w, i);
      } else {
        from :| 0 < from < |w.file| && !ChainedAt(c, w.file, from);
      }
      found := w.file[from..i + 1];
      CutPasses(c, key, w, from, i);
    }
  }

  /**
   * On any run, whatever writes failed: every file that passes ends with all that was appended iff the stored
   * tip is the last line's and every line but the first carries the digest of the one before it.
   */
  lemma DetectsEveryLossIff(c: Codec, key: Option<string>, ws: seq<LogState>, xs: seq<LogInput>, k: nat)
    requires LogRun(c, key, ws, xs) && Faithful(c) && CollisionFree(c) && k <= |xs|
    ensures (forall found :: Passes(c, PublicKeyOf(c, key), found, ws[k].tip) ==> EndsWith(Kept(found), ws[k].file))
            <==> Anchored(c, ws[k])
  {
    if Anchored(c, ws[k]) {
      forall found | Passes(c, PublicKeyOf(c, key), found, ws[k].tip) ensures EndsWith(Kept(found), ws[k].file) {
        if ws[k].file != [] {
          TamperEvidence(c, PublicKeyOf(c, key), found, ws[k].file);
        }
      }
    } else {
      LogReachable(c, key, ws, xs, k);
      TipIsALine(c, key, ws, xs, k);
      var found := UnanchoredMisses(c, key, ws[k]);
      assert !EndsWith(Kept(found), ws[k].file);
    }
  }

  /**
   * Such a log: the very first append writes its line but not its tip, so the restart finds no tip to check
   * against and begins a second chain; the first line can then be dropped unseen.
   */
  lemma LostTipRun(c: Codec, key: Option<string>, first: AuditEvent, second: AuditEvent)
    returns (ws: seq<LogState>, xs: seq<LogInput>, found: seq<string>)
    requires Faithful(c) && FieldsPresent(first) && FieldsPresent(second) && first.signature == second.signature == ""
    ensures LogRun(c, key, ws, xs) && |xs| == 4 && |ws[4].file| == 2 && ws[4].up && !Anchored(c, ws[4])
    ensures found == ws[4].file[1..] && Passes(c, PublicKeyOf(c, key), found, ws[4].tip)
  {
    xs := [RestartWriter(false), AppendEvent(first, TipFails), RestartWriter(false), AppendEvent(second, AppendOk)];
    var w1 := LogStep(c, key, FRESH_LOG, xs[0]);
    var w2 := LogStep(c, key, w1, xs[1]);
    var line := c.marshal(Seal(c, key, "", first));
    assert w2.file == [line] && w2.tip == "";
    assert LastLine(w2.file) == line;
    var w3 := LogStep(c, key, w2, xs[2]);
    assert w3.up && w3.prevHash == "";
    var w4 := LogStep(c, key, w3, xs[3]);
    ws := [FRESH_LOG, w1, w2, w3, w4];
    assert LogStepAt(c, key, ws, xs, 0) && LogStepAt(c, key, ws, xs, 1);
    assert LogStepAt(c, key, ws, xs, 2) && LogStepAt(c, key, ws, xs, 3);
    var next := c.marshal(Seal(c, key, "", second));
    assert w4.file == [line, next];
    assert c.unmarshal(next) == Some(Seal(c, key, "", second));
    assert !ChainedAt(c, w4.file, 1);
    LogReachable(c, key, ws, xs, 4);
    assert TipIsLine(c, w4, 1);
    CutPasses(c, key, w4, 1, 1);
    found := w4.file[1..];
    assert found == w4.file[1..2];
  }
}
