/** The append-only audit log: its writer and its verifier (internal/infrastructure/auditlog). */
module AuditLog {
  import opened Prelude

  const MAX_LINE_BYTES: nat := 1_048_576

  datatype AuditEvent = AuditEvent(
    launchId: string, eventName: string, occurredAt: Time, payload: string, signature: string, prevHash: Hash)

  /** JSON, canonical JSON without the signature field, SHA-256 in hex, and Ed25519 in base64. */
  datatype Codec = Codec(
    marshal: AuditEvent -> string,
    unmarshal: string -> Option<AuditEvent>,
    signingBytes: AuditEvent -> string,
    sha256: string -> Hash,
    sign: (string, string) -> string,
    publicKey: string -> string,
    verify: (string, string, string) -> bool)

  /** Encoding round trips, the signature is outside the signed bytes, and a signature verifies under its own key. */
  ghost predicate Faithful(c: Codec) {
    && (forall e :: c.marshal(e) != "" && c.unmarshal(c.marshal(e)) == Some(e))
    && (forall e: AuditEvent, sig: string :: c.signingBytes(e.(signature := sig)) == c.signingBytes(e))
    && (forall key, msg :: c.verify(c.publicKey(key), msg, c.sign(key, msg)))
    && (forall line :: c.sha256(line) != "")
  }

  ghost predicate CollisionFree(c: Codec) {
    forall a, b :: c.sha256(a) == c.sha256(b) ==> a == b
  }

  // ----- The verifier

  datatype AnomalyKind = Tamper | Clock

  datatype Anomaly = Anomaly(line: nat, kind: AnomalyKind)

  datatype ScanResult = ScanResult(
    count: nat, firstTime: Time, lastTime: Time, anomalies: seq<Anomaly>, chainChecked: bool)

  datatype ScanState = ScanState(prevTime: Time, prevLine: string, result: ScanResult)

  const START := ScanState(0, "", ScanResult(0, 0, 0, [], false))

  predicate FieldsPresent(e: AuditEvent) {
    e.launchId != "" && e.eventName != "" && e.occurredAt != 0 && e.payload != ""
  }

  /** Nothing to check without a key or a signature. */
  predicate SignatureOk(c: Codec, e: AuditEvent, pub: Option<string>) {
    pub.None? || e.signature == "" || c.verify(pub.value, c.signingBytes(e.(signature := "")), e.signature)
  }

  predicate LinkOk(c: Codec, e: AuditEvent, prevLine: string) {
    e.prevHash == "" || (prevLine != "" && e.prevHash == c.sha256(prevLine))
  }

  function Report(r: ScanResult, n: nat, kind: AnomalyKind, when: bool): ScanResult {
    if when then r.(anomalies := r.anomalies + [Anomaly(n, kind)]) else r
  }

  /** One line, numbered n: empty lines are skipped, unusable ones reported and skipped. */
  function ScanLine(c: Codec, pub: Option<string>, st: ScanState, line: string, n: nat): ScanState {
    if line == "" then st
    else match c.unmarshal(line)
      case None => st.(result := Report(st.result, n, Tamper, true))
      case Some(e) =>
        if !FieldsPresent(e) then st.(result := Report(st.result, n, Tamper, true))
        else
          var timed := Report(st.result, n, Clock, st.prevTime != 0 && e.occurredAt < st.prevTime);
          var signed := Report(timed, n, Tamper, !SignatureOk(c, e, pub));
          var r := Report(signed, n, Tamper, !LinkOk(c, e, st.prevLine));
          var checked := r.chainChecked || (e.prevHash != "" && LinkOk(c, e, st.prevLine));
          ScanState(e.occurredAt, line,
                    r.(firstTime := if r.count == 0 then e.occurredAt else r.firstTime, lastTime := e.occurredAt,
                       chainChecked := checked, count := r.count + 1))
  }

  /** The state after the first k lines. */
  function ScanPrefix(c: Codec, pub: Option<string>, lines: seq<string>, k: nat): ScanState
    requires k <= |lines|
  {
    if k == 0 then START else ScanLine(c, pub, ScanPrefix(c, pub, lines, k - 1), lines[k - 1], k)
  }

  /** Every line fits the scanner's buffer. */
  ghost predicate AllFit(lines: seq<string>) {
    forall i :: 0 <= i < |lines| ==> |lines[i]| < MAX_LINE_BYTES
  }

  predicate HasTamper(r: ScanResult) {
    exists i | 0 <= i < |r.anomalies| :: r.anomalies[i].kind == Tamper
  }

  /** Reads every line, or stops with an error at the first that does not fit. */
  method Scan(c: Codec, lines: seq<string>, pub: Option<string>) returns (res: ScanResult, tooLong: bool)
    ensures tooLong <==> !AllFit(lines)
    ensures !tooLong ==> res == ScanPrefix(c, pub, lines, |lines|).result
  {
    var prevTime, prevLine := 0, "";
    res := ScanResult(0, 0, 0, [], false);
    for i := 0 to |lines|
      invariant ScanState(prevTime, prevLine, res) == ScanPrefix(c, pub, lines, i)
      invariant AllFit(lines[..i])
    {
      var line := lines[i];
      if |line| >= MAX_LINE_BYTES {
        return res, true;
      }
      if line != "" {
        var parsed := c.unmarshal(line);
        if parsed.None? || !FieldsPresent(parsed.value) {
          res := res.(anomalies := res.anomalies + [Anomaly(i + 1, Tamper)]);
        } else {
          var e := parsed.value;
          if prevTime != 0 && e.occurredAt < prevTime {
            res := res.(anomalies := res.anomalies + [Anomaly(i + 1, Clock)]);
          }
          if !SignatureOk(c, e, pub) {
            res := res.(anomalies := res.anomalies + [Anomaly(i + 1, Tamper)]);
          }
          if !LinkOk(c, e, prevLine) {
            res := res.(anomalies := res.anomalies + [Anomaly(i + 1, Tamper)]);
          } else if e.prevHash != "" {
            res := res.(chainChecked := true);
          }
          if res.count == 0 {
            res := res.(firstTime := e.occurredAt);
          }
          res := res.(lastTime := e.occurredAt, count := res.count + 1);
          prevTime, prevLine := e.occurredAt, line;
        }
      }
    }
    return res, false;
  }

  // ----- The writer

  /** The file, the writer's memory of it, and the chain tip kept in the database. */
  datatype LogState = LogState(file: seq<string>, prevHash: Hash, lastOccurredAt: Time, tip: Hash, up: bool)

  /** The write fails before anything reaches the file, or the line is written and its tip is not stored. */
  datatype AppendOutcome = AppendOk | WriteFails | TipFails

  /** The event as written: linked to the previous line, then signed when there is a key. */
  function Seal(c: Codec, key: Option<string>, prevHash: Hash, e: AuditEvent): AuditEvent {
    var linked := e.(prevHash := prevHash);
    if key.None? then linked else linked.(signature := c.sign(key.value, c.signingBytes(linked)))
  }

  function AppendLine(c: Codec, key: Option<string>, w: LogState, e: AuditEvent, outcome: AppendOutcome): LogState {
    var line := c.marshal(Seal(c, key, w.prevHash, e));
    if !w.up || outcome == WriteFails then w
    else w.(file := w.file + [line], prevHash := c.sha256(line), lastOccurredAt := e.occurredAt,
            tip := if outcome == TipFails then w.tip else c.sha256(line))
  }

  /** The last non-empty line, "" when there is none. */
  function LastLine(lines: seq<string>): string {
    if lines == [] then ""
    else if lines[|lines| - 1] != "" then lines[|lines| - 1]
    else LastLine(lines[..|lines| - 1])
  }

  /** The stored tip is absent, or is the digest of the last line. */
  predicate TipMatches(c: Codec, lines: seq<string>, tip: Hash) {
    tip == "" || (LastLine(lines) != "" && c.sha256(LastLine(lines)) == tip)
  }

  function LastTime(c: Codec, lines: seq<string>): Option<Time> {
    if LastLine(lines) == "" then Some(0)
    else match c.unmarshal(LastLine(lines))
      case None => None
      case Some(e) => Some(e.occurredAt)
  }

  /** A restart takes over the stored tip if it matches the file; the full check also scans every line. */
  ghost predicate CanRestart(c: Codec, key: Option<string>, w: LogState, full: bool) {
    && TipMatches(c, w.file, w.tip)
    && LastTime(c, w.file).Some?
    && (full ==> AllFit(w.file) && !HasTamper(ScanPrefix(c, PublicKeyOf(c, key), w.file, |w.file|).result))
  }

  function PublicKeyOf(c: Codec, key: Option<string>): Option<string> {
    if key.None? then None else Some(c.publicKey(key.value))
  }

  ghost function RestartLog(c: Codec, key: Option<string>, w: LogState, full: bool): LogState {
    if CanRestart(c, key, w, full)
    then w.(prevHash := w.tip, lastOccurredAt := LastTime(c, w.file).value, up := true)
    else w.(up := false)
  }

  /** The writer object: what it holds in memory, the file, and the tip store beside it. */
  class JSONLWriter {
    const codec: Codec
    const key: Option<string>
    var file: seq<string>
    var prevHash: Hash
    var lastOccurredAt: Time
    var tip: Hash
    var up: bool
    /** Warnings logged so far about a backward clock. */
    var clockWarnings: nat

    function View(): LogState
      reads this
    {
      LogState(file, prevHash, lastOccurredAt, tip, up)
    }

    constructor (codec: Codec, key: Option<string>, file: seq<string>, tip: Hash)
      ensures this.codec == codec && this.key == key
      ensures View() == LogState(file, "", 0, tip, false) && clockWarnings == 0
    {
      this.codec, this.key, this.file, this.tip := codec, key, file, tip;
      prevHash, lastOccurredAt, up, clockWarnings := "", 0, false, 0;
    }

    /** Appends one line; a failure to store the tip is reported though the line is written. */
    method Append(ev: AuditEvent, outcome: AppendOutcome) returns (ok: bool)
      requires up
      modifies this
      ensures View() == AppendLine(codec, key, old(View()), ev, outcome)
      ensures ok <==> outcome == AppendOk
      ensures clockWarnings == old(clockWarnings)
              + if old(lastOccurredAt) != 0 && ev.occurredAt < old(lastOccurredAt) then 1 else 0
    {
      var e := ev.(prevHash := prevHash);
      if lastOccurredAt != 0 && e.occurredAt < lastOccurredAt {
        clockWarnings := clockWarnings + 1;
      }
      if key.Some? {
        e := e.(signature := codec.sign(key.value, codec.signingBytes(e)));
      }
      var line := codec.marshal(e);
      if outcome == WriteFails {
        return false;
      }
      file := file + [line];
      prevHash := codec.sha256(line);
      lastOccurredAt := e.occurredAt;
      if outcome == TipFails {
        return false;
      }
      tip := prevHash;
      return true;
    }

    method ReadLastLine() returns (last: string)
      ensures last == LastLine(file)
    {
      last := "";
      for i := 0 to |file|
        invariant last == LastLine(file[..i])
      {
        assert file[..i + 1][..i] == file[..i];
        if file[i] != "" {
          last := file[i];
        }
      }
      assert file[..|file|] == file;
    }

    /** Start-up: take over the stored tip if it matches, seed the clock, and scan when asked to. */
    method Restart(full: bool) returns (ok: bool)
      modifies this
      ensures View() == RestartLog(codec, key, old(View()), full)
      ensures ok <==> CanRestart(codec, key, old(View()), full)
      ensures clockWarnings == old(clockWarnings)
    {
      up := false;
      var last := ReadLastLine();
      if tip != "" && (last == "" || codec.sha256(last) != tip) {
        return false;
      }
      var when := 0;
      if last != "" {
        var parsed := codec.unmarshal(last);
        if parsed.None? {
          return false;
        }
        when := parsed.value.occurredAt;
      }
      if full {
        var pub := PublicKeyOf(codec, key);
        var res, tooLong := Scan(codec, file, pub);
        if tooLong || HasTamper(res) {
          return false;
        }
      }
      prevHash, lastOccurredAt, up := tip, when, true;
      return true;
    }
  }
}
