/** What the scanner reports, line by line, on any file whatever. */
module AuditScanTheorems {
  import opened Prelude
  import opened AuditLog

  /** A line that parses to an entry with all four required fields. */
  ghost predicate Usable(c: Codec, line: string) {
    && line != "" && c.unmarshal(line).Some?
    && var e := c.unmarshal(line).value;
       e.launchId != "" && e.eventName != "" && e.occurredAt != 0 && e.payload != ""
  }

  /** The last usable one of the first k lines, "" when there is none. */
  ghost function LastUsable(c: Codec, lines: seq<string>, k: nat): string
    requires k <= |lines|
  {
    if k == 0 then "" else if Usable(c, lines[k - 1]) then lines[k - 1] else LastUsable(c, lines, k - 1)
  }

  lemma {:induction false} LastUsableIsUsable(c: Codec, lines: seq<string>, k: nat)
    requires k <= |lines|
    ensures LastUsable(c, lines, k) != "" ==> Usable(c, LastUsable(c, lines, k))
  {
    if k > 0 {
      LastUsableIsUsable(c, lines, k - 1);
    }
  }

  ghost function UsableCount(c: Codec, lines: seq<string>, k: nat): nat
    requires k <= |lines|
  {
    if k == 0 then 0 else UsableCount(c, lines, k - 1) + if Usable(c, lines[k - 1]) then 1 else 0
  }

  /** When the first usable one of the first k lines was dated, 0 when there is none. */
  ghost function FirstTime(c: Codec, lines: seq<string>, k: nat): Time
    requires k <= |lines|
  {
    if k == 0 then 0
    else if UsableCount(c, lines, k - 1) > 0 then FirstTime(c, lines, k - 1)
    else if Usable(c, lines[k - 1]) then c.unmarshal(lines[k - 1]).value.occurredAt
    else 0
  }

  /**
   * Line n is bad: it does not parse, lacks a required field, carries a signature that does not verify over the
   * entry without it, or names a previous digest that is not that of the last usable line before it.
   */
  ghost predicate Tampered(c: Codec, pub: Option<string>, lines: seq<string>, n: nat)
    requires 0 < n <= |lines|
  {
    var line := lines[n - 1];
    && line != ""
    && match c.unmarshal(line)
       case None => true
       case Some(e) =>
         || e.launchId == "" || e.eventName == "" || e.occurredAt == 0 || e.payload == ""
         || (pub.Some? && e.signature != "" && !c.verify(pub.value, c.signingBytes(e.(signature := "")), e.signature))
         || (e.prevHash != "" && (LastUsable(c, lines, n - 1) == "" || e.prevHash != c.sha256(LastUsable(c, lines, n - 1))))
  }

  /** Line n is a usable entry dated before the last usable one. */
  ghost predicate Backdated(c: Codec, lines: seq<string>, n: nat)
    requires 0 < n <= |lines|
  {
    && Usable(c, lines[n - 1]) && LastUsable(c, lines, n - 1) != ""
    && c.unmarshal(LastUsable(c, lines, n - 1)).Some?
    && c.unmarshal(lines[n - 1]).value.occurredAt < c.unmarshal(LastUsable(c, lines, n - 1)).value.occurredAt
  }

  /** What the scanner remembers of the lines so far. */
  ghost predicate Remembers(c: Codec, lines: seq<string>, k: nat, st: ScanState)
    requires k <= |lines|
  {
    var last := LastUsable(c, lines, k);
    && st.prevLine == last
    && (last == "" ==> st.prevTime == 0)
    && (last != "" ==> Usable(c, last) && st.prevTime == c.unmarshal(last).value.occurredAt)
    && st.result.count == UsableCount(c, lines, k)
    && (st.result.count == 0 <==> last == "")
    && st.result.lastTime == st.prevTime
    && st.result.firstTime == FirstTime(c, lines, k)
  }

  lemma {:induction false} ScanRemembers(c: Codec, pub: Option<string>, lines: seq<string>, k: nat)
    requires k <= |lines|
    ensures Remembers(c, lines, k, ScanPrefix(c, pub, lines, k))
    decreases k
  {
    if k > 0 {
      ScanRemembers(c, pub, lines, k - 1);
      LastUsableIsUsable(c, lines, k - 1);
    }
  }

  /** A line adds anomalies under its own number only: a tamper one iff it is bad, a clock one iff it is backdated. */
  lemma LineReports(c: Codec, pub: Option<string>, lines: seq<string>, k: nat, a: Anomaly)
    requires 0 < k <= |lines|
    ensures var before := ScanPrefix(c, pub, lines, k - 1).result.anomalies;
            var after := ScanPrefix(c, pub, lines, k).result.anomalies;
            a in after <==> a in before
                            || (a == Anomaly(k, Tamper) && Tampered(c, pub, lines, k))
                            || (a == Anomaly(k, Clock) && Backdated(c, lines, k))
  {
    ScanRemembers(c, pub, lines, k - 1);
  }

  lemma {:induction false} ReportedUpTo(c: Codec, pub: Option<string>, lines: seq<string>, k: nat, a: Anomaly)
    requires k <= |lines|
    ensures a in ScanPrefix(c, pub, lines, k).result.anomalies
            <==> 0 < a.line <= k && if a.kind == Tamper then Tampered(c, pub, lines, a.line) else Backdated(c, lines, a.line)
    decreases k
  {
    if k > 0 {
      ReportedUpTo(c, pub, lines, k - 1, a);
      LineReports(c, pub, lines, k, a);
    }
  }

  /**
   * For any file and key: a tamper anomaly is reported at a line iff the line is bad, a clock anomaly iff it is
   * backdated, nothing else is reported, the count is that of the usable lines, and the times are the first and last of them.
   */
  lemma ScanReportsExactly(c: Codec, pub: Option<string>, lines: seq<string>)
    ensures var r := ScanPrefix(c, pub, lines, |lines|).result;
            && (forall a :: a in r.anomalies <==>
                  0 < a.line <= |lines|
                  && if a.kind == Tamper then Tampered(c, pub, lines, a.line) else Backdated(c, lines, a.line))
            && r.count == UsableCount(c, lines, |lines|)
            && r.firstTime == FirstTime(c, lines, |lines|)
            && (r.count > 0 ==> Usable(c, LastUsable(c, lines, |lines|)) && r.lastTime == c.unmarshal(LastUsable(c, lines, |lines|)).value.occurredAt)
  {
    forall a
      ensures a in ScanPrefix(c, pub, lines, |lines|).result.anomalies <==>
                0 < a.line <= |lines|
                && if a.kind == Tamper then Tampered(c, pub, lines, a.line) else Backdated(c, lines, a.line)
    {
      ReportedUpTo(c, pub, lines, |lines|, a);
    }
    ScanRemembers(c, pub, lines, |lines|);
  }

  // ----- Summary fields

  /** Line n names the digest of the last usable line before it. */
  ghost predicate LinkVerified(c: Codec, lines: seq<string>, n: nat)
    requires 0 < n <= |lines|
  {
    && Usable(c, lines[n - 1]) && c.unmarshal(lines[n - 1]).value.prevHash != ""
    && LastUsable(c, lines, n - 1) != ""
    && c.unmarshal(lines[n - 1]).value.prevHash == c.sha256(LastUsable(c, lines, n - 1))
  }

  /** The chain counts as checked iff some line's link was verified. */
  lemma {:induction false} ChainCheckedIff(c: Codec, pub: Option<string>, lines: seq<string>, k: nat)
    requires k <= |lines|
    ensures ScanPrefix(c, pub, lines, k).result.chainChecked <==> exists n: nat :: 0 < n <= k && LinkVerified(c, lines, n)
    decreases k
  {
    if k > 0 {
      ChainCheckedIff(c, pub, lines, k - 1);
      ScanRemembers(c, pub, lines, k - 1);
      var before, after := ScanPrefix(c, pub, lines, k - 1).result, ScanPrefix(c, pub, lines, k).result;
      assert after.chainChecked <==> before.chainChecked || LinkVerified(c, lines, k);
      if after.chainChecked && !before.chainChecked {
        assert 0 < k <= k && LinkVerified(c, lines, k);
      }
    }
  }
}
