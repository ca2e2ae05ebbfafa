/** The trail of governance records and the log file that carries it, put together. */
module AuditedRuns {
  import opened Prelude
  import opened Proposals
  import opened AuditLog
  import opened AuditLogTheorems
  import opened Coordinator
  import opened QuorumTheorems
  import opened AuditTrailTheorems

  /** How an audit entry is read as a governance record of this launch; other entries are none. */
  type Reader = AuditEvent -> Option<AuditRecord>

  /** The link and the signature are no part of what an entry says. */
  ghost predicate ReadsContent(read: Reader) {
    forall e: AuditEvent, h: Hash, sig: string :: read(e.(prevHash := h, signature := sig)) == read(e)
  }

  ghost function RecordIn(c: Codec, read: Reader, line: string): Option<AuditRecord> {
    match c.unmarshal(line)
    case None => None
    case Some(e) => read(e)
  }

  /** The governance records of a file, in order. */
  ghost function Governance(c: Codec, read: Reader, lines: seq<string>): seq<AuditRecord> {
    if lines == [] then []
    else
      var n := |lines| - 1;
      var r := RecordIn(c, read, lines[n]);
      Governance(c, read, lines[..n]) + if r.Some? then [r.value] else []
  }

  /** The file carries the trail. */
  ghost predicate Mirrors(c: Codec, read: Reader, w: LogState, trail: seq<AuditRecord>) {
    Governance(c, read, w.file) == trail
  }

  function AppendOutcomeOf(o: WriteOutcome): AppendOutcome {
    match o
    case Written => AppendOk
    case Lost => WriteFails
    case WrittenThenFailed => TipFails
  }

  /** A governance write is an append of the same outcome, so the file goes on carrying the trail. */
  lemma WriteIsAppend(c: Codec, key: Option<string>, read: Reader, w: LogState, s: State, e: AuditEvent, r: AuditRecord,
                      outcome: WriteOutcome)
    requires Faithful(c) && ReadsContent(read) && w.up && read(e) == Some(r) && Mirrors(c, read, w, s.audit)
    ensures Mirrors(c, read, AppendLine(c, key, w, e, AppendOutcomeOf(outcome)), LogIf(s, r, outcome).audit)
  {
    var sealed := Seal(c, key, w.prevHash, e);
    assert sealed == e.(prevHash := w.prevHash, signature := sealed.signature);
    assert read(sealed) == Some(r);
    var line := c.marshal(sealed);
    assert (w.file + [line])[..|w.file|] == w.file;
  }

  // ----- From records back to lines

  lemma {:induction false} LineOf(c: Codec, read: Reader, lines: seq<string>, i: nat) returns (p: nat)
    requires i < |Governance(c, read, lines)|
    ensures p < |lines| && RecordIn(c, read, lines[p]) == Some(Governance(c, read, lines)[i])
    decreases |lines|
  {
    var n := |lines| - 1;
    if i < |Governance(c, read, lines[..n])| {
      p := LineOf(c, read, lines[..n], i);
    } else {
      p := n;
    }
  }

  lemma {:induction false} LinesOf(c: Codec, read: Reader, lines: seq<string>, i: nat, j: nat) returns (p: nat, q: nat)
    requires i < j < |Governance(c, read, lines)|
    ensures p < q < |lines|
    ensures RecordIn(c, read, lines[p]) == Some(Governance(c, read, lines)[i])
    ensures RecordIn(c, read, lines[q]) == Some(Governance(c, read, lines)[j])
    decreases |lines|
  {
    var n := |lines| - 1;
    var front := Governance(c, read, lines[..n]);
    if j < |front| {
      p, q := LinesOf(c, read, lines[..n], i, j);
    } else {
      p := LineOf(c, read, lines[..n], i);
      q := n;
    }
  }

  lemma {:induction false} CompletionIndex(log: seq<AuditRecord>, id: nat) returns (j: nat)
    requires CompletionCount(log, id) >= 1
    ensures j < |log| && log[j].Completion? && log[j].proposal == id
  {
    var n := |log| - 1;
    if log[n].Completion? && log[n].proposal == id {
      j := n;
    } else {
      j := CompletionIndex(log[..n], id);
    }
  }

  lemma InTail(lines: seq<string>, tail: seq<string>, p: nat)
    requires EndsWith(lines, tail) && p < |tail|
    ensures lines[|lines| - |tail| + p] == tail[p]
  {
    assert lines[|lines| - |tail|..][p] == tail[p];
  }

  /** The intent of this proposal stands in the file, and its completion after it. */
  ghost predicate TellsExecution(c: Codec, read: Reader, lines: seq<string>, id: nat, a: Action) {
    exists p, q :: 0 <= p < q < |lines| && RecordIn(c, read, lines[p]) == Some(Intent(id))
      && CompletionIn(RecordIn(c, read, lines[q]), id, a)
  }

  ghost predicate CompletionIn(r: Option<AuditRecord>, id: nat, a: Action) {
    r.Some? && r.value.Completion? && r.value.proposal == id && Reports(r.value.event, a)
  }

  ghost predicate TellsIntent(c: Codec, read: Reader, lines: seq<string>, id: nat) {
    exists p :: 0 <= p < |lines| && RecordIn(c, read, lines[p]) == Some(Intent(id))
  }

  /** A complete trail, read from the file that carries it. */
  lemma FileTells(c: Codec, read: Reader, file: seq<string>, s: State, id: nat)
    requires AuditInv(s) && Governance(c, read, file) == s.audit && IsExecuted(s, id)
    ensures TellsIntent(c, read, file, id)
    ensures id !in s.exits ==> TellsExecution(c, read, file, id, s.proposals[id].action)
  {
    var i :| 0 <= i < |s.audit| && s.audit[i] == Intent(id);
    var p := LineOf(c, read, file, i);
    if id !in s.exits {
      var n := CompletionIndex(s.audit, id);
      assert CompletionAt(s, n);
      var m :| 0 <= m < n && s.audit[m] == Intent(id);
      var a, b := LinesOf(c, read, file, m, n);
      assert CompletionIn(RecordIn(c, read, file[b]), id, s.proposals[id].action);
    }
  }

  /** A longer file with this end tells as much. */
  lemma TailTells(c: Codec, read: Reader, lines: seq<string>, tail: seq<string>, id: nat, a: Action)
    requires EndsWith(lines, tail)
    ensures TellsIntent(c, read, tail, id) ==> TellsIntent(c, read, lines, id)
    ensures TellsExecution(c, read, tail, id, a) ==> TellsExecution(c, read, lines, id, a)
  {
    var shift := |lines| - |tail|;
    forall p | 0 <= p < |tail| ensures lines[shift + p] == tail[p] {
      InTail(lines, tail, p);
    }
    if TellsIntent(c, read, tail, id) {
      var p :| 0 <= p < |tail| && RecordIn(c, read, tail[p]) == Some(Intent(id));
      assert RecordIn(c, read, lines[shift + p]) == Some(Intent(id));
    }
    if TellsExecution(c, read, tail, id, a) {
      var p, q :| 0 <= p < q < |tail| && RecordIn(c, read, tail[p]) == Some(Intent(id))
                  && CompletionIn(RecordIn(c, read, tail[q]), id, a);
      assert RecordIn(c, read, lines[shift + p]) == Some(Intent(id));
      assert CompletionIn(RecordIn(c, read, lines[shift + q]), id, a);
    }
  }

  /**
   * Whatever became of the file since: if it scans clean and passes against the stored tip, it tells of every
   * executed proposal its intent and, unless the process stopped over it, a completion that reports it, in this order.
   */
  lemma TrailSurvives(cfg: Config, states: seq<State>, xs: seq<Input>, k: nat, c: Codec, key: Option<string>,
                      ws: seq<LogState>, ys: seq<LogInput>, j: nat, read: Reader, found: seq<string>, id: nat)
    requires Run(cfg, states, xs) && k <= |xs| && LogRun(c, key, ws, ys) && j <= |ys|
    requires Faithful(c) && AuditLog.CollisionFree(c) && Mirrors(c, read, ws[j], states[k].audit) && Anchored(c, ws[j])
    requires Passes(c, PublicKeyOf(c, key), found, ws[j].tip)
    requires IsExecuted(states[k], id)
    ensures TellsIntent(c, read, Kept(found), id)
    ensures id !in states[k].exits ==> TellsExecution(c, read, Kept(found), id, states[k].proposals[id].action)
  {
    TrailIsComplete(cfg, states, xs, k);
    DetectsEveryLossIff(c, key, ws, ys, j);
    FileTells(c, read, ws[j].file, states[k], id);
    TailTells(c, read, Kept(found), ws[j].file, id, states[k].proposals[id].action);
  }
}
