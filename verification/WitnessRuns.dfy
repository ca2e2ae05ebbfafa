/** Runs, step by step from the creation of a launch, on which a claim without its hypothesis fails. */
module WitnessRuns {
  import opened Prelude
  import opened Launches
  import opened Proposals
  import opened JoinRequests
  import opened VotingPower
  import opened InputSets
  import opened Rehearsals
  import opened Coordinator
  import opened Invariants
  import opened Steps
  import opened ClosureTheorems

  // ----- Building runs

  datatype Trace = Trace(states: seq<State>, xs: seq<Input>)

  ghost predicate Runs(cfg: Config, tr: Trace) {
    Run(cfg, tr.states, tr.xs)
  }

  ghost function Last(tr: Trace): State
    requires tr.states != []
  {
    tr.states[|tr.states| - 1]
  }

  /** The run with one more input. */
  ghost function Then(cfg: Config, tr: Trace, x: Input): Trace
    requires tr.states != []
  {
    Trace(tr.states + [Next(cfg, Last(tr), x)], tr.xs + [x])
  }

  /** tr2 continues tr1. */
  ghost predicate Continues(tr1: Trace, tr2: Trace) {
    tr1.states <= tr2.states && tr1.xs <= tr2.xs
  }

  lemma ThenRuns(cfg: Config, tr: Trace, x: Input)
    requires Runs(cfg, tr)
    ensures var out := Then(cfg, tr, x);
            && Runs(cfg, out) && Last(out) == Next(cfg, Last(tr), x) && Continues(tr, out)
            && Inv(cfg, Last(tr)) && Inv(cfg, Last(out))
  {
    var out := Then(cfg, tr, x);
    forall k | 0 <= k < |out.xs| ensures StepAt(cfg, out.states, out.xs, k) {
      if k < |tr.xs| {
        assert StepAt(cfg, tr.states, tr.xs, k);
      }
    }
    Reachable(cfg, tr.states, tr.xs, |tr.xs|);
    Reachable(cfg, out.states, out.xs, |out.xs|);
  }

  // ----- One member who decides alone

  const MEMBER: Account := "m"
  const SOLO := Committee([Member(MEMBER, "solo")], 1, 1, MEMBER)
  const FINE := Weather(Written, Written, Written, false)

  /** No gate, digests that are never empty, and a rounding that tells a quarter from a third. */
  ghost predicate Ordinary(cfg: Config) {
    && cfg.gate == GateOff
    && (forall i :: cfg.hashing.digest(i) != "")
    && cfg.round(25.0) < cfg.round(100.0 / 3.0)
  }

  ghost predicate Solo(s: State) {
    s.running && s.launch.committee == SOLO && forall id :: !IsPending(s.proposals, id)
  }

  ghost function SoloRow(a: Action, now: Time): ProposalRow {
    CheckQuorum(NewProposal(a, MEMBER, now), 1, now)
  }

  /** What the member's proposal is applied to. */
  ghost function Base(s: State): State {
    Logged(s.(nextProposal := s.nextProposal + 1), s.nextProposal)
  }

  /** t with the books of s: proposals, identifiers and log put back. */
  ghost function Unlogged(s: State, t: State): State {
    t.(proposals := s.proposals, nextProposal := s.nextProposal, audit := s.audit)
  }

  lemma {:induction false} DispatchKeepsRunning(s: State, id: nat, records: seq<AuditRecord>)
    ensures Dispatch(s, id, records, Written).running == s.running
    ensures Dispatch(s, id, records, Written).exits == s.exits
    decreases |records|
  {
    if records != [] {
      DispatchKeepsRunning(s.(audit := s.audit + [records[0]]), id, records[1..]);
    }
  }

  lemma SoloMember()
    ensures HasMember(SOLO, MEMBER)
  {
  }

  lemma SoloAllowed(cfg: Config, s: State, a: Action)
    requires Ordinary(cfg) && Solo(s) && ValidPayload(a)
    requires a.PublishFinalGenesis? ==> GenesisFresh(cfg, s)
    requires !a.CancelLaunch?
    ensures RaiseAllowed(cfg, s, MEMBER, a)
  {
    SoloMember();
  }

  lemma SoloExecutes(cfg: Config, s: State, a: Action, now: Time)
    requires Solo(s) && Apply(cfg, Base(s), s.nextProposal, SoloRow(a, now), now).Ok?
    ensures var t := EnterProposal(cfg, s, MEMBER, a, FINE, now);
            && SameData(Apply(cfg, Base(s), s.nextProposal, SoloRow(a, now), now).value, t)
            && t.running == Apply(cfg, Base(s), s.nextProposal, SoloRow(a, now), now).value.running
            && t.exits == Apply(cfg, Base(s), s.nextProposal, SoloRow(a, now), now).value.exits
  {
    var s1, id, p := s.(nextProposal := s.nextProposal + 1), s.nextProposal, SoloRow(a, now);
    RaiseOutcome(a, MEMBER, 1, now);
    ExecuteShape(cfg, s1, id, p, FINE, now);
    var done := Apply(cfg, Base(s), id, p, now).value;
    var events := ExecutionEvents(a) + RecordedEvents(a, s.launch.committee, done.launch.committee);
    DispatchKeepsRunning(done, id, Records(id, events));
  }

  /** A proposal of the sole member takes effect at once, and leaves nothing pending. */
  lemma SoloRaise(cfg: Config, s: State, a: Action, now: Time)
    requires Ordinary(cfg) && Solo(s) && Inv(cfg, s) && ValidPayload(a)
    requires a.PublishFinalGenesis? ==> GenesisFresh(cfg, s)
    requires !a.CancelLaunch? && !Resizes(a)
    requires Apply(cfg, Base(s), s.nextProposal, SoloRow(a, now), now).Ok?
    ensures var t := Next(cfg, s, Raise(MEMBER, a, FINE, now));
            var done := Apply(cfg, Base(s), s.nextProposal, SoloRow(a, now), now).value;
            && SameData(done, t) && t.running == done.running && t.exits == done.exits
            && (forall id :: !IsPending(t.proposals, id))
  {
    SoloAllowed(cfg, s, a);
    SoloExecutes(cfg, s, a, now);
    RaiseOutcome(a, MEMBER, 1, now);
    ApplyFrame(cfg, Base(s), s.nextProposal, SoloRow(a, now), now);
    var t := Next(cfg, s, Raise(MEMBER, a, FINE, now));
    assert t.proposals == s.proposals[s.nextProposal := SoloRow(a, now)];
    forall id ensures !IsPending(t.proposals, id) {
      assert !IsPending(s.proposals, id);
    }
  }

  // ----- The member's proposals, one by one

  lemma SoloApprove(cfg: Config, s: State, i: nat, now: Time)
    requires Ordinary(cfg) && Solo(s) && Inv(cfg, s)
    requires i < |s.requests| && s.requests[i].status == Pending && s.requests[i].operator != ""
    ensures var t := Next(cfg, s, Raise(MEMBER, ApproveValidator(i, s.requests[i].operator), FINE, now));
            && Solo(t)
            && Unlogged(s, t) == s.(requests := s.requests[i := Approve(s.requests[i], s.nextProposal).value])
  {
    var a := ApproveValidator(i, s.requests[i].operator);
    var p := SoloRow(a, now);
    assert Apply(cfg, Base(s), s.nextProposal, p, now) == ApplyApprove(Base(s), s.nextProposal, p);
    SoloRaise(cfg, s, a, now);
  }

  lemma SoloRemove(cfg: Config, s: State, i: nat, now: Time)
    requires Ordinary(cfg) && Solo(s) && Inv(cfg, s) && s.launch.status == WindowClosed
    requires i < |s.requests| && s.requests[i].status == Approved
    ensures var t := Next(cfg, s, Raise(MEMBER, RemoveApprovedValidator(i, s.requests[i].operator, ""), FINE, now));
            && Solo(t)
            && Unlogged(s, t) == s.(requests := s.requests[i := Revoke(s.requests[i], "").value])
  {
    var a := RemoveApprovedValidator(i, s.requests[i].operator, "");
    var p := SoloRow(a, now);
    assert Apply(cfg, Base(s), s.nextProposal, p, now) == ApplyRemove(Base(s), s.nextProposal, p);
    SoloRaise(cfg, s, a, now);
  }

  lemma SoloClose(cfg: Config, s: State, now: Time)
    requires Ordinary(cfg) && Solo(s) && Inv(cfg, s) && s.launch.status == WindowOpen
    requires |ApprovedRows(s.requests)| >= s.launch.record.minValidatorCount
    requires !Dominated(cfg.round, PowersOf(ApprovedRows(s.requests)))
    ensures var t := Next(cfg, s, Raise(MEMBER, CloseApplicationWindow, FINE, now));
            && Solo(t)
            && Unlogged(s, t) == s.(launch := s.launch.(status := WindowClosed),
                                    requests := ExpirePending(s.requests, PENDING_PAGE))
  {
    var p := SoloRow(CloseApplicationWindow, now);
    assert Apply(cfg, Base(s), s.nextProposal, p, now) == ApplyClose(cfg, Base(s), s.nextProposal, p);
    SoloRaise(cfg, s, CloseApplicationWindow, now);
  }

  lemma SoloPublish(cfg: Config, s: State, now: Time)
    requires Ordinary(cfg) && Solo(s) && Inv(cfg, s) && s.launch.status == WindowClosed
    requires GenesisFresh(cfg, s) && IsSha256Hex(s.launch.finalGenesisSha256)
    ensures var t := Next(cfg, s, Raise(MEMBER, PublishFinalGenesis(s.launch.finalGenesisSha256), FINE, now));
            Solo(t) && Unlogged(s, t) == s.(launch := s.launch.(status := GenesisReady))
  {
    var a := PublishFinalGenesis(s.launch.finalGenesisSha256);
    var p := SoloRow(a, now);
    assert GenesisFresh(cfg, Base(s));
    assert Apply(cfg, Base(s), s.nextProposal, p, now) == ApplyPublishGenesis(cfg, Base(s), s.nextProposal, p);
    SoloRaise(cfg, s, a, now);
  }

  lemma SoloUpdateTime(cfg: Config, s: State, to: Time, now: Time)
    requires Ordinary(cfg) && Solo(s) && Inv(cfg, s) && s.launch.status == GenesisReady && to != 0
    ensures var t := Next(cfg, s, Raise(MEMBER, UpdateGenesisTime(to, 0), FINE, now));
            && Solo(t)
            && Unlogged(s, t) == s.(launch := s.launch.(record := s.launch.record.(genesisTime := Some(to))),
                                    readiness := Invalidate(s.readiness, now))
  {
    var a := UpdateGenesisTime(to, 0);
    var p := SoloRow(a, now);
    assert Apply(cfg, Base(s), s.nextProposal, p, now) == ApplyUpdateTime(Base(s), s.nextProposal, p, now);
    SoloRaise(cfg, s, a, now);
  }

  // ----- A launch with its window open

  function Digits(n: nat): (s: string)
    ensures |s| == n && forall i :: 0 <= i < n ==> s[i] == '0'
  {
    if n == 0 then "" else Digits(n - 1) + "0"
  }

  const HEX: Hash := Digits(64)
  const DEADLINE: Time := 100

  const RECORD := ChainRecord("c", "cosmos", "stake", "", "", "0", "0", 4, None, "chaind", "", "", "", "", DEADLINE)

  ghost function Created(): State {
    State(LaunchRow(RECORD, Draft, SOLO, "", "", "", [], ""), [], map[], 0, [], [], [], FinalStore(None, None), [], {}, true)
  }

  /** The i-th validator goes by a name of its own, for operator, submitter and key alike. */
  function Name(i: nat): (name: string)
    ensures |name| == i + 1
  {
    if i == 0 then "v" else Name(i - 1) + "v"
  }

  ghost predicate Plain(s: State, status: Status) {
    && Solo(s)
    && s.launch == LaunchRow(RECORD, status, SOLO, HEX, "", "", [], "")
    && s.store == FinalStore(None, None) && s.readiness == []
  }

  /** Row i is the i-th validator's, in the given status. */
  ghost predicate IsRow(cfg: Config, r: JoinRow, i: nat, status: JoinStatus) {
    && r.operator == r.submitter == r.consensusKey == Name(i)
    && r.selfDelegation == StakeOf(cfg, "g")
    && r.status == status
  }

  /** n validators approved, m more pending. */
  ghost predicate Applied(cfg: Config, rows: seq<JoinRow>, n: nat, m: nat) {
    && |rows| == n + m
    && forall i :: 0 <= i < |rows| ==> IsRow(cfg, rows[i], i, if i < n then Approved else Pending)
  }

  ghost predicate Open(cfg: Config, s: State, n: nat, m: nat) {
    Plain(s, WindowOpen) && Applied(cfg, s.requests, n, m)
  }

  lemma Opened(cfg: Config) returns (tr: Trace)
    ensures Runs(cfg, tr) && Open(cfg, Last(tr), 0, 0)
  {
    SoloMember();
    assert IsSha256Hex(HEX);
    tr := Trace([Created()], []);
    ThenRuns(cfg, tr, UploadInitial(MEMBER, HEX));
    tr := Then(cfg, tr, UploadInitial(MEMBER, HEX));
    ThenRuns(cfg, tr, OpenApplications(MEMBER));
    tr := Then(cfg, tr, OpenApplications(MEMBER));
  }

  lemma {:induction false} NoSubmitter(rows: seq<JoinRow>, a: Account)
    requires forall i :: 0 <= i < |rows| ==> rows[i].submitter != a
    ensures SubmitterCount(rows, a) == 0
  {
    if rows != [] {
      NoSubmitter(rows[1..], a);
    }
  }

  lemma SubmitAdds(cfg: Config, s: State, n: nat, m: nat)
    requires Open(cfg, s, n, m)
    ensures var name := Name(n + m);
            Open(cfg, SubmitStep(cfg, s, name, name, name, "g", true, 0), n, m + 1)
  {
    var name := Name(n + m);
    forall i | 0 <= i < |s.requests|
      ensures s.requests[i].operator != name && s.requests[i].submitter != name && s.requests[i].consensusKey != name
    {
      assert IsRow(cfg, s.requests[i], i, if i < n then Approved else Pending);
    }
    NoSubmitter(s.requests, name);
    var rows := s.requests + [NewRequest(name, name, name, "g", StakeOf(cfg, "g"))];
    assert SubmitStep(cfg, s, name, name, name, "g", true, 0) == s.(requests := rows);
    forall i | 0 <= i < |rows| ensures IsRow(cfg, rows[i], i, if i < n then Approved else Pending) {
      if i < |s.requests| {
        assert IsRow(cfg, s.requests[i], i, if i < n then Approved else Pending);
      }
    }
  }

  /** The next validator submits. */
  lemma SubmitNext(cfg: Config, tr: Trace, n: nat, m: nat) returns (out: Trace)
    requires Runs(cfg, tr) && Open(cfg, Last(tr), n, m)
    ensures Runs(cfg, out) && Continues(tr, out) && Open(cfg, Last(out), n, m + 1)
  {
    var name := Name(n + m);
    var x := Submit(name, name, name, "g", true, 0);
    SubmitAdds(cfg, Last(tr), n, m);
    ThenRuns(cfg, tr, x);
    out := Then(cfg, tr, x);
  }

  /** The member approves the one pending request. */
  lemma ApproveNext(cfg: Config, tr: Trace, n: nat) returns (out: Trace)
    requires Ordinary(cfg) && Runs(cfg, tr) && Open(cfg, Last(tr), n, 1)
    ensures Runs(cfg, out) && Continues(tr, out) && Open(cfg, Last(out), n + 1, 0)
  {
    var s := Last(tr);
    assert IsRow(cfg, s.requests[n], n, Pending);
    var x := Raise(MEMBER, ApproveValidator(n, s.requests[n].operator), FINE, 0);
    ThenRuns(cfg, tr, x);
    SoloApprove(cfg, s, n, 0);
    out := Then(cfg, tr, x);
    forall i | 0 <= i < n + 1 ensures IsRow(cfg, Last(out).requests[i], i, Approved) {
      assert IsRow(cfg, s.requests[i], i, if i < n then Approved else Pending);
    }
  }

  lemma {:induction false} Admitted(cfg: Config, n: nat) returns (tr: Trace)
    requires Ordinary(cfg)
    ensures Runs(cfg, tr) && Open(cfg, Last(tr), n, 0)
    decreases n
  {
    if n == 0 {
      tr := Opened(cfg);
    } else {
      tr := Admitted(cfg, n - 1);
      tr := SubmitNext(cfg, tr, n - 1, 0);
      tr := ApproveNext(cfg, tr, n - 1);
    }
  }

  lemma {:induction false} Waiting(cfg: Config, n: nat, m: nat) returns (tr: Trace)
    requires Ordinary(cfg)
    ensures Runs(cfg, tr) && Open(cfg, Last(tr), n, m)
    decreases m
  {
    if m == 0 {
      tr := Admitted(cfg, n);
    } else {
      tr := Waiting(cfg, n, m - 1);
      tr := SubmitNext(cfg, tr, n, m - 1);
    }
  }

  // ----- Closing it

  lemma {:induction false} AllApproved(rows: seq<JoinRow>)
    requires forall i :: 0 <= i < |rows| ==> rows[i].status == Approved
    ensures ApprovedRows(rows) == rows
  {
    if rows != [] {
      AllApproved(rows[1..]);
    }
  }

  lemma {:induction false} NoneApproved(rows: seq<JoinRow>)
    requires forall i :: 0 <= i < |rows| ==> rows[i].status != Approved
    ensures ApprovedRows(rows) == []
  {
    if rows != [] {
      NoneApproved(rows[1..]);
    }
  }

  lemma AppliedApproved(cfg: Config, rows: seq<JoinRow>, n: nat, m: nat)
    requires Applied(cfg, rows, n, m)
    ensures ApprovedRows(rows) == rows[..n]
  {
    var front, back := rows[..n], rows[n..];
    forall i | 0 <= i < |front| ensures front[i].status == Approved {
      assert IsRow(cfg, rows[i], i, Approved);
    }
    forall i | 0 <= i < |back| ensures back[i].status != Approved {
      assert IsRow(cfg, rows[n + i], n + i, Pending);
    }
    AllApproved(front);
    NoneApproved(back);
    ApprovedAppend(front, back);
    assert rows == front + back;
  }

  lemma {:induction false} EqualStakes(rows: seq<JoinRow>, w: nat)
    requires forall i :: 0 <= i < |rows| ==> rows[i].selfDelegation == w
    ensures TotalDelegation(rows) == |rows| * w
  {
    if rows != [] {
      EqualStakes(rows[..|rows| - 1], w);
      assert |rows| * w == (|rows| - 1) * w + w;
    }
  }

  lemma Quarter(w: nat)
    requires w > 0
    ensures w as real * 100.0 / (4 * w) as real == 25.0
  {
    var x := w as real;
    assert (4 * w) as real == 4.0 * x;
    DivideBack(x * 100.0, 4.0 * x);
    ScaleEqual(x * 100.0 / (4.0 * x), 25.0, 4.0 * x);
  }

  lemma ScaleEqual(x: real, y: real, t: real)
    requires t > 0.0 && x * t == y * t
    ensures x == y
  {
    ScaleOrder(x, y, t);
    ScaleOrder(y, x, t);
  }

  /** Four validators of equal stake hold a quarter each. */
  lemma FourAreBalanced(cfg: Config, approved: seq<JoinRow>, w: nat)
    requires Ordinary(cfg) && |approved| == 4 && DistinctOperators(approved) && w > 0
    requires forall i :: 0 <= i < 4 ==> approved[i].selfDelegation == w
    ensures !Dominated(cfg.round, PowersOf(approved))
  {
    var p := PowersOf(approved);
    PowersEntries(approved);
    PowersTotal(approved);
    EqualStakes(approved, w);
    assert approved[0].operator in p.Keys;
    Quarter(w);
    assert Max(p.Keys, p) == w;
  }

  lemma AppliedBalanced(cfg: Config, rows: seq<JoinRow>, m: nat)
    requires Ordinary(cfg) && StakeOf(cfg, "g") > 0 && Applied(cfg, rows, 4, m) && ActiveUnique(rows)
    ensures |ApprovedRows(rows)| == 4 && !Dominated(cfg.round, PowersOf(ApprovedRows(rows)))
  {
    AppliedApproved(cfg, rows, 4, m);
    ApprovedDistinct(rows);
    forall i | 0 <= i < 4 ensures rows[..4][i].selfDelegation == StakeOf(cfg, "g") {
      assert IsRow(cfg, rows[i], i, Approved);
    }
    FourAreBalanced(cfg, rows[..4], StakeOf(cfg, "g"));
  }

  /** Closes over four approved validators and whatever is pending. */
  lemma Close(cfg: Config, tr: Trace, m: nat) returns (out: Trace)
    requires Ordinary(cfg) && StakeOf(cfg, "g") > 0 && Runs(cfg, tr) && Open(cfg, Last(tr), 4, m)
    ensures Runs(cfg, out) && Continues(tr, out) && Plain(Last(out), WindowClosed)
    ensures Last(out).requests == ExpirePending(Last(tr).requests, PENDING_PAGE)
  {
    var x := Raise(MEMBER, CloseApplicationWindow, FINE, 0);
    ThenRuns(cfg, tr, x);
    AppliedBalanced(cfg, Last(tr).requests, m);
    SoloClose(cfg, Last(tr), 0);
    out := Then(cfg, tr, x);
  }

  // ----- A request left over by an oversized backlog

  lemma {:induction false} AllPending(rows: seq<JoinRow>)
    requires forall i :: 0 <= i < |rows| ==> rows[i].status == Pending
    ensures PendingCount(rows) == |rows|
  {
    if rows != [] {
      AllPending(rows[1..]);
    }
  }

  lemma {:induction false} PendingTail(rows: seq<JoinRow>, n: nat)
    requires n <= |rows|
    ensures PendingCount(rows) >= PendingCount(rows[n..])
  {
    if n > 0 {
      PendingTail(rows[1..], n - 1);
      assert rows[1..][n - 1..] == rows[n..];
    }
  }

  /** A close over one request more than its page leaves a pending one. */
  lemma LeftoverExists(cfg: Config, rows: seq<JoinRow>) returns (i: nat)
    requires Applied(cfg, rows, 4, PENDING_PAGE + 1)
    ensures i < |rows| && ExpirePending(rows, PENDING_PAGE)[i].status == Pending
    ensures ExpirePending(rows, PENDING_PAGE)[i].operator == Name(i)
  {
    forall j | 0 <= j < |rows[4..]| ensures rows[4..][j].status == Pending {
      assert IsRow(cfg, rows[4 + j], 4 + j, Pending);
    }
    AllPending(rows[4..]);
    PendingTail(rows, 4);
    ExpirePendingLeaves(rows, PENDING_PAGE);
    var out := ExpirePending(rows, PENDING_PAGE);
    var r :| r in out && r.status == Pending;
    i :| 0 <= i < |out| && out[i] == r;
    assert IsRow(cfg, rows[i], i, if i < 4 then Approved else Pending);
  }

  lemma ApproveGrows(cfg: Config, tr: Trace, i: nat) returns (out: Trace)
    requires Ordinary(cfg) && Runs(cfg, tr) && Plain(Last(tr), WindowClosed)
    requires i < |Last(tr).requests| && Last(tr).requests[i].status == Pending && Last(tr).requests[i].operator != ""
    ensures Runs(cfg, out) && Continues(tr, out) && |out.xs| == |tr.xs| + 1
    ensures Last(out).launch.status == WindowClosed
    ensures ApprovedIds(Last(tr).requests) < ApprovedIds(Last(out).requests)
  {
    var s := Last(tr);
    var x := Raise(MEMBER, ApproveValidator(i, s.requests[i].operator), FINE, 0);
    ThenRuns(cfg, tr, x);
    SoloApprove(cfg, s, i, 0);
    out := Then(cfg, tr, x);
    assert i in ApprovedIds(Last(out).requests) && i !in ApprovedIds(s.requests);
  }

  /**
   * One request more than the page: the close leaves a request pending, and the committee approves it with the
   * window closed, so the approved set grows after the close.
   */
  lemma LeftoverIsApproved(cfg: Config) returns (tr: Trace, k: nat)
    requires Ordinary(cfg) && StakeOf(cfg, "g") > 0
    ensures Runs(cfg, tr) && k < |tr.xs|
    ensures tr.states[k].launch.status == tr.states[k + 1].launch.status == WindowClosed
    ensures ApprovedIds(tr.states[k].requests) < ApprovedIds(tr.states[k + 1].requests)
  {
    tr := Waiting(cfg, 4, PENDING_PAGE + 1);
    var i := LeftoverExists(cfg, Last(tr).requests);
    tr := Close(cfg, tr, PENDING_PAGE + 1);
    k := |tr.xs|;
    tr := ApproveGrows(cfg, tr, i);
  }
}
