/** The join-request aggregate and the queries its store answers (internal/domain/joinrequest, sqlite/joinrequest.go). */
module JoinRequests {
  import opened Prelude
  import opened VotingPower

  datatype JoinStatus = Pending | Approved | Rejected | ExpiredRequest

  /** A request's identifier is its position in the append-only store. */
  datatype JoinRow = JoinRow(
    operator: Account, submitter: Account, consensusKey: string, gentx: string, selfDelegation: nat,
    status: JoinStatus, rejectionReason: string, approvedBy: Option<nat>)

  datatype JoinError = InvalidStatus

  function NewRequest(operator: Account, submitter: Account, key: string, gentx: string, power: nat): JoinRow {
    JoinRow(operator, submitter, key, gentx, power, Pending, "", None)
  }

  function Approve(r: JoinRow, proposal: nat): Result<JoinRow, JoinError> {
    if r.status != Pending then Err(InvalidStatus)
    else Ok(r.(status := Approved, approvedBy := Some(proposal)))
  }

  function Reject(r: JoinRow, reason: string): Result<JoinRow, JoinError> {
    if r.status != Pending then Err(InvalidStatus)
    else Ok(r.(status := Rejected, rejectionReason := reason))
  }

  function Expire(r: JoinRow): Result<JoinRow, JoinError> {
    if r.status != Pending then Err(InvalidStatus)
    else Ok(r.(status := ExpiredRequest))
  }

  function Revoke(r: JoinRow, reason: string): Result<JoinRow, JoinError> {
    if r.status != Approved then Err(InvalidStatus)
    else Ok(r.(status := Rejected, rejectionReason := reason, approvedBy := None))
  }

  predicate Active(r: JoinRow) {
    r.status == Pending || r.status == Approved
  }

  /** At most one active request per validator and per consensus key. */
  ghost predicate ActiveUnique(rows: seq<JoinRow>) {
    forall i, j :: 0 <= i < j < |rows| && Active(rows[i]) && Active(rows[j]) ==>
      rows[i].operator != rows[j].operator && rows[i].consensusKey != rows[j].consensusKey
  }

  ghost predicate NonePending(rows: seq<JoinRow>) {
    forall r :: r in rows ==> r.status != Pending
  }

  // ----- Queries

  function ApprovedRows(rows: seq<JoinRow>): seq<JoinRow> {
    if rows == [] then []
    else (if rows[0].status == Approved then [rows[0]] else []) + ApprovedRows(rows[1..])
  }

  function ApprovedIds(rows: seq<JoinRow>): set<nat> {
    set i: nat | i < |rows| && rows[i].status == Approved
  }

  function PendingCount(rows: seq<JoinRow>): nat {
    if rows == [] then 0
    else (if rows[0].status == Pending then 1 else 0) + PendingCount(rows[1..])
  }

  function SubmitterCount(rows: seq<JoinRow>, a: Account): nat {
    if rows == [] then 0
    else (if rows[0].submitter == a then 1 else 0) + SubmitterCount(rows[1..], a)
  }

  /** The newest active request of a validator, or the number of rows. */
  function ActiveIndex(rows: seq<JoinRow>, operator: Account): (i: nat)
    ensures i <= |rows|
    ensures i < |rows| ==> Active(rows[i]) && rows[i].operator == operator
    ensures forall j :: i < j < |rows| && Active(rows[j]) ==> rows[j].operator != operator
    ensures i == |rows| ==> forall j :: 0 <= j < |rows| && Active(rows[j]) ==> rows[j].operator != operator
  {
    if rows == [] then 0
    else
      var last := |rows| - 1;
      var r := rows[last];
      if Active(r) && r.operator == operator then last
      else
        var i := ActiveIndex(rows[..last], operator);
        if i < last then i else |rows|
  }

  /** The newest request of a validator in any status, or the number of rows. */
  function NewestIndex(rows: seq<JoinRow>, operator: Account): (i: nat)
    ensures i <= |rows|
    ensures i < |rows| ==> rows[i].operator == operator
    ensures forall j :: i < j < |rows| ==> rows[j].operator != operator
    ensures i == |rows| ==> forall j :: 0 <= j < |rows| ==> rows[j].operator != operator
  {
    if rows == [] then 0
    else
      var last := |rows| - 1;
      if rows[last].operator == operator then last
      else
        var i := NewestIndex(rows[..last], operator);
        if i < last then i else |rows|
  }

  predicate KeyInUse(rows: seq<JoinRow>, key: string) {
    exists i | 0 <= i < |rows| :: Active(rows[i]) && rows[i].consensusKey == key
  }

  /** Expires the newest `budget` pending requests, as the window close does. */
  function ExpirePending(rows: seq<JoinRow>, budget: nat): (out: seq<JoinRow>)
    ensures |out| == |rows|
    ensures forall i :: 0 <= i < |rows| ==>
              out[i] == rows[i] || (rows[i].status == Pending && out[i] == rows[i].(status := ExpiredRequest))
  {
    if rows == [] then []
    else
      var last := |rows| - 1;
      var r := rows[last];
      if r.status == Pending && budget > 0
      then ExpirePending(rows[..last], budget - 1) + [r.(status := ExpiredRequest)]
      else ExpirePending(rows[..last], budget) + [r]
  }

  // ----- Facts about the queries

  lemma {:induction false} PendingCountAppend(rows: seq<JoinRow>, r: JoinRow)
    ensures PendingCount(rows + [r]) == PendingCount(rows) + if r.status == Pending then 1 else 0
  {
    if rows == [] {
      assert rows + [r] == [r];
      assert [r][1..] == [];
    } else {
      assert (rows + [r])[1..] == rows[1..] + [r];
      PendingCountAppend(rows[1..], r);
    }
  }

  lemma {:induction false} PendingCountZero(rows: seq<JoinRow>)
    ensures PendingCount(rows) == 0 <==> NonePending(rows)
  {
    if rows != [] {
      PendingCountZero(rows[1..]);
      assert rows == [rows[0]] + rows[1..];
      assert rows[0] in rows;
      assert forall r :: r in rows[1..] ==> r in rows;
    }
  }

  lemma ExpireLast(rows: seq<JoinRow>, i: nat, budget: nat)
    requires i < |rows|
    ensures var r := rows[i];
            ExpirePending(rows[..i + 1], budget)
            == if r.status == Pending && budget > 0
               then ExpirePending(rows[..i], budget - 1) + [r.(status := ExpiredRequest)]
               else ExpirePending(rows[..i], budget) + [r]
  {
    assert rows[..i + 1][..i] == rows[..i];
  }

  /** The close expires as many pending requests as its page holds, so none is left iff the backlog fits the page. */
  lemma {:induction false} ExpirePendingLeaves(rows: seq<JoinRow>, budget: nat)
    ensures PendingCount(ExpirePending(rows, budget))
            == if PendingCount(rows) <= budget then 0 else PendingCount(rows) - budget
    ensures NonePending(ExpirePending(rows, budget)) <==> PendingCount(rows) <= budget
  {
    if rows != [] {
      var last := |rows| - 1;
      var front, r := rows[..last], rows[last];
      assert rows == front + [r];
      PendingCountAppend(front, r);
      if r.status == Pending && budget > 0 {
        ExpirePendingLeaves(front, budget - 1);
        PendingCountAppend(ExpirePending(front, budget - 1), r.(status := ExpiredRequest));
      } else {
        ExpirePendingLeaves(front, budget);
        PendingCountAppend(ExpirePending(front, budget), r);
      }
    }
    PendingCountZero(ExpirePending(rows, budget));
  }

  lemma {:induction false} ApprovedAppend(a: seq<JoinRow>, b: seq<JoinRow>)
    ensures ApprovedRows(a + b) == ApprovedRows(a) + ApprovedRows(b)
  {
    if a == [] {
      assert a + b == b;
    } else {
      var head := if a[0].status == Approved then [a[0]] else [];
      assert (a + b)[0] == a[0] && (a + b)[1..] == a[1..] + b;
      ApprovedAppend(a[1..], b);
      assert head + (ApprovedRows(a[1..]) + ApprovedRows(b)) == head + ApprovedRows(a[1..]) + ApprovedRows(b);
    }
  }

  lemma {:induction false} ApprovedMembers(rows: seq<JoinRow>, r: JoinRow)
    ensures r in ApprovedRows(rows) <==> r in rows && r.status == Approved
  {
    if rows != [] {
      ApprovedMembers(rows[1..], r);
      assert rows == [rows[0]] + rows[1..];
    }
  }

  lemma ActiveUniqueTail(rows: seq<JoinRow>)
    requires ActiveUnique(rows) && rows != []
    ensures ActiveUnique(rows[1..])
    ensures rows[0].status == Approved ==>
              forall r :: r in ApprovedRows(rows[1..]) ==>
                r.operator != rows[0].operator && r.consensusKey != rows[0].consensusKey
  {
    if rows[0].status == Approved {
      forall r | r in ApprovedRows(rows[1..])
        ensures r.operator != rows[0].operator && r.consensusKey != rows[0].consensusKey
      {
        ApprovedMembers(rows[1..], r);
        var k :| 0 <= k < |rows[1..]| && rows[1..][k] == r;
        assert rows[k + 1] == r;
      }
    }
  }

  ghost predicate DistinctOperators(rows: seq<JoinRow>) {
    forall i, j :: 0 <= i < j < |rows| ==> rows[i].operator != rows[j].operator
  }

  ghost predicate DistinctKeys(rows: seq<JoinRow>) {
    forall i, j :: 0 <= i < j < |rows| ==> rows[i].consensusKey != rows[j].consensusKey
  }

  /** Approved requests have distinct operators and distinct consensus keys. */
  lemma {:induction false} ApprovedDistinct(rows: seq<JoinRow>)
    requires ActiveUnique(rows)
    ensures DistinctOperators(ApprovedRows(rows)) && DistinctKeys(ApprovedRows(rows))
  {
    if rows != [] {
      ActiveUniqueTail(rows);
      ApprovedDistinct(rows[1..]);
      var rest := ApprovedRows(rows[1..]);
      assert forall i :: 0 <= i < |rest| ==> rest[i] in rest;
    }
  }

  // ----- Voting powers of the approved requests

  /** What hydrating a launch loads: operator to self-delegation over the approved rows. */
  function PowersOf(approved: seq<JoinRow>): Powers {
    if approved == [] then map[]
    else PowersOf(approved[..|approved| - 1])
           [approved[|approved| - 1].operator := approved[|approved| - 1].selfDelegation]
  }

  ghost function TotalDelegation(approved: seq<JoinRow>): nat {
    if approved == [] then 0
    else TotalDelegation(approved[..|approved| - 1]) + approved[|approved| - 1].selfDelegation
  }

  /** One more row adds itself to the approved ones, and its entry to their powers, iff it is APPROVED. */
  lemma ApprovedStep(rows: seq<JoinRow>, i: nat)
    requires i < |rows|
    ensures var front, next := ApprovedRows(rows[..i]), ApprovedRows(rows[..i + 1]);
            && next == front + (if rows[i].status == Approved then [rows[i]] else [])
            && PowersOf(next) == if rows[i].status == Approved
                                 then PowersOf(front)[rows[i].operator := rows[i].selfDelegation] else PowersOf(front)
  {
    var front, last := ApprovedRows(rows[..i]), [rows[i]];
    assert rows[..i + 1] == rows[..i] + last;
    ApprovedAppend(rows[..i], last);
    assert last[1..] == [];
    assert ApprovedRows(last) == if rows[i].status == Approved then last else [];
    assert (front + last)[..|front|] == front;
    assert front + [] == front;
  }

  method LoadVotingPower(rows: seq<JoinRow>) returns (powers: Powers)
    ensures powers == PowersOf(ApprovedRows(rows))
  {
    powers := map[];
    for i := 0 to |rows|
      invariant powers == PowersOf(ApprovedRows(rows[..i]))
    {
      ApprovedStep(rows, i);
      if rows[i].status == Approved {
        powers := powers[rows[i].operator := rows[i].selfDelegation];
      }
    }
    assert rows[..|rows|] == rows;
  }

  /** Each approved operator maps to its own self-delegation, and nobody else is in the map. */
  lemma {:induction false} PowersEntries(approved: seq<JoinRow>)
    requires DistinctOperators(approved)
    ensures forall i :: 0 <= i < |approved| ==>
              approved[i].operator in PowersOf(approved) &&
              PowersOf(approved)[approved[i].operator] == approved[i].selfDelegation
    ensures forall a :: a in PowersOf(approved) ==> exists i :: 0 <= i < |approved| && approved[i].operator == a
  {
    if approved != [] {
      var n := |approved| - 1;
      var front := approved[..n];
      PowersEntries(front);
      assert forall i :: 0 <= i < n ==> front[i] == approved[i];
      forall a | a in PowersOf(approved)
        ensures exists i :: 0 <= i < |approved| && approved[i].operator == a
      {
        if a in PowersOf(front) {
          var i :| 0 <= i < |front| && front[i].operator == a;
          assert approved[i].operator == a;
        } else {
          assert approved[n].operator == a;
        }
      }
    }
  }

  lemma {:induction false} PowersTotal(approved: seq<JoinRow>)
    requires DistinctOperators(approved)
    ensures Total(PowersOf(approved)) == TotalDelegation(approved)
  {
    if approved != [] {
      var n := |approved| - 1;
      var front, last := approved[..n], approved[n];
      PowersTotal(front);
      PowersEntries(front);
      var before, after := PowersOf(front), PowersOf(approved);
      assert last.operator !in before;
      SumRemove(after.Keys, after, last.operator);
      assert after.Keys - {last.operator} == before.Keys;
      SumAgrees(before.Keys, after, before);
    }
  }

  /** One more approved row adds exactly its own entry to the map. */
  lemma {:induction false} PowersInsert(front: seq<JoinRow>, back: seq<JoinRow>, r: JoinRow)
    requires DistinctOperators(front + [r] + back)
    ensures r.operator !in PowersOf(front + back)
    ensures PowersOf(front + [r] + back) == PowersOf(front + back)[r.operator := r.selfDelegation]
    decreases |back|
  {
    var with := front + [r] + back;
    assert with[|front|] == r;
    if back == [] {
      assert with[..|front|] == front == front + back;
      assert with == front + [r];
      PowersEntries(front);
    } else {
      var n := |back| - 1;
      assert with[|front| + |back|] == back[n];
      assert with[..|front| + |back|] == front + [r] + back[..n];
      assert (front + back)[..|front| + n] == front + back[..n];
      PowersInsert(front, back[..n], r);
    }
  }

  /**
   * Recording an approval in the loaded map agrees with reloading it exactly when the payload names the
   * request's own operator; the same for a removal. Nothing in the code compares the two.
   */
  lemma RecordAgreesIff(front: seq<JoinRow>, back: seq<JoinRow>, r: JoinRow, named: Account)
    requires DistinctOperators(front + [r] + back)
    ensures PowersOf(front + back)[named := r.selfDelegation] == PowersOf(front + [r] + back)
            <==> named == r.operator
    ensures PowersOf(front + [r] + back) - {named} == PowersOf(front + back) <==> named == r.operator
  {
    PowersInsert(front, back, r);
    MapPointUpdate(PowersOf(front + back), r.operator, r.selfDelegation, named);
  }

  lemma MapPointUpdate(p: Powers, a: Account, v: nat, b: Account)
    requires a !in p
    ensures p[b := v] == p[a := v] <==> b == a
    ensures p[a := v] - {b} == p <==> b == a
  {
    if b != a {
      assert a in p[a := v] && a !in p[b := v];
      assert a in p[a := v] - {b};
    }
  }
}
