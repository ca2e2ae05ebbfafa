/** Replay protection: the nonce memory against the freshness window (sqlite/nonce.go, services/helpers.go). */
module NonceStore {
  import opened Prelude

  const SIGNED_PAYLOAD_MAX_AGE: Time := 5 * MINUTE
  const NONCE_TTL: Time := 10 * MINUTE

  datatype NonceKey = NonceKey(operator: Account, nonce: string)

  /** A signed request: who, which nonce, the timestamp it was signed with, and the rest of what was signed. */
  datatype Payload = Payload(key: NonceKey, timestamp: Time, content: string)

  /** The three clock readings one request makes: at the insert, at the clean-up, at the timestamp check. */
  datatype Readings = Readings(insert: Time, cleanup: Time, check: Time)

  /** Key to expiry time. */
  type Memory = map<NonceKey, Time>

  function Abs(x: int): int {
    if x < 0 then -x else x
  }

  predicate Timely(timestamp: Time, now: Time, window: Time) {
    Abs(now - timestamp) <= window
  }

  /** Insert fails on a remembered key; otherwise it is remembered and expired rows are deleted. */
  function ConsumeNonce(m: Memory, key: NonceKey, r: Readings, ttl: Time): (Memory, bool) {
    if key in m then (m, false)
    else
      var added := m[key := r.insert + ttl];
      (map k | k in added && !(added[k] < r.cleanup) :: added[k], true)
  }

  /** A request is accepted when its nonce is new and its timestamp fresh; a stale one still uses up its nonce. */
  function Handle(m: Memory, p: Payload, r: Readings, ttl: Time, window: Time): (Memory, bool) {
    var (m', isNew) := ConsumeNonce(m, p.key, r, ttl);
    (m', isNew && Timely(p.timestamp, r.check, window))
  }

  class Store {
    var rows: map<NonceKey, Time>

    constructor ()
      ensures rows == map[]
    {
      rows := map[];
    }

    method Consume(key: NonceKey, insert: Time, cleanup: Time) returns (ok: bool)
      modifies this
      ensures (rows, ok) == ConsumeNonce(old(rows), key, Readings(insert, cleanup, cleanup), NONCE_TTL)
    {
      if key in rows {
        return false;
      }
      rows := rows[key := insert + NONCE_TTL];
      var kept: map<NonceKey, Time> := map[];
      var todo := rows.Keys;
      while todo != {}
        invariant todo <= rows.Keys && rows == old(rows)[key := insert + NONCE_TTL]
        invariant kept == map k | k in rows && k !in todo && !(rows[k] < cleanup) :: rows[k]
      {
        var k :| k in todo;
        if !(rows[k] < cleanup) {
          kept := kept[k := rows[k]];
        }
        todo := todo - {k};
      }
      assert kept == ConsumeNonce(old(rows), key, Readings(insert, cleanup, cleanup), NONCE_TTL).0;
      rows := kept;
      return true;
    }
  }

  method ValidateTimestamp(timestamp: Option<Time>, now: Time) returns (ok: bool)
    ensures ok <==> timestamp.Some? && now - 5 * MINUTE <= timestamp.value <= now + 5 * MINUTE
    ensures ok <==> timestamp.Some? && Timely(timestamp.value, now, SIGNED_PAYLOAD_MAX_AGE)
  {
    if timestamp.None? {
      return false;
    }
    var diff := now - timestamp.value;
    if diff < 0 {
      diff := -diff;
    }
    return diff <= SIGNED_PAYLOAD_MAX_AGE;
  }

  // ----- Runs

  datatype Request = Request(payload: Payload, at: Readings)

  ghost function MemoryAt(reqs: seq<Request>, k: nat, ttl: Time, window: Time): Memory
    requires k <= |reqs|
  {
    if k == 0 then map[]
    else Handle(MemoryAt(reqs, k - 1, ttl, window), reqs[k - 1].payload, reqs[k - 1].at, ttl, window).0
  }

  ghost predicate AcceptedAt(reqs: seq<Request>, k: nat, ttl: Time, window: Time)
    requires k < |reqs|
  {
    Handle(MemoryAt(reqs, k, ttl, window), reqs[k].payload, reqs[k].at, ttl, window).1
  }

  /** Readings never go back, and a request's first and last lie at most `lag` apart. */
  ghost predicate Ordered(reqs: seq<Request>, lag: Time) {
    && (forall i :: 0 <= i < |reqs| ==>
          reqs[i].at.insert <= reqs[i].at.cleanup <= reqs[i].at.check <= reqs[i].at.insert + lag)
    && (forall i, j :: 0 <= i < j < |reqs| ==> reqs[i].at.check <= reqs[j].at.insert)
  }

  /** Some payload is accepted twice. */
  ghost predicate Replays(reqs: seq<Request>, ttl: Time, window: Time) {
    exists i, j :: 0 <= i < j < |reqs| && reqs[i].payload == reqs[j].payload
      && AcceptedAt(reqs, i, ttl, window) && AcceptedAt(reqs, j, ttl, window)
  }

  /** A row survives every clean-up made no later than its expiry. */
  lemma {:induction false} RowSurvives(reqs: seq<Request>, i: nat, k: nat, lag: Time, ttl: Time, window: Time)
    requires Ordered(reqs, lag) && lag >= 0 && i < k <= |reqs|
    requires AcceptedAt(reqs, i, ttl, window)
    requires reqs[k - 1].at.cleanup <= reqs[i].at.insert + ttl
    ensures reqs[i].payload.key in MemoryAt(reqs, k, ttl, window)
    ensures MemoryAt(reqs, k, ttl, window)[reqs[i].payload.key] == reqs[i].at.insert + ttl
    decreases k
  {
    if k > i + 1 {
      assert reqs[k - 2].at.check <= reqs[k - 1].at.insert;
      RowSurvives(reqs, i, k - 1, lag, ttl, window);
    }
  }

  /** A memory of twice the window plus the lag leaves no room for a replay, on any run. */
  lemma NoReplay(reqs: seq<Request>, lag: Time, ttl: Time, window: Time)
    requires Ordered(reqs, lag) && lag >= 0 && ttl >= 2 * window + lag
    ensures !Replays(reqs, ttl, window)
  {
    if Replays(reqs, ttl, window) {
      var i, j :| 0 <= i < j < |reqs| && reqs[i].payload == reqs[j].payload
                  && AcceptedAt(reqs, i, ttl, window) && AcceptedAt(reqs, j, ttl, window);
      assert reqs[j - 1].at.check <= reqs[j].at.insert by {
        assert 0 <= j - 1 < j < |reqs|;
      }
      RowSurvives(reqs, i, j, lag, ttl, window);
      assert false;
    }
  }

  /** One nanosecond less and this run replays: signed for the far end of the window, repeated at the other. */
  ghost function ReplayRun(lag: Time, window: Time): seq<Request> {
    var p := Payload(NonceKey("op", "n"), lag + window, "");
    var other := Payload(NonceKey("op", "other"), 0, "");
    var late := 2 * window + lag;
    [Request(p, Readings(0, 0, lag)), Request(other, Readings(late, late, late)), Request(p, Readings(late, late, late))]
  }

  lemma ShortMemoryReplays(lag: Time, ttl: Time, window: Time)
    requires lag >= 0 && window >= 0 && 0 <= ttl < 2 * window + lag
    ensures Ordered(ReplayRun(lag, window), lag) && Replays(ReplayRun(lag, window), ttl, window)
  {
    var reqs := ReplayRun(lag, window);
    var p, other := reqs[0].payload, reqs[1].payload;
    assert p.key.nonce != other.key.nonce by {
      assert |"n"| != |"other"|;
    }
    var m1 := MemoryAt(reqs, 1, ttl, window);
    assert MemoryAt(reqs, 0, ttl, window) == map[];
    assert AcceptedAt(reqs, 0, ttl, window);
    assert m1 == map[p.key := ttl];
    var m2 := MemoryAt(reqs, 2, ttl, window);
    assert p.key !in m2;
    assert AcceptedAt(reqs, 2, ttl, window);
  }

  /**
   * The least memory that works: replay is impossible on every run iff it lasts twice the acceptance window,
   * since a timestamp may lie that far ahead, plus the time a request takes between its readings.
   */
  lemma MemoryIsLeast(lag: Time, ttl: Time, window: Time)
    requires lag >= 0 && window >= 0 && ttl >= 0
    ensures (forall reqs :: Ordered(reqs, lag) ==> !Replays(reqs, ttl, window)) <==> ttl >= 2 * window + lag
  {
    if ttl >= 2 * window + lag {
      forall reqs | Ordered(reqs, lag) ensures !Replays(reqs, ttl, window) {
        NoReplay(reqs, lag, ttl, window);
      }
    } else {
      ShortMemoryReplays(lag, ttl, window);
    }
  }

  /** The configured ten minutes are exactly enough when a request reads the clock once, and not otherwise. */
  lemma ConfiguredMemory(lag: Time)
    requires lag >= 0
    ensures (forall reqs :: Ordered(reqs, lag) ==> !Replays(reqs, NONCE_TTL, SIGNED_PAYLOAD_MAX_AGE)) <==> lag == 0
  {
    MemoryIsLeast(lag, NONCE_TTL, SIGNED_PAYLOAD_MAX_AGE);
  }
}
