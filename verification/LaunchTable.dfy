/** The launches row as a compare-and-set on its version (sqlite/launch.go). */
module LaunchTable {
  import opened Prelude

  /** A stored launch with its version; T is everything else in the row. */
  datatype Row<T> = Row(version: nat, data: T)

  datatype SaveError = Conflict

  /** UPDATE ... WHERE version = expected; with no row at all, INSERT at version 0. */
  function SaveRow<T>(row: Option<Row<T>>, expected: nat, data: T): Result<Row<T>, SaveError> {
    match row
    case None => Ok(Row(0, data))
    case Some(r) => if r.version == expected then Ok(Row(r.version + 1, data)) else Err(Conflict)
  }

  class Table<T> {
    var row: Option<Row<T>>

    constructor ()
      ensures row == None
    {
      row := None;
    }

    method Save(expected: nat, data: T) returns (ok: bool)
      modifies this
      ensures match SaveRow(old(row), expected, data)
              case Ok(r) => ok && row == Some(r)
              case Err(_) => !ok && row == old(row)
    {
      var affected := 0;
      if row.Some? && row.value.version == expected {
        row := Some(Row(row.value.version + 1, data));
        affected := 1;
      }
      if affected == 0 {
        if row.Some? {
          return false;
        }
        row := Some(Row(0, data));
      }
      return true;
    }
  }

  // ----- Many clients

  /** What a client loaded: the version and the data it computes its update from. */
  datatype Snapshot<T> = Snapshot(version: nat, base: T)

  /** One committed update and the data it was computed from; None for the insert. */
  datatype Commit<T> = Commit(version: nat, data: T, base: Option<T>)

  datatype World<T> = World(row: Option<Row<T>>, clients: map<nat, Snapshot<T>>, commits: seq<Commit<T>>)

  datatype Move<T> = Create(data: T) | Load(client: nat) | Store(client: nat, data: T)

  /** Creating, loading, or saving whatever a client made of its snapshot; a client may save more than once. */
  ghost function Step<T>(w: World<T>, m: Move<T>): World<T> {
    match m
    case Create(data) =>
      if w.row.Some? then w
      else w.(row := Some(Row(0, data)), commits := w.commits + [Commit(0, data, None)])
    case Load(client) =>
      if w.row.None? then w
      else w.(clients := w.clients[client := Snapshot(w.row.value.version, w.row.value.data)])
    case Store(client, data) =>
      if client !in w.clients then w
      else
        var snap := w.clients[client];
        match SaveRow(w.row, snap.version, data)
        case Err(_) => w
        case Ok(r) => w.(row := Some(r), commits := w.commits + [Commit(r.version, data, Some(snap.base))])
  }

  ghost function WorldAt<T>(moves: seq<Move<T>>, k: nat): World<T>
    requires k <= |moves|
  {
    if k == 0 then World(None, map[], []) else Step(WorldAt(moves, k - 1), moves[k - 1])
  }

  /** Commit i has version i, and every one but the first was computed from its predecessor's data. */
  ghost predicate NoneLost<T>(commits: seq<Commit<T>>) {
    forall i :: 0 <= i < |commits| ==>
      && commits[i].version == i
      && (commits[i].base.None? <==> i == 0)
      && (i > 0 ==> commits[i].base.value == commits[i - 1].data)
  }

  ghost predicate WorldInv<T>(w: World<T>) {
    && NoneLost(w.commits)
    && (w.row.None? <==> w.commits == [])
    && (w.row.Some? ==> w.row.value == Row(|w.commits| - 1, w.commits[|w.commits| - 1].data))
    && (forall c :: c in w.clients ==>
          w.clients[c].version < |w.commits| && w.commits[w.clients[c].version].data == w.clients[c].base)
  }

  lemma StepKeeps<T>(w: World<T>, m: Move<T>)
    requires WorldInv(w)
    ensures WorldInv(Step(w, m)) && w.commits <= Step(w, m).commits
  {
    var w' := Step(w, m);
    if m.Store? && w' != w {
      var snap := w.clients[m.client];
      assert snap.version == w.row.value.version == |w.commits| - 1;
      assert snap.base == w.commits[|w.commits| - 1].data;
    }
    forall i | 0 <= i < |w'.commits|
      ensures w'.commits[i].version == i
      ensures w'.commits[i].base.None? <==> i == 0
      ensures i > 0 ==> w'.commits[i].base.value == w'.commits[i - 1].data
    {
      if i < |w.commits| {
        assert w'.commits[i] == w.commits[i];
        assert i > 0 ==> w'.commits[i - 1] == w.commits[i - 1];
      }
    }
  }

  /** Over any interleaving, committed versions rise by one and no committed update is overwritten unseen. */
  lemma {:induction false} NoLostUpdate<T>(moves: seq<Move<T>>, k: nat)
    requires k <= |moves|
    ensures WorldInv(WorldAt(moves, k))
    ensures NoneLost(WorldAt(moves, k).commits)
  {
    if k > 0 {
      NoLostUpdate(moves, k - 1);
      StepKeeps(WorldAt(moves, k - 1), moves[k - 1]);
    }
  }
}
