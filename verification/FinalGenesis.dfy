/** The structural check of an uploaded final genesis (internal/application/services/launch.go). */
module FinalGenesis {
  import opened Prelude

  /**
   * The fields the check reads. A gen_tx is the consensus key found in it, None when it cannot be read
   * or has no message; "" stands for a missing key field.
   */
  datatype GenesisFile =
    GenesisFile(chainId: string, genesisTime: Time, genTxs: seq<Option<string>>, stakingKeys: seq<string>)

  datatype GenesisError =
    | TimeNotSet
    | TimeNotFuture
    | NoConsensusKey(index: nat)
    | DuplicateKey(index: nat)
    | CountMismatch
    | ApprovedMissing(key: string)

  function GenTxKey(tx: Option<string>): string {
    if tx.Some? then tx.value else ""
  }

  /** The key sequence of the form in use: gen_txs if there are any, otherwise the staking validators. */
  function FormKeys(f: GenesisFile): seq<string> {
    if f.genTxs == [] then f.stakingKeys
    else seq(|f.genTxs|, i requires 0 <= i < |f.genTxs| => GenTxKey(f.genTxs[i]))
  }

  /** Readable, duplicate-free, as many as approved, and covering the approved keys. */
  ghost predicate Covers(keys: seq<string>, approved: seq<string>) {
    && "" !in keys
    && Distinct(keys)
    && |keys| == |approved|
    && forall k :: k in approved ==> k in keys
  }

  ghost predicate Accepts(f: GenesisFile, approved: seq<string>, now: Time) {
    && f.genesisTime != 0
    && f.genesisTime > now
    && ((f.genTxs == [] && approved == []) || Covers(FormKeys(f), approved))
  }

  /** Reads the keys into a set, stopping at the first missing or repeated one. */
  method CollectKeys(keys: seq<string>) returns (r: Result<set<string>, GenesisError>)
    ensures r.Ok? <==> "" !in keys && Distinct(keys)
    ensures r.Ok? ==> r.value == Elements(keys) && |r.value| == |keys|
    ensures r.Err? && r.error.NoConsensusKey? ==>
              r.error.index < |keys| && keys[r.error.index] == "" && Distinct(keys[..r.error.index])
    ensures r.Err? && r.error.DuplicateKey? ==>
              r.error.index < |keys| && keys[r.error.index] in keys[..r.error.index] && "" !in keys[..r.error.index + 1]
    ensures r.Err? ==> r.error.NoConsensusKey? || r.error.DuplicateKey?
  {
    var seen: set<string> := {};
    for i := 0 to |keys|
      invariant seen == Elements(keys[..i]) && |seen| == i
      invariant "" !in keys[..i] && Distinct(keys[..i])
    {
      if keys[i] == "" {
        return Err(NoConsensusKey(i));
      }
      if keys[i] in seen {
        var j :| 0 <= j < i && keys[j] == keys[i];
        return Err(DuplicateKey(i));
      }
      assert keys[..i + 1] == keys[..i] + [keys[i]];
      seen := seen + {keys[i]};
    }
    assert keys[..|keys|] == keys;
    return Ok(seen);
  }

  method AllPresent(approved: seq<string>, keys: set<string>) returns (missing: Option<string>)
    ensures missing.None? <==> forall k :: k in approved ==> k in keys
    ensures missing.Some? ==> missing.value in approved && missing.value !in keys
  {
    for i := 0 to |approved|
      invariant forall k :: k in approved[..i] ==> k in keys
    {
      if approved[i] !in keys {
        return Some(approved[i]);
      }
      assert approved[..i + 1] == approved[..i] + [approved[i]];
    }
    assert approved[..|approved|] == approved;
    return None;
  }

  /** The check in the order the service makes it, with the first failure as the error. */
  method ValidateFinalGenesis(f: GenesisFile, approved: seq<string>, now: Time) returns (r: Result<Time, GenesisError>)
    ensures r.Ok? <==> Accepts(f, approved, now)
    ensures r.Ok? ==> r.value == f.genesisTime
    ensures r == Err(TimeNotSet) <==> f.genesisTime == 0
    ensures r == Err(TimeNotFuture) <==> f.genesisTime != 0 && f.genesisTime <= now
    ensures r.Err? && r.error.ApprovedMissing? ==> r.error.key in approved && r.error.key !in FormKeys(f)
  {
    if f.genesisTime == 0 {
      return Err(TimeNotSet);
    }
    if f.genesisTime <= now {
      return Err(TimeNotFuture);
    }
    if f.genTxs == [] && |approved| > 0 {
      var staking := CollectKeys(f.stakingKeys);
      if staking.Err? {
        return Err(staking.error);
      }
      if |staking.value| != |approved| {
        return Err(CountMismatch);
      }
      var absent := AllPresent(approved, staking.value);
      if absent.Some? {
        return Err(ApprovedMissing(absent.value));
      }
      return Ok(f.genesisTime);
    }
    if |f.genTxs| != |approved| {
      return Err(CountMismatch);
    }
    var keys: seq<string> := [];
    for i := 0 to |f.genTxs|
      invariant |keys| == i && forall k :: 0 <= k < i ==> keys[k] == GenTxKey(f.genTxs[k])
    {
      keys := keys + [GenTxKey(f.genTxs[i])];
    }
    assert f.genTxs != [] ==> keys == FormKeys(f);
    var collected := CollectKeys(keys);
    if collected.Err? {
      return Err(collected.error);
    }
    var absent := AllPresent(approved, collected.value);
    if absent.Some? {
      return Err(ApprovedMissing(absent.value));
    }
    return Ok(f.genesisTime);
  }

  // ----- What acceptance means

  /** The counting argument: as many distinct keys as distinct approved ones, covering them, are exactly them. */
  lemma CoversIsRearrangement(keys: seq<string>, approved: seq<string>)
    requires Covers(keys, approved)
    ensures multiset(keys) == multiset(approved) <==> Distinct(approved)
  {
    DistinctMultiset(keys);
    if Distinct(approved) {
      DistinctMultiset(approved);
      DistinctCardinality(keys);
      DistinctCardinality(approved);
      SubsetCardinality(Elements(approved), Elements(keys));
    }
    if multiset(keys) == multiset(approved) {
      DistinctFromMultiset(approved, keys);
    }
  }

  lemma RearrangementCovers(keys: seq<string>, approved: seq<string>)
    requires multiset(keys) == multiset(approved)
    requires Distinct(keys) && "" !in keys
    ensures Covers(keys, approved)
  {
    assert |multiset(keys)| == |keys| && |multiset(approved)| == |approved|;
    forall k | k in approved ensures k in keys {
      assert k in multiset(keys);
    }
  }

  ghost predicate Rearrangement(f: GenesisFile, approved: seq<string>) {
    "" !in FormKeys(f) && Distinct(FormKeys(f)) && multiset(FormKeys(f)) == multiset(approved)
  }

  /**
   * Against a non-empty approved list with distinct keys, a future-dated genesis is accepted iff its key
   * sequence is a duplicate-free rearrangement of the approved keys.
   */
  lemma AcceptsIff(f: GenesisFile, approved: seq<string>, now: Time)
    requires approved != [] && Distinct(approved)
    ensures Accepts(f, approved, now) <==> f.genesisTime != 0 && f.genesisTime > now && Rearrangement(f, approved)
  {
    if Covers(FormKeys(f), approved) {
      CoversIsRearrangement(FormKeys(f), approved);
    }
    if Rearrangement(f, approved) {
      RearrangementCovers(FormKeys(f), approved);
    }
  }

  /**
   * Distinctness of the approved keys is what makes the count decisive: among accepted files the match is
   * exact iff the keys are distinct, and a repeated key does let an unapproved one in.
   */
  lemma AcceptedMatchIff(f: GenesisFile, approved: seq<string>, now: Time)
    requires approved != [] && Accepts(f, approved, now)
    ensures Rearrangement(f, approved) <==> Distinct(approved)
  {
    CoversIsRearrangement(FormKeys(f), approved);
  }

  lemma RepeatedKeyAdmitsStranger()
    ensures var f := GenesisFile("c", 10, [Some("k"), Some("stranger")], []);
            Accepts(f, ["k", "k"], 5) && "stranger" in FormKeys(f)
  {
    var f := GenesisFile("c", 10, [Some("k"), Some("stranger")], []);
    assert FormKeys(f) == ["k", "stranger"];
    assert |"k"| != |"stranger"|;
  }

  /** With nobody approved, the staking validators of a file without gen_txs are not looked at. */
  lemma NobodyApprovedAdmitsAnyone(stakingKeys: seq<string>, t: Time, now: Time)
    requires t > now && t != 0
    ensures Accepts(GenesisFile("c", t, [], stakingKeys), [], now)
  {
  }
}
