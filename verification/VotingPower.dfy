/** The voting-power map and the one-third test made when the window closes (internal/domain/launch/launch.go). */
module VotingPower {
  import opened Prelude

  type Powers = map<Account, nat>

  /** The conversion of an exact percentage to float64. */
  type Rounding = real -> real

  ghost predicate Monotone(round: Rounding) {
    forall x, y :: x <= y ==> round(x) <= round(y)
  }

  ghost function Sum(keys: set<Account>, p: Powers): nat
    requires keys <= p.Keys
  {
    if keys == {} then 0
    else var k :| k in keys; p[k] + Sum(keys - {k}, p)
  }

  ghost function Max(keys: set<Account>, p: Powers): (m: nat)
    requires keys <= p.Keys
    ensures forall k :: k in keys ==> p[k] <= m
    ensures m > 0 ==> exists k :: k in keys && p[k] == m
  {
    if keys == {} then 0
    else
      var k :| k in keys;
      var rest := Max(keys - {k}, p);
      if p[k] > rest then p[k] else rest
  }

  ghost function Total(p: Powers): nat {
    Sum(p.Keys, p)
  }

  /** The largest share in percent, 0 when no power is committed. */
  ghost function DominantPct(round: Rounding, p: Powers): real {
    if Total(p) == 0 then 0.0
    else round(Max(p.Keys, p) as real * 100.0 / Total(p) as real)
  }

  ghost predicate Dominated(round: Rounding, p: Powers) {
    DominantPct(round, p) >= round(100.0 / 3.0)
  }

  /** The sum does not depend on the order in which the map is walked. */
  lemma {:induction false} SumRemove(keys: set<Account>, p: Powers, k: Account)
    requires keys <= p.Keys && k in keys
    ensures Sum(keys, p) == p[k] + Sum(keys - {k}, p)
  {
    var c :| c in keys && Sum(keys, p) == p[c] + Sum(keys - {c}, p);
    if c != k {
      SumRemove(keys - {c}, p, k);
      SumRemove(keys - {k}, p, c);
      assert keys - {c} - {k} == keys - {k} - {c};
    }
  }

  lemma {:induction false} SumAgrees(keys: set<Account>, p: Powers, q: Powers)
    requires keys <= p.Keys && keys <= q.Keys
    requires forall k :: k in keys ==> p[k] == q[k]
    ensures Sum(keys, p) == Sum(keys, q)
  {
    if keys != {} {
      var k :| k in keys;
      SumRemove(keys, p, k);
      SumRemove(keys, q, k);
      SumAgrees(keys - {k}, p, q);
    }
  }

  /**
   * The operator with the largest share, as the aggregate computes it: one pass for the total,
   * one for the maximum, both in an arbitrary order of the map's keys.
   */
  method DominantVotingPowerPct(round: Rounding, p: Powers) returns (dominant: Account, pct: real)
    ensures pct == DominantPct(round, p)
    ensures Total(p) > 0 ==> dominant in p && forall k :: k in p ==> p[k] <= p[dominant]
  {
    var total, keys := 0, p.Keys;
    while keys != {}
      invariant keys <= p.Keys
      invariant total + Sum(keys, p) == Total(p)
    {
      var k :| k in keys;
      SumRemove(keys, p, k);
      total, keys := total + p[k], keys - {k};
    }
    if total == 0 {
      return "", 0.0;
    }
    var power := 0;
    dominant := "";
    keys := p.Keys;
    while keys != {}
      invariant keys <= p.Keys
      invariant forall k :: k in p.Keys - keys ==> p[k] <= power
      invariant power > 0 ==> dominant in p && p[dominant] == power
    {
      var k :| k in keys;
      if p[k] > power {
        dominant, power := k, p[k];
      }
      keys := keys - {k};
    }
    AllZero(p.Keys, p);
    assert power == Max(p.Keys, p);
    pct := round(power as real * 100.0 / total as real);
  }

  lemma {:induction false} AllZero(keys: set<Account>, p: Powers)
    requires keys <= p.Keys
    ensures Sum(keys, p) > 0 ==> exists k :: k in keys && p[k] > 0
  {
    if keys != {} {
      var k :| k in keys;
      SumRemove(keys, p, k);
      AllZero(keys - {k}, p);
    }
  }

  ghost function Holders(keys: set<Account>, p: Powers): set<Account>
    requires keys <= p.Keys
  {
    set k | k in keys && p[k] > 0
  }

  lemma HoldersRemove(keys: set<Account>, p: Powers, k: Account)
    requires keys <= p.Keys && k in keys
    ensures |Holders(keys, p)| == |Holders(keys - {k}, p)| + if p[k] > 0 then 1 else 0
  {
    if p[k] > 0 {
      assert Holders(keys, p) == {k} + Holders(keys - {k}, p);
    } else {
      assert Holders(keys, p) == Holders(keys - {k}, p);
    }
  }

  lemma {:induction false} SumBound(keys: set<Account>, p: Powers, bound: nat, n: nat)
    requires keys <= p.Keys && |Holders(keys, p)| <= n
    requires forall k :: k in keys ==> p[k] <= bound
    ensures Sum(keys, p) <= n * bound
  {
    if keys != {} {
      var k :| k in keys;
      SumRemove(keys, p, k);
      HoldersRemove(keys, p, k);
      if p[k] > 0 {
        SumBound(keys - {k}, p, bound, n - 1);
        assert n * bound == (n - 1) * bound + bound;
      } else {
        SumBound(keys - {k}, p, bound, n);
      }
    }
  }

  lemma ScaleOrder(x: real, y: real, t: real)
    requires t > 0.0
    ensures x < y <==> x * t < y * t
  {
    if x < y {
      assert (y - x) * t > 0.0;
    } else {
      assert (x - y) * t >= 0.0;
    }
  }

  lemma DivideBack(x: real, t: real)
    requires t > 0.0
    ensures x / t * t == x
  {
  }

  lemma QuotientBelowThird(q: real, x: real, t: real)
    requires t > 0.0 && q * t == 100.0 * x
    ensures q < 100.0 / 3.0 <==> 3.0 * x < t
  {
    ScaleOrder(q, 100.0 / 3.0, t);
  }

  lemma ShareBelowThird(power: nat, total: nat)
    requires total > 0
    ensures power as real * 100.0 / total as real < 100.0 / 3.0 <==> 3 * power < total
  {
    var x, t := power as real, total as real;
    DivideBack(x * 100.0, t);
    QuotientBelowThird(x * 100.0 / t, x, t);
    assert 3.0 * x == (3 * power) as real;
  }

  /**
   * With any rounding that keeps order, passing the test leaves every operator strictly under one third
   * of the committed power, and so at least four operators with power.
   */
  lemma UndominatedBound(round: Rounding, p: Powers)
    requires Monotone(round)
    requires !Dominated(round, p) && Total(p) > 0
    ensures forall k :: k in p ==> 3 * p[k] < Total(p)
    ensures |Holders(p.Keys, p)| >= 4
  {
    var top := Max(p.Keys, p);
    ShareBelowThird(top, Total(p));
    if |Holders(p.Keys, p)| <= 3 {
      SumBound(p.Keys, p, top, 3);
      assert false;
    }
  }

  /** Without rounding the test rejects exactly the maps in which some operator holds a third or more. */
  lemma DominatedExactly(round: Rounding, p: Powers)
    requires forall x :: round(x) == x
    ensures Dominated(round, p) <==> Total(p) > 0 && exists k :: k in p && 3 * p[k] >= Total(p)
  {
    var top := Max(p.Keys, p);
    if Total(p) > 0 {
      ShareBelowThird(top, Total(p));
      AllZero(p.Keys, p);
    }
  }
}
