/** Reading a self-delegation amount out of a gentx, in 64-bit arithmetic (internal/domain/joinrequest/joinrequest.go). */
module Amounts {

  const TWO63: int := 0x8000_0000_0000_0000
  const TWO64: int := 0x1_0000_0000_0000_0000

  /** Two's-complement wrap-around of int64. */
  function Wrap(x: int): (r: int)
    ensures -TWO63 <= r < TWO63
  {
    (x + TWO63) % TWO64 - TWO63
  }

  predicate IsDigit(c: char) {
    '0' <= c <= '9'
  }

  function DigitOf(c: char): nat
    requires IsDigit(c)
  {
    c as int - '0' as int
  }

  /** Length of the leading run of digits. */
  function DigitRun(s: string): (n: nat)
    ensures n <= |s|
    ensures forall i :: 0 <= i < n ==> IsDigit(s[i])
    ensures n < |s| ==> !IsDigit(s[n])
  {
    if s == [] || !IsDigit(s[0]) then 0 else 1 + DigitRun(s[1..])
  }

  /** The number a string of digits writes, unbounded. */
  function ValueOf(digits: string): nat
    requires forall i :: 0 <= i < |digits| ==> IsDigit(digits[i])
  {
    if digits == [] then 0
    else 10 * ValueOf(digits[..|digits| - 1]) + DigitOf(digits[|digits| - 1])
  }

  function Decimal(n: nat): (s: string)
    ensures s != [] && forall i :: 0 <= i < |s| ==> IsDigit(s[i])
  {
    var last := [('0' as int + n % 10) as char];
    if n < 10 then last else Decimal(n / 10) + last
  }

  method ParseAmountString(s: string) returns (n: int)
    ensures n == Wrap(ValueOf(s[..DigitRun(s)]))
  {
    n := 0;
    var i := 0;
    while i < |s| && IsDigit(s[i])
      invariant i <= DigitRun(s) <= |s|
      invariant n == Wrap(ValueOf(s[..i]))
    {
      assert s[..i + 1][..i] == s[..i];
      WrapStep(ValueOf(s[..i]), DigitOf(s[i]));
      n := Wrap(n * 10 + DigitOf(s[i]));
      i := i + 1;
    }
  }

  lemma WrapCongruent(x: int) returns (k: int)
    ensures Wrap(x) == x + k * TWO64
  {
    k := -((x + TWO63) / TWO64);
  }

  lemma WrapShift(x: int, k: int)
    ensures Wrap(x + k * TWO64) == Wrap(x)
  {
    var a := x + TWO63;
    var q, r := a / TWO64, a % TWO64;
    assert a + k * TWO64 == (q + k) * TWO64 + r;
    DivisionUnique(a + k * TWO64, q + k, r);
  }

  lemma DivisionUnique(a: int, q: int, r: int)
    requires a == q * TWO64 + r && 0 <= r < TWO64
    ensures a % TWO64 == r
  {
  }

  /** Wrapping at every digit is wrapping once at the end. */
  lemma WrapStep(a: int, d: int)
    ensures Wrap(Wrap(a) * 10 + d) == Wrap(a * 10 + d)
  {
    var k := WrapCongruent(a);
    WrapShift(a * 10 + d, 10 * k);
    assert Wrap(a) * 10 + d == a * 10 + d + 10 * k * TWO64;
  }

  lemma {:induction false} DecimalValue(n: nat)
    ensures ValueOf(Decimal(n)) == n
  {
    var s := Decimal(n);
    if n >= 10 {
      DecimalValue(n / 10);
      assert s[..|s| - 1] == Decimal(n / 10);
    } else {
      assert s[..|s| - 1] == [];
    }
  }

  lemma {:induction false} RunOf(digits: string, rest: string)
    requires forall i :: 0 <= i < |digits| ==> IsDigit(digits[i])
    requires rest != [] ==> !IsDigit(rest[0])
    ensures DigitRun(digits + rest) == |digits|
  {
    if digits != [] {
      assert (digits + rest)[1..] == digits[1..] + rest;
      RunOf(digits[1..], rest);
    } else {
      assert digits + rest == rest;
    }
  }

  /** An amount followed by its denomination reads back exactly iff it fits in int64. */
  lemma AmountReadsBackIff(n: nat, denom: string)
    requires denom != [] ==> !IsDigit(denom[0])
    ensures var s := Decimal(n) + denom;
            Wrap(ValueOf(s[..DigitRun(s)])) == n <==> n < TWO63
  {
    var s := Decimal(n) + denom;
    RunOf(Decimal(n), denom);
    assert s[..|Decimal(n)|] == Decimal(n);
    DecimalValue(n);
  }
}
