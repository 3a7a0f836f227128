/** Decimal numerals: `Helpers.uintToString`, and what every correct decimal printer must produce. */
module Numerals {
  import opened Bytes

  predicate IsDigit(b: byte) {
    48 <= b <= 57
  }

  predicate AllDigits(s: seq<byte>) {
    forall i :: 0 <= i < |s| ==> IsDigit(s[i])
  }

  /** The number a string of digits denotes. */
  function Value(s: seq<byte>): int {
    if s == [] then 0 else Value(s[..|s| - 1]) * 10 + (s[|s| - 1] as int - 48)
  }

  /** A decimal numeral of `n`; leading zeros allowed. */
  predicate IsNumeral(s: seq<byte>, n: nat) {
    s != [] && AllDigits(s) && Value(s) == n
  }

  /** The shortest numeral, which is what integer formatting in Rust prints. */
  ghost predicate IsShortestNumeral(s: seq<byte>, n: nat) {
    IsNumeral(s, n) && forall t :: IsNumeral(t, n) ==> |s| <= |t|
  }

  function Decimal(n: nat): (s: seq<byte>)
    ensures s != []
  {
    (if n < 10 then [] else Decimal(n / 10)) + [48 + n % 10]
  }

  lemma {:induction false} DecimalIsNumeral(n: nat)
    ensures IsNumeral(Decimal(n), n)
  {
    var s := Decimal(n);
    if n >= 10 {
      DecimalIsNumeral(n / 10);
      assert s[..|s| - 1] == Decimal(n / 10);
    }
  }

  lemma {:induction false} ValueNonNegative(s: seq<byte>)
    requires AllDigits(s)
    ensures Value(s) >= 0
  {
    if s != [] {
      ValueNonNegative(s[..|s| - 1]);
    }
  }

  /** No numeral of `n` is shorter than `Decimal(n)`, and no other one is as short. */
  lemma {:induction false} DecimalUnique(t: seq<byte>, n: nat)
    requires IsNumeral(t, n)
    ensures |Decimal(n)| <= |t|
    ensures |Decimal(n)| == |t| ==> t == Decimal(n)
    decreases |t|
  {
    var front := t[..|t| - 1];
    ValueNonNegative(front);
    assert Value(front) == n / 10 && t[|t| - 1] == 48 + n % 10;
    assert t == front + [48 + n % 10];
    if n >= 10 {
      DecimalUnique(front, n / 10);
    }
  }

  lemma {:induction false} ShortestIsDecimal(s: seq<byte>, n: nat)
    ensures IsShortestNumeral(s, n) <==> s == Decimal(n)
  {
    DecimalIsNumeral(n);
    forall t | IsNumeral(t, n) ensures |Decimal(n)| <= |t| && (|Decimal(n)| == |t| ==> t == Decimal(n)) {
      DecimalUnique(t, n);
    }
  }

  lemma {:induction false} DecimalInjective(a: nat, b: nat)
    requires Decimal(a) == Decimal(b)
    ensures a == b
  {
    DecimalIsNumeral(a);
    DecimalIsNumeral(b);
  }

  /** A larger number never prints shorter. */
  lemma {:induction false} DecimalMonotone(a: nat, b: nat)
    requires a <= b
    ensures |Decimal(a)| <= |Decimal(b)|
  {
    if a >= 10 {
      DecimalMonotone(a / 10, b / 10);
    }
  }

  lemma {:induction false} DecimalShort(n: nat)
    ensures |Decimal(n)| <= n || n == 0
  {
    if n >= 10 {
      DecimalShort(n / 10);
    }
  }

  /** Unchecked 256-bit increment and decrement. */
  function WrapIncrement(x: uint256): uint256 {
    if x + 1 == TWO_256 then 0 else x + 1
  }

  function WrapDecrement(x: uint256): uint256 {
    if x == 0 then TWO_256 - 1 else x - 1
  }

  /**
   * The two digit-peeling loops. The length counter does not wrap; the index does, after the write
   * of the first digit, and no write follows.
   */
  method UintToString(inputValue: uint256) returns (result: array<byte>)
    ensures fresh(result)
    ensures IsShortestNumeral(result[..], inputValue)
    ensures result[..] == Decimal(inputValue)
  {
    var length: uint256 := 0;
    var currentValue: nat := inputValue;
    ghost var total := |Decimal(inputValue)|;
    DecimalShort(inputValue);
    while true
      invariant length + |Decimal(currentValue)| == total
      invariant length <= total < TWO_256
      decreases currentValue
    {
      length := WrapIncrement(length);
      if currentValue / 10 == 0 {
        break;
      }
      currentValue := currentValue / 10;
    }
    assert length == total;
    result := new byte[length](_ => 0);
    var i: uint256 := length - 1;
    currentValue := inputValue;
    while true
      invariant i < result.Length
      invariant i + 1 == |Decimal(currentValue)|
      invariant Decimal(inputValue) == Decimal(currentValue) + result[i + 1..]
      decreases currentValue
    {
      ghost var rest := result[i + 1..];
      result[i] := 48 + currentValue % 10;
      assert result[i..] == [48 + currentValue % 10] + rest;
      i := WrapDecrement(i);
      if currentValue / 10 == 0 {
        break;
      }
      currentValue := currentValue / 10;
    }
    assert i == TWO_256 - 1;
    ShortestIsDecimal(result[..], inputValue);
  }
}
