/** Integer literals and their 64-bit bound. */
module Numerals {
  import opened Wrappers
  import opened Lexemes

  newtype int64 = x: int | -0x8000_0000_0000_0000 <= x < 0x8000_0000_0000_0000

  const INT64_MAX: int64 := 0x7FFF_FFFF_FFFF_FFFF

  function DigitValue(c: char): nat
    requires HexDigit(c)
  {
    if Digit(c) then (c - '0') as nat else if 'a' <= c <= 'f' then 10 + (c - 'a') as nat else 10 + (c - 'A') as nat
  }

  predicate Hex(digits: string) {
    forall i | 0 <= i < |digits| :: HexDigit(digits[i])
  }

  predicate Binary(digits: string): (binary: bool)
    ensures binary ==> Hex(digits)
  {
    forall i | 0 <= i < |digits| :: digits[i] == '0' || digits[i] == '1'
  }

  /** The number a string of digits stands for. */
  function Value(digits: string, base: nat): nat
    requires Hex(digits)
  {
    if digits == "" then 0
    else Value(digits[..|digits| - 1], base) * base + DigitValue(digits[|digits| - 1])
  }

  /** More digits never make a number smaller. */
  lemma {:induction false} ValueGrows(digits: string, n: nat, base: nat)
    requires Hex(digits)
    requires n <= |digits| && base >= 2
    ensures Value(digits[..n], base) <= Value(digits, base)
  {
    if n == |digits| {
      assert digits[..n] == digits;
    } else {
      var shorter := digits[..|digits| - 1];
      ValueGrows(shorter, n, base);
      assert shorter[..n] == digits[..n];
      Scaled(Value(shorter, base), base);
    }
  }

  lemma Scaled(v: nat, base: nat)
    requires base >= 1
    ensures v <= v * base
  {
  }

  /**
  The loop that reads a binary literal: it refuses exactly the numbers above 2^63 - 1, of any length, and until then
  the 64-bit accumulator does not overflow.
  */
  method BinaryValue(digits: string) returns (value: Option<int64>)
    requires Binary(digits)
    ensures value.None? <==> Value(digits, 2) > INT64_MAX as int
    ensures value.Some? ==> value.value as int == Value(digits, 2)
  {
    var literal: int64 := 0;
    var p := 0;
    while p < |digits|
      invariant 0 <= p <= |digits| && 0 <= literal
      invariant literal as int == Value(digits[..p], 2)
    {
      assert digits[..p + 1][..p] == digits[..p];
      ValueGrows(digits, p + 1, 2);
      if literal > INT64_MAX / 2 {
        return None;
      }
      literal := literal * 2 + (if digits[p] == '1' then 1 else 0);
      p := p + 1;
    }
    assert digits[..p] == digits;
    return Some(literal);
  }
}
