/**
 * Decimal text for integers: the `Display` rendering Rust's `format!` uses and
 * the `FromStr` parsing behind `str::parse::<u32>()` and `str::parse::<i32>()`.
 */
module Decimal {
  import opened Ints
  import opened Wrappers

  predicate IsDigit(c: char)
  {
    '0' <= c <= '9'
  }

  predicate IsDigits(s: string)
  {
    forall i :: 0 <= i < |s| ==> IsDigit(s[i])
  }

  function DigitValue(c: char): (v: nat)
    requires IsDigit(c)
    ensures v < 10
  {
    c as int - '0' as int
  }

  function DigitChar(v: nat): (c: char)
    requires v < 10
    ensures IsDigit(c) && DigitValue(c) == v
  {
    ('0' as int + v) as char
  }

  /** The number a run of decimal digits denotes, most significant digit first. */
  function DigitsValue(s: string): nat
    requires IsDigits(s)
    decreases |s|
  {
    if |s| == 0 then 0 else 10 * DigitsValue(s[..|s| - 1]) + DigitValue(s[|s| - 1])
  }

  /** A digit run with no superfluous leading zero: the only shape `Display` prints. */
  predicate IsCanonical(s: string)
  {
    |s| >= 1 && IsDigits(s) && (s[0] == '0' ==> |s| == 1)
  }

  /** `Display` for an unsigned integer. */
  function NatToDecimal(n: nat): (s: string)
    ensures IsCanonical(s)
    ensures DigitsValue(s) == n
    decreases n
  {
    if n < 10 then [DigitChar(n)]
    else
      var s := NatToDecimal(n / 10) + [DigitChar(n % 10)];
      assert s[..|s| - 1] == NatToDecimal(n / 10);
      s
  }

  /** `Display` for a signed integer: a `-` in front of the magnitude when negative. */
  function IntToDecimal(x: int): string
  {
    if x < 0 then "-" + NatToDecimal(-x) else NatToDecimal(x)
  }

  /** A canonical digit run is nonzero exactly when it does not start with `0`. */
  lemma {:induction false} LeadingDigitPositive(s: string)
    requires |s| >= 1 && IsDigits(s) && s[0] != '0'
    ensures DigitsValue(s) >= 1
    decreases |s|
  {
    if |s| > 1 {
      var p := s[..|s| - 1];
      assert p[0] == s[0];
      LeadingDigitPositive(p);
    }
  }

  /** Rendering reads back every canonical digit run: the other half of the round trip. */
  lemma {:induction false} CanonicalRoundTrip(s: string)
    requires IsCanonical(s)
    ensures NatToDecimal(DigitsValue(s)) == s
    decreases |s|
  {
    if |s| > 1 {
      var p := s[..|s| - 1];
      assert p[0] == s[0];
      LeadingDigitPositive(p);
      CanonicalRoundTrip(p);
      var v := DigitsValue(s);
      assert v / 10 == DigitsValue(p) && v % 10 == DigitValue(s[|s| - 1]);
      assert s == p + [s[|s| - 1]];
    }
  }

  /** Two numbers print alike only if they are equal. */
  lemma NatToDecimalInjective(m: nat, n: nat)
    requires NatToDecimal(m) == NatToDecimal(n)
    ensures m == n
  {
  }

  /** `<u32 as FromStr>::from_str`: an optional `+`, then at least one digit, within `u32`. */
  function ParseU32(s: string): Option<uint32>
  {
    var digits := if |s| > 0 && s[0] == '+' then s[1..] else s;
    if |digits| == 0 || !IsDigits(digits) then None
    else if DigitsValue(digits) <= U32_MAX then Some(DigitsValue(digits))
    else None
  }

  /** `<i32 as FromStr>::from_str`: an optional `+` or `-`, then at least one digit, within `i32`. */
  function ParseI32(s: string): Option<int32>
  {
    var negative := |s| > 0 && s[0] == '-';
    var digits := if |s| > 0 && (s[0] == '+' || s[0] == '-') then s[1..] else s;
    if |digits| == 0 || !IsDigits(digits) then None
    else
      var v: int := if negative then -(DigitsValue(digits) as int) else DigitsValue(digits);
      if I32_MIN <= v <= I32_MAX then Some(v) else None
  }

  /** Every `u32` reads back from its decimal rendering, with or without a leading `+`. */
  lemma ParseU32Decimal(n: uint32)
    ensures ParseU32(NatToDecimal(n)) == Some(n)
    ensures ParseU32("+" + NatToDecimal(n)) == Some(n)
  {
    assert ("+" + NatToDecimal(n))[1..] == NatToDecimal(n);
  }

  /** A successful `u32` parse saw an optional `+` and then at least one digit, and only digits. */
  lemma ParseU32Shape(s: string)
    requires ParseU32(s).Some?
    ensures |s| >= 1
    ensures forall i :: (if s[0] == '+' then 1 else 0) <= i < |s| ==> IsDigit(s[i])
    ensures IsDigit(s[|s| - 1])
  {
    if s[0] == '+' {
      assert |s| >= 2;
      forall i | 1 <= i < |s| ensures IsDigit(s[i]) {
        assert s[i] == s[1..][i - 1];
      }
    }
  }

  /** Every `i32` reads back from its `Display` rendering. */
  lemma ParseI32Decimal(x: int32)
    ensures ParseI32(IntToDecimal(x)) == Some(x)
  {
    var s := IntToDecimal(x);
    if x < 0 {
      var m := NatToDecimal(-(x as int));
      assert s == "-" + m;
      assert s[0] == '-' && s[1..] == m;
      assert IsDigits(m) && DigitsValue(m) == -(x as int);
    } else {
      var m := NatToDecimal(x);
      assert s == m;
      assert IsDigit(s[0]);
    }
  }

  /** A nonnegative `i32` also reads back behind an explicit `+`. */
  lemma ParseI32Plus(n: nat)
    requires n <= I32_MAX
    ensures ParseI32("+" + NatToDecimal(n)) == Some(n)
  {
    assert ("+" + NatToDecimal(n))[1..] == NatToDecimal(n);
  }

  /** A successful `i32` parse saw one optional sign and then at least one digit, and only digits. */
  lemma ParseI32Shape(s: string)
    requires ParseI32(s).Some?
    ensures |s| >= 1
    ensures s[0] == '+' || s[0] == '-' || IsDigit(s[0])
    ensures forall i :: 1 <= i < |s| ==> IsDigit(s[i])
    ensures IsDigit(s[|s| - 1])
  {
    var digits := if s[0] == '+' || s[0] == '-' then s[1..] else s;
    forall i | 1 <= i < |s| ensures IsDigit(s[i]) {
      if s[0] == '+' || s[0] == '-' {
        assert s[i] == digits[i - 1];
      }
    }
  }
}
