/** Decimal numerals as text. */
module Numerals {
  import opened Basics

  const MIN_INT64 := -0x8000_0000_0000_0000
  const MAX_INT64 := 0x7fff_ffff_ffff_ffff

  type int64 = n: int | MIN_INT64 <= n <= MAX_INT64

  predicate IsDigit(c: char) {
    '0' <= c <= '9'
  }

  ghost predicate AllDigits(s: string) {
    forall i :: 0 <= i < |s| ==> IsDigit(s[i])
  }

  function Digit(d: nat): (c: char)
    requires d < 10
    ensures IsDigit(c) && DigitValue(c) == d
  {
    "0123456789"[d]
  }

  function DigitValue(c: char): nat
    requires IsDigit(c)
  {
    c as int - '0' as int
  }

  /** The digits of n, most significant first, without leading zeros. */
  function Decimal(n: nat): (s: string)
    ensures s != "" && AllDigits(s)
  {
    if n < 10 then [Digit(n)] else Decimal(n / 10) + [Digit(n % 10)]
  }

  /** The number a digit string denotes. */
  function Value(s: string): nat
    requires AllDigits(s)
  {
    if s == "" then 0 else 10 * Value(s[..|s| - 1]) + DigitValue(s[|s| - 1])
  }

  lemma {:induction false} ValueOfDecimal(n: nat)
    ensures Value(Decimal(n)) == n
  {
    if n >= 10 {
      ValueOfDecimal(n / 10);
      assert Decimal(n)[..|Decimal(n)| - 1] == Decimal(n / 10);
    }
  }

  function Pow10(k: nat): nat {
    if k == 0 then 1 else 10 * Pow10(k - 1)
  }

  lemma {:induction false} DecimalLength(n: nat, k: nat)
    requires k > 0 && n < Pow10(k)
    ensures |Decimal(n)| <= k
  {
    if n >= 10 {
      assert Pow10(1) == 10;
      DecimalLength(n / 10, k - 1);
    }
  }

  /** No number of 64 bits takes more than 20 characters. */
  lemma SignedLength(n: int64)
    ensures |Signed(n)| <= 20
  {
    assert Pow10(5) == 100_000;
    assert Pow10(10) == 10_000_000_000;
    assert Pow10(15) == 1_000_000_000_000_000;
    assert Pow10(19) == 10_000_000_000_000_000_000;
    if n < 0 {
      DecimalLength(-(n as int), 19);
    } else {
      DecimalLength(n, 19);
    }
  }

  /** A signed number, as Itoa and FormatInt print it. */
  function Signed(n: int): string {
    if n < 0 then "-" + Decimal(-n) else Decimal(n)
  }

  lemma DecimalInjective(n: nat, m: nat)
    requires Decimal(n) == Decimal(m)
    ensures n == m
  {
    ValueOfDecimal(n);
    ValueOfDecimal(m);
  }

  lemma SignedInjective(n: int, m: int)
    requires Signed(n) == Signed(m)
    ensures n == m
  {
    SignedShape(n);
    SignedShape(m);
    if n < 0 {
      assert Signed(n)[1..] == Decimal(-n) && Signed(m)[1..] == Decimal(-m);
      DecimalInjective(-n, -m);
    } else {
      DecimalInjective(n, m);
    }
  }

  lemma SignedShape(n: int)
    ensures n < 0 <==> Signed(n)[0] == '-'
  {
    assert n >= 0 ==> IsDigit(Decimal(n)[0]);
  }

  predicate IsNumeral(s: string) {
    s != "" && forall i :: 0 <= i < |s| ==> IsDigit(s[i])
  }

  /** ParseInt in base ten: an optional sign, then digits, within range. */
  function ParseInt64(s: string): Option<int64> {
    var signed := s != "" && (s[0] == '-' || s[0] == '+');
    var digits := if signed then s[1..] else s;
    if !IsNumeral(digits) then None
    else
      var n := (if signed && s[0] == '-' then -1 else 1) * (Value(digits) as int);
      if MIN_INT64 <= n <= MAX_INT64 then Some(n) else None
  }

  /** Every number that fits is read back as printed. */
  lemma ParseSigned(n: int)
    ensures ParseInt64(Signed(n)) == if MIN_INT64 <= n <= MAX_INT64 then Some(n) else None
  {
    if n < 0 {
      ParseMinus(-n);
      SameRead(Signed(n), "-" + Decimal(-n));
    } else {
      ParseDecimal(n);
      SameRead(Signed(n), Decimal(n));
    }
  }

  lemma SameRead(s: string, t: string)
    requires s == t
    ensures ParseInt64(s) == ParseInt64(t)
  {
  }

  lemma ParseMinus(m: nat)
    requires m > 0
    ensures ParseInt64("-" + Decimal(m)) == if -(m as int) < MIN_INT64 then None else Some(-(m as int))
  {
    ValueOfDecimal(m);
    ParseNegative(Decimal(m));
  }

  lemma ParseDecimal(m: nat)
    ensures ParseInt64(Decimal(m)) == if m > MAX_INT64 then None else Some(m)
  {
    ValueOfDecimal(m);
    ParseDigits(Decimal(m));
  }

  lemma ParseNegative(s: string)
    requires s != "" && AllDigits(s)
    ensures var n := Value(s) as int; ParseInt64("-" + s) == if -n < MIN_INT64 then None else Some(-n)
  {
    assert ("-" + s)[1..] == s && ("-" + s)[0] == '-';
  }

  lemma ParseDigits(s: string)
    requires AllDigits(s)
    ensures ParseInt64(s) == if s == "" || Value(s) > MAX_INT64 then None else Some(Value(s))
  {
    assert s != "" ==> IsDigit(s[0]);
  }
}
