/** The integer conversions the handlers rely on: Go's 64-bit `int` arithmetic
    and the two `strconv` parsers that read query and path parameters. */
module Numbers {
  import opened Common

  const MinInt64: int := -0x8000_0000_0000_0000
  const MaxInt64: int := 0x7FFF_FFFF_FFFF_FFFF
  const MaxUint32: int := 0xFFFF_FFFF
  const TwoTo64: int := 0x1_0000_0000_0000_0000

  predicate InInt64(x: int) {
    MinInt64 <= x <= MaxInt64
  }

  /** The value a Go `int` (64 bits, two's complement) holds after an operation
      whose exact result is x. */
  function Wrap64(x: int): (r: int)
    ensures InInt64(r)
    ensures InInt64(x) ==> r == x
    ensures (x - r) % TwoTo64 == 0
  {
    (x - MinInt64) % TwoTo64 + MinInt64
  }

  /** A 64-bit product with a non-zero factor cannot fit when the other factor
      has already wrapped below the int64 range. */
  lemma FactorFits(a: int, b: int)
    requires a != 0 && InInt64(a * b)
    ensures b >= MinInt64
  {
  }

  predicate IsDigit(c: char) {
    '0' <= c <= '9'
  }

  predicate AllDigits(s: string) {
    forall i :: 0 <= i < |s| ==> IsDigit(s[i])
  }

  function DigitValue(c: char): (d: nat)
    requires IsDigit(c)
    ensures d < 10
  {
    (c as int) - ('0' as int)
  }

  function DigitChar(d: nat): (c: char)
    requires d < 10
    ensures IsDigit(c) && DigitValue(c) == d
  {
    (('0' as int) + d) as char
  }

  /** The value of a string of decimal digits, most significant digit first. */
  function DigitsValue(s: string): nat
    requires AllDigits(s)
  {
    if s == [] then 0 else DigitsValue(s[..|s| - 1]) * 10 + DigitValue(s[|s| - 1])
  }

  /** The decimal text of n as strconv.Itoa writes it: no sign, no leading zero. */
  function Decimal(n: nat): (s: string)
    ensures |s| >= 1 && AllDigits(s)
    ensures s[0] == '0' ==> n == 0
  {
    if n < 10 then [DigitChar(n)] else Decimal(n / 10) + [DigitChar(n % 10)]
  }

  /** Reading back the decimal text of a number gives the number. */
  lemma {:induction false} DecimalRoundTrip(n: nat)
    ensures DigitsValue(Decimal(n)) == n
  {
    if n >= 10 {
      DecimalRoundTrip(n / 10);
      var s := Decimal(n);
      assert s[..|s| - 1] == Decimal(n / 10);
    }
  }

  /** The digits after an optional leading '+' or '-'. */
  function Unsigned(s: string): string {
    if |s| > 0 && (s[0] == '+' || s[0] == '-') then s[1..] else s
  }

  /** strconv.Atoi on a 64-bit platform, with any error as None: an optional
      sign, at least one decimal digit and nothing else, and a value inside the
      range of int64 (a larger magnitude is a range error). */
  function Atoi(s: string): (r: Option<int>)
    ensures r.Some? ==> InInt64(r.value)
    ensures r.Some? ==> Unsigned(s) != [] && AllDigits(Unsigned(s))
    ensures r.Some? ==> r.value == if s[0] == '-' then -(DigitsValue(Unsigned(s)) as int) else DigitsValue(Unsigned(s))
    ensures (Unsigned(s) != [] && AllDigits(Unsigned(s)) &&
             InInt64(if s[0] == '-' then -(DigitsValue(Unsigned(s)) as int) else DigitsValue(Unsigned(s)))) ==> r.Some?
  {
    var digits := Unsigned(s);
    if digits == [] || !AllDigits(digits) then None
    else
      var v: int := if s[0] == '-' then -(DigitsValue(digits) as int) else DigitsValue(digits);
      if InInt64(v) then Some(v) else None
  }

  /** The text strconv.Itoa gives for an int. */
  function FormatInt(n: int): string {
    if n < 0 then "-" + Decimal(-n) else Decimal(n)
  }

  /** Atoi accepts what Itoa writes, for every int64. */
  lemma AtoiFormatInt(n: int)
    requires InInt64(n)
    ensures Atoi(FormatInt(n)) == Some(n)
  {
    if n < 0 {
      AtoiNegative(n);
    } else {
      AtoiNonNegative(n);
    }
  }

  lemma AtoiNegative(n: int)
    requires MinInt64 <= n < 0
    ensures Atoi(FormatInt(n)) == Some(n)
  {
    var d := Decimal(-n);
    DecimalRoundTrip(-n);
    var s := "-" + d;
    assert s == FormatInt(n);
    assert s[0] == '-' && s[1..] == d;
    assert Unsigned(s) == d;
  }

  lemma AtoiNonNegative(n: int)
    requires 0 <= n <= MaxInt64
    ensures Atoi(FormatInt(n)) == Some(n)
  {
    var d := Decimal(n);
    DecimalRoundTrip(n);
    assert d == FormatInt(n);
    assert IsDigit(d[0]);
    assert Unsigned(d) == d;
  }

  /** An empty parameter (what c.Query yields for a missing one) never parses. */
  lemma AtoiRejectsEmpty()
    ensures Atoi("") == None
  {
  }

  /** strconv.ParseUint(s, 10, 32) with any error as None: decimal digits only
      (no sign, no underscore in base 10), at least one, and at most 2^32 - 1. */
  function ParseUint32(s: string): (r: Option<nat>)
    ensures r.Some? ==> s != [] && AllDigits(s) && r.value == DigitsValue(s)
    ensures r.Some? ==> r.value <= MaxUint32
  {
    if s == [] || !AllDigits(s) then None
    else if DigitsValue(s) <= MaxUint32 then Some(DigitsValue(s))
    else None
  }

  /** Every uint32 written in decimal parses back to itself, and every larger
      number written in decimal is rejected as out of range. */
  lemma ParseUint32Decimal(n: nat)
    ensures n <= MaxUint32 ==> ParseUint32(Decimal(n)) == Some(n)
    ensures n > MaxUint32 ==> ParseUint32(Decimal(n)) == None
  {
    DecimalRoundTrip(n);
  }
}
