/** Decimal text for integers: Rust's `Display` for integer types (used by
    `format!` and `Number::to_string`) and Rust's `str::parse` for `u16` and
    `i64` (used when reading `PORT` and `SESSION_TTL_SECONDS`). */
module Decimal {
  import opened Wrappers

  const U16Max: nat := 0xFFFF
  const I64Min: int := -0x8000_0000_0000_0000
  const I64Max: int := 0x7FFF_FFFF_FFFF_FFFF

  predicate IsDigit(c: char) {
    '0' <= c <= '9'
  }

  predicate AllDigits(s: string) {
    forall i :: 0 <= i < |s| ==> IsDigit(s[i])
  }

  function DigitChar(d: nat): (c: char)
    requires d < 10
    ensures IsDigit(c) && c as int - '0' as int == d
  {
    ('0' as int + d) as char
  }

  /** The number a string of decimal digits denotes (leading zeros allowed). */
  function DigitsValue(s: string): nat
    requires AllDigits(s)
  {
    if |s| == 0 then 0 else DigitsValue(s[..|s| - 1]) * 10 + (s[|s| - 1] as int - '0' as int)
  }

  /** Rust's `Display` for an unsigned integer: the shortest decimal digits. */
  function NatToString(n: nat): (s: string)
    ensures |s| >= 1 && AllDigits(s)
    ensures |s| > 1 ==> s[0] != '0'
  {
    if n < 10 then [DigitChar(n)] else NatToString(n / 10) + [DigitChar(n % 10)]
  }

  /** Rust's `Display` for a signed integer: a `-` before the magnitude when negative. */
  function IntToString(i: int): (s: string)
    ensures |s| >= 1
    ensures i < 0 <==> s[0] == '-'
  {
    if i < 0 then "-" + NatToString(-i) else NatToString(i)
  }

  /** Reading the digits back gives the number that was written. */
  lemma {:induction false} NatToStringValue(n: nat)
    ensures DigitsValue(NatToString(n)) == n
  {
    if n >= 10 {
      var s := NatToString(n);
      NatToStringValue(n / 10);
      assert s[..|s| - 1] == NatToString(n / 10);
    }
  }

  /** The text after an optional leading `+`. */
  function Unsigned(s: string): string {
    if |s| >= 1 && s[0] == '+' then s[1..] else s
  }

  /** Rust's `str::parse` for an unsigned integer type whose largest value is
      `max`: an optional `+`, then at least one ASCII digit, nothing else, and
      a value in range. */
  function ParseUnsigned(s: string, max: nat): (r: Option<nat>)
    ensures r.Some? ==> r.value <= max
    ensures r.Some? ==> |s| >= 1 && s[0] != '-'
    ensures AllDigits(s) && |s| >= 1 ==> (r.Some? <==> DigitsValue(s) <= max)
    ensures AllDigits(s) && r.Some? ==> r.value == DigitsValue(s)
    ensures |s| >= 1 && !IsDigit(s[0]) && s[0] != '+' ==> r.None?
    ensures r.Some? <==> |Unsigned(s)| >= 1 && AllDigits(Unsigned(s)) && DigitsValue(Unsigned(s)) <= max
    ensures r.Some? ==> r.value == DigitsValue(Unsigned(s))
  {
    var digits := if |s| >= 1 && s[0] == '+' then s[1..] else s;
    if |digits| == 0 || !AllDigits(digits) then None
    else if DigitsValue(digits) <= max then Some(DigitsValue(digits))
    else None
  }

  /** Rust's `str::parse` for a signed integer type with range `[min, max]`:
      as for unsigned, but a leading `-` negates the digits that follow. */
  function ParseSigned(s: string, min: int, max: nat): (r: Option<int>)
    requires min <= 0
    ensures r.Some? ==> min <= r.value <= max
    ensures r.Some? ==> |s| >= 1
    ensures |s| >= 1 && s[0] == '-' && r.Some? ==> r.value <= 0
    ensures AllDigits(s) && |s| >= 1 ==> r == ParseUnsigned(s, max)
    ensures |s| >= 1 && s[0] == '-'
            ==> && (r.Some? <==> |s| >= 2 && AllDigits(s[1..]) && -(DigitsValue(s[1..]) as int) >= min)
                && (r.Some? ==> r.value == -(DigitsValue(s[1..]) as int))
    ensures !(|s| >= 1 && s[0] == '-')
            ==> && (r.Some? <==> |Unsigned(s)| >= 1 && AllDigits(Unsigned(s)) && DigitsValue(Unsigned(s)) <= max)
                && (r.Some? ==> r.value == DigitsValue(Unsigned(s)))
  {
    if |s| >= 1 && s[0] == '-' then
      var digits := s[1..];
      if |digits| == 0 || !AllDigits(digits) then None
      else
        var v: int := DigitsValue(digits);
        if min <= -v then Some(-v) else None
    else
      match ParseUnsigned(s, max)
      case Some(n) => Some(n)
      case None => None
  }

  /** Rust's `u16::from_str`. */
  function ParseU16(s: string): (r: Option<nat>)
    ensures r.Some? ==> r.value <= U16Max
    ensures r.Some? <==> |Unsigned(s)| >= 1 && AllDigits(Unsigned(s)) && DigitsValue(Unsigned(s)) <= U16Max
    ensures r.Some? ==> r.value == DigitsValue(Unsigned(s))
  {
    ParseUnsigned(s, U16Max)
  }

  /** Rust's `i64::from_str`. */
  function ParseI64(s: string): (r: Option<int>)
    ensures r.Some? ==> I64Min <= r.value <= I64Max
    ensures |s| >= 1 && s[0] == '-'
            ==> && (r.Some? <==> |s| >= 2 && AllDigits(s[1..]) && DigitsValue(s[1..]) <= -I64Min)
                && (r.Some? ==> r.value == -(DigitsValue(s[1..]) as int))
    ensures !(|s| >= 1 && s[0] == '-')
            ==> && (r.Some? <==> |Unsigned(s)| >= 1 && AllDigits(Unsigned(s)) && DigitsValue(Unsigned(s)) <= I64Max)
                && (r.Some? ==> r.value == DigitsValue(Unsigned(s)))
  {
    ParseSigned(s, I64Min, I64Max)
  }

  /** Parsing what `Display` printed gives the number back, for every value
      of the type. */
  lemma ParseUnsignedRoundTrip(n: nat, max: nat)
    requires n <= max
    ensures ParseUnsigned(NatToString(n), max) == Some(n)
  {
    NatToStringValue(n);
  }

  lemma ParseSignedRoundTrip(i: int, min: int, max: nat)
    requires min <= 0 && min <= i <= max
    ensures ParseSigned(IntToString(i), min, max) == Some(i)
  {
    var s := IntToString(i);
    if i < 0 {
      assert s[1..] == NatToString(-i);
      NatToStringValue(-i);
    } else {
      assert s[0] != '-';
      ParseUnsignedRoundTrip(i, max);
    }
  }

  /** Distinct integers print differently. */
  lemma IntToStringInjective(a: int, b: int)
    requires IntToString(a) == IntToString(b)
    ensures a == b
  {
    var m: nat := (if a < 0 then -a else a) + (if b < 0 then -b else b);
    ParseSignedRoundTrip(a, 0 - m, m);
    ParseSignedRoundTrip(b, 0 - m, m);
  }
}
