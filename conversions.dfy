/** `FromStr` for the scalar types the builders produce. `String`
    conversion never fails; the unsigned integer types accept an optional
    leading `+` followed by at least one ASCII digit, and reject values
    above the type's maximum (Rust's `from_str` for `u8`, `u16`, `u32`,
    `usize`). `usize` is taken to be 64 bits wide. */
module Conversions {
  import opened Results

  type u8 = x: int | 0 <= x < 0x100
  type u16 = x: int | 0 <= x < 0x1_0000
  type u32 = x: int | 0 <= x < 0x1_0000_0000
  type usize = x: int | 0 <= x < 0x1_0000_0000_0000_0000

  predicate IsDigit(c: char) { '0' <= c <= '9' }

  predicate AllDigits(s: string) { forall i :: 0 <= i < |s| ==> IsDigit(s[i]) }

  /** The number a string of decimal digits denotes. */
  function DecimalValue(s: string): nat
    requires AllDigits(s)
  {
    if s == [] then 0
    else DecimalValue(s[..|s| - 1]) * 10 + ((s[|s| - 1] as int) - ('0' as int))
  }

  /** The digits part of a numeral: what follows an optional leading `+`. */
  function Digits(s: string): string
  {
    if s != [] && s[0] == '+' then s[1..] else s
  }

  /** Rust's `from_str` for an unsigned type whose largest value is `max`. */
  function ParseUnsigned(s: string, max: nat): (r: Option<nat>)
    ensures r.Some? ==> r.value <= max
  {
    var d := Digits(s);
    if d != [] && AllDigits(d) && DecimalValue(d) <= max then Some(DecimalValue(d)) else None
  }

  function ParseU8(s: string): (r: Option<u8>)
  {
    match ParseUnsigned(s, 0xFF)
    case None => None
    case Some(n) => Some(n)
  }

  function ParseU16(s: string): (r: Option<u16>)
  {
    match ParseUnsigned(s, 0xFFFF)
    case None => None
    case Some(n) => Some(n)
  }

  function ParseU32(s: string): (r: Option<u32>)
  {
    match ParseUnsigned(s, 0xFFFF_FFFF)
    case None => None
    case Some(n) => Some(n)
  }

  function ParseUsize(s: string): (r: Option<usize>)
  {
    match ParseUnsigned(s, 0xFFFF_FFFF_FFFF_FFFF)
    case None => None
    case Some(n) => Some(n)
  }

  /** `String::from_str`: always succeeds with the text itself. */
  function ParseText(s: string): (r: Option<string>)
    ensures r == Some(s)
  {
    Some(s)
  }

  /** Decimal rendering of a natural number (Python's `f"{n}"`, Rust's `to_string`). */
  function NatToDecimal(n: nat): (r: string)
    ensures r != [] && AllDigits(r)
  {
    if n < 10 then [('0' as int + n) as char]
    else NatToDecimal(n / 10) + [('0' as int + n % 10) as char]
  }

  /** Reading back a rendered number gives the number. */
  lemma {:induction false} DecimalRoundTrip(n: nat)
    ensures DecimalValue(NatToDecimal(n)) == n
  {
    if n >= 10 {
      DecimalRoundTrip(n / 10);
      var s := NatToDecimal(n);
      assert s[..|s| - 1] == NatToDecimal(n / 10);
    }
  }

  /** Every number up to the maximum parses from its own rendering, with or
      without a leading `+`; larger numbers are rejected. */
  lemma ParseUnsignedRoundTrip(n: nat, max: nat)
    ensures ParseUnsigned(NatToDecimal(n), max) == if n <= max then Some(n) else None
    ensures ParseUnsigned("+" + NatToDecimal(n), max) == if n <= max then Some(n) else None
  {
    DecimalRoundTrip(n);
    assert ("+" + NatToDecimal(n))[1..] == NatToDecimal(n);
  }

  /** The text that is not a numeral is rejected: the empty string, a lone
      `+`, a sign `-`, and anything holding a non-digit after the `+`. */
  lemma ParseUnsignedRejects(s: string, max: nat)
    ensures ParseUnsigned("", max).None? && ParseUnsigned("+", max).None?
    ensures ParseUnsigned("-" + s, max).None?
    ensures (exists i :: 0 <= i < |Digits(s)| && !IsDigit(Digits(s)[i])) ==> ParseUnsigned(s, max).None?
  {
    assert ("-" + s)[0] == '-';
  }
}
