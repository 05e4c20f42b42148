/** Decimal text: `%d` formatting and strconv.ParseInt(s, 10, 64). */
module Decimal {
  import opened Wrappers

  predicate IsDigit(c: char) {
    '0' <= c <= '9'
  }

  predicate AllDigits(s: string) {
    forall i :: 0 <= i < |s| ==> IsDigit(s[i])
  }

  function DigitValue(c: char): nat
    requires IsDigit(c)
  {
    c as int - '0' as int
  }

  function DigitChar(d: nat): (c: char)
    requires d < 10
    ensures IsDigit(c) && DigitValue(c) == d
  {
    ('0' as int + d) as char
  }

  /** The value of a string of digits, most significant digit first. */
  function DecimalValue(s: string): nat
    requires AllDigits(s)
  {
    if s == [] then 0 else DecimalValue(s[..|s| - 1]) * 10 + DigitValue(s[|s| - 1])
  }

  /** `fmt.Sprintf("%d", n)` for a non-negative n: the shortest digit string of n. */
  function FormatDecimal(n: nat): (s: string)
    ensures |s| > 0 && AllDigits(s)
    ensures DecimalValue(s) == n
    ensures |s| > 1 ==> s[0] != '0'
  {
    if n < 10 then [DigitChar(n)]
    else
      var prefix := FormatDecimal(n / 10);
      var s := prefix + [DigitChar(n % 10)];
      assert s[..|s| - 1] == prefix;
      s
  }

  const Int64Min: int := -0x8000_0000_0000_0000
  const Int64Max: int := 0x7FFF_FFFF_FFFF_FFFF

  /**
   * The text spells v in base 10: one or more ASCII digits, optionally
   * after a single '+' or '-' sign.
   */
  predicate Spells(s: string, v: int) {
    (|s| > 0 && AllDigits(s) && v == DecimalValue(s))
    || (|s| > 1 && s[0] == '+' && AllDigits(s[1..]) && v == DecimalValue(s[1..]))
    || (|s| > 1 && s[0] == '-' && AllDigits(s[1..]) && v == 0 - DecimalValue(s[1..]))
  }

  /**
   * strconv.ParseInt(s, 10, 64): an optional '+' or '-', then one or more
   * ASCII digits, and a value inside the int64 range; None is the error.
   */
  function ParseInt64(s: string): (r: Option<int>)
    ensures r.Some? ==> Int64Min <= r.value <= Int64Max && Spells(s, r.value)
    ensures forall v :: Spells(s, v) && Int64Min <= v <= Int64Max ==> r == Some(v)
  {
    if s == [] then None
    else
      var digits := if s[0] == '+' || s[0] == '-' then s[1..] else s;
      if digits == [] || !AllDigits(digits) then None
      else
        var magnitude := DecimalValue(digits);
        var v := if s[0] == '-' then 0 - magnitude as int else magnitude as int;
        if Int64Min <= v <= Int64Max then Some(v) else None
  }

  /** Formatting a non-negative int64 and parsing it back gives the number again. */
  lemma ParseFormatRoundTrip(n: nat)
    requires n <= Int64Max
    ensures ParseInt64(FormatDecimal(n)) == Some(n)
  {
    var s := FormatDecimal(n);
    assert IsDigit(s[0]);
  }
}
