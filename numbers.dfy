/**
 * Rust's fixed-width unsigned integers, their decimal `Display`, and `u64::from_str`
 * (`str::parse::<u64>`), which `WaitFor::millis_in_env_var` relies on.
 */
module Numbers {
  import opened Wrappers

  const U16_LIMIT: nat := 0x1_0000
  const U64_LIMIT: nat := 0x1_0000_0000_0000_0000

  type u16 = x: int | 0 <= x < U16_LIMIT
  type u64 = x: int | 0 <= x < U64_LIMIT

  predicate IsDigit(c: char) {
    '0' <= c <= '9'
  }

  predicate AllDigits(s: string) {
    forall i :: 0 <= i < |s| ==> IsDigit(s[i])
  }

  function DigitChar(d: nat): (c: char)
    requires d < 10
    ensures IsDigit(c) && c as int - '0' as int == d
  {
    ('0' as int + d) as char
  }

  /** The number a string of decimal digits spells, most significant digit first. */
  function DigitsValue(s: string): nat
    requires AllDigits(s)
  {
    if s == [] then 0
    else DigitsValue(s[..|s| - 1]) * 10 + (s[|s| - 1] as int - '0' as int)
  }

  /** `format!("{n}")` for an unsigned integer: shortest decimal form, no sign, no padding. */
  function ToDecimal(n: nat): (s: string)
    ensures |s| > 0 && AllDigits(s)
    ensures s[0] == '0' ==> n == 0 && s == "0"
  {
    if n < 10 then [DigitChar(n)] else ToDecimal(n / 10) + [DigitChar(n % 10)]
  }

  /**
   * `s.parse::<u64>()`: an optional leading `+`, then one or more ASCII digits; no sign
   * alone, no `-`, no whitespace; a value of 2^64 or more is an overflow error. Leading
   * zeros are accepted. The Rust error kinds (empty, invalid digit, overflow) all become
   * `None`, since the only caller discards them.
   */
  function ParseU64(s: string): (r: Option<u64>)
    ensures r.Some? <==>
      var d := if |s| > 0 && s[0] == '+' then s[1..] else s;
      |d| > 0 && AllDigits(d) && DigitsValue(d) < U64_LIMIT
    ensures r.Some? ==>
      var d := if s[0] == '+' then s[1..] else s;
      r.value == DigitsValue(d)
  {
    var digits := if |s| > 0 && s[0] == '+' then s[1..] else s;
    if |digits| == 0 || !AllDigits(digits) then None
    else if DigitsValue(digits) < U64_LIMIT then Some(DigitsValue(digits))
    else None
  }

  lemma {:induction false} DecimalValue(n: nat)
    ensures DigitsValue(ToDecimal(n)) == n
  {
    if n >= 10 {
      DecimalValue(n / 10);
      var s := ToDecimal(n);
      assert s[..|s| - 1] == ToDecimal(n / 10);
    }
  }

  /**
   * Parsing the decimal rendering of a number gives the number back exactly when it fits
   * in a `u64`; beyond that the parse reports overflow.
   */
  lemma DecimalRoundTrip(n: nat)
    ensures ParseU64(ToDecimal(n)) == if n < U64_LIMIT then Some(n) else None
    ensures ParseU64("+" + ToDecimal(n)) == ParseU64(ToDecimal(n))
  {
    DecimalValue(n);
    assert ("+" + ToDecimal(n))[1..] == ToDecimal(n);
  }

  /** Text that is not an unsigned decimal is refused: empty, a lone sign, a minus sign, spaces. */
  lemma ParseRejectsNonNumbers()
    ensures ParseU64("") == None
    ensures ParseU64("+") == None
    ensures ParseU64("-1") == None
    ensures ParseU64(" 1") == None
    ensures ParseU64("1 ") == None
    ensures ParseU64("abc") == None
    ensures ParseU64("250") == Some(250)
    ensures ParseU64("007") == Some(7)
  {
    assert !IsDigit(" 1"[0]);
    assert !IsDigit("1 "[1]);
    assert "+"[1..] == "";
    assert DigitsValue("2") == 2 && DigitsValue("25") == 25 && DigitsValue("250") == 250;
    assert "250"[..2] == "25" && "25"[..1] == "2";
    assert "007"[..2] == "00" && "00"[..1] == "0";
  }
}
