/** Invariant-culture decimal text for 64-bit integers: `long.ToString` and
    `long.Parse(s, CultureInfo.InvariantCulture)` with the default integer
    number style (surrounding white space and a leading sign allowed). */
module Decimal {
  import opened Wrappers

  const MinInt64: int := -0x8000_0000_0000_0000
  const MaxInt64: int := 0x7FFF_FFFF_FFFF_FFFF

  predicate IsInt64(n: int) {
    MinInt64 <= n <= MaxInt64
  }

  predicate IsDigit(c: char) {
    '0' <= c <= '9'
  }

  function DigitChar(d: int): (c: char)
    requires 0 <= d < 10
    ensures IsDigit(c) && c as int - '0' as int == d
  {
    ('0' as int + d) as char
  }

  /** The decimal digits of `n`, most significant first, without leading zeros. */
  function NatToString(n: nat): (s: string)
    ensures s != [] && AllDigits(s)
    ensures n > 0 ==> s[0] != '0'
    decreases n
  {
    if n < 10 then [DigitChar(n)] else NatToString(n / 10) + [DigitChar(n % 10)]
  }

  /** `n.ToString(CultureInfo.InvariantCulture)`. */
  function IntToString(n: int): string {
    if n < 0 then "-" + NatToString(-n) else NatToString(n)
  }

  predicate AllDigits(s: string) {
    forall i :: 0 <= i < |s| ==> IsDigit(s[i])
  }

  /** The value of a string of decimal digits. */
  function DigitsValue(s: string): (v: nat)
    requires AllDigits(s)
    decreases |s|
  {
    if s == [] then 0 else 10 * DigitsValue(s[..|s| - 1]) + (s[|s| - 1] as int - '0' as int)
  }

  lemma {:induction false} DigitsValueOfNat(n: nat)
    ensures DigitsValue(NatToString(n)) == n
    decreases n
  {
    if n >= 10 {
      var s := NatToString(n);
      assert s[..|s| - 1] == NatToString(n / 10);
      DigitsValueOfNat(n / 10);
    }
  }

  /** The white space `long.Parse` skips at either end. */
  predicate IsNumberWhiteSpace(c: char) {
    c == ' ' || '\t' <= c <= '\r'
  }

  function TrimNumberWhiteSpace(s: string): (r: string)
    ensures |r| <= |s|
    ensures r == [] || (!IsNumberWhiteSpace(r[0]) && !IsNumberWhiteSpace(r[|r| - 1]))
    ensures (s == [] || (!IsNumberWhiteSpace(s[0]) && !IsNumberWhiteSpace(s[|s| - 1]))) ==> r == s
    decreases |s|
  {
    if s != [] && IsNumberWhiteSpace(s[0]) then TrimNumberWhiteSpace(s[1..])
    else if s != [] && IsNumberWhiteSpace(s[|s| - 1]) then TrimNumberWhiteSpace(s[..|s| - 1])
    else s
  }

  /** `long.Parse(s, CultureInfo.InvariantCulture)`: null throws
      `ArgumentNullException`, text that is not an optionally signed run of
      digits throws `FormatException`, a value outside 64 bits throws
      `OverflowException`. */
  function ParseInt64(s: Option<string>): (r: Result<int>)
    ensures r.Success? ==> IsInt64(r.value)
    ensures s.None? ==> r.Failure? && r.error.ArgumentNull?
  {
    if s.None? then Failure(ArgumentNull("s"))
    else
      var t := TrimNumberWhiteSpace(s.value);
      var negative := t != [] && t[0] == '-';
      var digits := if t != [] && (t[0] == '-' || t[0] == '+') then t[1..] else t;
      if digits == [] || !AllDigits(digits) then Failure(Format("Input string was not in a correct format."))
      else
        var v: int := if negative then -(DigitsValue(digits) as int) else DigitsValue(digits);
        if !IsInt64(v) then Failure(Overflow) else Success(v)
  }

  /** Printing a 64-bit value and parsing the text gives the value back. */
  lemma ParsePrinted(n: int)
    requires IsInt64(n)
    ensures ParseInt64(Some(IntToString(n))) == Success(n)
  {
    var s := IntToString(n);
    if n < 0 {
      DigitsValueOfNat(-n);
      assert s[1..] == NatToString(-n);
    } else {
      DigitsValueOfNat(n);
    }
    assert TrimNumberWhiteSpace(s) == s;
  }
}
