/** Go's `uint64`. */
module Uint64 {

  const TwoTo64: nat := 0x1_0000_0000_0000_0000

  type u64 = x: int | 0 <= x < TwoTo64
}

/** Decimal formatting (`fmt.Sprintf("%d", n)`) and parsing
    (`strconv.ParseUint(s, 10, 64)`) of unsigned integers. */
module Strconv {
  import opened Wrappers
  import opened Uint64

  predicate IsDigit(c: char) { '0' <= c <= '9' }

  predicate AllDigits(s: string) { forall i :: 0 <= i < |s| ==> IsDigit(s[i]) }

  function DigitValue(c: char): nat
    requires IsDigit(c)
  {
    (c as int) - ('0' as int)
  }

  function DigitChar(d: nat): (c: char)
    requires d < 10
    ensures IsDigit(c) && DigitValue(c) == d
  {
    (('0' as int) + d) as char
  }

  /** The value of a string of decimal digits, most significant digit first. */
  function DigitsValue(s: string): nat
    requires AllDigits(s)
  {
    if s == [] then 0 else DigitsValue(s[..|s| - 1]) * 10 + DigitValue(s[|s| - 1])
  }

  /** `fmt.Sprintf("%d", n)`: the shortest decimal numeral of `n`. */
  function FormatUint(n: nat): (s: string)
    ensures |s| > 0 && AllDigits(s)
    ensures |s| > 1 ==> s[0] != '0'
  {
    if n < 10 then [DigitChar(n)] else FormatUint(n / 10) + [DigitChar(n % 10)]
  }

  /** `strconv.ParseUint(s, 10, 64)`: a sign, a base prefix, an underscore or
      any other non-digit is a syntax error, the empty string is a syntax
      error, and a value of 2^64 or more is a range error. */
  function ParseUint(s: string): (r: Option<u64>)
    ensures r.Some? ==> s != [] && AllDigits(s) && r.value == DigitsValue(s)
    ensures s == [] || !AllDigits(s) ==> r.None?
    ensures s != [] && AllDigits(s) ==> (r.Some? <==> DigitsValue(s) < TwoTo64)
  {
    if s != [] && AllDigits(s) && DigitsValue(s) < TwoTo64 then Some(DigitsValue(s)) else None
  }

  /** Reading back a formatted number gives the number. */
  lemma {:induction false} DigitsValueOfFormat(n: nat)
    ensures DigitsValue(FormatUint(n)) == n
  {
    var s := FormatUint(n);
    if n < 10 {
      assert s[..|s| - 1] == [];
    } else {
      assert s[..|s| - 1] == FormatUint(n / 10);
      DigitsValueOfFormat(n / 10);
    }
  }

  /** Every 64-bit value survives formatting then parsing. */
  lemma ParseFormatRoundTrip(n: u64)
    ensures ParseUint(FormatUint(n)) == Some(n)
  {
    DigitsValueOfFormat(n);
  }

  /** Distinct numbers have distinct numerals. */
  lemma FormatUintInjective(a: nat, b: nat)
    ensures FormatUint(a) == FormatUint(b) ==> a == b
  {
    DigitsValueOfFormat(a);
    DigitsValueOfFormat(b);
  }
}
