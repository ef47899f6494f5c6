/**
 * Unsigned 64-bit integers and their decimal text form. Attribute and type ids
 * are `u64` values; the metamodel receives them as strings and parses them
 * with the standard unsigned-integer parser, and hands them back as strings
 * written in decimal.
 */
module Decimal {
  import opened Results

  const U64_LIMIT: nat := 0x1_0000_0000_0000_0000

  type U64 = n: nat | n < U64_LIMIT

  predicate IsDigit(c: char) { '0' <= c <= '9' }

  predicate AllDigits(s: string) { forall i :: 0 <= i < |s| ==> IsDigit(s[i]) }

  function DigitValue(c: char): (d: nat)
    requires IsDigit(c)
    ensures d < 10
  {
    c as int - '0' as int
  }

  function DigitChar(d: nat): (c: char)
    requires d < 10
    ensures IsDigit(c) && DigitValue(c) == d
  {
    ('0' as int + d) as char
  }

  /** The number a (possibly empty) string of decimal digits denotes, most significant digit first. */
  function DigitsValue(s: string): nat
    requires AllDigits(s)
  {
    if |s| == 0 then 0 else DigitsValue(s[..|s| - 1]) * 10 + DigitValue(s[|s| - 1])
  }

  /** The shortest decimal text of `n`: the `to_string` of an unsigned integer. */
  function ToDecimal(n: nat): (r: string)
    ensures |r| > 0 && AllDigits(r)
    ensures DigitsValue(r) == n
    ensures |r| > 1 ==> r[0] != '0'
  {
    if n < 10 then [DigitChar(n)]
    else
      var prefix := ToDecimal(n / 10);
      var r := prefix + [DigitChar(n % 10)];
      assert r[..|r| - 1] == prefix;
      r
  }

  /**
   * The unsigned 64-bit parser: an optional leading '+', then at least one
   * decimal digit and nothing else; a value of 2^64 or more overflows.
   */
  function ParseU64(s: string): (r: Option<U64>)
    ensures r.Some? ==> |s| > 0 && (IsDigit(s[0]) || s[0] == '+')
    ensures s == [] ==> r.None?
  {
    var digits := if |s| > 0 && s[0] == '+' then s[1..] else s;
    if |digits| == 0 || !AllDigits(digits) then None
    else
      var v := DigitsValue(digits);
      if v < U64_LIMIT then Some(v) else None
  }

  /**
   * A non-empty digit string parses to the number it denotes exactly when
   * that number fits in 64 bits; a larger one overflows and is rejected.
   */
  lemma ParseDigits(s: string)
    requires |s| > 0 && AllDigits(s)
    ensures ParseU64(s).Some? <==> DigitsValue(s) < U64_LIMIT
    ensures ParseU64(s).Some? ==> ParseU64(s).value == DigitsValue(s)
  {
    assert s[0] != '+' by { assert IsDigit(s[0]); }
  }

  /** A digit string denoting 2^64 or more is rejected. */
  lemma ParseRejectsOverflow(s: string)
    requires |s| > 0 && AllDigits(s) && DigitsValue(s) >= U64_LIMIT
    ensures ParseU64(s).None?
  {
    ParseDigits(s);
  }

  /** A leading '+' does not change what a digit string parses to. */
  lemma ParseIgnoresPlus(s: string)
    requires |s| > 0 && AllDigits(s)
    ensures ParseU64("+" + s) == ParseU64(s)
  {
    assert ("+" + s)[1..] == s;
    assert s[0] != '+' by { assert IsDigit(s[0]); }
  }

  /** A leading zero does not change the number a digit string denotes. */
  lemma {:induction false} DigitsValueLeadingZero(s: string)
    requires AllDigits(s)
    ensures AllDigits("0" + s) && DigitsValue("0" + s) == DigitsValue(s)
    decreases |s|
  {
    var z := "0" + s;
    assert AllDigits(z) by {
      forall i | 0 <= i < |z| ensures IsDigit(z[i]) {
        if i > 0 { assert z[i] == s[i - 1]; }
      }
    }
    if |s| == 0 {
      assert z[..0] == [];
    } else {
      var prefix := s[..|s| - 1];
      assert z[..|z| - 1] == "0" + prefix;
      assert z[|z| - 1] == s[|s| - 1];
      DigitsValueLeadingZero(prefix);
    }
  }

  /** Leading zeros are accepted and do not change the parsed value. */
  lemma ParseIgnoresLeadingZero(s: string)
    requires |s| > 0 && AllDigits(s)
    ensures ParseU64("0" + s) == ParseU64(s)
  {
    DigitsValueLeadingZero(s);
    ParseDigits(s);
    ParseDigits("0" + s);
  }

  /** Parsing the decimal text of a 64-bit id gives that id back. */
  lemma ParseToDecimal(n: U64)
    ensures ParseU64(ToDecimal(n)) == Some(n)
  {
    var s := ToDecimal(n);
    assert s[0] != '+' by { assert IsDigit(s[0]); }
  }

  /** The decimal texts of distinct numbers are distinct. */
  lemma ToDecimalInjective(a: U64, b: U64)
    requires ToDecimal(a) == ToDecimal(b)
    ensures a == b
  {
    ParseToDecimal(a);
    ParseToDecimal(b);
  }

  /** A text holding a character that is neither a digit nor a leading '+' never parses. */
  lemma ParseRejectsNonDigit(s: string, i: nat)
    requires i < |s| && !IsDigit(s[i]) && !(i == 0 && s[i] == '+')
    ensures ParseU64(s).None?
  {
    if |s| > 0 && s[0] == '+' {
      assert s[1..][i - 1] == s[i];
    }
  }
}
