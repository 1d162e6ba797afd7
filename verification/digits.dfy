/**
 * Decimal numerals: the value `parseInt` reads from a run of digits, the text
 * `Number.prototype.toString` writes for an integer, and `padStart`.
 */
module Digits {
  import opened Wrappers

  predicate IsDigit(c: char) {
    '0' <= c <= '9'
  }

  predicate AllDigits(s: string) {
    forall i :: 0 <= i < |s| ==> IsDigit(s[i])
  }

  /** A string the regular-expression atom `\d+` matches as a whole. */
  predicate IsNumeral(s: string) {
    |s| > 0 && AllDigits(s)
  }

  function DigitValue(c: char): nat
    requires IsDigit(c)
  {
    c as int - '0' as int
  }

  function DigitChar(d: nat): (c: char)
    requires d < 10
    ensures IsDigit(c) && DigitValue(c) == d
  {
    ('0' as int + d) as char
  }

  /** `parseInt` of a run of decimal digits; leading zeros are allowed and ignored. */
  function Value(s: string): nat
    requires AllDigits(s)
    decreases |s|
  {
    if |s| == 0 then 0 else Value(s[..|s| - 1]) * 10 + DigitValue(s[|s| - 1])
  }

  lemma ValueAppend(s: string, c: char)
    requires AllDigits(s) && IsDigit(c)
    ensures Value(s + [c]) == Value(s) * 10 + DigitValue(c)
  {
    assert (s + [c])[..|s|] == s;
  }

  /** A leading zero does not change the value read. */
  lemma {:induction false} ValueLeadingZero(s: string)
    requires AllDigits(s)
    ensures Value("0" + s) == Value(s)
    decreases |s|
  {
    if |s| > 0 {
      var init := s[..|s| - 1];
      ValueLeadingZero(init);
      assert ("0" + s)[..|s|] == "0" + init;
    }
  }

  /** Two digits never read as more than 99. */
  lemma ValueOfTwo(s: string)
    requires AllDigits(s) && |s| == 2
    ensures Value(s) == DigitValue(s[0]) * 10 + DigitValue(s[1]) && Value(s) < 100
  {
    assert s[..1][..0] == [];
    assert s[..1][0] == s[0];
    assert Value(s[..1]) == DigitValue(s[0]);
  }

  /** `n.toString()` for a non-negative integer: shortest decimal numeral, read back as `n`. */
  function NatToDigits(n: nat): (r: string)
    ensures IsNumeral(r) && Value(r) == n
    ensures |r| == 1 <==> n < 10
    ensures r[0] == '0' ==> n == 0
    decreases n
  {
    if n < 10 then [DigitChar(n)]
    else
      var init := NatToDigits(n / 10);
      ValueAppend(init, DigitChar(n % 10));
      init + [DigitChar(n % 10)]
  }

  /** `i.toString()` for an integer: a minus sign before the magnitude when negative. */
  function IntToString(i: int): (r: string)
    ensures ReadInt(r) == Some(i)
    ensures |r| > 0 && (r[0] == '-' <==> i < 0)
  {
    if i < 0 then
      var m := NatToDigits(-i);
      assert ("-" + m)[1..] == m;
      "-" + m
    else NatToDigits(i)
  }

  /** The text of an integer holds only digits and a minus sign. */
  lemma IntToStringChars(i: int)
    ensures forall c :: c in IntToString(i) ==> IsDigit(c) || c == '-'
  {
    if i < 0 {
      assert IntToString(i) == "-" + NatToDigits(-i);
      assert forall c :: c in NatToDigits(-i) ==> IsDigit(c);
    } else {
      assert forall c :: c in NatToDigits(i) ==> IsDigit(c);
    }
  }

  /** Reads an optional minus sign followed by digits: the inverse of `IntToString`. */
  function ReadInt(s: string): Option<int> {
    if |s| > 0 && s[0] == '-' && IsNumeral(s[1..]) then Some(0 - Value(s[1..]))
    else if IsNumeral(s) then Some(Value(s))
    else None
  }

  /** `s.padStart(width, fill)`: `s` left-filled to `width` characters, unchanged when already that long. */
  function PadStart(s: string, width: nat, fill: char): (r: string)
    ensures |r| == if |s| >= width then |s| else width
    ensures r[|r| - |s|..] == s
    ensures forall i :: 0 <= i < |r| - |s| ==> r[i] == fill
  {
    if |s| >= width then s else seq(width - |s|, _ => fill) + s
  }
}
