/**
 * The integer conversion processCommand relies on for the tick count
 * (`sscanf(command, "tick %d", &ticks)`): skip white space, read an
 * optional sign and then the longest run of decimal digits. No digit means
 * the conversion fails and the variable keeps its value. Show is the
 * decimal rendering of an integer, the partner the conversion inverts.
 */
module Scanning {
  import opened Options

  /** The white-space characters of the C locale. */
  predicate IsSpace(c: char) {
    c == ' ' || c == '\t' || c == '\n' || c == '\U{000B}' || c == '\U{000C}' || c == '\r'
  }

  predicate IsDigit(c: char) {
    '0' <= c <= '9'
  }

  function DigitValue(c: char): nat
    requires IsDigit(c)
  {
    (c as int) - ('0' as int)
  }

  function DigitChar(d: nat): (c: char)
    requires d < 10
    ensures IsDigit(c) && DigitValue(c) == d
  {
    (('0' as int) + d) as char
  }

  /** s without its leading white space. */
  function SkipSpace(s: string): (t: string)
    ensures |t| <= |s| && t == s[|s| - |t|..]
    ensures forall i :: 0 <= i < |s| - |t| ==> IsSpace(s[i])
    ensures t == [] || !IsSpace(t[0])
  {
    if |s| > 0 && IsSpace(s[0]) then SkipSpace(s[1..]) else s
  }

  /** The length of the run of digits s starts with. */
  function LeadingDigits(s: string): (k: nat)
    ensures k <= |s|
    ensures forall i :: 0 <= i < k ==> IsDigit(s[i])
    ensures k < |s| ==> !IsDigit(s[k])
  {
    if |s| > 0 && IsDigit(s[0]) then 1 + LeadingDigits(s[1..]) else 0
  }

  /** The value of a string of decimal digits, most significant first. */
  function DecimalValue(d: string): nat
    requires forall i :: 0 <= i < |d| ==> IsDigit(d[i])
  {
    if d == [] then 0 else 10 * DecimalValue(d[..|d| - 1]) + DigitValue(d[|d| - 1])
  }

  /** Reads the digits s starts with; fails when there is none. */
  function ScanDigits(s: string): Option<nat> {
    var k := LeadingDigits(s);
    if k == 0 then None else Some(DecimalValue(s[..k]))
  }

  /** An optional sign followed by digits, at the start of t. */
  function ScanSigned(t: string): Option<int> {
    var signed := |t| > 0 && (t[0] == '-' || t[0] == '+');
    var negative := |t| > 0 && t[0] == '-';
    match ScanDigits(if signed then t[1..] else t)
    case None => None
    case Some(v) =>
      var value: int := if negative then -(v as int) else v;
      Some(value)
  }

  /** The "%d" conversion of a scanf-style format on s. */
  function ScanInt(s: string): Option<int> {
    ScanSigned(SkipSpace(s))
  }

  /** The decimal digits of n, without leading zeros. */
  function NatDigits(n: nat): (d: string)
    ensures |d| >= 1
    ensures forall i :: 0 <= i < |d| ==> IsDigit(d[i])
  {
    if n < 10 then [DigitChar(n)] else NatDigits(n / 10) + [DigitChar(n % 10)]
  }

  /** The decimal rendering of an integer, with a minus sign when it is negative. */
  function Show(n: int): string {
    if n < 0 then "-" + NatDigits(-n) else NatDigits(n)
  }

  /** Reading back the digits of n gives n. */
  lemma {:induction false} DecimalValueOfDigits(n: nat)
    ensures DecimalValue(NatDigits(n)) == n
  {
    if n >= 10 {
      var d := NatDigits(n);
      assert d[..|d| - 1] == NatDigits(n / 10);
      DecimalValueOfDigits(n / 10);
    }
  }

  /** The digit run of d + rest is d when rest does not start with a digit. */
  lemma {:induction false} LeadingDigitsOfConcat(d: string, rest: string)
    requires forall i :: 0 <= i < |d| ==> IsDigit(d[i])
    requires rest == [] || !IsDigit(rest[0])
    ensures LeadingDigits(d + rest) == |d|
  {
    if d != [] {
      assert (d + rest)[1..] == d[1..] + rest;
      LeadingDigitsOfConcat(d[1..], rest);
    }
  }

  /** Blanks before a string that does not start with a blank are skipped. */
  lemma {:induction false} SkipSpaceOfConcat(blanks: string, t: string)
    requires forall i :: 0 <= i < |blanks| ==> IsSpace(blanks[i])
    requires t == [] || !IsSpace(t[0])
    ensures SkipSpace(blanks + t) == t
  {
    if blanks != [] {
      assert (blanks + t)[1..] == blanks[1..] + t;
      SkipSpaceOfConcat(blanks[1..], t);
    }
  }

  /** Digits of n followed by a non-digit scan back to n. */
  lemma ScanDigitsOfShow(n: nat, rest: string)
    requires rest == [] || !IsDigit(rest[0])
    ensures ScanDigits(NatDigits(n) + rest) == Some(n)
  {
    var d := NatDigits(n);
    LeadingDigitsOfConcat(d, rest);
    assert (d + rest)[..|d|] == d;
    DecimalValueOfDigits(n);
  }

  /** White space and a digit string d + rest skip to d + rest. */
  lemma SkipToNumber(blanks: string, d: string, rest: string)
    requires forall i :: 0 <= i < |blanks| ==> IsSpace(blanks[i])
    requires |d| >= 1 && (IsDigit(d[0]) || d[0] == '-')
    ensures SkipSpace(blanks + (d + rest)) == d + rest
  {
    assert (d + rest)[0] == d[0];
    SkipSpaceOfConcat(blanks, d + rest);
  }

  /** A minus sign, the digits of m and a non-digit read as -m. */
  lemma ScanSignedNegative(m: nat, rest: string)
    requires rest == [] || !IsDigit(rest[0])
    ensures ScanSigned(['-'] + (NatDigits(m) + rest)) == Some(-(m as int))
  {
    var t := ['-'] + (NatDigits(m) + rest);
    assert t[1..] == NatDigits(m) + rest;
    ScanDigitsOfShow(m, rest);
  }

  /** The digits of m and a non-digit read as m. */
  lemma ScanSignedNonNegative(m: nat, rest: string)
    requires rest == [] || !IsDigit(rest[0])
    ensures ScanSigned(NatDigits(m) + rest) == Some(m)
  {
    var t := NatDigits(m) + rest;
    assert t[0] == NatDigits(m)[0];
    ScanDigitsOfShow(m, rest);
  }

  /** The rendering of n, followed by anything that does not continue it, reads as n. */
  lemma ScanSignedOfShow(n: int, rest: string)
    requires rest == [] || !IsDigit(rest[0])
    ensures ScanSigned(Show(n) + rest) == Some(n)
  {
    if n < 0 {
      var m: nat := -n;
      assert Show(n) == "-" + NatDigits(m);
      assert Show(n) + rest == ['-'] + (NatDigits(m) + rest);
      ScanSignedNegative(m, rest);
    } else {
      assert Show(n) == NatDigits(n);
      ScanSignedNonNegative(n, rest);
    }
  }

  /**
   * Round trip: white space, the rendering of n, and anything that does not
   * continue the number, read back as n.
   */
  lemma ScanIntOfShow(blanks: string, n: int, rest: string)
    requires forall i :: 0 <= i < |blanks| ==> IsSpace(blanks[i])
    requires rest == [] || !IsDigit(rest[0])
    ensures ScanInt(blanks + Show(n) + rest) == Some(n)
  {
    assert blanks + Show(n) + rest == blanks + (Show(n) + rest);
    SkipToNumber(blanks, Show(n), rest);
    ScanSignedOfShow(n, rest);
  }

  /** Without a digit after the blanks and the optional sign, the conversion fails. */
  lemma ScanIntNeedsDigit(s: string)
    requires var t := SkipSpace(s);
      if |t| > 0 && (t[0] == '-' || t[0] == '+') then |t| == 1 || !IsDigit(t[1])
      else t == [] || !IsDigit(t[0])
    ensures ScanInt(s) == None
  {
  }
}
