/** Decimal text: what `%u` and `{}` print, and what `%u` reads back.

    Ring names and dotted IPv4 addresses are both built from it. */
module Decimal {

  predicate IsDigit(c: char) {
    '0' <= c <= '9'
  }

  predicate AllDigits(s: string) {
    forall i :: 0 <= i < |s| ==> IsDigit(s[i])
  }

  function Digit(d: nat): (c: char)
    requires d < 10
    ensures IsDigit(c)
  {
    ('0' as int + d) as char
  }

  function DigitValue(c: char): (d: nat)
    requires IsDigit(c)
    ensures d < 10 && Digit(d) == c
  {
    c as int - '0' as int
  }

  /** The decimal text of `n`, without leading zeros. */
  function Print(n: nat): (s: string)
    ensures |s| > 0 && AllDigits(s)
  {
    if n < 10 then [Digit(n)] else Print(n / 10) + [Digit(n % 10)]
  }

  /** The number a string of digits denotes. */
  function Value(s: string): nat
    requires AllDigits(s)
  {
    if s == [] then 0 else Value(s[..|s| - 1]) * 10 + DigitValue(s[|s| - 1])
  }

  /** How many digits `s` starts with. */
  function Span(s: string): (n: nat)
    ensures n <= |s| && AllDigits(s[..n])
    ensures n < |s| ==> !IsDigit(s[n])
  {
    if s == [] || !IsDigit(s[0]) then 0
    else
      var n := Span(s[1..]);
      assert s[..n + 1] == [s[0]] + s[1..][..n];
      n + 1
  }

  const DIGITS: string := "0123456789"

  lemma DigitText(d: nat)
    requires d < 10
    ensures Digit(d) == DIGITS[d]
  {
    var digits := ['0', '1', '2', '3', '4', '5', '6', '7', '8', '9'];
    assert digits[d] == Digit(d);
  }

  /** A printed number ends in the digit its remainder by ten names, behind the
      printed quotient, if there is one. */
  lemma PrintText(n: nat)
    ensures Print(n)[|Print(n)| - 1] == DIGITS[n % 10]
    ensures Print(n)[..|Print(n)| - 1] == if n < 10 then "" else Print(n / 10)
  {
    DigitText(n % 10);
  }

  /** Leading zeros do not matter. */
  lemma {:induction false} LeadingZero(s: string)
    requires AllDigits(s)
    ensures AllDigits("0" + s) && Value("0" + s) == Value(s)
  {
    if s == [] {
      assert "0" + s == "0" && "0"[..0] == [];
    } else {
      LeadingZero(s[..|s| - 1]);
      assert ("0" + s)[..|s|] == "0" + s[..|s| - 1];
    }
  }

  lemma {:induction false} ValueOfPrint(n: nat)
    ensures Value(Print(n)) == n
  {
    if n >= 10 {
      var s := Print(n);
      assert s[..|s| - 1] == Print(n / 10);
      ValueOfPrint(n / 10);
    }
  }

  /** Distinct numbers have distinct decimal texts. */
  lemma PrintInjective(a: nat, b: nat)
    requires Print(a) == Print(b)
    ensures a == b
  {
    ValueOfPrint(a);
    ValueOfPrint(b);
  }

  /** Greedy scanning stops exactly at the end of a printed number. */
  lemma {:induction false} SpanOfDigits(s: string, rest: string)
    requires AllDigits(s)
    requires rest == [] || !IsDigit(rest[0])
    ensures Span(s + rest) == |s|
  {
    if s == [] {
      assert s + rest == rest;
    } else {
      assert (s + rest)[1..] == s[1..] + rest;
      SpanOfDigits(s[1..], rest);
    }
  }

  /** A number below 10^k prints in at most k digits. */
  lemma PrintWidth(n: nat)
    ensures n < 10 ==> |Print(n)| == 1
    ensures n < 256 ==> |Print(n)| <= 3
  {
    if 10 <= n < 256 {
      var m := n / 10;
      assert m < 26 && m / 10 < 10;
      assert m >= 10 ==> |Print(m)| == |Print(m / 10)| + 1;
    }
  }
}
