/** The dotted-quad printer and parser of the C shim. */
module Ipv4Text {
  import opened Decimal
  import opened Machine

  datatype Scan = NoMatch | Match(value: u32, rest: string)

  function Octet(ip: u32, shift: nat): (o: nat)
    requires shift <= 3
    ensures o < 256
  {
    (ip / (if shift == 0 then 1 else if shift == 1 then 0x100 else if shift == 2 then 0x1_0000 else 0x100_0000)) % 256
  }

  /** `RTE_IPV4`: each argument is masked to eight bits. */
  function Quad(a: nat, b: nat, c: nat, d: nat): u32 {
    (a % 256) * 0x100_0000 + (b % 256) * 0x1_0000 + (c % 256) * 0x100 + d % 256
  }

  /** `n`, a dot, and what comes after it. */
  function Then(n: nat, rest: string): string {
    Print(n) + ("." + rest)
  }

  /** The four octets of an address, and the address of four octets. */
  lemma OctetsOfQuad(ip: u32, a: nat, b: nat, c: nat, d: nat)
    requires a < 256 && b < 256 && c < 256 && d < 256
    ensures ip == Quad(a, b, c, d)
            <==> a == Octet(ip, 3) && b == Octet(ip, 2) && c == Octet(ip, 1) && d == Octet(ip, 0)
  {
    ShiftTwice(ip);
    var q1, q2, q3 := ip / 0x100, ip / 0x1_0000, ip / 0x100_0000;
    DigitsAgree(ip, q1, ip % 256, q2, q1 % 256, q3, q2 % 256, a, b, c, d);
    assert q3 % 256 == q3;
  }

  /** Base-256 digits are unique. */
  lemma LowDigit(q: nat, r: nat, q': nat, r': nat)
    requires r < 256 && r' < 256
    ensures 256 * q + r == 256 * q' + r' <==> q == q' && r == r'
  {}

  lemma QuadOfBytes(a: nat, b: nat, c: nat, d: nat)
    requires a < 256 && b < 256 && c < 256 && d < 256
    ensures Quad(a, b, c, d) == 256 * (256 * (256 * a + b) + c) + d
  {}

  lemma DigitsAgree(x: nat, q1: nat, r0: nat, q2: nat, r1: nat, q3: nat, r2: nat, a: nat, b: nat, c: nat, d: nat)
    requires a < 256 && b < 256 && c < 256 && d < 256 && r0 < 256 && r1 < 256 && r2 < 256
    requires x == 256 * q1 + r0 && q1 == 256 * q2 + r1 && q2 == 256 * q3 + r2
    ensures x == Quad(a, b, c, d) <==> a == q3 && b == r2 && c == r1 && d == r0
  {
    var p2 := 256 * a + b;
    var p1 := 256 * p2 + c;
    QuadOfBytes(a, b, c, d);
    LowDigit(q1, r0, p1, d);
    LowDigit(q2, r1, p2, c);
    LowDigit(q3, r2, a, b);
  }

  lemma ShiftTwice(x: nat)
    ensures x / 0x1_0000 == x / 0x100 / 0x100
    ensures x / 0x100_0000 == x / 0x1_0000 / 0x100
  {}

  function Dotted(a: nat, b: nat, c: nat, d: nat): string {
    Then(a, Then(b, Then(c, Print(d))))
  }

  /** `snprintf` into `size` bytes keeps at most `size - 1` characters. */
  function Snprintf(size: nat, text: string): string
    requires size > 0
  {
    if |text| < size then text else text[..size - 1]
  }

  /** `_pkt_parse_char_ip`. */
  function PrintIp(ip: u32): string {
    Snprintf(16, Dotted(Octet(ip, 3), Octet(ip, 2), Octet(ip, 1), Octet(ip, 0)))
  }

  predicate IsSpace(c: char) {
    c == ' ' || '\t' <= c <= '\r'
  }

  function SkipSpace(s: string): string {
    if s != [] && IsSpace(s[0]) then SkipSpace(s[1..]) else s
  }

  /** `strtoul` on a 64-bit host, stored through an `unsigned int` pointer. */
  function ToUnsigned(negative: bool, v: nat): u32 {
    if v >= U64_RANGE then U32_RANGE - 1
    else if negative then (U64_RANGE - v) % U32_RANGE
    else v % U32_RANGE
  }

  /** An optional sign, then at least one digit. */
  function ScanSigned(t: string): Scan {
    var signed := t != [] && (t[0] == '+' || t[0] == '-');
    var u := if signed then t[1..] else t;
    var n := Span(u);
    if n == 0 then NoMatch else Match(ToUnsigned(signed && t[0] == '-', Value(u[..n])), u[n..])
  }

  /** One `%u` conversion: white space comes first. */
  function ScanUnsigned(s: string): Scan {
    ScanSigned(SkipSpace(s))
  }

  /** A `%u` conversion that must be followed by a literal dot. */
  function ScanUnsignedDot(s: string): Scan {
    var m := ScanUnsigned(s);
    if m.Match? && m.rest != [] && m.rest[0] == '.' then Match(m.value, m.rest[1..]) else NoMatch
  }

  /** `_pkt_parse_ip`; `None` stands for the return value -1. */
  function ParseIp(text: Option<string>): Option<u32> {
    if text.None? then None else
    var a := ScanUnsignedDot(text.value);
    if a.NoMatch? then None else
    var b := ScanUnsignedDot(a.rest);
    if b.NoMatch? then None else
    var c := ScanUnsignedDot(b.rest);
    if c.NoMatch? then None else
    var d := ScanUnsigned(c.rest);
    if d.NoMatch? then None else
    Some(Quad(a.value, b.value, c.value, d.value))
  }

  lemma ScanDigits(digits: string, rest: string)
    requires digits != [] && AllDigits(digits) && (rest == [] || !IsDigit(rest[0]))
    ensures ScanUnsigned(digits + rest) == Match(ToUnsigned(false, Value(digits)), rest)
  {
    var s := digits + rest;
    assert s[0] == digits[0] && IsDigit(s[0]);
    assert SkipSpace(s) == s;
    SpanOfDigits(digits, rest);
    assert s[..|digits|] == digits && s[|digits|..] == rest;
  }

  lemma SmallUnsigned(n: u32)
    ensures ToUnsigned(false, n) == n
  {}

  lemma ScanPrinted(n: u32, rest: string)
    requires rest == [] || !IsDigit(rest[0])
    ensures ScanUnsigned(Print(n) + rest) == Match(n, rest)
  {
    ScanDigits(Print(n), rest);
    ValueOfPrint(n);
    SmallUnsigned(n);
  }

  lemma ScanPrintedDot(n: u32, rest: string)
    ensures ScanUnsignedDot(Then(n, rest)) == Match(n, rest)
  {
    ScanPrinted(n, "." + rest);
    assert ("." + rest)[1..] == rest;
  }

  /** Any four numbers below 2^32, dotted, parse to their low bytes, whatever
      follows, as long as it does not continue the last number. In particular
      the parser accepts out-of-range octets instead of rejecting them. */
  lemma ParseDotted(a: u32, b: u32, c: u32, d: u32, rest: string)
    requires rest == [] || !IsDigit(rest[0])
    ensures ParseIp(Some(Dotted(a, b, c, d) + rest)) == Some(Quad(a, b, c, d))
  {
    ThenAppend(a, Then(b, Then(c, Print(d))), rest);
    ThenAppend(b, Then(c, Print(d)), rest);
    ThenAppend(c, Print(d), rest);
    ScanPrintedDot(a, Then(b, Then(c, Print(d) + rest)));
    ScanPrintedDot(b, Then(c, Print(d) + rest));
    ScanPrintedDot(c, Print(d) + rest);
    ScanPrinted(d, rest);
  }

  lemma ThenAppend(n: nat, s: string, rest: string)
    ensures Then(n, s) + rest == Then(n, s + rest)
  {
    assert ("." + s) + rest == "." + (s + rest);
  }

  /** The printed address always fits the 16-byte buffer: nothing is cut off. */
  lemma PrintFits(ip: u32)
    ensures 7 <= |PrintIp(ip)| <= 15
    ensures PrintIp(ip) == Dotted(Octet(ip, 3), Octet(ip, 2), Octet(ip, 1), Octet(ip, 0))
  {
    PrintWidth(Octet(ip, 3));
    PrintWidth(Octet(ip, 2));
    PrintWidth(Octet(ip, 1));
    PrintWidth(Octet(ip, 0));
  }

  /** Parsing a printed address gives the address back. */
  lemma RoundTrip(ip: u32, rest: string)
    requires rest == [] || !IsDigit(rest[0])
    ensures ParseIp(Some(PrintIp(ip) + rest)) == Some(ip)
  {
    PrintFits(ip);
    OctetsOfQuad(ip, Octet(ip, 3), Octet(ip, 2), Octet(ip, 1), Octet(ip, 0));
    ParseDotted(Octet(ip, 3), Octet(ip, 2), Octet(ip, 1), Octet(ip, 0), rest);
  }

  /** Printing what was parsed gives a canonical dotted text back exactly when
      every number in it is a byte. */
  lemma PrintParsed(a: u32, b: u32, c: u32, d: u32)
    ensures PrintIp(Quad(a, b, c, d)) == Dotted(a, b, c, d)
            <==> a < 256 && b < 256 && c < 256 && d < 256
  {
    var ip := Quad(a, b, c, d);
    PrintFits(ip);
    if a < 256 && b < 256 && c < 256 && d < 256 {
      OctetsOfQuad(ip, a, b, c, d);
    }
    if PrintIp(ip) == Dotted(a, b, c, d) {
      DottedInjective(Octet(ip, 3), Octet(ip, 2), Octet(ip, 1), Octet(ip, 0), a, b, c, d);
    }
  }

  /** A dotted text determines its four numbers. */
  lemma DottedInjective(a: u32, b: u32, c: u32, d: u32, a': u32, b': u32, c': u32, d': u32)
    requires Dotted(a, b, c, d) == Dotted(a', b', c', d')
    ensures a == a' && b == b' && c == c' && d == d'
  {
    ThenInjective(a, Then(b, Then(c, Print(d))), a', Then(b', Then(c', Print(d'))));
    ThenInjective(b, Then(c, Print(d)), b', Then(c', Print(d')));
    ThenInjective(c, Print(d), c', Print(d'));
    PrintInjective(d, d');
  }

  lemma ThenInjective(n: u32, s: string, n': u32, s': string)
    requires Then(n, s) == Then(n', s')
    ensures n == n' && s == s'
  {
    ScanPrintedDot(n, s);
    ScanPrintedDot(n', s');
  }

  // ----- What the parser accepts -----

  const WHITE_SPACE: string := " \t\n\U{0B}\U{0C}\r"

  predicate AllSpace(s: string) {
    forall i :: 0 <= i < |s| ==> s[i] in WHITE_SPACE
  }

  lemma SpaceListed(c: char)
    ensures IsSpace(c) <==> c in WHITE_SPACE
  {
    if IsSpace(c) {
      assert c in [' ', '\t', '\n', '\U{0B}', '\U{0C}', '\r'];
    }
  }

  /** White space, an optional sign and digits: what one `%u` consumes. */
  datatype Numeral = Numeral(space: string, sign: string, digits: string) {
    predicate Valid() {
      AllSpace(space) && (sign == "" || sign == "+" || sign == "-") && digits != [] && AllDigits(digits)
    }

    function Text(): string {
      space + (sign + digits)
    }

    function Unsigned(): u32
      requires Valid()
    {
      ToUnsigned(sign == "-", Value(digits))
    }
  }

  /** The text starts with the numeral, which ends where the digits do. */
  predicate StartsWith(s: string, n: Numeral, rest: string) {
    n.Valid() && s == n.Text() + rest && (rest == [] || !IsDigit(rest[0]))
  }

  lemma {:induction false} SkipAllSpace(space: string, s: string)
    requires AllSpace(space) && (s == [] || !IsSpace(s[0]))
    ensures SkipSpace(space + s) == s
  {
    if space == [] {
      assert space + s == s;
    } else {
      assert (space + s)[1..] == space[1..] + s;
      SpaceListed(space[0]);
      SkipAllSpace(space[1..], s);
    }
  }

  lemma {:induction false} SpaceSkipped(s: string) returns (space: string)
    ensures AllSpace(space) && s == space + SkipSpace(s)
    ensures SkipSpace(s) == [] || !IsSpace(SkipSpace(s)[0])
  {
    if s != [] && IsSpace(s[0]) {
      var more := SpaceSkipped(s[1..]);
      space := [s[0]] + more;
      SpaceListed(s[0]);
      assert s == [s[0]] + s[1..];
    } else {
      space := [];
      assert s == [] + s;
    }
  }

  lemma ScanSignedNumeral(sign: string, digits: string, rest: string)
    requires (sign == "" || sign == "+" || sign == "-") && digits != [] && AllDigits(digits)
    requires rest == [] || !IsDigit(rest[0])
    ensures var t := sign + (digits + rest);
            !IsSpace(t[0]) && ScanSigned(t) == Match(ToUnsigned(sign == "-", Value(digits)), rest)
  {
    var u := digits + rest;
    var t := sign + u;
    assert u[0] == digits[0];
    SpanOfDigits(digits, rest);
    assert u[..|digits|] == digits && u[|digits|..] == rest;
    if sign == "" {
      assert t == u;
    } else {
      assert t[0] == sign[0] && t[1..] == u;
    }
  }

  /** Scanning takes exactly the numeral the text starts with. */
  lemma ScanNumeral(s: string, n: Numeral, rest: string)
    requires StartsWith(s, n, rest)
    ensures ScanUnsigned(s) == Match(n.Unsigned(), rest)
  {
    Assemble(n.space, n.sign, n.digits, rest);
    ScanSignedNumeral(n.sign, n.digits, rest);
    SkipAllSpace(n.space, n.sign + (n.digits + rest));
  }

  lemma Assemble(space: string, sign: string, digits: string, rest: string)
    ensures space + (sign + (digits + rest)) == Numeral(space, sign, digits).Text() + rest
  {}

  /** An optional sign, and what follows it. */
  lemma SignSplit(t: string) returns (sign: string)
    ensures sign == "" || sign == "+" || sign == "-"
    ensures |sign| <= |t| && t == sign + t[|sign|..]
    ensures sign != "" <==> t != [] && (t[0] == '+' || t[0] == '-')
  {
    sign := if t != [] && (t[0] == '+' || t[0] == '-') then [t[0]] else [];
  }

  lemma SpanSplit(u: string)
    ensures u == u[..Span(u)] + u[Span(u)..] && AllDigits(u[..Span(u)])
    ensures u[Span(u)..] == [] || !IsDigit(u[Span(u)..][0])
  {}

  /** What is left of the text after the sign and the digits. */
  lemma SignedScanned(t: string) returns (sign: string, digits: string)
    requires ScanSigned(t).Match?
    ensures (sign == "" || sign == "+" || sign == "-") && digits != [] && AllDigits(digits)
    ensures var rest := ScanSigned(t).rest; t == sign + (digits + rest) && (rest == [] || !IsDigit(rest[0]))
  {
    sign := SignSplit(t);
    var u := t[|sign|..];
    digits := u[..Span(u)];
    SpanSplit(u);
    assert u == if t != [] && (t[0] == '+' || t[0] == '-') then t[1..] else t;
  }

  /** What a successful scan has taken is a numeral. */
  lemma NumeralScanned(s: string) returns (n: Numeral)
    requires ScanUnsigned(s).Match?
    ensures StartsWith(s, n, ScanUnsigned(s).rest)
  {
    var space := SpaceSkipped(s);
    var sign, digits := SignedScanned(SkipSpace(s));
    n := Numeral(space, sign, digits);
    Assemble(space, sign, digits, ScanUnsigned(s).rest);
  }

  /** The text is four numerals joined by dots, with whatever may follow. */
  ghost predicate FourNumerals(s: string, a: Numeral, b: Numeral, c: Numeral, d: Numeral, rest: string) {
    && a.Valid() && b.Valid() && c.Valid() && d.Valid() && (rest == [] || !IsDigit(rest[0]))
    && s == Joined(a, Joined(b, Joined(c, d.Text() + rest)))
  }

  function Joined(n: Numeral, rest: string): string {
    n.Text() + ("." + rest)
  }

  lemma ScanJoined(s: string, n: Numeral, rest: string)
    requires n.Valid() && s == Joined(n, rest)
    ensures ScanUnsignedDot(s) == Match(n.Unsigned(), rest)
  {
    ScanNumeral(s, n, "." + rest);
    assert ("." + rest)[1..] == rest;
  }

  lemma JoinedScanned(s: string) returns (n: Numeral)
    requires ScanUnsignedDot(s).Match?
    ensures n.Valid() && s == Joined(n, ScanUnsignedDot(s).rest) && ScanUnsignedDot(s).value == n.Unsigned()
  {
    n := NumeralScanned(s);
    var rest := ScanUnsigned(s).rest;
    assert rest == "." + rest[1..];
    ScanNumeral(s, n, rest);
  }

  /** The parser accepts exactly the texts that start with four numerals joined by
      dots, and answers the address of their low bytes; it refuses all others. */
  lemma ParseIff(s: string, ip: u32)
    ensures ParseIp(Some(s)) == Some(ip)
            <==> (exists a, b, c, d, rest ::
                    FourNumerals(s, a, b, c, d, rest)
                    && ip == Quad(a.Unsigned(), b.Unsigned(), c.Unsigned(), d.Unsigned()))
  {
    if ParseIp(Some(s)) == Some(ip) {
      var s1 := ScanUnsignedDot(s).rest;
      var s2 := ScanUnsignedDot(s1).rest;
      var s3 := ScanUnsignedDot(s2).rest;
      var a := JoinedScanned(s);
      var b := JoinedScanned(s1);
      var c := JoinedScanned(s2);
      var d := NumeralScanned(s3);
      ScanNumeral(s3, d, ScanUnsigned(s3).rest);
      assert FourNumerals(s, a, b, c, d, ScanUnsigned(s3).rest);
    }
    forall a, b, c, d, rest | FourNumerals(s, a, b, c, d, rest)
      ensures ParseIp(Some(s)) == Some(Quad(a.Unsigned(), b.Unsigned(), c.Unsigned(), d.Unsigned()))
    {
      ScanJoined(s, a, Joined(b, Joined(c, d.Text() + rest)));
      ScanJoined(Joined(b, Joined(c, d.Text() + rest)), b, Joined(c, d.Text() + rest));
      ScanJoined(Joined(c, d.Text() + rest), c, d.Text() + rest);
      ScanNumeral(d.Text() + rest, d, rest);
    }
  }

  /** No numeral starts here: neither space, sign nor digit. */
  predicate NoNumber(s: string) {
    s == [] || (!IsSpace(s[0]) && s[0] != '+' && s[0] != '-' && !IsDigit(s[0]))
  }

  lemma NothingScanned(rest: string)
    requires NoNumber(rest)
    ensures ScanUnsigned(rest).NoMatch? && ScanUnsignedDot(rest).NoMatch?
  {}

  lemma NoDot(c: u32, rest: string)
    requires NoNumber(rest) && (rest == [] || rest[0] != '.')
    ensures ScanUnsignedDot(Print(c) + rest).NoMatch?
  {
    ScanPrinted(c, rest);
  }

  lemma OneNumber(a: u32, tail: string)
    requires ScanUnsignedDot(tail).NoMatch?
    ensures ParseIp(Some(Then(a, tail))) == None
  {
    ScanPrintedDot(a, tail);
  }

  lemma TwoNumbers(a: u32, b: u32, tail: string)
    requires ScanUnsignedDot(tail).NoMatch?
    ensures ParseIp(Some(Then(a, Then(b, tail)))) == None
  {
    ScanPrintedDot(a, Then(b, tail));
    ScanPrintedDot(b, tail);
  }

  lemma ThreeNumbers(a: u32, b: u32, c: u32, tail: string)
    requires ScanUnsigned(tail).NoMatch?
    ensures ParseIp(Some(Then(a, Then(b, Then(c, tail))))) == None
  {
    ScanPrintedDot(a, Then(b, Then(c, tail)));
    ScanPrintedDot(b, Then(c, tail));
    ScanPrintedDot(c, tail);
  }

  /** A missing text, one with fewer than four numbers, and one whose fourth number is
      something else are refused. */
  lemma ParseRefuses(a: u32, b: u32, c: u32, rest: string)
    requires NoNumber(rest)
    ensures ParseIp(None) == None && ParseIp(Some(rest)) == None
    ensures ParseIp(Some(Then(a, rest))) == None
    ensures ParseIp(Some(Then(a, Then(b, rest)))) == None
    ensures ParseIp(Some(Then(a, Then(b, Then(c, rest))))) == None
    ensures (rest == [] || rest[0] != '.') ==> ParseIp(Some(Then(a, Then(b, Print(c) + rest)))) == None
  {
    NothingScanned(rest);
    OneNumber(a, rest);
    TwoNumbers(a, b, rest);
    ThreeNumbers(a, b, c, rest);
    if rest == [] || rest[0] != '.' {
      NoDot(c, rest);
      TwoNumbers(a, b, Print(c) + rest);
    }
  }

  /** The octets of one address, the highest byte first. */
  lemma OneOctets()
    ensures Octet(0x0A01_02FF, 3) == 10 && Octet(0x0A01_02FF, 2) == 1
    ensures Octet(0x0A01_02FF, 1) == 2 && Octet(0x0A01_02FF, 0) == 255
  {}

  lemma OnePrinted()
    ensures Print(1) == "1" && Print(2) == "2" && Print(10) == "10" && Print(255) == "255"
  {
    PrintText(1);
    PrintText(2);
    PrintText(10);
    PrintText(25);
    PrintText(255);
    assert Print(25) == "25";
  }

  lemma OneDotted()
    ensures Dotted(10, 1, 2, 255) == "10.1.2.255" && Then(10, Then(1, Then(2, "x"))) == "10.1.2.x"
  {
    OnePrinted();
    assert Then(2, "255") == "2.255" && Then(2, "x") == "2.x";
    assert Then(1, "2.255") == "1.2.255" && Then(1, "2.x") == "1.2.x";
    assert Then(10, "1.2.255") == "10.1.2.255" && Then(10, "1.2.x") == "10.1.2.x";
  }

  /** One address in full, and one text that is no address. */
  lemma OneAddress()
    ensures PrintIp(0x0A01_02FF) == "10.1.2.255"
    ensures ParseIp(Some("10.1.2.255")) == Some(0x0A01_02FF)
    ensures ParseIp(Some("10.1.2.x")) == None
  {
    OneOctets();
    OneDotted();
    PrintFits(0x0A01_02FF);
    RoundTrip(0x0A01_02FF, "");
    assert "10.1.2.255" + "" == "10.1.2.255";
    ParseRefuses(10, 1, 2, "x");
  }

  /** A minus sign negates modulo 2^32, and 2^64 or more reads as 2^32 - 1. */
  lemma UnsignedExtremes(v: nat)
    ensures 0 < v <= U32_RANGE ==> ToUnsigned(true, v) == U32_RANGE - v
    ensures v < U32_RANGE ==> ToUnsigned(false, v) == v
    ensures v >= U64_RANGE ==> ToUnsigned(false, v) == ToUnsigned(true, v) == U32_RANGE - 1
  {}
}
