/** The incremental checksum update that turns an ICMP echo request into an echo
    reply, against the Internet checksum of RFC 1071.

    `little` says whether the host is little-endian: the C code works on the
    16-bit words as the host reads them. */
module IcmpChecksum {
  import opened Machine

  const ECHO_REQUEST: u8 := 8
  const ECHO_REPLY: u8 := 0

  function Not16(x: u16): u16 {
    0xffff - x
  }

  function Swap(x: u16): u16 {
    (x % 0x100) * 0x100 + x / 0x100
  }

  function Htons(little: bool, x: u16): u16 {
    if little then Swap(x) else x
  }

  /** One end-around-carry fold of a wide accumulator. */
  function Fold(x: nat): nat {
    x % 0x1_0000 + x / 0x1_0000
  }

  /** `_pkt_icmp_checksum` as written: the accumulator is a `uint16_t`, so every
      assignment truncates and the folds find no carry. */
  method PktIcmpChecksum(little: bool, cksum: u16) returns (r: u16)
    ensures r == AsWritten(little, cksum)
  {
    var request, reply := Htons(little, ECHO_REQUEST * 0x100), Htons(little, ECHO_REPLY * 0x100);
    NoReplyWord(little);
    r := Update(cksum, request, reply);
  }

  /** The assignments, for any two words; the folds do nothing. */
  method Update(cksum: u16, request: u16, reply: u16) returns (r: u16)
    requires reply == 0
    ensures r == Wrap(cksum + request + 1)
  {
    var acc: u16 := Not16(cksum);
    TwoComplements(cksum, request);
    acc := Wrap(acc + Not16(request));
    NothingToFold(acc);
    acc := Wrap(acc + reply);
    acc := Wrap(Fold(acc));
    acc := Wrap(Fold(acc));
    r := Not16(acc);
  }

  /** The assignment to a `uint16_t`. */
  function Wrap(x: nat): u16 {
    x % 0x1_0000
  }

  lemma TwoComplements(c: u16, m: u16)
    ensures Not16(Wrap(Not16(c) + Not16(m))) == Wrap(c + m + 1)
  {
    WrapOnce(Not16(c) + Not16(m));
    WrapOnce(c + m + 1);
  }

  lemma WrapOnce(x: nat)
    requires x < 2 * 0x1_0000
    ensures Wrap(x) == if x < 0x1_0000 then x else x - 0x1_0000
  {}

  lemma NothingToFold(x: u16)
    ensures Wrap(Fold(x)) == x && Wrap(x) == x
  {}

  /** The closed form of the code as written: c + 9 modulo 2^16 on a
      little-endian host. */
  function AsWritten(little: bool, c: u16): u16 {
    Wrap(c + RequestWord(little) + 1)
  }

  /** The first word of an echo request with code 0, as the host reads it. */
  function RequestWord(little: bool): (m: u16)
    ensures m == Htons(little, ECHO_REQUEST * 0x100)
  {
    if little then 0x0008 else 0x0800
  }

  /** Eqn. 3 of section 3 of RFC 1624 with an accumulator wide enough for the two
      folds to collect the carries. */
  function Eqn3(little: bool, c: u16): (r: u16)
    ensures r == if c + RequestWord(little) < 0xffff then c + RequestWord(little)
                 else c + RequestWord(little) - 0xffff
  {
    var acc := Not16(c) + Not16(RequestWord(little)) + Htons(little, ECHO_REPLY * 0x100);
    NoReplyWord(little);
    FoldTwice(acc);
    Not16(Fold(Fold(acc)))
  }

  /** The type of an echo reply is 0, in either byte order. */
  lemma NoReplyWord(little: bool)
    ensures Htons(little, ECHO_REPLY * 0x100) == 0
  {}

  /** Two folds bring the sum of two words back to one word. */
  lemma FoldTwice(x: nat)
    requires x <= 2 * 0xffff
    ensures Fold(Fold(x)) == if x < 0x1_0000 then x else x - 0xffff
  {}

  // ----- The Internet checksum of a byte string -----

  function Word(little: bool, first: u8, second: u8): u16 {
    if little then first + 0x100 * second else 0x100 * first + second
  }

  /** The plain sum of the 16-bit words; an odd last byte is padded with zero. */
  function WordSum(little: bool, b: seq<u8>): nat {
    if |b| == 0 then 0
    else if |b| == 1 then Word(little, b[0], 0)
    else Word(little, b[0], b[1]) + WordSum(little, b[2..])
  }

  /** A fold takes a multiple of 0xffff away. */
  lemma FoldCongruent(n: nat)
    requires n >= 0x1_0000
    ensures 0 < Fold(n) < n && Fold(n) % 0xffff == n % 0xffff
  {
    var q := n / 0x1_0000;
    assert n == Fold(n) + 0xffff * q;
    ModPlus(Fold(n), q);
  }

  /** The one's-complement sum: carries are folded until none is left. */
  function OnesSum(n: nat): (r: u16)
    ensures r % 0xffff == n % 0xffff
    ensures r == 0 <==> n == 0
  {
    if n < 0x1_0000 then n
    else
      FoldCongruent(n);
      OnesSum(Fold(n))
  }

  /** RFC 1071, section 1: a message checks out when its words sum to all ones. */
  predicate ChecksOut(little: bool, b: seq<u8>) {
    OnesSum(WordSum(little, b)) == 0xffff
  }

  predicate EchoRequest(b: seq<u8>) {
    |b| >= 4 && b[0] == ECHO_REQUEST
  }

  function ChecksumField(little: bool, b: seq<u8>): u16
    requires |b| >= 4
  {
    Word(little, b[2], b[3])
  }

  /** The request with the type changed and checksum `c` stored in host order. */
  function Reply(little: bool, b: seq<u8>, c: u16): (r: seq<u8>)
    requires EchoRequest(b)
    ensures |r| == |b| && ChecksumField(little, r) == c
    ensures r[1] == b[1] && r[4..] == b[4..]
  {
    var lo, hi := c % 0x100, c / 0x100;
    b[0 := ECHO_REPLY][2 := if little then lo else hi][3 := if little then hi else lo]
  }

  /** A message checks out iff its plain sum is a non-zero multiple of 0xffff. */
  lemma ChecksOutIff(little: bool, b: seq<u8>)
    ensures ChecksOut(little, b)
            <==> WordSum(little, b) != 0 && WordSum(little, b) % 0xffff == 0
  {}

  lemma ReplySum(little: bool, b: seq<u8>, c: u16)
    requires EchoRequest(b)
    ensures WordSum(little, Reply(little, b, c)) + RequestWord(little) + ChecksumField(little, b)
            == WordSum(little, b) + c
  {
    var r := Reply(little, b, c);
    assert r[2..][2..] == r[4..] && b[2..][2..] == b[4..];
    assert WordSum(little, r) == Word(little, r[0], r[1]) + (c + WordSum(little, r[4..]));
    assert WordSum(little, b) == Word(little, b[0], b[1]) + (ChecksumField(little, b) + WordSum(little, b[4..]));
  }

  lemma {:induction false} ZeroSum(little: bool, b: seq<u8>)
    ensures WordSum(little, b) == 0 <==> forall i :: 0 <= i < |b| ==> b[i] == 0
  {
    if |b| >= 2 {
      ZeroSum(little, b[2..]);
      assert forall i :: 2 <= i < |b| ==> b[i] == b[2..][i - 2];
    }
  }

  /** Some byte other than the type and the checksum is not zero. */
  predicate HasContent(b: seq<u8>)
    requires |b| >= 4
  {
    b[1] != 0 || exists i :: 4 <= i < |b| && b[i] != 0
  }

  lemma ContentShows(little: bool, b: seq<u8>, c: u16)
    requires EchoRequest(b) && HasContent(b)
    ensures WordSum(little, Reply(little, b, c)) != 0
  {
    var r := Reply(little, b, c);
    var i :| (i == 1 || 4 <= i < |b|) && b[i] != 0;
    assert i >= 4 ==> r[i] == r[4..][i - 4] == b[4..][i - 4];
    ZeroSum(little, r);
  }

  lemma NoContentSum(little: bool, b: seq<u8>)
    requires EchoRequest(b) && !HasContent(b)
    ensures WordSum(little, b) == RequestWord(little) + ChecksumField(little, b)
  {
    assert forall i :: 0 <= i < |b[4..]| ==> b[4..][i] == b[i + 4];
    ZeroSum(little, b[4..]);
    assert b[2..][2..] == b[4..];
  }

  /** Eqn. 3 turns every request that checks out, of any length and code, into a
      reply whose sum is one of the two zeros of one's complement; it is the
      proper one, all ones, exactly when the message has other content. */
  lemma Eqn3Reply(little: bool, b: seq<u8>)
    requires EchoRequest(b) && ChecksOut(little, b)
    ensures var r := Reply(little, b, Eqn3(little, ChecksumField(little, b)));
            && OnesSum(WordSum(little, r)) % 0xffff == 0
            && (ChecksOut(little, r) <==> HasContent(b))
  {
    var c := ChecksumField(little, b);
    Eqn3Sum(little, b);
    ChecksOutIff(little, Reply(little, b, Eqn3(little, c)));
    if HasContent(b) {
      ContentShows(little, b, Eqn3(little, c));
    } else {
      NoContentSum(little, b);
      OnlyMultiple(little, b);
    }
  }

  /** Without content the request sums to 0xffff and the reply to nothing. */
  lemma OnlyMultiple(little: bool, b: seq<u8>)
    requires EchoRequest(b) && ChecksOut(little, b)
    requires WordSum(little, b) == RequestWord(little) + ChecksumField(little, b)
    ensures WordSum(little, b) == 0xffff
  {
    ChecksOutIff(little, b);
    MultipleIff(WordSum(little, b));
  }

  lemma Eqn3Sum(little: bool, b: seq<u8>)
    requires EchoRequest(b) && ChecksOut(little, b)
    ensures var c := ChecksumField(little, b);
            WordSum(little, Reply(little, b, Eqn3(little, c)))
            == if c + RequestWord(little) < 0xffff then WordSum(little, b) else WordSum(little, b) - 0xffff
    ensures WordSum(little, Reply(little, b, Eqn3(little, ChecksumField(little, b)))) % 0xffff == 0
  {
    var n := WordSum(little, b);
    ReplySum(little, b, Eqn3(little, ChecksumField(little, b)));
    ChecksOutIff(little, b);
    OneMultipleLess(n);
  }

  lemma OneMultipleLess(n: nat)
    requires n != 0 && n % 0xffff == 0
    ensures n >= 0xffff && (n - 0xffff) % 0xffff == 0
  {
    MultipleIff(n);
    ModPlus(0, n / 0xffff - 1);
  }

  /** What the code as written computes is a reply summing to zero exactly when
      adding the request word to the old checksum already carries: c >= 0xfff7 on
      a little-endian host. Otherwise it is one too large. */
  lemma AsWrittenReply(little: bool, b: seq<u8>)
    requires EchoRequest(b) && ChecksOut(little, b)
    ensures var c := ChecksumField(little, b);
            var r := Reply(little, b, AsWritten(little, c));
            && (OnesSum(WordSum(little, r)) % 0xffff == 0 <==> c >= 0xffff - RequestWord(little))
            && (ChecksOut(little, r) <==> c >= 0xffff - RequestWord(little) && HasContent(b))
  {
    var c := ChecksumField(little, b);
    Eqn3Reply(little, b);
    WrittenVersusEqn3(little, c);
    if c < 0xffff - RequestWord(little) {
      OneTooMany(little, b);
    }
  }

  lemma OneTooMany(little: bool, b: seq<u8>)
    requires EchoRequest(b) && ChecksOut(little, b)
    requires ChecksumField(little, b) < 0xffff - RequestWord(little)
    ensures WordSum(little, Reply(little, b, AsWritten(little, ChecksumField(little, b)))) % 0xffff == 1
  {
    var c := ChecksumField(little, b);
    WrapOnce(c + RequestWord(little) + 1);
    ReplySum(little, b, AsWritten(little, c));
    ChecksOutIff(little, b);
    OneBeyond(WordSum(little, b));
  }

  lemma OneBeyond(n: nat)
    requires n % 0xffff == 0
    ensures (n + 1) % 0xffff == 1
  {
    MultipleIff(n);
    OneBeyondMultiple(n / 0xffff);
  }

  lemma OneBeyondMultiple(q: nat)
    ensures (0xffff * q + 1) % 0xffff == 1
  {
    ModPlus(1, q);
  }

  /** A valid echo request, with identifier 1 and sequence number 0, whose reply, as
      the code computes its checksum on a little-endian host, does not check out: c is
      0xfff6. */
  lemma WrongReply()
    ensures var b: seq<u8> := [8, 0, 0xf6, 0xff, 1, 0, 0, 0];
            && EchoRequest(b) && ChecksOut(true, b)
            && !ChecksOut(true, Reply(true, b, AsWritten(true, ChecksumField(true, b))))
  {
    var b: seq<u8> := [8, 0, 0xf6, 0xff, 1, 0, 0, 0];
    var rest: seq<u8> := [1, 0, 0, 0];
    var last: seq<u8> := [0, 0];
    assert b[2..][2..] == rest && rest[2..] == last && last[2..] == [];
    assert WordSum(true, last) == 0;
    assert WordSum(true, rest) == 1;
    assert WordSum(true, b) == 8 + (0xfff6 + 1);
    ChecksOutIff(true, b);
    AsWrittenReply(true, b);
  }

  lemma WrittenVersusEqn3(little: bool, c: u16)
    ensures c >= 0xffff - RequestWord(little) ==> AsWritten(little, c) == Eqn3(little, c)
    ensures c < 0xffff - RequestWord(little) ==> AsWritten(little, c) == Eqn3(little, c) + 1
    ensures AsWritten(true, c) == Eqn3(true, c) <==> c >= 0xfff7
  {}

  // ----- Byte-order independence: section 2(B) of RFC 1071 -----

  lemma {:induction false} SwappedSum(b: seq<u8>)
    ensures WordSum(false, b) % 0xffff == 0x100 * WordSum(true, b) % 0xffff
    ensures WordSum(false, b) == 0 <==> WordSum(true, b) == 0
  {
    if |b| >= 2 {
      SwappedSum(b[2..]);
      var x, y := WordSum(true, b[2..]), WordSum(false, b[2..]);
      var w: nat, v: nat := Word(true, b[0], b[1]), Word(false, b[0], b[1]);
      var k: nat := b[1];
      assert 0x100 * w == v + 0xffff * k;
      AddCongruent(v, y, k, x);
    } else if |b| == 1 {
      assert Word(false, b[0], 0) == 0x100 * Word(true, b[0], 0);
    }
  }

  lemma AddCongruent(v: nat, y: nat, k: nat, x: nat)
    requires y % 0xffff == 0x100 * x % 0xffff
    ensures (v + y) % 0xffff == (v + 0xffff * k + 0x100 * x) % 0xffff
  {
    var p, q := y / 0xffff, 0x100 * x / 0xffff;
    assert y == 0xffff * p + y % 0xffff && 0x100 * x == 0xffff * q + y % 0xffff;
    ModPlus(v + y % 0xffff, p);
    ModPlus(v + y % 0xffff, k + q);
  }

  lemma ModPlus(a: nat, k: nat)
    ensures (a + 0xffff * k) % 0xffff == a % 0xffff
  {}

  /** Whether a message checks out does not depend on the host's byte order. */
  lemma ByteOrderIndependent(b: seq<u8>)
    ensures ChecksOut(true, b) <==> ChecksOut(false, b)
  {
    SwappedSum(b);
    ChecksOutIff(true, b);
    ChecksOutIff(false, b);
    CongruentToShift(WordSum(true, b), WordSum(false, b));
  }

  lemma CongruentToShift(x: nat, y: nat)
    requires y % 0xffff == 0x100 * x % 0xffff
    ensures y % 0xffff == 0 <==> x % 0xffff == 0
  {
    ShiftIsInvertible(x);
  }

  lemma MultipleIff(n: nat)
    ensures n % 0xffff == 0 <==> n == 0xffff * (n / 0xffff)
  {}

  /** 0x100 * 0x100 is 1 modulo 0xffff. */
  lemma ShiftIsInvertible(n: nat)
    ensures 0x100 * n % 0xffff == 0 <==> n % 0xffff == 0
  {
    MultipleIff(n);
    MultipleIff(0x100 * n);
    if 0x100 * n % 0xffff == 0 {
      ShiftedMultiple(n, 0x100 * n / 0xffff);
    } else if n % 0xffff == 0 {
      MultipleShifted(n, n / 0xffff);
    }
  }

  lemma ShiftedMultiple(n: nat, q: nat)
    requires 0x100 * n == 0xffff * q
    ensures n % 0xffff == 0
  {
    var m: int := 0x100 * q - n;
    assert n == 0xffff * m;
    ModPlus(0, m);
  }

  lemma MultipleShifted(n: nat, q: nat)
    requires n == 0xffff * q
    ensures 0x100 * n % 0xffff == 0
  {
    ModPlus(0, 0x100 * q);
  }

  /** Both byte orders store the very same reply bytes. */
  lemma SameReplyBytes(b: seq<u8>)
    requires EchoRequest(b)
    ensures Reply(true, b, Eqn3(true, ChecksumField(true, b)))
            == Reply(false, b, Eqn3(false, ChecksumField(false, b)))
  {
    Eqn3Swaps(b[2], b[3]);
    ReplySwapped(b, Eqn3(true, ChecksumField(true, b)));
  }

  lemma SwapBytes(c: u16)
    ensures Swap(c) % 0x100 == c / 0x100 && Swap(c) / 0x100 == c % 0x100
  {}

  /** The two hosts store swapped words as the same bytes. */
  lemma ReplySwapped(b: seq<u8>, c: u16)
    requires EchoRequest(b)
    ensures Reply(true, b, c) == Reply(false, b, Swap(c))
  {
    SwapBytes(c);
  }

  lemma SwapWord(first: u8, second: u8)
    ensures Swap(first + 0x100 * second) == 0x100 * first + second
  {
    assert (first + 0x100 * second) % 0x100 == first && (first + 0x100 * second) / 0x100 == second;
  }

  lemma Eqn3Swaps(first: u8, second: u8)
    ensures Eqn3(false, Word(false, first, second)) == Swap(Eqn3(true, Word(true, first, second)))
  {
    if first < 248 && !(first == 247 && second == 255) {
      SwapWord(first + 8, second);
    } else if first == 247 {
      SwapWord(0, 0);
    } else if second < 255 {
      SwapWord(first - 248, second + 1);
    } else {
      SwapWord(first - 247, 0);
    }
  }
}
