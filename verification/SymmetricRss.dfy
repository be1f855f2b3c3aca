/** Receive-side scaling with the repeating key of `Port::configure`.

    The NIC hashes a packet's address tuple with the Toeplitz hash: a 32-bit
    window slides over the key one bit per input bit, and the windows under the
    set input bits are xored together. The NIC then picks the receive queue from
    the hash alone. */
module SymmetricRss {
  import opened Machine

  const ZERO_BITS: seq<bool> := [
    false, false, false, false, false, false, false, false, false, false, false, false, false, false, false, false]

  /** A 16-bit word, most significant bit first. */
  type Word = w: seq<bool> | |w| == 16 witness ZERO_BITS

  const KEY_BYTES: nat := 40
  const HASH_BITS: nat := 32

  /** `RSS_SYMMETRIC_KEY`. */
  const KEY: seq<u8> := [
    0x6d, 0x5a, 0x6d, 0x5a, 0x6d, 0x5a, 0x6d, 0x5a, 0x6d, 0x5a, 0x6d, 0x5a, 0x6d, 0x5a, 0x6d,
    0x5a, 0x6d, 0x5a, 0x6d, 0x5a, 0x6d, 0x5a, 0x6d, 0x5a, 0x6d, 0x5a, 0x6d, 0x5a, 0x6d, 0x5a,
    0x6d, 0x5a, 0x6d, 0x5a, 0x6d, 0x5a, 0x6d, 0x5a, 0x6d, 0x5a]

  function BitOfByte(b: u8, i: nat): bool
    requires i < 8
  {
    var shifted := if i == 0 then b / 128 else if i == 1 then b / 64 else if i == 2 then b / 32
                   else if i == 3 then b / 16 else if i == 4 then b / 8 else if i == 5 then b / 4
                   else if i == 6 then b / 2 else b;
    shifted % 2 == 1
  }

  /** Bit `i` of the key, most significant bit of the first byte first. */
  function KeyBit(i: nat): bool
    requires i < 8 * KEY_BYTES
  {
    BitOfByte(KEY[i / 8], i % 8)
  }

  /** All the bits. The window at position `p` is the bits `p .. p + 32`. */
  function KeyBits(): (bits: seq<bool>)
    ensures |bits| == 8 * KEY_BYTES
  {
    seq(8 * KEY_BYTES, i requires 0 <= i < 8 * KEY_BYTES => KeyBit(i))
  }

  /** The bit a word `i` words into the input starts at. */
  function Position(i: nat): nat {
    16 * i
  }

  /** The last window a `words`-word input needs lies inside a key of `bits` bits. */
  predicate FitsIn(words: nat, bits: nat) {
    Position(words) + HASH_BITS - 1 <= bits
  }

  predicate Fits(words: nat) {
    FitsIn(words, 8 * KEY_BYTES)
  }

  /** The xor, over the set bits among the first `n` bits of `w`, of the key bits
      they meet when the word's first bit meets key bit `at`. */
  function WordParity(key: seq<bool>, w: Word, at: nat, n: nat): bool
    requires n <= 16 && at + 16 <= |key|
  {
    n > 0 && ((w[n - 1] && key[at + n - 1]) != WordParity(key, w, at, n - 1))
  }

  /** Bit `j` of the hash of the first `n` words. */
  function HashBit(key: seq<bool>, ws: seq<Word>, n: nat, j: nat): bool
    requires n <= |ws| && j < HASH_BITS && FitsIn(|ws|, |key|)
  {
    n > 0 && (WordParity(key, ws[n - 1], Position(n - 1) + j, |ws[n - 1]|) != HashBit(key, ws, n - 1, j))
  }

  /** The Toeplitz hash under any key. */
  function Hash(key: seq<bool>, ws: seq<Word>): (h: seq<bool>)
    requires FitsIn(|ws|, |key|)
    ensures |h| == HASH_BITS
  {
    seq(HASH_BITS, j requires 0 <= j < HASH_BITS => HashBit(key, ws, |ws|, j))
  }

  /** The hash under `RSS_SYMMETRIC_KEY`. */
  function Toeplitz(ws: seq<Word>): (h: seq<bool>)
    requires Fits(|ws|)
    ensures |h| == HASH_BITS
  {
    Hash(KeyBits(), ws)
  }

  function Xor(v: Word, w: Word): Word {
    seq(16, k requires 0 <= k < 16 => v[k] != w[k])
  }

  const ZERO: Word := ZERO_BITS

  /** The xor of the first `n` words. */
  function XorOf(ws: seq<Word>, n: nat): Word
    requires n <= |ws|
  {
    if n == 0 then ZERO else Xor(ws[n - 1], XorOf(ws, n - 1))
  }

  function XorAll(ws: seq<Word>): Word {
    XorOf(ws, |ws|)
  }

  // ----- The key repeats every 16 bits -----

  /** The bits repeat every 16 bits. */
  predicate Periodic(key: seq<bool>) {
    forall i :: 0 <= i && i + 16 < |key| ==> key[i + 16] == key[i]
  }

  lemma KeyByte(j: nat)
    requires j < KEY_BYTES
    ensures KEY[j] == if j % 2 == 0 then 0x6d else 0x5a
  {}

  lemma KeyByteRepeats(j: nat)
    requires j + 2 < KEY_BYTES
    ensures KEY[j + 2] == KEY[j]
  {
    KeyByte(j);
    KeyByte(j + 2);
  }

  lemma TwoBytesOn(i: nat)
    ensures (i + 16) / 8 == i / 8 + 2 && (i + 16) % 8 == i % 8
  {}

  lemma KeyBitRepeats(i: nat)
    requires i + 16 < 8 * KEY_BYTES
    ensures KeyBit(i + 16) == KeyBit(i)
  {
    TwoBytesOn(i);
    KeyByteRepeats(i / 8);
  }

  lemma KeyIsPeriodic()
    ensures Periodic(KeyBits())
  {
    var key := KeyBits();
    forall i | 0 <= i && i + 16 < |key|
      ensures key[i + 16] == key[i]
    {
      assert key[i + 16] == KeyBit(i + 16) && key[i] == KeyBit(i);
      KeyBitRepeats(i);
    }
  }

  lemma {:induction false} WordParityRepeats(key: seq<bool>, w: Word, at: nat, n: nat)
    requires Periodic(key) && n <= 16 && at + 32 <= |key|
    ensures WordParity(key, w, at + 16, n) == WordParity(key, w, at, n)
  {
    if n > 0 {
      WordParityRepeats(key, w, at, n - 1);
      assert key[at + (n - 1) + 16] == key[at + (n - 1)];
    }
  }

  lemma NextPosition(i: nat)
    ensures Position(i + 1) == Position(i) + 16
  {}

  /** A word contributes the same wherever in the input it stands. */
  lemma {:induction false} PositionIsIrrelevant(key: seq<bool>, w: Word, i: nat, j: nat, n: nat)
    requires Periodic(key) && n <= 16 && j < HASH_BITS && FitsIn(i + 1, |key|)
    ensures WordParity(key, w, Position(i) + j, n) == WordParity(key, w, j, n)
  {
    if i > 0 {
      NextPosition(i - 1);
      PositionIsIrrelevant(key, w, i - 1, j, n);
      WordParityRepeats(key, w, Position(i - 1) + j, n);
    }
  }

  // ----- The hash is linear -----

  lemma {:induction false} WordParityXor(key: seq<bool>, v: Word, w: Word, at: nat, n: nat)
    requires n <= 16 && at + 16 <= |key|
    ensures WordParity(key, Xor(v, w), at, n) == (WordParity(key, v, at, n) != WordParity(key, w, at, n))
  {
    if n > 0 {
      WordParityXor(key, v, w, at, n - 1);
    }
  }

  lemma {:induction false} ZeroParity(key: seq<bool>, at: nat, n: nat)
    requires n <= 16 && at + 16 <= |key|
    ensures !WordParity(key, ZERO, at, n)
  {
    if n > 0 {
      ZeroParity(key, at, n - 1);
    }
  }

  // ----- Which hash it is: the windows under the set bits, xored -----

  /** Bit `b` is set and no other. */
  function OneBit(b: nat): Word {
    seq(16, k => k == b)
  }

  /** `words` words of which the one at `i` has bit `b` set, and nothing else. */
  function OneBitInput(words: nat, i: nat, b: nat): (ws: seq<Word>)
    ensures |ws| == words
  {
    seq(words, k => if k == i then OneBit(b) else ZERO)
  }

  lemma {:induction false} OneBitParity(key: seq<bool>, b: nat, at: nat, n: nat)
    requires b < 16 && n <= 16 && at + 16 <= |key|
    ensures WordParity(key, OneBit(b), at, n) == (b < n && key[at + b])
  {
    if n > 0 {
      OneBitParity(key, b, at, n - 1);
    }
  }

  lemma {:induction false} OneBitHash(key: seq<bool>, words: nat, i: nat, b: nat, n: nat, j: nat)
    requires i < words && b < 16 && n <= words && j < HASH_BITS && FitsIn(words, |key|)
    ensures Position(i) + b + j < |key|
    ensures HashBit(key, OneBitInput(words, i, b), n, j) == (i < n && key[Position(i) + b + j])
  {
    if n > 0 {
      var ws := OneBitInput(words, i, b);
      OneBitHash(key, words, i, b, n - 1, j);
      if n - 1 == i {
        OneBitParity(key, b, Position(i) + j, |ws[i]|);
      } else {
        ZeroParity(key, Position(n - 1) + j, |ws[n - 1]|);
      }
    }
  }

  /** A single set bit hashes to the 32 key bits from its own position on. */
  lemma HashOfOneBit(key: seq<bool>, words: nat, i: nat, b: nat)
    requires i < words && b < 16 && FitsIn(words, |key|)
    ensures var p := 16 * i + b;
            p + 32 <= |key| && Hash(key, OneBitInput(words, i, b)) == key[p..p + 32]
  {
    var h := Hash(key, OneBitInput(words, i, b));
    forall j | 0 <= j < HASH_BITS
      ensures h[j] == key[16 * i + b + j]
    {
      OneBitHash(key, words, i, b, words, j);
    }
  }

  /** Two inputs of the same length, xored word by word. */
  function Mixed(vs: seq<Word>, ws: seq<Word>): (xs: seq<Word>)
    requires |vs| == |ws|
    ensures |xs| == |vs|
  {
    seq(|vs|, i requires 0 <= i < |vs| => Xor(vs[i], ws[i]))
  }

  lemma {:induction false} MixedHashBit(key: seq<bool>, vs: seq<Word>, ws: seq<Word>, n: nat, j: nat)
    requires |vs| == |ws| && n <= |vs| && j < HASH_BITS && FitsIn(|vs|, |key|)
    ensures HashBit(key, Mixed(vs, ws), n, j) == (HashBit(key, vs, n, j) != HashBit(key, ws, n, j))
  {
    if n > 0 {
      MixedHashBit(key, vs, ws, n - 1, j);
      WordParityXor(key, vs[n - 1], ws[n - 1], Position(n - 1) + j, |vs[n - 1]|);
    }
  }

  /** The hash of a xor is the xor of the hashes, under any key; with single bits this
      determines the hash of every input. */
  lemma HashLinear(key: seq<bool>, vs: seq<Word>, ws: seq<Word>, j: nat)
    requires |vs| == |ws| && j < HASH_BITS && FitsIn(|vs|, |key|)
    ensures Hash(key, Mixed(vs, ws))[j] == (Hash(key, vs)[j] != Hash(key, ws)[j])
  {
    MixedHashBit(key, vs, ws, |vs|, j);
  }

  // ----- Under a periodic key only the xor of the words counts -----

  lemma {:induction false} HashBitOfXor(key: seq<bool>, ws: seq<Word>, n: nat, j: nat)
    requires Periodic(key) && n <= |ws| && j < HASH_BITS && FitsIn(|ws|, |key|) && 48 <= |key|
    ensures HashBit(key, ws, n, j) == WordParity(key, XorOf(ws, n), j, |XorOf(ws, n)|)
  {
    if n == 0 {
      ZeroParity(key, j, |XorOf(ws, n)|);
    } else {
      HashBitOfXor(key, ws, n - 1, j);
      PositionIsIrrelevant(key, ws[n - 1], n - 1, j, |ws[n - 1]|);
      WordParityXor(key, ws[n - 1], XorOf(ws, n - 1), j, |ws[n - 1]|);
    }
  }

  /** Bit by bit, the hash of any input that fits a periodic key is the parity of the
      xor of its words against the key. */
  lemma HashOfXor(key: seq<bool>, ws: seq<Word>, j: nat)
    requires Periodic(key) && FitsIn(|ws|, |key|) && 48 <= |key| && j < HASH_BITS
    ensures Hash(key, ws)[j] == WordParity(key, XorAll(ws), j, |XorAll(ws)|)
  {
    HashBitOfXor(key, ws, |ws|, j);
  }

  // ----- And no two xors hash alike -----
  //
  // The words whose parity vanishes under every window are closed under xor and
  // rotation. A non-zero one would yield, by halving its period four times, the
  // all-ones word; but the key's 16-bit pattern has an odd number of ones.

  predicate Vanishes(key: seq<bool>, w: Word, windows: nat)
    requires windows <= HASH_BITS && 48 <= |key|
  {
    forall at :: 0 <= at < windows ==> !WordParity(key, w, at, |w|)
  }

  function Rot(w: Word, p: nat): Word
    requires p <= 16
  {
    w[16 - p..] + w[..16 - p]
  }

  lemma RotAt(w: Word, p: nat, k: nat)
    requires p <= 16 && k < 16
    ensures Rot(w, p)[k] == if k < p then w[16 - p + k] else w[k - p]
  {}

  lemma {:induction false} RotateOnce(key: seq<bool>, w: Word, at: nat, n: nat)
    requires n < 16 && at + 17 <= |key|
    ensures WordParity(key, Rot(w, 1), at, n + 1) == ((w[15] && key[at]) != WordParity(key, w, at + 1, n))
  {
    RotAt(w, 1, n);
    if n > 0 {
      RotateOnce(key, w, at, n - 1);
    }
  }

  lemma RotStep(w: Word, p: nat)
    requires 0 < p <= 16
    ensures Rot(w, p) == Rot(Rot(w, p - 1), 1)
  {
    var v := Rot(w, p - 1);
    forall k: nat | k < 16
      ensures Rot(w, p)[k] == Rot(v, 1)[k]
    {
      RotAt(w, p, k);
      RotAt(v, 1, k);
      RotAt(w, p - 1, if k == 0 then 15 else k - 1);
    }
  }

  /** One rotation costs one window. */
  lemma RotateVanishes(key: seq<bool>, v: Word, windows: nat)
    requires Periodic(key) && 48 <= |key| && 0 < windows <= HASH_BITS && Vanishes(key, v, windows)
    ensures Vanishes(key, Rot(v, 1), windows - 1)
  {
    forall at | 0 <= at < windows - 1
      ensures !WordParity(key, Rot(v, 1), at, |Rot(v, 1)|)
    {
      RotateOnce(key, v, at, |v| - 1);
      assert key[at + 16] == key[at];
      assert !WordParity(key, v, at + 1, |v|);
    }
  }

  lemma {:induction false} RotationVanishes(key: seq<bool>, w: Word, p: nat, windows: nat)
    requires Periodic(key) && 48 <= |key|
    requires p <= windows <= HASH_BITS && p <= 16 && Vanishes(key, w, windows)
    ensures Vanishes(key, Rot(w, p), windows - p)
  {
    if p == 0 {
      assert Rot(w, 0) == w;
    } else {
      RotationVanishes(key, w, p - 1, windows);
      RotStep(w, p);
      RotateVanishes(key, Rot(w, p - 1), windows - (p - 1));
    }
  }

  lemma RotLaws(w: Word, u: Word, p: nat)
    requires p <= 8
    ensures Rot(Rot(w, p), p) == Rot(w, 2 * p)
    ensures Rot(Xor(w, u), p) == Xor(Rot(w, p), Rot(u, p))
  {
    var v := Rot(w, p);
    forall k: nat | k < 16
      ensures Rot(v, p)[k] == Rot(w, 2 * p)[k] && Rot(Xor(w, u), p)[k] == Xor(v, Rot(u, p))[k]
    {
      RotAt(v, p, k);
      RotAt(w, 2 * p, k);
      RotAt(w, p, if k < p then 16 - p + k else k - p);
      RotAt(w, p, k);
      RotAt(u, p, k);
      RotAt(Xor(w, u), p, k);
    }
  }

  lemma XorVanishes(key: seq<bool>, w: Word, u: Word, windows: nat)
    requires 48 <= |key| && windows <= HASH_BITS && Vanishes(key, w, windows) && Vanishes(key, u, windows)
    ensures Vanishes(key, Xor(w, u), windows)
  {
    forall at | 0 <= at < windows
      ensures !WordParity(key, Xor(w, u), at, |Xor(w, u)|)
    {
      WordParityXor(key, w, u, at, |w|);
      assert !WordParity(key, w, at, |w|) && !WordParity(key, u, at, |u|);
    }
  }

  lemma HalvePeriod(key: seq<bool>, w: Word, p: nat, windows: nat) returns (v: Word)
    requires Periodic(key) && 48 <= |key| && p <= 8 && p <= windows <= HASH_BITS
    requires w != ZERO && Rot(w, 2 * p) == w && Vanishes(key, w, windows)
    ensures v != ZERO && Rot(v, p) == v && Vanishes(key, v, windows - p)
  {
    if Rot(w, p) == w {
      v := w;
    } else {
      var u := Rot(w, p);
      v := Xor(w, u);
      var k :| 0 <= k < 16 && u[k] != w[k];
      assert v[k] && !ZERO[k];
      RotLaws(w, u, p);
      XorLaws(w, u, ZERO);
      RotationVanishes(key, w, p, windows);
      XorVanishes(key, w, u, windows - p);
    }
  }

  /** The first 16 bits of the key contain an odd number of ones. */
  predicate OddPattern(key: seq<bool>)
    requires 16 <= |key|
  {
    WordParity(key, ONES, 0, |ONES|)
  }

  lemma ZeroHashIsZeroWord(key: seq<bool>, w: Word)
    requires Periodic(key) && 48 <= |key| && OddPattern(key) && Vanishes(key, w, HASH_BITS)
    ensures w == ZERO
  {
    if w != ZERO {
      assert Rot(w, 16) == w;
      var v8 := HalvePeriod(key, w, 8, 32);
      var v4 := HalvePeriod(key, v8, 4, 24);
      var v2 := HalvePeriod(key, v4, 2, 20);
      var v := HalvePeriod(key, v2, 1, 18);
      ConstantWord(v);
      assert false;
    }
  }

  lemma ConstantWord(v: Word)
    requires v != ZERO && Rot(v, 1) == v
    ensures v == ONES
  {
    forall k: nat | k < 16
      ensures v[k] == v[0]
    {
      SameAsFirst(v, k);
    }
    assert !v[0] ==> v == ZERO;
  }

  lemma {:induction false} SameAsFirst(v: Word, k: nat)
    requires k < 16 && Rot(v, 1) == v
    ensures v[k] == v[0]
  {
    if k > 0 {
      SameAsFirst(v, k - 1);
      assert Rot(v, 1)[k] == v[k - 1];
    }
  }

  const ONES: Word := [
    true, true, true, true, true, true, true, true, true, true, true, true, true, true, true, true]

  lemma FirstByte()
    ensures !KeyBit(0) && KeyBit(1) && KeyBit(2) && !KeyBit(3) && KeyBit(4) && KeyBit(5) && !KeyBit(6) && KeyBit(7)
  {}

  lemma SecondByte()
    ensures !KeyBit(8) && KeyBit(9) && !KeyBit(10) && KeyBit(11)
    ensures KeyBit(12) && !KeyBit(13) && KeyBit(14) && !KeyBit(15)
  {}

  lemma FirstWord()
    ensures KeyBits()[..8] == [false, true, true, false, true, true, false, true]
    ensures KeyBits()[8..16] == [false, true, false, true, true, false, true, false]
  {
    FirstByte();
    SecondByte();
  }

  /** The all-ones word meets every key bit. */
  lemma OnesNext(key: seq<bool>, n: nat)
    requires n < 16 <= |key|
    ensures WordParity(key, ONES, 0, n + 1) == (key[n] != WordParity(key, ONES, 0, n))
  {}

  lemma FirstHalf(key: seq<bool>)
    requires 16 <= |key| && key[..8] == [false, true, true, false, true, true, false, true]
    ensures WordParity(key, ONES, 0, |ONES| - 8)
  {
    var n := |ONES| - 8;
    assert forall i :: 0 <= i < 8 ==> key[i] == key[..8][i];
    OnesNext(key, n - 8); OnesNext(key, n - 7); OnesNext(key, n - 6); OnesNext(key, n - 5);
    assert !WordParity(key, ONES, 0, n - 4);
    OnesNext(key, n - 4); OnesNext(key, n - 3); OnesNext(key, n - 2); OnesNext(key, n - 1);
  }

  lemma SecondHalf(key: seq<bool>)
    requires 16 <= |key| && key[8..16] == [false, true, false, true, true, false, true, false]
    requires WordParity(key, ONES, 0, |ONES| - 8)
    ensures OddPattern(key)
  {
    var n := |ONES|;
    assert forall i :: 8 <= i < 16 ==> key[i] == key[8..16][i - 8];
    OnesNext(key, n - 8); OnesNext(key, n - 7); OnesNext(key, n - 6); OnesNext(key, n - 5);
    assert WordParity(key, ONES, 0, n - 4);
    OnesNext(key, n - 4); OnesNext(key, n - 3); OnesNext(key, n - 2); OnesNext(key, n - 1);
  }

  /** Nine of the sixteen pattern bits are set. */
  lemma KeyIsOdd()
    ensures OddPattern(KeyBits())
  {
    FirstWord();
    FirstHalf(KeyBits());
    SecondHalf(KeyBits());
  }

  /** Under any key of period 16 whose pattern has odd weight, two inputs hash alike
      exactly when their words have the same xor. */
  lemma AlikeIff(key: seq<bool>, vs: seq<Word>, ws: seq<Word>)
    requires Periodic(key) && 48 <= |key| && OddPattern(key) && FitsIn(|vs|, |key|) && FitsIn(|ws|, |key|)
    ensures Hash(key, vs) == Hash(key, ws) <==> XorAll(vs) == XorAll(ws)
  {
    var x, y := XorAll(vs), XorAll(ws);
    forall j | 0 <= j < HASH_BITS
      ensures Hash(key, vs)[j] == WordParity(key, x, j, |x|) && Hash(key, ws)[j] == WordParity(key, y, j, |y|)
    {
      HashOfXor(key, vs, j);
      HashOfXor(key, ws, j);
    }
    if Hash(key, vs) == Hash(key, ws) {
      forall j | 0 <= j < HASH_BITS
        ensures !WordParity(key, Xor(x, y), j, |Xor(x, y)|)
      {
        WordParityXor(key, x, y, j, |x|);
        assert Hash(key, vs)[j] == Hash(key, ws)[j];
      }
      ZeroHashIsZeroWord(key, Xor(x, y));
      assert forall k :: 0 <= k < 16 ==> Xor(x, y)[k] == (x[k] != y[k]);
    }
  }

  /** Two inputs hash alike, and so land on the same receive queue, exactly when
      their words have the same xor. */
  lemma SameHashIff(vs: seq<Word>, ws: seq<Word>)
    requires Fits(|vs|) && Fits(|ws|)
    ensures Toeplitz(vs) == Toeplitz(ws) <==> XorAll(vs) == XorAll(ws)
  {
    KeyIsPeriodic();
    KeyIsOdd();
    AlikeIff(KeyBits(), vs, ws);
  }

  // ----- Consequences for address tuples -----

  lemma {:induction false} XorOfConcat(u: seq<Word>, v: seq<Word>, n: nat)
    requires n <= |v|
    ensures XorOf(u + v, |u| + n) == Xor(XorAll(u), XorOf(v, n))
  {
    if n == 0 {
      XorPrefix(u, v, |u|);
      XorLaws(XorAll(u), ZERO, ZERO);
    } else {
      XorOfConcat(u, v, n - 1);
      XorLaws(v[n - 1], XorAll(u), XorOf(v, n - 1));
    }
  }

  lemma {:induction false} XorPrefix(u: seq<Word>, v: seq<Word>, n: nat)
    requires n <= |u|
    ensures XorOf(u + v, n) == XorOf(u, n)
  {
    if n > 0 {
      XorPrefix(u, v, n - 1);
    }
  }

  lemma XorLaws(a: Word, b: Word, c: Word)
    ensures Xor(a, b) == Xor(b, a)
    ensures Xor(a, Xor(b, c)) == Xor(b, Xor(a, c))
    ensures Xor(a, ZERO) == a
  {}

  /** Exchanging two blocks of words leaves the xor alone. */
  lemma XorOfSwapped(a: seq<Word>, b: seq<Word>)
    ensures XorAll(a + b) == XorAll(b + a)
  {
    XorOfConcat(a, b, |b|);
    XorOfConcat(b, a, |a|);
    XorLaws(XorAll(a), XorAll(b), ZERO);
  }

  /** The hash input of a TCP, UDP or SCTP packet: addresses, then ports. */
  function Tuple(src: seq<Word>, dst: seq<Word>, srcPort: Word, dstPort: Word): seq<Word> {
    (src + dst) + ([srcPort] + [dstPort])
  }

  /** Both directions of a flow get the same hash, for IPv4 addresses (two words),
      IPv6 addresses (eight words) and any other length the key has room for. */
  lemma SymmetricFlow(src: seq<Word>, dst: seq<Word>, srcPort: Word, dstPort: Word)
    requires Fits(|src| + |dst| + 2)
    ensures Toeplitz(Tuple(src, dst, srcPort, dstPort)) == Toeplitz(Tuple(dst, src, dstPort, srcPort))
  {
    XorOfSwapped(src, dst);
    XorOfSwapped([srcPort], [dstPort]);
    XorOfConcat(src + dst, [srcPort] + [dstPort], 2);
    XorOfConcat(dst + src, [dstPort] + [srcPort], 2);
    SameHashIff(Tuple(src, dst, srcPort, dstPort), Tuple(dst, src, dstPort, srcPort));
  }

  /** The 36-byte IPv6 tuple is the longest input the 40-byte key serves. */
  lemma LongestInput(words: nat)
    ensures Fits(words) <==> words <= 18
  {}
}
