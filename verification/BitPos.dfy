/** redisBitpos: the first bit with a given value, skipping whole words. */
module BitPos {
  import opened BitMath
  import opened BitOp

  /** Bit `p` of a string, the highest bit of the first byte being bit 0; zero beyond the end. */
  function BitAt(s: seq<nat>, p: nat): nat {
    if p / 8 < |s| then Bit(s[p / 8], 7 - p % 8) else 0
  }

  /** `pos` is the first bit equal to `bit`. */
  ghost predicate First(s: seq<nat>, bit: nat, pos: nat) {
    BitAt(s, pos) == bit && forall p: nat :: p < pos ==> BitAt(s, p) != bit
  }

  // ---- whole bytes and words that cannot hold the bit ----

  /** The byte without any bit equal to `bit`. */
  function SkipByte(bit: nat): nat {
    if bit == 1 then 0 else 0xFF
  }

  ghost predicate Skipped(s: seq<nat>, bit: nat, n: nat) {
    n <= |s| && forall i :: 0 <= i < n ==> s[i] == SkipByte(bit)
  }

  lemma ZeroBits(k: nat)
    ensures Bit(0, k) == 0
  {
  }

  lemma {:induction false} OneBits(n: nat, k: nat)
    requires k < n
    ensures Bit(Max(n), k) == 1
  {
    BitLow(Max(n), 1, Max(n - 1));
    if k > 0 {
      OneBits(n - 1, k - 1);
    }
  }

  lemma SkippedHasNone(s: seq<nat>, bit: nat, n: nat)
    requires Skipped(s, bit, n) && bit < 2
    ensures forall p: nat :: p < 8 * n ==> BitAt(s, p) != bit
  {
    forall p: nat | p < 8 * n
      ensures BitAt(s, p) != bit
    {
      ZeroBits(7 - p % 8);
      Max8();
      OneBits(8, 7 - p % 8);
    }
  }

  /** The word without any bit equal to `bit`. */
  function SkipWord(bit: nat): nat {
    if bit == 1 then 0 else Max(64)
  }

  /** Comparing a word compares its bytes. */
  lemma {:induction false} SkipLoad(s: seq<nat>, bit: nat)
    requires AllBytes(s) && bit < 2
    ensures Load(s) <= Max(8 * |s|)
    ensures Load(s) == (if bit == 1 then 0 else Max(8 * |s|)) <==> forall i :: 0 <= i < |s| ==> s[i] == SkipByte(bit)
  {
    if s != [] {
      SkipLoad(s[1..], bit);
      MaxByte(8 * |s[1..]|);
      assert s == [s[0]] + s[1..];
      assert (forall i :: 0 <= i < |s| ==> s[i] == SkipByte(bit)) <==>
               s[0] == SkipByte(bit) && forall i :: 0 <= i < |s[1..]| ==> s[1..][i] == SkipByte(bit);
    }
  }

  // ---- the last word ----

  /** The first `n` bytes of `s`, zero padded, as a big endian number. */
  function BigEndian(s: seq<nat>, n: nat): nat {
    if n == 0 then 0 else 0x100 * BigEndian(s, n - 1) + ByteOf(s, n - 1)
  }

  lemma BitAbove(x: nat, b: nat, h: nat)
    requires b < 0x100 && x == b + 0x100 * h
    ensures forall k: nat :: k < 8 ==> Bit(x, k) == Bit(b, k)
    ensures forall k: nat :: k >= 8 ==> Bit(x, k) == Bit(h, k - 8)
  {
    var b0, b1, b2, b3, b4, b5, b6, b7 := BitsOfByte(b);
    EightBits(x, h, b0, b1, b2, b3, b4, b5, b6, b7);
    EightBits(b, 0, b0, b1, b2, b3, b4, b5, b6, b7);
    forall k: nat | k < 8
      ensures Bit(x, k) == Bit(b, k)
    {
      assert k == 0 || k == 1 || k == 2 || k == 3 || k == 4 || k == 5 || k == 6 || k == 7;
    }
  }

  lemma EightBits(x: nat, h: nat, b0: nat, b1: nat, b2: nat, b3: nat, b4: nat, b5: nat, b6: nat, b7: nat)
    requires b0 < 2 && b1 < 2 && b2 < 2 && b3 < 2 && b4 < 2 && b5 < 2 && b6 < 2 && b7 < 2
    requires x == Byte(b0, b1, b2, b3, b4, b5, b6, b7) + 0x100 * h
    ensures Bit(x, 0) == b0 && Bit(x, 1) == b1 && Bit(x, 2) == b2 && Bit(x, 3) == b3
    ensures Bit(x, 4) == b4 && Bit(x, 5) == b5 && Bit(x, 6) == b6 && Bit(x, 7) == b7
    ensures forall k: nat :: k >= 8 ==> Bit(x, k) == Bit(h, k - 8)
  {
    var x7 := b7 + 2 * h;
    var x6 := b6 + 2 * x7;
    var x5 := b5 + 2 * x6;
    var x4 := b4 + 2 * x5;
    var x3 := b3 + 2 * x4;
    var x2 := b2 + 2 * x3;
    var x1 := b1 + 2 * x2;
    BitLow(x7, b7, h);
    BitLow(x6, b6, x7);
    BitLow(x5, b5, x6);
    BitLow(x4, b4, x5);
    BitLow(x3, b3, x4);
    BitLow(x2, b2, x3);
    BitLow(x1, b1, x2);
    BitLow(x, b0, x1);
  }

  /** The bits of the number, highest first, are the bits of the string. */
  lemma {:induction false} BigEndianBits(s: seq<nat>, n: nat, k: nat)
    requires AllBytes(s) && k < 8 * n
    ensures Bit(BigEndian(s, n), 8 * n - 1 - k) == BitAt(s, k)
  {
    var h, b := BigEndian(s, n - 1), ByteOf(s, n - 1);
    BitAbove(BigEndian(s, n), b, h);
    var i := 8 * n - 1 - k;
    if k >= 8 * (n - 1) {
      assert k / 8 == n - 1 && i == 7 - k % 8;
      ZeroBits(i);
    } else {
      BigEndianBits(s, n - 1, k);
      assert i - 8 == 8 * (n - 1) - 1 - k;
    }
  }

  lemma {:induction false} BigEndianZero(s: seq<nat>, n: nat)
    requires AllBytes(s)
    ensures BigEndian(s, n) == 0 <==> forall i :: 0 <= i < |s| && i < n ==> s[i] == 0
  {
    if n > 0 {
      BigEndianZero(s, n - 1);
    }
  }

  /** The number with only bit `m` set. */
  function Pow(m: nat): (p: nat)
    ensures p > 0
  {
    if m == 0 then 1 else 2 * Pow(m - 1)
  }

  lemma {:induction false} AndPow(n: nat, m: nat, w: nat)
    requires m < n
    ensures And(n, Pow(m), w) != 0 <==> Bit(w, m) == 1
  {
    if m > 0 {
      AndPow(n - 1, m - 1, w / 2);
    } else {
      AndBelow(n - 1, 0, w / 2);
    }
  }

  // ---- the function ----

  /** Bytes before the first aligned word; `found` if one of them is not skipped. */
  method SkipUnaligned(s: seq<nat>, bit: nat, address: nat) returns (i: nat, found: bool)
    requires AllBytes(s) && bit < 2
    ensures Skipped(s, bit, i) && (found ==> i < |s| && s[i] != SkipByte(bit))
  {
    i, found := 0, false;
    while (address + i) % 8 != 0 && i < |s|
      invariant Skipped(s, bit, i)
      decreases |s| - i
    {
      if s[i] != SkipByte(bit) {
        found := true;
        break;
      }
      i := i + 1;
    }
  }

  /** Whole words; it ends at a word that is not skipped or with less than a word left. */
  method SkipWords(s: seq<nat>, bit: nat, from: nat) returns (i: nat)
    requires AllBytes(s) && bit < 2 && Skipped(s, bit, from)
    ensures Skipped(s, bit, i) && (|s| - i < 8 || !Skipped(s, bit, i + 8))
  {
    i := from;
    while |s| - i >= 8
      invariant Skipped(s, bit, i)
    {
      var word := s[i..i + 8];
      SkipLoad(word, bit);
      if Load(word) != SkipWord(bit) {
        assert exists k :: 0 <= k < 8 && word[k] != SkipByte(bit);
        ghost var k :| 0 <= k < 8 && word[k] != SkipByte(bit);
        assert s[i + k] != SkipByte(bit);
        break;
      }
      forall k | i <= k < i + 8
        ensures s[k] == SkipByte(bit)
      {
        assert s[k] == word[k - i];
      }
      i := i + 8;
    }
  }

  /** Up to eight bytes, the first one most significant, zero padded on the right. */
  method LoadWord(s: seq<nat>, from: nat) returns (word: nat)
    requires AllBytes(s) && from <= |s|
    ensures word == BigEndian(s[from..], 8)
  {
    word := 0;
    var c := from;
    for j := 0 to 8
      invariant c == (if from + j < |s| then from + j else |s|) && word == BigEndian(s[from..], j)
    {
      word := word * 0x100;
      if c < |s| {
        word := word + s[c];
        c := c + 1;
      }
    }
  }

  /** Bit `m` of a 64-bit word, counted from the top. */
  function FromTop(word: nat, m: nat): nat {
    if m < 64 then Bit(word, 63 - m) else 0
  }

  method TestMask(word: nat, one: nat, n: nat) returns (isSet: bool)
    requires n < 64 && one == Pow(63 - n)
    ensures isSet <==> FromTop(word, n) == 1
  {
    AndPow(64, 63 - n, word);
    isSet := And(64, one, word) != 0;
  }

  /** Scan a word bit by bit from the top. */
  method ScanWord(word: nat, bit: nat, ghost k: nat) returns (n: nat)
    requires bit < 2 && k < 64 && FromTop(word, k) == bit
    ensures n < 64 && FromTop(word, n) == bit && forall m: nat :: m < n ==> FromTop(word, m) != bit
  {
    n := 0;
    var one := Pow(63);
    while true
      invariant n <= k && one == Pow(63 - n)
      invariant forall m: nat :: m < n ==> FromTop(word, m) != bit
      decreases k - n
    {
      var isSet := TestMask(word, one, n);
      if isSet == (bit == 1) {
        return;
      }
      HalfPow(63 - n);
      n := n + 1;
      one := one / 2;
    }
  }

  lemma HalfPow(m: nat)
    requires m > 0
    ensures Pow(m) / 2 == Pow(m - 1)
  {
  }

  lemma TopBits(s: seq<nat>, from: nat, k: nat)
    requires AllBytes(s) && from <= |s| && k < 64
    ensures FromTop(BigEndian(s[from..], 8), k) == BitAt(s, 8 * from + k) == BitAt(s[from..], k)
  {
    BigEndianBits(s[from..], 8, k);
    ShiftAt(s, from, k);
  }

  lemma ShiftAt(s: seq<nat>, from: nat, k: nat)
    requires from <= |s|
    ensures BitAt(s[from..], k) == BitAt(s, 8 * from + k)
  {
    assert (8 * from + k) / 8 == from + k / 8 && (8 * from + k) % 8 == k % 8;
  }

  /** A byte that is not skipped holds the bit. */
  lemma {:induction false} SomeBit(b: nat, n: nat, bit: nat) returns (k: nat)
    requires b <= Max(n) && bit < 2 && b != (if bit == 1 then 0 else Max(n))
    ensures k < n && Bit(b, k) == bit
  {
    if b % 2 == bit {
      k := 0;
    } else {
      k := SomeBit(b / 2, n - 1, bit);
      k := k + 1;
    }
  }

  /** Within the eight bytes from `i` on there is the bit: in the string, or in the padding. */
  lemma BitInWord(s: seq<nat>, bit: nat, i: nat, found: bool) returns (k: nat)
    requires AllBytes(s) && bit < 2 && Skipped(s, bit, i)
    requires found ==> i < |s| && s[i] != SkipByte(bit)
    requires !found ==> |s| - i < 8 || !Skipped(s, bit, i + 8)
    requires bit == 1 ==> exists j :: i <= j < |s| && j < i + 8 && s[j] != 0
    ensures k < 64 && BitAt(s[i..], k) == bit
  {
    Max8();
    if j :| i <= j < |s| && j < i + 8 && s[j] != SkipByte(bit) {
      var b := SomeBit(s[j], 8, bit);
      k := 8 * (j - i) + (7 - b);
      assert k / 8 == j - i && k % 8 == 7 - b;
    } else {
      k := 8 * (|s| - i);
      assert k / 8 == |s| - i;
    }
  }

  lemma WordToString(s: seq<nat>, bit: nat, i: nat, word: nat, n: nat)
    requires AllBytes(s) && bit < 2 && Skipped(s, bit, i) && word == BigEndian(s[i..], 8)
    requires n < 64 && FromTop(word, n) == bit && forall m: nat :: m < n ==> FromTop(word, m) != bit
    ensures First(s, bit, 8 * i + n)
  {
    SkippedHasNone(s, bit, i);
    TopBits(s, i, n);
    forall p: nat | p < 8 * i + n
      ensures BitAt(s, p) != bit
    {
      if p >= 8 * i {
        TopBits(s, i, p - 8 * i);
        assert FromTop(word, p - 8 * i) != bit;
      }
    }
  }

  /** With nothing but zeros in the last word there is no one in the string. */
  lemma NoOnes(s: seq<nat>, i: nat, found: bool)
    requires AllBytes(s) && Skipped(s, 1, i) && BigEndian(s[i..], 8) == 0
    requires found ==> i < |s| && s[i] != SkipByte(1)
    requires !found ==> |s| - i < 8 || !Skipped(s, 1, i + 8)
    ensures forall p: nat :: BitAt(s, p) != 1
  {
    var t := s[i..];
    BigEndianZero(t, 8);
    assert forall j :: i <= j < |s| && j < i + 8 ==> s[j] == t[j - i];
    assert Skipped(s, 1, |s|);
    SkippedHasNone(s, 1, |s|);
  }

  lemma SomeOnes(s: seq<nat>, i: nat)
    requires AllBytes(s) && i <= |s| && BigEndian(s[i..], 8) != 0
    ensures exists j :: i <= j < |s| && j < i + 8 && s[j] != 0
  {
    var t := s[i..];
    BigEndianZero(t, 8);
    var k :| 0 <= k < |t| && k < 8 && t[k] != 0;
    assert s[i + k] != 0;
  }

  /** redisBitpos: the first bit equal to `bit` in the zero padded string; -1 exactly when a one
      is looked for and there is none. `address` is the address of the string. */
  method RedisBitpos(s: seq<nat>, bit: nat, address: nat) returns (pos: int)
    requires AllBytes(s) && bit < 2
    ensures pos >= 0 ==> First(s, bit, pos)
    ensures pos < 0 ==> pos == -1 && bit == 1 && forall p: nat :: BitAt(s, p) != 1
  {
    var i, found := SkipUnaligned(s, bit, address);
    if !found {
      i := SkipWords(s, bit, i);
    }
    var word := LoadWord(s, i);
    if bit == 1 && word == 0 {
      NoOnes(s, i, found);
      return -1;
    }
    if bit == 1 {
      SomeOnes(s, i);
    }
    ghost var k := BitInWord(s, bit, i, found);
    TopBits(s, i, k);
    var n := ScanWord(word, bit, k);
    WordToString(s, bit, i, word, n);
    pos := 8 * i + n;
  }
}
