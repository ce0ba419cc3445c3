/** The bits of natural numbers, and the bitwise and. */
module BitMath {
  import opened Hiding

  function AndBit(p: nat, q: nat): (r: nat)
    ensures r < 2
  {
    if p == 1 && q == 1 then 1 else 0
  }

  /** The bitwise and of the low `n` bits. */
  function And(n: nat, x: nat, y: nat): nat {
    if n == 0 then 0 else AndBit(x % 2, y % 2) + 2 * And(n - 1, x / 2, y / 2)
  }

  /** Bit `k` of a number, lowest first. */
  function Bit(x: nat, k: nat): (r: nat)
    ensures r < 2
  {
    if k == 0 then x % 2 else Bit(x / 2, k - 1)
  }

  /** A byte by its bits, lowest first. */
  function Byte(b0: nat, b1: nat, b2: nat, b3: nat, b4: nat, b5: nat, b6: nat, b7: nat): nat {
    b0 + 2 * b1 + 4 * b2 + 8 * b3 + 16 * b4 + 32 * b5 + 64 * b6 + 128 * b7
  }

  /** The number of one bits of a byte. */
  function Ones(b: nat): nat {
    Bit(b, 0) + Bit(b, 1) + Bit(b, 2) + Bit(b, 3) + Bit(b, 4) + Bit(b, 5) + Bit(b, 6) + Bit(b, 7)
  }

  // ---- the bits of a byte ----

  lemma BitLow(x: nat, b: nat, h: nat)
    requires b < 2 && x == b + 2 * h
    ensures Bit(x, 0) == b && forall k: nat :: k > 0 ==> Bit(x, k) == Bit(h, k - 1)
  {
    assert x / 2 == h;
  }

  lemma HasBits4(x: nat, h: nat)
    requires h == x / 2 / 2 / 2 / 2
    ensures x == Bit(x, 0) + 2 * Bit(x, 1) + 4 * Bit(x, 2) + 8 * Bit(x, 3) + 16 * h
    ensures Bit(x, 4) == Bit(h, 0) && Bit(x, 5) == Bit(h, 1) && Bit(x, 6) == Bit(h, 2) && Bit(x, 7) == Bit(h, 3)
  {
    var x1 := x / 2;
    var x2 := x1 / 2;
    var x3 := x2 / 2;
    BitLow(x, x % 2, x1);
    BitLow(x1, x1 % 2, x2);
    BitLow(x2, x2 % 2, x3);
    BitLow(x3, x3 % 2, h);
  }

  lemma Sixteenth(x: nat)
    requires x < 256
    ensures x / 2 / 2 / 2 / 2 < 16 && x / 2 / 2 / 2 / 2 / 2 / 2 / 2 / 2 == 0
  {
    var a := x / 2;
    assert a < 128 && a / 2 < 64 && a / 2 / 2 < 32 && a / 2 / 2 / 2 < 16;
    var h := a / 2 / 2 / 2;
    assert h / 2 < 8 && h / 2 / 2 < 4 && h / 2 / 2 / 2 < 2;
  }

  lemma ByteHasBits(x: nat)
    requires x < 256
    ensures x == Byte(Bit(x, 0), Bit(x, 1), Bit(x, 2), Bit(x, 3), Bit(x, 4), Bit(x, 5), Bit(x, 6), Bit(x, 7))
  {
    ghost var h := x / 2 / 2 / 2 / 2;
    Sixteenth(x);
    HasBits4(x, h);
    HasBits4(h, 0);
  }

  // ---- the and, bit by bit ----

  /** `r` is the bitwise and of the low `n` bits. */
  ghost predicate AndIs(n: nat, x: nat, y: nat, r: nat) {
    forall u: nat :: Unfold(Bits, u) ==> And(n, x, y) == r
  }

  lemma AndIsNil(x: nat, y: nat)
    ensures AndIs(0, x, y, 0)
  {
  }

  lemma AndIsStep(n: nat, x: nat, y: nat, r: nat, b: nat, c: nat)
    requires AndIs(n, x, y, r) && b < 2 && c < 2
    ensures AndIs(n + 1, b + 2 * x, c + 2 * y, AndBit(b, c) + 2 * r)
  {
    assert Unfold(Bits, 0);
    assert (b + 2 * x) / 2 == x && (c + 2 * y) / 2 == y && (b + 2 * x) % 2 == b && (c + 2 * y) % 2 == c;
  }

  /** A field of two bits below. */
  lemma AndIs2(n: nat, x: nat, y: nat, r: nat, b0: nat, b1: nat, c0: nat, c1: nat)
    requires AndIs(n, x, y, r) && b0 < 2 && b1 < 2 && c0 < 2 && c1 < 2
    ensures AndIs(n + 2, b0 + 2 * b1 + 4 * x, c0 + 2 * c1 + 4 * y, AndBit(b0, c0) + 2 * AndBit(b1, c1) + 4 * r)
  {
    var x1, y1, r1 := b1 + 2 * x, c1 + 2 * y, AndBit(b1, c1) + 2 * r;
    AndIsStep(n, x, y, r, b1, c1);
    AndIsStep(n + 1, x1, y1, r1, b0, c0);
    assert b0 + 2 * x1 == b0 + 2 * b1 + 4 * x && c0 + 2 * y1 == c0 + 2 * c1 + 4 * y;
    assert AndBit(b0, c0) + 2 * r1 == AndBit(b0, c0) + 2 * AndBit(b1, c1) + 4 * r;
  }

  /** A field of two bits that the mask keeps. */
  lemma KeepTwo(n: nat, x: nat, y: nat, r: nat, d: nat)
    requires AndIs(n, x, y, r) && d < 4
    ensures AndIs(n + 2, d + 4 * x, 3 + 4 * y, d + 4 * r)
  {
    AndIs2(n, x, y, r, d % 2, d / 2, 1, 1);
    assert d == d % 2 + 2 * (d / 2);
  }

  /** A field of two bits that the mask drops. */
  lemma DropTwo(n: nat, x: nat, y: nat, r: nat, d: nat)
    requires AndIs(n, x, y, r) && d < 4
    ensures AndIs(n + 2, d + 4 * x, 0 + 4 * y, 0 + 4 * r)
  {
    AndIs2(n, x, y, r, d % 2, d / 2, 0, 0);
    assert d == d % 2 + 2 * (d / 2);
  }

  /** A bit that the mask keeps below one that it drops. */
  lemma KeepLow(n: nat, x: nat, y: nat, r: nat, b: nat, c: nat)
    requires AndIs(n, x, y, r) && b < 2 && c < 2
    ensures AndIs(n + 2, b + 2 * c + 4 * x, 1 + 4 * y, b + 4 * r)
  {
    AndIs2(n, x, y, r, b, c, 1, 0);
  }

  /** Below any number, the byte `a` and the mask `m` give `r`. */
  ghost predicate Prepends(a: nat, m: nat, r: nat) {
    forall u: nat :: Unfold(Words, u) ==>
      forall n: nat, x: nat, y: nat, s: nat ::
        AndIs(n, x, y, s) ==> AndIs(n + 8, a + 0x100 * x, m + 0x100 * y, r + 0x100 * s)
  }

  lemma Prepend(a: nat, m: nat, r: nat, n: nat, x: nat, y: nat, s: nat)
    requires Prepends(a, m, r) && AndIs(n, x, y, s)
    ensures AndIs(n + 8, a + 0x100 * x, m + 0x100 * y, r + 0x100 * s)
  {
    assert Unfold(Words, 0);
  }

  lemma AndIs4(n: nat, x: nat, y: nat, r: nat, b0: nat, b1: nat, b2: nat, b3: nat, c0: nat, c1: nat, c2: nat, c3: nat)
    requires AndIs(n, x, y, r) && b0 < 2 && b1 < 2 && b2 < 2 && b3 < 2 && c0 < 2 && c1 < 2 && c2 < 2 && c3 < 2
    ensures AndIs(n + 4, b0 + 2 * b1 + 4 * b2 + 8 * b3 + 16 * x, c0 + 2 * c1 + 4 * c2 + 8 * c3 + 16 * y,
                  AndBit(b0, c0) + 2 * AndBit(b1, c1) + 4 * AndBit(b2, c2) + 8 * AndBit(b3, c3) + 16 * r)
  {
    AndIs2(n, x, y, r, b2, b3, c2, c3);
    var x2, y2, r2 := b2 + 2 * b3 + 4 * x, c2 + 2 * c3 + 4 * y, AndBit(b2, c2) + 2 * AndBit(b3, c3) + 4 * r;
    AndIs2(n + 2, x2, y2, r2, b0, b1, c0, c1);
    assert b0 + 2 * b1 + 4 * x2 == b0 + 2 * b1 + 4 * b2 + 8 * b3 + 16 * x;
    assert c0 + 2 * c1 + 4 * y2 == c0 + 2 * c1 + 4 * c2 + 8 * c3 + 16 * y;
    assert AndBit(b0, c0) + 2 * AndBit(b1, c1) + 4 * r2 ==
             AndBit(b0, c0) + 2 * AndBit(b1, c1) + 4 * AndBit(b2, c2) + 8 * AndBit(b3, c3) + 16 * r;
  }

  lemma AndIs8(n: nat, x: nat, y: nat, r: nat,
               b0: nat, b1: nat, b2: nat, b3: nat, b4: nat, b5: nat, b6: nat, b7: nat,
               c0: nat, c1: nat, c2: nat, c3: nat, c4: nat, c5: nat, c6: nat, c7: nat)
    requires AndIs(n, x, y, r)
    requires b0 < 2 && b1 < 2 && b2 < 2 && b3 < 2 && b4 < 2 && b5 < 2 && b6 < 2 && b7 < 2
    requires c0 < 2 && c1 < 2 && c2 < 2 && c3 < 2 && c4 < 2 && c5 < 2 && c6 < 2 && c7 < 2
    ensures AndIs(n + 8, Byte(b0, b1, b2, b3, b4, b5, b6, b7) + 0x100 * x,
                  Byte(c0, c1, c2, c3, c4, c5, c6, c7) + 0x100 * y,
                  Byte(AndBit(b0, c0), AndBit(b1, c1), AndBit(b2, c2), AndBit(b3, c3), AndBit(b4, c4), AndBit(b5, c5),
                       AndBit(b6, c6), AndBit(b7, c7)) + 0x100 * r)
  {
    AndIs4(n, x, y, r, b4, b5, b6, b7, c4, c5, c6, c7);
    var x4, y4 := b4 + 2 * b5 + 4 * b6 + 8 * b7 + 16 * x, c4 + 2 * c5 + 4 * c6 + 8 * c7 + 16 * y;
    var r4 := AndBit(b4, c4) + 2 * AndBit(b5, c5) + 4 * AndBit(b6, c6) + 8 * AndBit(b7, c7) + 16 * r;
    AndIs4(n + 4, x4, y4, r4, b0, b1, b2, b3, c0, c1, c2, c3);
    assert b0 + 2 * b1 + 4 * b2 + 8 * b3 + 16 * x4 == Byte(b0, b1, b2, b3, b4, b5, b6, b7) + 0x100 * x;
    assert c0 + 2 * c1 + 4 * c2 + 8 * c3 + 16 * y4 == Byte(c0, c1, c2, c3, c4, c5, c6, c7) + 0x100 * y;
    assert AndBit(b0, c0) + 2 * AndBit(b1, c1) + 4 * AndBit(b2, c2) + 8 * AndBit(b3, c3) + 16 * r4 ==
           Byte(AndBit(b0, c0), AndBit(b1, c1), AndBit(b2, c2), AndBit(b3, c3), AndBit(b4, c4), AndBit(b5, c5),
                AndBit(b6, c6), AndBit(b7, c7)) + 0x100 * r;
  }

  lemma BitsOfByte(b: nat) returns (b0: nat, b1: nat, b2: nat, b3: nat, b4: nat, b5: nat, b6: nat, b7: nat)
    requires b < 0x100
    ensures b0 < 2 && b1 < 2 && b2 < 2 && b3 < 2 && b4 < 2 && b5 < 2 && b6 < 2 && b7 < 2
    ensures b == Byte(b0, b1, b2, b3, b4, b5, b6, b7)
  {
    ByteHasBits(b);
    b0, b1, b2, b3 := Bit(b, 0), Bit(b, 1), Bit(b, 2), Bit(b, 3);
    b4, b5, b6, b7 := Bit(b, 4), Bit(b, 5), Bit(b, 6), Bit(b, 7);
  }

  /** The and of two numbers is, in their lowest bytes, the and of those bytes. */
  lemma AndByte(a: nat, m: nat) returns (r: nat)
    requires a < 0x100 && m < 0x100
    ensures Prepends(a, m, r) && AndIs(8, a, m, r)
  {
    var b0, b1, b2, b3, b4, b5, b6, b7 := BitsOfByte(a);
    var c0, c1, c2, c3, c4, c5, c6, c7 := BitsOfByte(m);
    r := Byte(AndBit(b0, c0), AndBit(b1, c1), AndBit(b2, c2), AndBit(b3, c3), AndBit(b4, c4), AndBit(b5, c5),
              AndBit(b6, c6), AndBit(b7, c7));
    forall n: nat, x: nat, y: nat, s: nat | AndIs(n, x, y, s)
      ensures AndIs(n + 8, a + 0x100 * x, m + 0x100 * y, r + 0x100 * s)
    {
      AndIs8(n, x, y, s, b0, b1, b2, b3, b4, b5, b6, b7, c0, c1, c2, c3, c4, c5, c6, c7);
    }
    var zero: nat := 0;
    AndIsNil(zero, zero);
    Prepend(a, m, r, zero, zero, zero, zero);
  }

  /** A string as numbers. */
  ghost predicate AllBytes(s: seq<nat>) {
    forall i :: 0 <= i < |s| ==> s[i] < 0x100
  }
}
