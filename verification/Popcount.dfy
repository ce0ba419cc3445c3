/** redisPopcount: counting the ones of a string by 32-bit words, seven at a time. */
module Popcount {
  import opened BitMath
  import opened Hiding

  /** Four bytes as a 32-bit word. */
  function Word(b0: nat, b1: nat, b2: nat, b3: nat): nat {
    b0 + 0x100 * (b1 + 0x100 * (b2 + 0x100 * b3))
  }

  ghost predicate IsWord(w: nat, b0: nat, b1: nat, b2: nat, b3: nat) {
    forall u: nat :: Unfold(Packed, u) ==> w == Word(b0, b1, b2, b3)
  }

  lemma MakeWord(b0: nat, b1: nat, b2: nat, b3: nat) returns (w: nat)
    ensures IsWord(w, b0, b1, b2, b3)
  {
    w := Word(b0, b1, b2, b3);
  }

  // ---- the masks, byte by byte ----

  /** Four fields of two bits. */
  function Fields(d0: nat, d1: nat, d2: nat, d3: nat): nat {
    d0 + 4 * d1 + 16 * d2 + 64 * d3
  }

  lemma Mask55(n: nat, x: nat, y: nat, r: nat, b0: nat, b1: nat, b2: nat, b3: nat, b4: nat, b5: nat, b6: nat, b7: nat)
    requires AndIs(n, x, y, r)
    requires b0 < 2 && b1 < 2 && b2 < 2 && b3 < 2 && b4 < 2 && b5 < 2 && b6 < 2 && b7 < 2
    ensures AndIs(n + 8, Byte(b0, b1, b2, b3, b4, b5, b6, b7) + 0x100 * x, 0x55 + 0x100 * y,
                  Fields(b0, b2, b4, b6) + 0x100 * r)
  {
    KeepLow(n, x, y, r, b6, b7);
    var x6, y6, r6 := b6 + 2 * b7 + 4 * x, 1 + 4 * y, b6 + 4 * r;
    KeepLow(n + 2, x6, y6, r6, b4, b5);
    var x4, y4, r4 := b4 + 2 * b5 + 4 * x6, 1 + 4 * y6, b4 + 4 * r6;
    KeepLow(n + 4, x4, y4, r4, b2, b3);
    var x2, y2, r2 := b2 + 2 * b3 + 4 * x4, 1 + 4 * y4, b2 + 4 * r4;
    KeepLow(n + 6, x2, y2, r2, b0, b1);
    assert b0 + 2 * b1 + 4 * x2 == Byte(b0, b1, b2, b3, b4, b5, b6, b7) + 0x100 * x;
    assert 1 + 4 * y2 == 0x55 + 0x100 * y && b0 + 4 * r2 == Fields(b0, b2, b4, b6) + 0x100 * r;
  }

  lemma Mask33(n: nat, x: nat, y: nat, r: nat, d0: nat, d1: nat, d2: nat, d3: nat)
    requires AndIs(n, x, y, r) && d0 < 4 && d1 < 4 && d2 < 4 && d3 < 4
    ensures AndIs(n + 8, Fields(d0, d1, d2, d3) + 0x100 * x, 0x33 + 0x100 * y, d0 + 16 * d2 + 0x100 * r)
  {
    DropTwo(n, x, y, r, d3);
    var x3, y3, r3 := d3 + 4 * x, 0 + 4 * y, 0 + 4 * r;
    KeepTwo(n + 2, x3, y3, r3, d2);
    var x2, y2, r2 := d2 + 4 * x3, 3 + 4 * y3, d2 + 4 * r3;
    DropTwo(n + 4, x2, y2, r2, d1);
    var x1, y1, r1 := d1 + 4 * x2, 0 + 4 * y2, 0 + 4 * r2;
    KeepTwo(n + 6, x1, y1, r1, d0);
    assert d0 + 4 * x1 == Fields(d0, d1, d2, d3) + 0x100 * x;
    assert 3 + 4 * y1 == 0x33 + 0x100 * y && d0 + 4 * r1 == d0 + 16 * d2 + 0x100 * r;
  }

  lemma Mask0F(n: nat, x: nat, y: nat, r: nat, d0: nat, d1: nat, d2: nat, d3: nat)
    requires AndIs(n, x, y, r) && d0 < 4 && d1 < 4 && d2 < 4 && d3 < 4
    ensures AndIs(n + 8, Fields(d0, d1, d2, d3) + 0x100 * x, 0x0F + 0x100 * y, d0 + 4 * d1 + 0x100 * r)
  {
    DropTwo(n, x, y, r, d3);
    var x3, y3, r3 := d3 + 4 * x, 0 + 4 * y, 0 + 4 * r;
    DropTwo(n + 2, x3, y3, r3, d2);
    var x2, y2, r2 := d2 + 4 * x3, 0 + 4 * y3, 0 + 4 * r3;
    KeepTwo(n + 4, x2, y2, r2, d1);
    var x1, y1, r1 := d1 + 4 * x2, 3 + 4 * y2, d1 + 4 * r2;
    KeepTwo(n + 6, x1, y1, r1, d0);
    assert d0 + 4 * x1 == Fields(d0, d1, d2, d3) + 0x100 * x;
    assert 3 + 4 * y1 == 0x0F + 0x100 * y && d0 + 4 * r1 == d0 + 4 * d1 + 0x100 * r;
  }

  /** A mask with the same byte four times acts on every byte of a word. */
  lemma PrependFour(a0: nat, a1: nat, a2: nat, a3: nat, m: nat, r0: nat, r1: nat, r2: nat, r3: nat)
    requires Prepends(a0, m, r0) && Prepends(a1, m, r1) && Prepends(a2, m, r2) && Prepends(a3, m, r3)
    ensures AndIs(32, Word(a0, a1, a2, a3), Word(m, m, m, m), Word(r0, r1, r2, r3))
  {
    var n: nat := 0;
    var zero: nat := 0;
    AndIsNil(zero, zero);
    Prepend(a3, m, r3, n, zero, zero, zero);
    assert a3 + 0x100 * zero == a3 && m + 0x100 * zero == m && r3 + 0x100 * zero == r3;
    Prepend(a2, m, r2, n + 8, a3, m, r3);
    var x2, y2, s2 := a2 + 0x100 * a3, m + 0x100 * m, r2 + 0x100 * r3;
    Prepend(a1, m, r1, n + 16, x2, y2, s2);
    var x1, y1, s1 := a1 + 0x100 * x2, m + 0x100 * y2, r1 + 0x100 * s2;
    Prepend(a0, m, r0, n + 24, x1, y1, s1);
  }

  lemma MaskWord(x: nat, y: nat, a0: nat, a1: nat, a2: nat, a3: nat, m: nat, r0: nat, r1: nat, r2: nat, r3: nat)
    requires Prepends(a0, m, r0) && Prepends(a1, m, r1) && Prepends(a2, m, r2) && Prepends(a3, m, r3)
    requires x == Word(a0, a1, a2, a3) && y == Word(m, m, m, m)
    ensures AndIs(32, x, y, Word(r0, r1, r2, r3))
  {
    PrependFour(a0, a1, a2, a3, m, r0, r1, r2, r3);
  }

  // ---- the three steps ----

  /** The numbers of ones of the four pairs of bits of a byte. */
  datatype Quad = Quad(d0: nat, d1: nat, d2: nat, d3: nat) {
    predicate Small() {
      d0 <= 2 && d1 <= 2 && d2 <= 2 && d3 <= 2
    }

    function Pairs(): nat {
      Fields(d0, d1, d2, d3)
    }

    /** The first and the second field of each half. */
    function Low(): nat {
      d0 + 16 * d2
    }

    function High(): nat {
      d1 + 16 * d3
    }

    function Nibbles(): nat {
      d0 + d1 + 16 * (d2 + d3)
    }

    function Total(): nat {
      d0 + d1 + d2 + d3
    }
  }

  /** `q` counts the ones of the byte `b`. */
  ghost predicate Counts(b: nat, q: Quad) {
    b < 0x100 && q.Small() && forall u: nat :: Unfold(Words, u) ==>
      q == Quad(Bit(b, 0) + Bit(b, 1), Bit(b, 2) + Bit(b, 3), Bit(b, 4) + Bit(b, 5), Bit(b, 6) + Bit(b, 7))
  }

  lemma CountByte(b: nat) returns (q: Quad)
    requires b < 0x100
    ensures Counts(b, q) && q.Total() == Ones(b)
  {
    q := Quad(Bit(b, 0) + Bit(b, 1), Bit(b, 2) + Bit(b, 3), Bit(b, 4) + Bit(b, 5), Bit(b, 6) + Bit(b, 7));
  }

  lemma BitsOfByte(b: nat, q: Quad) returns (b0: nat, b1: nat, b2: nat, b3: nat, b4: nat, b5: nat, b6: nat, b7: nat)
    requires Counts(b, q)
    ensures b0 < 2 && b1 < 2 && b2 < 2 && b3 < 2 && b4 < 2 && b5 < 2 && b6 < 2 && b7 < 2
    ensures b == Byte(b0, b1, b2, b3, b4, b5, b6, b7) && q == Quad(b0 + b1, b2 + b3, b4 + b5, b6 + b7)
  {
    assert Unfold(Words, 0);
    ByteHasBits(b);
    b0, b1, b2, b3 := Bit(b, 0), Bit(b, 1), Bit(b, 2), Bit(b, 3);
    b4, b5, b6, b7 := Bit(b, 4), Bit(b, 5), Bit(b, 6), Bit(b, 7);
  }

  /** A byte shifted right by one gets a bit `c` of the next; the mask keeps its odd bits, which
      are what it has more than the pair counts. */
  lemma OddByte(b: nat, q: Quad, c: nat)
    requires Counts(b, q) && c < 2
    ensures q.Pairs() <= b && Prepends(b / 2 + 128 * c, 0x55, b - q.Pairs())
  {
    var b0, b1, b2, b3, b4, b5, b6, b7 := BitsOfByte(b, q);
    assert b / 2 + 128 * c == Byte(b1, b2, b3, b4, b5, b6, b7, c);
    assert b - q.Pairs() == Fields(b1, b3, b5, b7);
    forall n: nat, x: nat, y: nat, r: nat | AndIs(n, x, y, r)
      ensures AndIs(n + 8, Byte(b1, b2, b3, b4, b5, b6, b7, c) + 0x100 * x, 0x55 + 0x100 * y,
                    Fields(b1, b3, b5, b7) + 0x100 * r)
    {
      Mask55(n, x, y, r, b1, b2, b3, b4, b5, b6, b7, c);
    }
  }

  lemma Shift1(b0: nat, b1: nat, b2: nat, b3: nat) returns (x: nat, a0: nat, a1: nat, a2: nat, a3: nat)
    ensures x == Word(b0, b1, b2, b3) / 2 && x == Word(a0, a1, a2, a3)
    ensures a0 == b0 / 2 + 128 * (b1 % 2) && a1 == b1 / 2 + 128 * (b2 % 2)
    ensures a2 == b2 / 2 + 128 * (b3 % 2) && a3 == b3 / 2 + 128 * 0
  {
    x := Word(b0, b1, b2, b3) / 2;
    a0, a1, a2, a3 := b0 / 2 + 128 * (b1 % 2), b1 / 2 + 128 * (b2 % 2), b2 / 2 + 128 * (b3 % 2), b3 / 2 + 128 * 0;
  }

  lemma MaskShifted1(b0: nat, b1: nat, b2: nat, b3: nat, m: nat, y: nat, r0: nat, r1: nat, r2: nat, r3: nat)
    requires Prepends(b0 / 2 + 128 * (b1 % 2), m, r0) && Prepends(b1 / 2 + 128 * (b2 % 2), m, r1)
    requires Prepends(b2 / 2 + 128 * (b3 % 2), m, r2) && Prepends(b3 / 2 + 128 * 0, m, r3) && y == Word(m, m, m, m)
    ensures AndIs(32, Word(b0, b1, b2, b3) / 2, y, Word(r0, r1, r2, r3))
  {
    var x, a0, a1, a2, a3 := Shift1(b0, b1, b2, b3);
    MaskWord(x, y, a0, a1, a2, a3, m, r0, r1, r2, r3);
  }

  lemma WordSub(b0: nat, b1: nat, b2: nat, b3: nat, p0: nat, p1: nat, p2: nat, p3: nat)
    requires p0 <= b0 && p1 <= b1 && p2 <= b2 && p3 <= b3
    ensures Word(b0, b1, b2, b3) == Word(p0, p1, p2, p3) + Word(b0 - p0, b1 - p1, b2 - p2, b3 - p3)
  {
  }

  /** First step: subtracting the odd bits leaves the pair counts. */
  lemma PairStep(b0: nat, b1: nat, b2: nat, b3: nat, q0: Quad, q1: Quad, q2: Quad, q3: Quad, x: nat, a: nat)
    returns (t: nat)
    requires Counts(b0, q0) && Counts(b1, q1) && Counts(b2, q2) && Counts(b3, q3)
    requires IsWord(x, b0, b1, b2, b3) && IsWord(a, q0.Pairs(), q1.Pairs(), q2.Pairs(), q3.Pairs())
    ensures AndIs(32, x / 2, 0x55555555, t) && x == a + t
  {
    assert Unfold(Packed, 0);
    OddByte(b0, q0, b1 % 2);
    OddByte(b1, q1, b2 % 2);
    OddByte(b2, q2, b3 % 2);
    OddByte(b3, q3, 0);
    var t0, t1, t2, t3 := b0 - q0.Pairs(), b1 - q1.Pairs(), b2 - q2.Pairs(), b3 - q3.Pairs();
    t := Word(t0, t1, t2, t3);
    WordSub(b0, b1, b2, b3, q0.Pairs(), q1.Pairs(), q2.Pairs(), q3.Pairs());
    MaskShifted1(b0, b1, b2, b3, 0x55, 0x55555555, t0, t1, t2, t3);
  }

  lemma NibbleByte(d0: nat, d1: nat, d2: nat, d3: nat)
    requires d0 < 4 && d1 < 4 && d2 < 4 && d3 < 4
    ensures Prepends(Fields(d0, d1, d2, d3), 0x33, d0 + 16 * d2)
  {
    forall n: nat, x: nat, y: nat, r: nat | AndIs(n, x, y, r)
      ensures AndIs(n + 8, Fields(d0, d1, d2, d3) + 0x100 * x, 0x33 + 0x100 * y, d0 + 16 * d2 + 0x100 * r)
    {
      Mask33(n, x, y, r, d0, d1, d2, d3);
    }
  }

  lemma Shift2(b0: nat, b1: nat, b2: nat, b3: nat) returns (x: nat, a0: nat, a1: nat, a2: nat, a3: nat)
    ensures x == Word(b0, b1, b2, b3) / 4 && x == Word(a0, a1, a2, a3)
    ensures a0 == b0 / 4 + 64 * (b1 % 4) && a1 == b1 / 4 + 64 * (b2 % 4)
    ensures a2 == b2 / 4 + 64 * (b3 % 4) && a3 == b3 / 4 + 64 * 0
  {
    x := Word(b0, b1, b2, b3) / 4;
    a0, a1, a2, a3 := b0 / 4 + 64 * (b1 % 4), b1 / 4 + 64 * (b2 % 4), b2 / 4 + 64 * (b3 % 4), b3 / 4 + 64 * 0;
  }

  lemma MaskShifted2(p0: nat, p1: nat, p2: nat, p3: nat, m: nat, y: nat, r0: nat, r1: nat, r2: nat, r3: nat)
    requires Prepends(p0 / 4 + 64 * (p1 % 4), m, r0) && Prepends(p1 / 4 + 64 * (p2 % 4), m, r1)
    requires Prepends(p2 / 4 + 64 * (p3 % 4), m, r2) && Prepends(p3 / 4 + 64 * 0, m, r3) && y == Word(m, m, m, m)
    ensures AndIs(32, Word(p0, p1, p2, p3) / 4, y, Word(r0, r1, r2, r3))
  {
    var x, a0, a1, a2, a3 := Shift2(p0, p1, p2, p3);
    MaskWord(x, y, a0, a1, a2, a3, m, r0, r1, r2, r3);
  }

  /** The counts of a byte, and the same moved down by a field with a field `c` of the next. */
  lemma NibbleBytes(q: Quad, c: nat)
    requires q.Small() && c < 4
    ensures Prepends(q.Pairs(), 0x33, q.Low()) && Prepends(q.Pairs() / 4 + 64 * c, 0x33, q.High())
  {
    NibbleByte(q.d0, q.d1, q.d2, q.d3);
    NibbleByte(q.d1, q.d2, q.d3, c);
    assert q.Pairs() / 4 + 64 * c == Fields(q.d1, q.d2, q.d3, c);
  }

  lemma NibbleLow(p0: nat, p1: nat, p2: nat, p3: nat, r0: nat, r1: nat, r2: nat, r3: nat, x: nat, u: nat)
    requires Prepends(p0, 0x33, r0) && Prepends(p1, 0x33, r1) && Prepends(p2, 0x33, r2) && Prepends(p3, 0x33, r3)
    requires IsWord(x, p0, p1, p2, p3) && IsWord(u, r0, r1, r2, r3)
    ensures AndIs(32, x, 0x33333333, u)
  {
    assert Unfold(Packed, 0);
    MaskWord(x, 0x33333333, p0, p1, p2, p3, 0x33, r0, r1, r2, r3);
  }

  lemma NibbleHigh(p0: nat, p1: nat, p2: nat, p3: nat, r0: nat, r1: nat, r2: nat, r3: nat, x: nat, v: nat)
    requires Prepends(p0 / 4 + 64 * (p1 % 4), 0x33, r0) && Prepends(p1 / 4 + 64 * (p2 % 4), 0x33, r1)
    requires Prepends(p2 / 4 + 64 * (p3 % 4), 0x33, r2) && Prepends(p3 / 4 + 64 * 0, 0x33, r3)
    requires IsWord(x, p0, p1, p2, p3) && IsWord(v, r0, r1, r2, r3)
    ensures AndIs(32, x / 4, 0x33333333, v)
  {
    assert Unfold(Packed, 0);
    MaskShifted2(p0, p1, p2, p3, 0x33, 0x33333333, r0, r1, r2, r3);
  }

  lemma AddNibbles(q0: Quad, q1: Quad, q2: Quad, q3: Quad, u: nat, v: nat, b: nat)
    requires IsWord(u, q0.Low(), q1.Low(), q2.Low(), q3.Low()) && IsWord(v, q0.High(), q1.High(), q2.High(), q3.High())
    requires IsWord(b, q0.Nibbles(), q1.Nibbles(), q2.Nibbles(), q3.Nibbles())
    ensures u + v == b
  {
    assert Unfold(Packed, 0);
  }

  /** Second step: two fields of two bits become one of four. */
  lemma NibbleStep(q0: Quad, q1: Quad, q2: Quad, q3: Quad, p0: nat, p1: nat, p2: nat, p3: nat, a: nat, b: nat)
    returns (u: nat, v: nat)
    requires q0.Small() && q1.Small() && q2.Small() && q3.Small()
    requires p0 == q0.Pairs() && p1 == q1.Pairs() && p2 == q2.Pairs() && p3 == q3.Pairs()
    requires IsWord(a, p0, p1, p2, p3) && IsWord(b, q0.Nibbles(), q1.Nibbles(), q2.Nibbles(), q3.Nibbles())
    ensures AndIs(32, a, 0x33333333, u) && AndIs(32, a / 4, 0x33333333, v) && u + v == b
  {
    NibbleBytes(q0, p1 % 4);
    NibbleBytes(q1, p2 % 4);
    NibbleBytes(q2, p3 % 4);
    NibbleBytes(q3, 0);
    u := MakeWord(q0.Low(), q1.Low(), q2.Low(), q3.Low());
    v := MakeWord(q0.High(), q1.High(), q2.High(), q3.High());
    NibbleLow(p0, p1, p2, p3, q0.Low(), q1.Low(), q2.Low(), q3.Low(), a, u);
    NibbleHigh(p0, p1, p2, p3, q0.High(), q1.High(), q2.High(), q3.High(), a, v);
    AddNibbles(q0, q1, q2, q3, u, v, b);
  }

  lemma Shift4(b0: nat, b1: nat, b2: nat, b3: nat) returns (x: nat, a0: nat, a1: nat, a2: nat, a3: nat)
    ensures x == Word(b0, b1, b2, b3) + Word(b0, b1, b2, b3) / 16 && x == Word(a0, a1, a2, a3)
    ensures a0 == b0 + b0 / 16 + 16 * (b1 % 16) && a1 == b1 + b1 / 16 + 16 * (b2 % 16)
    ensures a2 == b2 + b2 / 16 + 16 * (b3 % 16) && a3 == b3 + b3 / 16 + 16 * 0
  {
    x := Word(b0, b1, b2, b3) + Word(b0, b1, b2, b3) / 16;
    a0, a1 := b0 + b0 / 16 + 16 * (b1 % 16), b1 + b1 / 16 + 16 * (b2 % 16);
    a2, a3 := b2 + b2 / 16 + 16 * (b3 % 16), b3 + b3 / 16 + 16 * 0;
  }

  /** A byte with two counts of at most four, plus its high half, plus the low half `c` of the
      next byte. */
  lemma SumByte(q: Quad, c: nat)
    requires q.Small() && c <= 4
    ensures var s := q.Nibbles(); s % 16 <= 4 && Prepends(s + s / 16 + 16 * c, 0x0F, q.Total())
  {
    var s, t, h := q.Nibbles(), q.Total(), q.d2 + q.d3 + c;
    assert s / 16 == q.d2 + q.d3;
    assert s + s / 16 + 16 * c == Fields(t % 4, t / 4, h % 4, h / 4);
    assert t == t % 4 + 4 * (t / 4);
    LowHalf(t % 4, t / 4, h % 4, h / 4);
  }

  lemma LowHalf(d0: nat, d1: nat, d2: nat, d3: nat)
    requires d0 < 4 && d1 < 4 && d2 < 4 && d3 < 4
    ensures Prepends(Fields(d0, d1, d2, d3), 0x0F, d0 + 4 * d1)
  {
    forall n: nat, x: nat, y: nat, r: nat | AndIs(n, x, y, r)
      ensures AndIs(n + 8, Fields(d0, d1, d2, d3) + 0x100 * x, 0x0F + 0x100 * y, d0 + 4 * d1 + 0x100 * r)
    {
      Mask0F(n, x, y, r, d0, d1, d2, d3);
    }
  }

  lemma MaskShifted4(s0: nat, s1: nat, s2: nat, s3: nat, m: nat, y: nat, r0: nat, r1: nat, r2: nat, r3: nat)
    requires Prepends(s0 + s0 / 16 + 16 * (s1 % 16), m, r0) && Prepends(s1 + s1 / 16 + 16 * (s2 % 16), m, r1)
    requires Prepends(s2 + s2 / 16 + 16 * (s3 % 16), m, r2)
    requires Prepends(s3 + s3 / 16 + 16 * 0, m, r3) && y == Word(m, m, m, m)
    ensures AndIs(32, Word(s0, s1, s2, s3) + Word(s0, s1, s2, s3) / 16, y, Word(r0, r1, r2, r3))
  {
    var x, a0, a1, a2, a3 := Shift4(s0, s1, s2, s3);
    MaskWord(x, y, a0, a1, a2, a3, m, r0, r1, r2, r3);
  }

  /** Third step: the two halves of every byte are added. */
  lemma SumStep(q0: Quad, q1: Quad, q2: Quad, q3: Quad, s0: nat, s1: nat, s2: nat, s3: nat, b: nat, r: nat)
    requires q0.Small() && q1.Small() && q2.Small() && q3.Small()
    requires s0 == q0.Nibbles() && s1 == q1.Nibbles() && s2 == q2.Nibbles() && s3 == q3.Nibbles()
    requires IsWord(b, s0, s1, s2, s3) && IsWord(r, q0.Total(), q1.Total(), q2.Total(), q3.Total())
    ensures AndIs(32, b + b / 16, 0x0F0F0F0F, r)
  {
    SumByte(q3, 0);
    SumByte(q2, s3 % 16);
    SumByte(q1, s2 % 16);
    SumByte(q0, s1 % 16);
    SumWord(s0, s1, s2, s3, q0.Total(), q1.Total(), q2.Total(), q3.Total(), b, r);
  }

  lemma SumWord(s0: nat, s1: nat, s2: nat, s3: nat, r0: nat, r1: nat, r2: nat, r3: nat, b: nat, r: nat)
    requires Prepends(s0 + s0 / 16 + 16 * (s1 % 16), 0x0F, r0) && Prepends(s1 + s1 / 16 + 16 * (s2 % 16), 0x0F, r1)
    requires Prepends(s2 + s2 / 16 + 16 * (s3 % 16), 0x0F, r2) && Prepends(s3 + s3 / 16 + 16 * 0, 0x0F, r3)
    requires IsWord(b, s0, s1, s2, s3) && IsWord(r, r0, r1, r2, r3)
    ensures AndIs(32, b + b / 16, 0x0F0F0F0F, r)
  {
    assert Unfold(Packed, 0);
    MaskShifted4(s0, s1, s2, s3, 0x0F, 0x0F0F0F0F, r0, r1, r2, r3);
  }

  // ---- one word, seven words ----

  function AddHalves(b: nat): nat {
    And(32, b + b / 16, 0x0F0F0F0F)
  }

  function AddPairs(a: nat): nat {
    And(32, a, 0x33333333) + And(32, a / 4, 0x33333333)
  }

  function SubtractOdd(x: nat): nat {
    var t := And(32, x / 2, 0x55555555);
    if t > x then 0 else x - t
  }

  /** The number of ones of every byte of a word, in that byte. */
  function Lanes(x: nat): nat {
    AddHalves(AddPairs(SubtractOdd(x)))
  }

  lemma AndOpen(x: nat, y: nat, r: nat)
    requires AndIs(32, x, y, r)
    ensures And(32, x, y) == r
  {
    assert Unfold(Bits, 0);
  }

  ghost predicate OddIs(x: nat, a: nat) {
    forall u: nat :: Unfold(Words, u) ==> SubtractOdd(x) == a
  }

  ghost predicate PairsAre(a: nat, b: nat) {
    forall u: nat :: Unfold(Words, u) ==> AddPairs(a) == b
  }

  ghost predicate HalvesAre(b: nat, r: nat) {
    forall u: nat :: Unfold(Words, u) ==> AddHalves(b) == r
  }

  ghost predicate LanesAre(x: nat, r: nat) {
    forall u: nat :: Unfold(Words, u) ==> Lanes(x) == r
  }

  lemma OddOpen(x: nat, t: nat, a: nat)
    requires AndIs(32, x / 2, 0x55555555, t) && x == a + t
    ensures OddIs(x, a)
  {
    AndOpen(x / 2, 0x55555555, t);
  }

  lemma PairsOpen(a: nat, u: nat, v: nat, b: nat)
    requires AndIs(32, a, 0x33333333, u) && AndIs(32, a / 4, 0x33333333, v) && u + v == b
    ensures PairsAre(a, b)
  {
    AndOpen(a, 0x33333333, u);
    AndOpen(a / 4, 0x33333333, v);
  }

  lemma HalvesOpen(b: nat, r: nat)
    requires AndIs(32, b + b / 16, 0x0F0F0F0F, r)
    ensures HalvesAre(b, r)
  {
    AndOpen(b + b / 16, 0x0F0F0F0F, r);
  }

  lemma LanesOpen(x: nat, a: nat, b: nat, r: nat)
    requires OddIs(x, a) && PairsAre(a, b) && HalvesAre(b, r)
    ensures LanesAre(x, r)
  {
    assert Unfold(Words, 0);
  }

  lemma CountWord(b0: nat, b1: nat, b2: nat, b3: nat, q0: Quad, q1: Quad, q2: Quad, q3: Quad, x: nat, r: nat)
    requires Counts(b0, q0) && Counts(b1, q1) && Counts(b2, q2) && Counts(b3, q3)
    requires IsWord(x, b0, b1, b2, b3) && IsWord(r, q0.Total(), q1.Total(), q2.Total(), q3.Total())
    ensures LanesAre(x, r)
  {
    var a := MakeWord(q0.Pairs(), q1.Pairs(), q2.Pairs(), q3.Pairs());
    var b := MakeWord(q0.Nibbles(), q1.Nibbles(), q2.Nibbles(), q3.Nibbles());
    var t := PairStep(b0, b1, b2, b3, q0, q1, q2, q3, x, a);
    OddOpen(x, t, a);
    StepTwo(q0, q1, q2, q3, a, b);
    StepThree(q0, q1, q2, q3, b, r);
    LanesOpen(x, a, b, r);
  }

  lemma StepTwo(q0: Quad, q1: Quad, q2: Quad, q3: Quad, a: nat, b: nat)
    requires q0.Small() && q1.Small() && q2.Small() && q3.Small()
    requires IsWord(a, q0.Pairs(), q1.Pairs(), q2.Pairs(), q3.Pairs())
    requires IsWord(b, q0.Nibbles(), q1.Nibbles(), q2.Nibbles(), q3.Nibbles())
    ensures PairsAre(a, b)
  {
    var u, v := NibbleStep(q0, q1, q2, q3, q0.Pairs(), q1.Pairs(), q2.Pairs(), q3.Pairs(), a, b);
    PairsOpen(a, u, v, b);
  }

  lemma StepThree(q0: Quad, q1: Quad, q2: Quad, q3: Quad, b: nat, r: nat)
    requires q0.Small() && q1.Small() && q2.Small() && q3.Small()
    requires IsWord(b, q0.Nibbles(), q1.Nibbles(), q2.Nibbles(), q3.Nibbles())
    requires IsWord(r, q0.Total(), q1.Total(), q2.Total(), q3.Total())
    ensures HalvesAre(b, r)
  {
    SumStep(q0, q1, q2, q3, q0.Nibbles(), q1.Nibbles(), q2.Nibbles(), q3.Nibbles(), b, r);
    HalvesOpen(b, r);
  }

  /** After the three steps every byte of the word holds the number of its own ones. */
  lemma LanesCount(b0: nat, b1: nat, b2: nat, b3: nat)
    requires b0 < 0x100 && b1 < 0x100 && b2 < 0x100 && b3 < 0x100
    ensures Lanes(Word(b0, b1, b2, b3)) == Word(Ones(b0), Ones(b1), Ones(b2), Ones(b3))
  {
    var q0 := CountByte(b0);
    var q1 := CountByte(b1);
    var q2 := CountByte(b2);
    var q3 := CountByte(b3);
    var x, r := Word(b0, b1, b2, b3), Word(Ones(b0), Ones(b1), Ones(b2), Ones(b3));
    CountWord(b0, b1, b2, b3, q0, q1, q2, q3, x, r);
    LanesAreOpen(x, r);
  }

  lemma LanesAreOpen(x: nat, r: nat)
    requires LanesAre(x, r)
    ensures Lanes(x) == r
  {
    assert Unfold(Words, 0);
  }

  /** Multiplying by 0x01010101 modulo 2^32 puts the sum of the four bytes on top. */
  lemma TopByte(s0: nat, s1: nat, s2: nat, s3: nat)
    requires s0 <= 56 && s1 <= 56 && s2 <= 56 && s3 <= 56
    ensures Word(s0, s1, s2, s3) * 0x01010101 % 0x1_0000_0000 / 0x100_0000 == s0 + s1 + s2 + s3
  {
    var low := Word(s0, s0 + s1, s0 + s1 + s2, s0 + s1 + s2 + s3);
    var high := Word(s1 + s2 + s3, s2 + s3, s3, 0);
    var x := Word(s0, s1, s2, s3) * 0x01010101;
    assert x == low + 0x1_0000_0000 * high;
    Remainder(x, low, high);
    Quotient(low, s0 + 0x100 * (s0 + s1) + 0x1_0000 * (s0 + s1 + s2), s0 + s1 + s2 + s3);
  }

  lemma Remainder(x: nat, low: nat, high: nat)
    requires x == low + 0x1_0000_0000 * high && low < 0x1_0000_0000
    ensures x % 0x1_0000_0000 == low
  {
  }

  lemma Quotient(x: nat, low: nat, high: nat)
    requires x == low + 0x100_0000 * high && low < 0x100_0000
    ensures x / 0x100_0000 == high
  {
  }

  // ---- the loops ----

  /** The number of ones of a string. */
  function CountOnes(s: seq<nat>): nat {
    if s == [] then 0 else Ones(s[0]) + CountOnes(s[1..])
  }

  lemma CountFour(s: seq<nat>, i: nat)
    requires i + 4 <= |s|
    ensures CountOnes(s[i..]) == Ones(s[i]) + Ones(s[i + 1]) + Ones(s[i + 2]) + Ones(s[i + 3]) + CountOnes(s[i + 4..])
  {
    CountOne(s, i);
    CountOne(s, i + 1);
    CountOne(s, i + 2);
    CountOne(s, i + 3);
  }

  lemma CountOne(s: seq<nat>, i: nat)
    requires i < |s|
    ensures CountOnes(s[i..]) == Ones(s[i]) + CountOnes(s[i + 1..])
  {
    assert s[i..][1..] == s[i + 1..];
  }

  /** The sum over `n` words of their lanes, lane by lane: no lane overflows into the next. */
  ghost predicate LaneSums(s: seq<nat>, i: nat, n: nat, sum: nat, s0: nat, s1: nat, s2: nat, s3: nat) {
    forall u: nat :: Unfold(Sums, u) ==>
      && i + 4 * n <= |s| && s0 <= 8 * n && s1 <= 8 * n && s2 <= 8 * n && s3 <= 8 * n
      && sum == Word(s0, s1, s2, s3)
      && s0 + s1 + s2 + s3 + CountOnes(s[i + 4 * n..]) == CountOnes(s[i..])
  }

  lemma AddWords(s0: nat, s1: nat, s2: nat, s3: nat, o0: nat, o1: nat, o2: nat, o3: nat)
    ensures Word(s0, s1, s2, s3) + Word(o0, o1, o2, o3) == Word(s0 + o0, s1 + o1, s2 + o2, s3 + o3)
  {
  }

  lemma LaneSumsStep(s: seq<nat>, i: nat, n: nat, sum: nat, s0: nat, s1: nat, s2: nat, s3: nat,
                     o0: nat, o1: nat, o2: nat, o3: nat)
    requires i + 4 * n + 4 <= |s| && LaneSums(s, i, n, sum, s0, s1, s2, s3)
    requires o0 <= 8 && o1 <= 8 && o2 <= 8 && o3 <= 8
    requires CountOnes(s[i + 4 * n..]) == o0 + o1 + o2 + o3 + CountOnes(s[i + 4 * (n + 1)..])
    ensures LaneSums(s, i, n + 1, sum + Word(o0, o1, o2, o3), s0 + o0, s1 + o1, s2 + o2, s3 + o3)
  {
    assert Unfold(Sums, 0);
    AddWords(s0, s1, s2, s3, o0, o1, o2, o3);
  }

  lemma OnesSmall(b: nat)
    ensures Ones(b) <= 8
  {
  }

  method CountLanes(s: seq<nat>, j: nat)
    returns (lanes: nat, ghost o0: nat, ghost o1: nat, ghost o2: nat, ghost o3: nat)
    requires AllBytes(s) && j + 4 <= |s|
    ensures lanes == Word(o0, o1, o2, o3) && o0 <= 8 && o1 <= 8 && o2 <= 8 && o3 <= 8
    ensures CountOnes(s[j..]) == o0 + o1 + o2 + o3 + CountOnes(s[j + 4..])
  {
    lanes := Lanes(Word(s[j], s[j + 1], s[j + 2], s[j + 3]));
    LanesCount(s[j], s[j + 1], s[j + 2], s[j + 3]);
    CountFour(s, j);
    o0, o1, o2, o3 := Ones(s[j]), Ones(s[j + 1]), Ones(s[j + 2]), Ones(s[j + 3]);
    OnesSmall(s[j]);
    OnesSmall(s[j + 1]);
    OnesSmall(s[j + 2]);
    OnesSmall(s[j + 3]);
  }

  /** Multiply modulo 2^32 and shift right by 24. */
  function Fold(sum: nat): nat {
    sum * 0x01010101 % 0x1_0000_0000 / 0x100_0000
  }

  lemma BlockTotal(s: seq<nat>, i: nat, sum: nat, s0: nat, s1: nat, s2: nat, s3: nat)
    requires i + 28 <= |s| && LaneSums(s, i, 7, sum, s0, s1, s2, s3)
    ensures Fold(sum) + CountOnes(s[i + 28..]) == CountOnes(s[i..])
  {
    assert Unfold(Sums, 0);
    TopByte(s0, s1, s2, s3);
  }

  lemma NoLanes(s: seq<nat>, i: nat, zero: nat)
    requires i <= |s| && zero == 0
    ensures LaneSums(s, i, zero, zero, zero, zero, zero, zero)
  {
    var from := i + 4 * zero;
    assert from == i && s[from..] == s[i..];
  }

  method AddWord(s: seq<nat>, i: nat, n: nat, sum: nat, ghost s0: nat, ghost s1: nat, ghost s2: nat, ghost s3: nat)
    returns (r: nat, ghost r0: nat, ghost r1: nat, ghost r2: nat, ghost r3: nat)
    requires AllBytes(s) && i + 4 * n + 4 <= |s| && LaneSums(s, i, n, sum, s0, s1, s2, s3)
    ensures LaneSums(s, i, n + 1, r, r0, r1, r2, r3)
  {
    var lanes, o0, o1, o2, o3 := CountLanes(s, i + 4 * n);
    assert i + 4 * n + 4 == i + 4 * (n + 1);
    LaneSumsStep(s, i, n, sum, s0, s1, s2, s3, o0, o1, o2, o3);
    r := sum + lanes;
    r0, r1, r2, r3 := s0 + o0, s1 + o1, s2 + o2, s3 + o3;
  }

  /** Seven words at once: the sum of their lanes, multiplied and shifted. */
  method CountBlock(s: seq<nat>, i: nat) returns (bits: nat)
    requires AllBytes(s) && i + 28 <= |s|
    ensures bits + CountOnes(s[i + 28..]) == CountOnes(s[i..])
  {
    var sum: nat := 0;
    ghost var s0: nat, s1: nat, s2: nat, s3: nat := 0, 0, 0, 0;
    NoLanes(s, i, sum);
    for n := 0 to 7
      invariant LaneSums(s, i, n, sum, s0, s1, s2, s3)
    {
      sum, s0, s1, s2, s3 := AddWord(s, i, n, sum, s0, s1, s2, s3);
    }
    BlockTotal(s, i, sum, s0, s1, s2, s3);
    bits := Fold(sum);
  }

  method CountRest(s: seq<nat>, i: nat) returns (bits: nat)
    requires i <= |s|
    ensures bits == CountOnes(s[i..])
  {
    bits := 0;
    for j := i to |s|
      invariant bits + CountOnes(s[j..]) == CountOnes(s[i..])
    {
      CountOne(s, j);
      bits := bits + Ones(s[j]);
    }
  }

  /** The bytes before the first aligned word. */
  method CountUnaligned(s: seq<nat>, address: nat) returns (bits: nat, i: nat)
    ensures i <= |s| && bits + CountOnes(s[i..]) == CountOnes(s)
  {
    bits, i := 0, 0;
    assert s[0..] == s;
    while (address + i) % 4 != 0 && i < |s|
      invariant i <= |s| && bits + CountOnes(s[i..]) == CountOnes(s)
      decreases |s| - i
    {
      CountOne(s, i);
      bits := bits + Ones(s[i]);
      i := i + 1;
    }
  }

  /** redisPopcount. `address` is the address of the string; the table bitsinbyte is `Ones`. */
  method RedisPopcount(s: seq<nat>, address: nat) returns (bits: nat)
    requires AllBytes(s)
    ensures bits == CountOnes(s)
  {
    var i: nat;
    bits, i := CountUnaligned(s, address);
    while |s| - i >= 28
      invariant i <= |s| && bits + CountOnes(s[i..]) == CountOnes(s)
    {
      var block := CountBlock(s, i);
      bits := bits + block;
      i := i + 28;
    }
    var rest := CountRest(s, i);
    bits := bits + rest;
  }
}
