/** The byte bitmaps of cluster.c: bit `pos` is bit `pos & 7` of byte `pos / 8`. */
module SlotBitmap {

  type Bitmap = seq<bv8>

  predicate TestBit(b: Bitmap, pos: nat)
    requires pos < 8 * |b|
  {
    b[pos / 8] & Mask(pos % 8) != 0
  }

  function Mask(k: nat): bv8
    requires k < 8
  {
    (1 as bv8) << k
  }

  function SetBit(b: Bitmap, pos: nat): (r: Bitmap)
    requires pos < 8 * |b|
    ensures |r| == |b|
  {
    b[pos / 8 := b[pos / 8] | Mask(pos % 8)]
  }

  function ClearBit(b: Bitmap, pos: nat): (r: Bitmap)
    requires pos < 8 * |b|
    ensures |r| == |b|
  {
    b[pos / 8 := b[pos / 8] & !Mask(pos % 8)]
  }

  /** The shift yields the eight single-bit masks. */
  lemma MaskValue(k: nat)
    requires k < 8
    ensures Mask(k) == [1 as bv8, 2, 4, 8, 16, 32, 64, 128][k]
  {
    assert k == 0 || k == 1 || k == 2 || k == 3 || k == 4 || k == 5 || k == 6 || k == 7;
  }

  lemma MaskBits(x: bv8, i: nat, j: nat)
    requires i < 8 && j < 8
    ensures (x | Mask(i)) & Mask(j) != 0 <==> i == j || x & Mask(j) != 0
    ensures (x & !Mask(i)) & Mask(j) != 0 <==> i != j && x & Mask(j) != 0
  {
    MaskValue(i);
    MaskValue(j);
  }

  /** Setting or clearing a bit changes that bit and no other. */
  lemma SetClear(b: Bitmap, pos: nat, j: nat)
    requires pos < 8 * |b| && j < 8 * |b|
    ensures TestBit(SetBit(b, pos), j) <==> j == pos || TestBit(b, j)
    ensures TestBit(ClearBit(b, pos), j) <==> j != pos && TestBit(b, j)
  {
    SamePlace(pos, j);
    SetOne(b, pos, j);
    ClearOne(b, pos, j);
  }

  lemma SamePlace(i: nat, j: nat)
    ensures i == j <==> i / 8 == j / 8 && i % 8 == j % 8
  {
  }

  lemma SetOne(b: Bitmap, pos: nat, j: nat)
    requires pos < 8 * |b| && j < 8 * |b|
    ensures TestBit(SetBit(b, pos), j) <==> (pos / 8 == j / 8 && pos % 8 == j % 8) || TestBit(b, j)
  {
    MaskBits(b[pos / 8], pos % 8, j % 8);
  }

  lemma ClearOne(b: Bitmap, pos: nat, j: nat)
    requires pos < 8 * |b| && j < 8 * |b|
    ensures TestBit(ClearBit(b, pos), j) <==> !(pos / 8 == j / 8 && pos % 8 == j % 8) && TestBit(b, j)
  {
    MaskBits(b[pos / 8], pos % 8, j % 8);
  }

  lemma BitAt(b: Bitmap, i: nat, k: nat)
    requires i < |b| && k < 8
    ensures TestBit(b, 8 * i + k) <==> b[i] & Mask(k) != 0
  {
    assert (8 * i + k) / 8 == i && (8 * i + k) % 8 == k;
  }

  lemma EightBits(x: bv8, y: bv8)
    requires x & 1 == y & 1 && x & 2 == y & 2 && x & 4 == y & 4 && x & 8 == y & 8
    requires x & 16 == y & 16 && x & 32 == y & 32 && x & 64 == y & 64 && x & 128 == y & 128
    ensures x == y
  {
  }

  lemma SameBit(x: bv8, y: bv8, k: nat)
    requires k < 8 && (x & Mask(k) != 0 <==> y & Mask(k) != 0)
    ensures var m := [1 as bv8, 2, 4, 8, 16, 32, 64, 128][k]; x & m == y & m
  {
    MaskValue(k);
  }

  lemma ByteFromBits(x: bv8, y: bv8)
    requires forall k :: 0 <= k < 8 ==> (x & Mask(k) != 0 <==> y & Mask(k) != 0)
    ensures x == y
  {
    SameBit(x, y, 0);
    SameBit(x, y, 1);
    SameBit(x, y, 2);
    SameBit(x, y, 3);
    SameBit(x, y, 4);
    SameBit(x, y, 5);
    SameBit(x, y, 6);
    SameBit(x, y, 7);
    EightBits(x, y);
  }

  /** Two bitmaps are equal bytes, as memcmp sees them, when they are equal bits. */
  lemma EqualBits(a: Bitmap, b: Bitmap)
    requires |a| == |b| && forall j :: 0 <= j < 8 * |a| ==> TestBit(a, j) == TestBit(b, j)
    ensures a == b
  {
    forall i | 0 <= i < |a|
      ensures a[i] == b[i]
    {
      forall k | 0 <= k < 8
        ensures a[i] & Mask(k) != 0 <==> b[i] & Mask(k) != 0
      {
        BitAt(a, i, k);
        BitAt(b, i, k);
      }
      ByteFromBits(a[i], b[i]);
    }
  }
}
