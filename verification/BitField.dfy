/** Integers of up to 64 bits at any offset of a bitmap, and what happens when they overflow. */
module BitField {
  import opened BitMath
  import opened BitOp
  import opened BitPos
  import opened Options

  /** The width of the machine's arithmetic. */
  const WORD: nat := 64

  // ---- powers of two ----

  lemma Pow4(k: nat)
    ensures Pow(k + 4) == 16 * Pow(k)
  {
    assert Pow(k + 2) == 4 * Pow(k);
    assert Pow(k + 3) == 8 * Pow(k);
  }

  lemma Pow16(k: nat)
    ensures Pow(k + 16) == 0x1_0000 * Pow(k)
  {
    Pow4(k);
    Pow4(k + 4);
    Pow4(k + 8);
    Pow4(k + 12);
  }

  lemma Pow32()
    ensures Pow(32) == 0x1_0000_0000
  {
    Pow16(0);
    Pow16(16);
  }

  lemma PowValues()
    ensures Pow(64) == 0x1_0000_0000_0000_0000 && Pow(63) == 0x8000_0000_0000_0000
  {
    Pow32();
    Pow16(32);
    Pow16(48);
    HalfPow(64);
  }

  lemma {:induction false} PowAdd(a: nat, b: nat)
    ensures Pow(a + b) == Pow(a) * Pow(b)
  {
    if a > 0 {
      PowAdd(a - 1, b);
      Assoc(2, Pow(a - 1), Pow(b));
    }
  }

  lemma Assoc(x: nat, y: nat, z: nat)
    ensures x * (y * z) == (x * y) * z
  {
  }

  lemma {:induction false} MaxIsPow(n: nat)
    ensures Max(n) == Pow(n) - 1
  {
    if n > 0 {
      MaxIsPow(n - 1);
    }
  }

  lemma {:induction false} PowGrows(a: nat, b: nat)
    requires a <= b
    ensures Pow(a) <= Pow(b)
  {
    if a < b {
      PowGrows(a, b - 1);
    }
  }

  lemma ModHalf(v: nat, p: nat)
    requires p > 0
    ensures 2 * (v / 2 % p) + v % 2 == v % (2 * p)
  {
    var q, r := v / 2 / p, v / 2 % p;
    assert v / 2 == p * q + r;
    assert v == 2 * (p * q + r) + v % 2 == (2 * p) * q + (2 * r + v % 2);
    ModUnique(v, 2 * p, q, 2 * r + v % 2);
  }

  lemma ModUnique(v: int, p: int, q: int, r: int)
    requires p > 0 && v == p * q + r && 0 <= r < p
    ensures v % p == r
  {
    assert v == p * (v / p) + v % p;
    var d := q - v / p;
    assert p * d == v % p - r;
    assert d <= -1 ==> p * d <= -p;
    assert d >= 1 ==> p * d >= p;
  }

  /** A mask of ones keeps the remainder. */
  lemma {:induction false} AndMax(n: nat, b: nat, x: nat)
    requires b <= n
    ensures And(n, x, Max(b)) == x % Pow(b)
    decreases n
  {
    if b == 0 {
      AndBelow(n, x, 0);
    } else {
      AndMax(n - 1, b - 1, x / 2);
      ModHalf(x, Pow(b - 1));
      assert Max(b) / 2 == Max(b - 1) && Max(b) % 2 == 1;
    }
  }

  /** Low bits and high ones do not meet. */
  lemma {:induction false} AndHigh(n: nat, b: nat, x: nat)
    requires b <= n && x <= Max(b)
    ensures Max(b) <= Max(n) && And(n, x, Max(n) - Max(b)) == 0
    decreases n
  {
    if b == 0 {
      AndBelow(n, 0, Max(n));
    } else {
      AndHigh(n - 1, b - 1, x / 2);
      assert (Max(n) - Max(b)) % 2 == 0 && (Max(n) - Max(b)) / 2 == Max(n - 1) - Max(b - 1);
    }
  }

  // ---- reading ----

  /** The `n` bits from `offset` on as a number. */
  function Number(s: seq<nat>, offset: nat, n: nat): nat {
    if n == 0 then 0 else 2 * Number(s, offset, n - 1) + BitAt(s, offset + n - 1)
  }

  lemma {:induction false} NumberSmall(s: seq<nat>, offset: nat, n: nat)
    ensures Number(s, offset, n) < Pow(n)
  {
    if n > 0 {
      NumberSmall(s, offset, n - 1);
    }
  }

  /** The `n` bits from `offset` on are the low bits of `v`. */
  ghost predicate Holds(s: seq<nat>, offset: nat, n: nat, v: nat) {
    forall q: nat :: offset <= q < offset + n ==> BitAt(s, q) == Bit(v, offset + n - 1 - q)
  }

  lemma HoldsHalf(s: seq<nat>, offset: nat, n: nat, v: nat)
    requires n > 0 && Holds(s, offset, n, v)
    ensures Holds(s, offset, n - 1, v / 2) && BitAt(s, offset + n - 1) == v % 2
  {
    BitLow(v, v % 2, v / 2);
    forall q: nat | offset <= q < offset + (n - 1)
      ensures BitAt(s, q) == Bit(v / 2, offset + (n - 1) - 1 - q)
    {
      assert BitAt(s, q) == Bit(v, offset + n - 1 - q);
    }
    assert BitAt(s, offset + n - 1) == Bit(v, 0);
  }

  /** Bits that are those of `v` read as `v` modulo 2^n. */
  lemma {:induction false} NumberIs(s: seq<nat>, offset: nat, n: nat, v: nat)
    requires Holds(s, offset, n, v)
    ensures Number(s, offset, n) == v % Pow(n)
  {
    if n > 0 {
      HoldsHalf(s, offset, n, v);
      NumberIs(s, offset, n - 1, v / 2);
      ModHalf(v, Pow(n - 1));
    }
  }

  /** Shifting in one more bit. */
  lemma ShiftIn(w: nat, v: nat, b: nat)
    requires b < 2
    ensures Apply(OpOr, w, 2 * v, b) == 2 * v + b
  {
    if w > 0 {
      assert And(w, 2 * v, b) == AndBit(2 * v % 2, b % 2) + 2 * And(w - 1, 2 * v / 2, b / 2);
      AndBelow(w - 1, v, 0);
    }
  }

  method GetBit(p: array<nat>, o: nat, value: nat) returns (next: nat)
    requires o < 8 * p.Length
    ensures next == 2 * value + BitAt(p[..], o)
  {
    var bitval := Bit(p[o / 8], 7 - o % 8);
    ShiftIn(WORD, value, bitval);
    next := Apply(OpOr, WORD, value * 2, bitval);
  }

  method GetUnsignedBitfield(p: array<nat>, offset: nat, bits: nat) returns (value: nat)
    requires AllBytes(p[..]) && offset + bits <= 8 * p.Length && bits <= 64
    ensures value == Number(p[..], offset, bits) && value < Pow(bits)
  {
    value := 0;
    for j := 0 to bits
      invariant value == Number(p[..], offset, j)
    {
      value := GetBit(p, offset + j, value);
    }
    NumberSmall(p[..], offset, bits);
  }

  // ---- writing ----

  lemma {:induction false} PowBit(k: nat, i: nat)
    ensures Bit(Pow(k), i) == if i == k then 1 else 0
  {
    if k > 0 {
      BitLow(Pow(k), 0, Pow(k - 1));
      if i > 0 {
        PowBit(k - 1, i - 1);
      }
    } else if i > 0 {
      BitLow(1, 1, 0);
      ZeroBits(i - 1);
    }
  }

  lemma {:induction false} NotPowBit(n: nat, k: nat, i: nat)
    requires k < n && i < n
    ensures Pow(k) <= Max(n) && Bit(Max(n) - Pow(k), i) == if i == k then 0 else 1
    decreases n
  {
    if k > 0 {
      NotPowBit(n - 1, k - 1, if i > 0 then i - 1 else 0);
      BitLow(Max(n) - Pow(k), 1, Max(n - 1) - Pow(k - 1));
    } else {
      BitLow(Max(n) - 1, 0, Max(n - 1));
      if i > 0 {
        OneBits(n - 1, i - 1);
      }
    }
  }

  /** A byte with bit `k` replaced: clear it, set it, and cut to a byte. */
  function PutBit(w: nat, b: nat, k: nat, bit: nat): int {
    var cleared := And(w, b, if Pow(k) <= Max(w) then Max(w) - Pow(k) else 0);
    var together := Apply(OpOr, w, cleared, if bit == 1 then Pow(k) else 0);
    if together < 0 then 0 else And(w, together, 0xFF)
  }

  lemma Small(w: nat, x: nat, k: nat)
    requires x < 0x100 && k < 8 <= w
    ensures x <= Max(w) && Pow(k) <= Max(w)
  {
    MaxIsPow(w);
    MaxIsPow(8);
    Max8();
    PowGrows(8, w);
    PowGrows(k, 7);
  }

  /** Cutting to a byte keeps the low bits. */
  lemma CutToByte(w: nat, x: nat, m: nat, i: nat)
    requires m == Max(8) && m <= Max(w) && x <= Max(w) && i < 8 <= w
    ensures 0 <= And(w, x, m) <= m && Bit(And(w, x, m), i) == Bit(x, i)
  {
    AndBelow(w, x, m);
    ApplyBits(OpAnd, w, x, m, i);
    OneBits(8, i);
  }

  lemma PutBitAt(w: nat, b: nat, k: nat, bit: nat, i: nat)
    requires b < 0x100 && k < 8 <= w && bit < 2 && i < 8
    ensures 0 <= PutBit(w, b, k, bit) < 0x100 && Bit(PutBit(w, b, k, bit), i) == if i == k then bit else Bit(b, i)
  {
    Small(w, b, k);
    Small(w, 0xFF, k);
    Max8();
    var mask := Max(w) - Pow(k);
    var new1 := if bit == 1 then Pow(k) else 0;
    var cleared := ClearBit(w, b, k, mask, i);
    var together := SetBitTo(w, cleared, k, new1, bit, i);
    CutToByte(w, together, 0xFF, i);
    assert PutBit(w, b, k, bit) == And(w, together, 0xFF);
  }

  lemma ClearBit(w: nat, b: nat, k: nat, mask: nat, i: nat) returns (cleared: nat)
    requires b <= Max(w) && k < 8 <= w && i < 8 && Pow(k) <= Max(w) && mask == Max(w) - Pow(k)
    ensures cleared == And(w, b, mask) && cleared <= Max(w)
    ensures Bit(cleared, i) == if i == k then 0 else Bit(b, i)
  {
    cleared := And(w, b, mask);
    NotPowBit(w, k, i);
    ApplyBits(OpAnd, w, b, mask, i);
  }

  lemma SetBitTo(w: nat, cleared: nat, k: nat, new1: nat, bit: nat, i: nat) returns (together: nat)
    requires cleared <= Max(w) && k < 8 <= w && i < 8 && bit < 2 && Pow(k) <= Max(w)
    requires new1 == (if bit == 1 then Pow(k) else 0) && (i == k ==> Bit(cleared, i) == 0)
    ensures together == Apply(OpOr, w, cleared, new1) && together <= Max(w)
    ensures Bit(together, i) == if i == k then bit else Bit(cleared, i)
  {
    ApplyBits(OpOr, w, cleared, new1, i);
    together := Apply(OpOr, w, cleared, new1);
    PowBit(k, i);
    ZeroBits(i);
  }

  /** Replacing bit `o` of a string changes that bit and no other. */
  lemma PutBitIn(s: seq<nat>, o: nat, bit: nat)
    requires AllBytes(s) && o / 8 < |s| && bit < 2
    ensures var b := PutBit(WORD, s[o / 8], 7 - o % 8, bit);
            && 0 <= b < 0x100
            && var t := s[o / 8 := b];
               AllBytes(t) && BitAt(t, o) == bit && forall q: nat :: q != o ==> BitAt(t, q) == BitAt(s, q)
  {
    PutBitAt(WORD, s[o / 8], 7 - o % 8, bit, 0);
    var b: nat := PutBit(WORD, s[o / 8], 7 - o % 8, bit);
    var t := s[o / 8 := b];
    forall q: nat
      ensures BitAt(t, q) == if q == o then bit else BitAt(s, q)
    {
      PutBitOne(s, t, b, o, bit, q);
    }
  }

  lemma PutBitOne(s: seq<nat>, t: seq<nat>, b: nat, o: nat, bit: nat, q: nat)
    requires AllBytes(s) && o / 8 < |s| && bit < 2 && b == PutBit(WORD, s[o / 8], 7 - o % 8, bit) && t == s[o / 8 := b]
    ensures BitAt(t, q) == if q == o then bit else BitAt(s, q)
  {
    PutBitAt(WORD, s[o / 8], 7 - o % 8, bit, 7 - q % 8);
    SamePlace(o, q);
  }

  lemma SamePlace(o: nat, q: nat)
    ensures o == q <==> o / 8 == q / 8 && 7 - o % 8 == 7 - q % 8
  {
  }

  method SetBit(p: array<nat>, o: nat, value: nat, k: nat)
    requires AllBytes(p[..]) && o < 8 * p.Length && k < 64
    modifies p
    ensures AllBytes(p[..]) && BitAt(p[..], o) == Bit(value, k)
    ensures forall q: nat :: q != o ==> BitAt(p[..], q) == BitAt(old(p[..]), q)
  {
    AndPow(WORD, k, value);
    var bitval := if And(WORD, Pow(k), value) != 0 then 1 else 0;
    ghost var before := p[..];
    PutBitIn(before, o, bitval);
    p[o / 8] := PutBit(WORD, p[o / 8], 7 - o % 8, bitval);
    assert p[..] == before[o / 8 := PutBit(WORD, before[o / 8], 7 - o % 8, bitval)];
  }

  /** Before bit `o` the field is written, from it on everything is as before. */
  ghost predicate Written(s: seq<nat>, t: seq<nat>, offset: nat, bits: nat, o: nat, value: nat)
    requires o <= offset + bits
  {
    && (forall q: nat :: offset <= q < o ==> BitAt(t, q) == Bit(value, offset + bits - 1 - q))
    && (forall q: nat :: !(offset <= q < o) ==> BitAt(t, q) == BitAt(s, q))
  }

  lemma WriteOne(s: seq<nat>, t: seq<nat>, u: seq<nat>, offset: nat, bits: nat, o: nat, value: nat)
    requires offset <= o < offset + bits && Written(s, t, offset, bits, o, value)
    requires BitAt(u, o) == Bit(value, offset + bits - 1 - o) && forall q: nat :: q != o ==> BitAt(u, q) == BitAt(t, q)
    ensures Written(s, u, offset, bits, o + 1, value)
  {
  }

  /** setUnsignedBitfield: the field holds the low bits of the value, all other bits are as
      before. */
  method SetUnsignedBitfield(p: array<nat>, offset: nat, bits: nat, value: nat)
    requires AllBytes(p[..]) && offset + bits <= 8 * p.Length && bits <= 64
    modifies p
    ensures AllBytes(p[..]) && Holds(p[..], offset, bits, value)
    ensures forall q: nat :: !(offset <= q < offset + bits) ==> BitAt(p[..], q) == BitAt(old(p[..]), q)
  {
    for j := 0 to bits
      invariant AllBytes(p[..]) && Written(old(p[..]), p[..], offset, bits, offset + j, value)
    {
      ghost var before := p[..];
      SetBit(p, offset + j, value, bits - 1 - j);
      WriteOne(old(p[..]), before, p[..], offset, bits, offset + j, value);
    }
  }

  // ---- signed fields ----

  /** Two's complement: a 64-bit word as a signed number, and back. */
  function ToSigned(u: int): int {
    if u < 0x8000_0000_0000_0000 then u else u - 0x1_0000_0000_0000_0000
  }

  function ToWord(v: int): nat {
    v % 0x1_0000_0000_0000_0000
  }

  function SignedIn(u: int, p: int, h: int): int {
    if u < h then u else u - p
  }

  /** The value of `bits` bits as a signed number. */
  function Signed(u: nat, bits: nat): int
    requires bits > 0
  {
    SignedIn(u, Pow(bits), Pow(bits - 1))
  }

  method SetSignedBitfield(p: array<nat>, offset: nat, bits: nat, value: int)
    requires AllBytes(p[..]) && offset + bits <= 8 * p.Length && bits <= 64
    modifies p
    ensures AllBytes(p[..]) && Holds(p[..], offset, bits, ToWord(value))
    ensures forall q: nat :: !(offset <= q < offset + bits) ==> BitAt(p[..], q) == BitAt(old(p[..]), q)
  {
    SetUnsignedBitfield(p, offset, bits, ToWord(value));
  }

  /** The highest of the low `n` bits is set exactly in the upper half. */
  lemma {:induction false} TopBit(u: nat, n: nat)
    requires 0 < n && u < Pow(n)
    ensures Bit(u, n - 1) == 1 <==> u >= Pow(n - 1)
  {
    if n > 1 {
      TopBit(u / 2, n - 1);
    }
  }

  /** All the bits above the field set. */
  function FillAbove(w: nat, u: nat, bits: nat): int {
    ToSigned(Apply(OpOr, w, u, if Max(bits) <= Max(w) then Max(w) - Max(bits) else 0))
  }

  lemma SignExtend(u: nat, bits: nat)
    requires 0 < bits <= 63 && Pow(bits - 1) <= u < Pow(bits)
    ensures FillAbove(WORD, u, bits) == u - Pow(bits)
  {
    MaxIsPow(bits);
    MaxIsPow(WORD);
    AndHigh(WORD, bits, u);
    PowValues();
    PowGrows(bits, 63);
    HighPart(u, Pow(bits), Apply(OpOr, WORD, u, Max(WORD) - Max(bits)));
  }

  lemma HighPart(u: nat, p: nat, all: int)
    requires p / 2 <= u < p <= 0x8000_0000_0000_0000 && all == u + (0x1_0000_0000_0000_0000 - p)
    ensures ToSigned(all) == u - p
  {
  }

  lemma NoSign(u: nat, bits: nat)
    requires 0 < bits <= 63 && u < Pow(bits - 1)
    ensures ToSigned(u) == u
  {
    PowValues();
    PowGrows(bits - 1, 63);
  }

  lemma SignBit(u: nat, bits: nat)
    requires 0 < bits <= 63 && u < Pow(bits)
    ensures And(WORD, Pow(bits - 1), u) != 0 <==> u >= Pow(bits - 1)
  {
    AndPow(WORD, bits - 1, u);
    TopBit(u, bits);
  }

  /** If the top bit of the field is set, set all the bits above it. */
  method Extend(u: nat, bits: nat) returns (value: int)
    requires 0 < bits <= 63 && u < Pow(bits)
    ensures value == Signed(u, bits)
  {
    SignBit(u, bits);
    ghost var half := Pow(bits - 1);
    if And(WORD, Pow(bits - 1), u) != 0 {
      assert u >= half;
      SignExtend(u, bits);
      value := FillAbove(WORD, u, bits);
    } else {
      assert u < half;
      NoSign(u, bits);
      value := ToSigned(u);
    }
  }

  method GetSignedBitfield(p: array<nat>, offset: nat, bits: nat) returns (value: int)
    requires AllBytes(p[..]) && offset + bits <= 8 * p.Length && 0 < bits <= 63
    ensures value == Signed(Number(p[..], offset, bits), bits)
  {
    var u := GetUnsignedBitfield(p, offset, bits);
    value := Extend(u, bits);
  }

  lemma SameMod(v: int, u: nat, p: nat, m: nat, q: int)
    requires p > 0 && v == (p * m) * q + u
    ensures u % p == v % p
  {
    AssocInt(p, m, q);
    var k, a, r := m * q, u / p, u % p;
    assert u == p * a + r;
    Distribute(p, k, a);
    ModUnique(v, p, k + a, r);
  }

  /** 64-bit wrap-around does not change the remainder modulo a smaller power. */
  lemma WrapMod(v: int, bits: nat)
    requires bits <= 64
    ensures ToWord(v) % Pow(bits) == v % Pow(bits)
  {
    PowValues();
    PowAdd(bits, 64 - bits);
    SameMod(v, ToWord(v), Pow(bits), Pow(64 - bits), v / 0x1_0000_0000_0000_0000);
  }

  lemma AssocInt(x: int, y: int, z: int)
    ensures (x * y) * z == x * (y * z)
  {
  }

  lemma Distribute(x: int, y: int, z: int)
    ensures x * y + x * z == x * (y + z)
  {
  }

  predicate InRange(v: int, bits: nat)
    requires bits > 0
  {
    0 <= v + Pow(bits - 1) < Pow(bits)
  }

  /** A signed number in range is the one its remainder stands for. */
  lemma SignedMod(v: int, bits: nat)
    requires 0 < bits && InRange(v, bits)
    ensures Signed(v % Pow(bits), bits) == v
  {
    if v >= 0 {
      ModUnique(v, Pow(bits), 0, v);
    } else {
      ModUnique(v, Pow(bits), -1, v + Pow(bits));
    }
  }

  /** Reading a field that was set gives the value modulo 2^bits; as a signed number, a value in
      range comes back as itself. */
  lemma RoundTrip(s: seq<nat>, offset: nat, bits: nat, value: int)
    requires 0 < bits <= 64 && Holds(s, offset, bits, ToWord(value))
    ensures Number(s, offset, bits) == value % Pow(bits)
    ensures InRange(value, bits) ==> Signed(Number(s, offset, bits), bits) == value
  {
    NumberIs(s, offset, bits, ToWord(value));
    WrapMod(value, bits);
    if InRange(value, bits) {
      SignedMod(value, bits);
    }
  }

  // ---- overflow ----

  datatype Overflow = Wrap | Sat | Fail

  /** The result of unsigned arithmetic stored in an int64_t. */
  function AsInt64(x: int): int {
    ToSigned(ToWord(x))
  }

  lemma AsInt64Is(x: int)
    requires -0x8000_0000_0000_0000 <= x < 0x8000_0000_0000_0000
    ensures AsInt64(x) == x
  {
  }

  lemma MaxIncr(value: nat, bits: nat)
    requires bits <= 63
    ensures value < Pow(bits) ==>
              AsInt64(Pow(bits) - 1 - value) == Pow(bits) - 1 - value && AsInt64(0 - value) == 0 - value
  {
    PowValues();
    PowGrows(bits, 63);
    if value < Pow(bits) {
      AsInt64Is(Pow(bits) - 1 - value);
      AsInt64Is(0 - value);
    }
  }

  /** checkUnsignedBitfieldOverflow: nonzero exactly when the value or the sum is out of range;
      the limit is then the congruent value in range, or the violated bound. */
  method CheckUnsignedBitfieldOverflow(value: nat, incr: int, bits: nat, owtype: Overflow)
    returns (r: int, limit: Option<int>)
    requires 0 < bits <= 63 && value < 0x1_0000_0000_0000_0000
    requires -0x8000_0000_0000_0000 <= incr < 0x8000_0000_0000_0000
    ensures r != 0 <==> value >= Pow(bits) || !(0 <= value + incr < Pow(bits))
    ensures r == -1 ==> value + incr < 0 && !owtype.Wrap?
    ensures r == 0 || owtype.Fail? ==> limit == None
    ensures r != 0 && owtype.Wrap? ==> limit == Some((value + incr) % Pow(bits))
    ensures r != 0 && owtype.Sat? ==> limit == Some(if r == 1 then Pow(bits) - 1 else 0)
    ensures r != 0 && owtype.Sat? && value < Pow(bits) ==> (r == 1 <==> value + incr >= Pow(bits))
  {
    var max := Pow(bits) - 1;
    MaxIncr(value, bits);
    var maxincr, minincr := AsInt64(max - value), AsInt64(0 - value);
    limit := None;
    if value > max || (incr > 0 && incr > maxincr) {
      r := 1;
      if owtype.Wrap? {
        limit := WrapUnsigned(value, incr, bits);
      } else if owtype.Sat? {
        limit := Some(max);
      }
    } else if incr < 0 && incr < minincr {
      r := -1;
      if owtype.Wrap? {
        limit := WrapUnsigned(value, incr, bits);
        r := 1;
      } else if owtype.Sat? {
        limit := Some(0);
      }
    } else {
      r := 0;
    }
  }

  method WrapUnsigned(value: nat, incr: int, bits: nat) returns (limit: Option<int>)
    requires 0 < bits <= 63
    ensures limit == Some((value + incr) % Pow(bits))
  {
    var res := ToWord(value + incr);
    AndMax(WORD, bits, res);
    WrapMod(value + incr, bits);
    limit := Some(And(WORD, res, Max(bits)));
  }

  lemma MultipleMod(p: int, k: int)
    requires p > 0
    ensures (p * k) % p == 0
  {
    ModUnique(p * k, p, k, 0);
  }

  lemma SameRest(v: int, p: int, q: int, r: int)
    requires p > 0 && v == p * q + r
    ensures (r - v) % p == 0 && (r - p - v) % p == 0
  {
    MultipleMod(p, -q);
    MultipleMod(p, -q - 1);
    assert p * (-q) == -(p * q);
    assert p * (-q - 1) == -(p * q) - p;
  }

  lemma WrapsInto(v: int, p: nat, h: nat)
    requires h > 0 && p == 2 * h
    ensures var s := SignedIn(v % p, p, h); 0 <= s + h < p && (s - v) % p == 0
  {
    SameRest(v, p, v / p, v % p);
  }

  /** The value congruent to `v` modulo 2^bits that a signed field can hold. */
  lemma SignedIsCongruent(v: int, bits: nat)
    requires 0 < bits
    ensures InRange(Signed(v % Pow(bits), bits), bits) && (Signed(v % Pow(bits), bits) - v) % Pow(bits) == 0
  {
    WrapsInto(v, Pow(bits), Pow(bits - 1));
  }

  /** The sum as 64-bit words, cut to the field and sign extended. */
  method WrapSigned(value: int, incr: int, bits: nat) returns (limit: Option<int>)
    requires 0 < bits <= 63
    ensures limit == Some(Signed((value + incr) % Pow(bits), bits))
  {
    var c := ToWord(ToWord(value) + ToWord(incr));
    SumWraps(value, incr);
    WrapMod(value + incr, bits);
    AndMax(WORD, bits, c);
    var low := And(WORD, c, Max(bits));
    var v := Extend(low, bits);
    limit := Some(v);
  }

  lemma SumWraps(a: int, b: int)
    ensures ToWord(ToWord(a) + ToWord(b)) == ToWord(a + b)
  {
  }

  /** checkSignedBitfieldOverflow for values whose distance to the bounds fits 64 bits, as that
      of every value in range does. */
  method CheckSignedBitfieldOverflow(value: int, incr: int, bits: nat, owtype: Overflow)
    returns (r: int, limit: Option<int>)
    requires 0 < bits <= 63
    requires Pow(bits - 1) - 1 - value < 0x8000_0000_0000_0000 && -0x8000_0000_0000_0000 <= 0 - Pow(bits - 1) - value
    requires -0x8000_0000_0000_0000 <= incr < 0x8000_0000_0000_0000
    ensures r != 0 <==> !InRange(value, bits) || !InRange(value + incr, bits)
    ensures r == 0 || owtype.Fail? ==> limit == None
    ensures r != 0 && owtype.Wrap? ==> r == 1 && limit == Some(Signed((value + incr) % Pow(bits), bits))
    ensures r != 0 && owtype.Sat? ==> limit == Some(if r == 1 then Pow(bits - 1) - 1 else 0 - Pow(bits - 1))
    ensures r != 0 && owtype.Sat? && InRange(value, bits) ==> (r == 1 <==> value + incr >= Pow(bits - 1))
  {
    var max := Pow(bits - 1) - 1;
    var min := (0 - max) - 1;
    var maxincr := max - value;
    var minincr := min - value;
    limit := None;
    if value > max || incr > maxincr || (value >= 0 && incr > 0 && incr > maxincr) {
      r := 1;
      if owtype.Wrap? {
        limit := WrapSigned(value, incr, bits);
      } else if owtype.Sat? {
        limit := Some(max);
      }
    } else if value < min || incr < minincr || (value < 0 && incr < 0 && incr < minincr) {
      r := -1;
      if owtype.Wrap? {
        limit := WrapSigned(value, incr, bits);
        r := 1;
      } else if owtype.Sat? {
        limit := Some(min);
      }
    } else {
      r := 0;
    }
  }
}
