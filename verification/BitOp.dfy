/** The inner loops of BITOP: whole words while every source has data, then byte by byte. */
module BitOp {
  import opened BitMath
  import opened Hiding
  import opened Options

  datatype Op = OpAnd | OpOr | OpXor | OpNot

  /** The operation on the low `n` bits of two numbers below 2^n. */
  function Apply(op: Op, n: nat, x: nat, y: nat): int {
    match op
    case OpAnd => And(n, x, y)
    case OpOr => x + y - And(n, x, y)
    case OpXor => x + y - 2 * And(n, x, y)
    case OpNot => Max(n) - x
  }

  /** All `n` bits set. */
  function Max(n: nat): nat {
    if n == 0 then 0 else 1 + 2 * Max(n - 1)
  }

  // ---- what the operations mean, bit by bit ----

  function BitOp(op: Op, p: nat, q: nat): nat {
    match op
    case OpAnd => if p == 1 && q == 1 then 1 else 0
    case OpOr => if p == 1 || q == 1 then 1 else 0
    case OpXor => if p != q then 1 else 0
    case OpNot => if p == 1 then 0 else 1
  }

  lemma {:induction false} AndBelow(n: nat, x: nat, y: nat)
    ensures And(n, x, y) <= x && And(n, x, y) <= y
  {
    if n > 0 {
      AndBelow(n - 1, x / 2, y / 2);
    }
  }

  lemma ApplyStep(op: Op, n: nat, x: nat, y: nat)
    requires n > 0
    ensures Apply(op, n, x, y) == BitOp(op, x % 2, y % 2) + 2 * Apply(op, n - 1, x / 2, y / 2)
  {
    assert x == x % 2 + 2 * (x / 2) && y == y % 2 + 2 * (y / 2);
  }

  /** Every bit of the result is the operation on the bits of the operands. */
  lemma {:induction false} ApplyBits(op: Op, n: nat, x: nat, y: nat, k: nat)
    requires k < n && x <= Max(n) && y <= Max(n)
    ensures 0 <= Apply(op, n, x, y) <= Max(n) && Bit(Apply(op, n, x, y), k) == BitOp(op, Bit(x, k), Bit(y, k))
    decreases n
  {
    ApplyRange(op, n, x, y);
    ApplyRange(op, n - 1, x / 2, y / 2);
    ApplyStep(op, n, x, y);
    BitLow(Apply(op, n, x, y), BitOp(op, x % 2, y % 2), Apply(op, n - 1, x / 2, y / 2));
    if k > 0 {
      ApplyBits(op, n - 1, x / 2, y / 2, k - 1);
    }
  }

  lemma {:induction false} ApplyRange(op: Op, n: nat, x: nat, y: nat)
    requires x <= Max(n) && y <= Max(n)
    ensures 0 <= Apply(op, n, x, y) <= Max(n)
    decreases n
  {
    if n > 0 {
      ApplyStep(op, n, x, y);
      ApplyRange(op, n - 1, x / 2, y / 2);
    }
  }

  // ---- words ----

  /** The number that bytes form in memory. */
  function Load(s: seq<nat>): nat {
    if s == [] then 0 else s[0] + 0x100 * Load(s[1..])
  }

  function Store(x: nat, n: nat): (s: seq<nat>)
    ensures |s| == n
  {
    if n == 0 then [] else [x % 0x100] + Store(x / 0x100, n - 1)
  }

  lemma SplitByte(b: nat, rest: nat)
    requires b < 0x100
    ensures (b + 0x100 * rest) % 0x100 == b && (b + 0x100 * rest) / 0x100 == rest
  {
  }

  lemma {:induction false} StoreLoad(s: seq<nat>)
    requires AllBytes(s)
    ensures Store(Load(s), |s|) == s
  {
    if s != [] {
      SplitByte(s[0], Load(s[1..]));
      StoreLoad(s[1..]);
    }
  }

  lemma Max8()
    ensures Max(8) == 0xFF
  {
    assert Max(4) == 15;
  }

  lemma {:induction false} AndOfBytes(xs: seq<nat>, ys: seq<nat>) returns (rs: seq<nat>)
    requires |xs| == |ys| && AllBytes(xs) && AllBytes(ys)
    ensures |rs| == |xs| && AndIs(8 * |xs|, Load(xs), Load(ys), Load(rs))
    ensures forall i :: 0 <= i < |rs| ==> rs[i] == And(8, xs[i], ys[i])
  {
    if xs == [] {
      rs := [];
      AndIsNil(0, 0);
    } else {
      var rest := AndOfBytes(xs[1..], ys[1..]);
      var r := AndByte(xs[0], ys[0]);
      AndIsOpen(8, xs[0], ys[0], r);
      Prepend(xs[0], ys[0], r, 8 * |xs[1..]|, Load(xs[1..]), Load(ys[1..]), Load(rest));
      rs := [r] + rest;
      assert rs[1..] == rest;
    }
  }

  lemma AndIsOpen(n: nat, x: nat, y: nat, r: nat)
    requires AndIs(n, x, y, r)
    ensures And(n, x, y) == r
  {
    assert Unfold(Bits, 0);
  }

  lemma MaxByte(n: nat)
    ensures Max(n + 8) == 0xFF + 0x100 * Max(n)
  {
    assert Max(n + 4) == 15 + 16 * Max(n) by {
      assert Max(n + 2) == 3 + 4 * Max(n);
    }
    assert Max(n + 6) == 3 + 4 * Max(n + 4);
  }

  /** The and, once or twice, taken from the sum: for the whole and byte by byte. */
  lemma {:induction false} LoadSums(xs: seq<nat>, ys: seq<nat>, ands: seq<nat>, twice: bool, rs: seq<nat>)
    requires |xs| == |ys| == |ands| == |rs|
    requires forall i :: 0 <= i < |xs| ==> rs[i] + ands[i] + (if twice then ands[i] else 0) == xs[i] + ys[i]
    ensures Load(rs) + Load(ands) + (if twice then Load(ands) else 0) == Load(xs) + Load(ys)
  {
    if xs != [] {
      LoadSums(xs[1..], ys[1..], ands[1..], twice, rs[1..]);
    }
  }

  lemma {:induction false} LoadNot(xs: seq<nat>, rs: seq<nat>)
    requires |xs| == |rs| && forall i :: 0 <= i < |xs| ==> rs[i] + xs[i] == 0xFF
    ensures Load(rs) + Load(xs) == Max(8 * |xs|)
  {
    if xs != [] {
      LoadNot(xs[1..], rs[1..]);
      MaxByte(8 * |xs[1..]|);
    }
  }

  lemma BytewiseIsBytes(op: Op, xs: seq<nat>, ys: seq<nat>) returns (rs: seq<nat>)
    requires |xs| == |ys| && AllBytes(xs) && AllBytes(ys)
    ensures |rs| == |xs| && AllBytes(rs) && forall i :: 0 <= i < |xs| ==> rs[i] == Apply(op, 8, xs[i], ys[i])
  {
    Max8();
    forall i | 0 <= i < |xs|
      ensures 0 <= Apply(op, 8, xs[i], ys[i]) < 0x100
    {
      ApplyRange(op, 8, xs[i], ys[i]);
    }
    rs := seq(|xs|, i requires 0 <= i < |xs| => Apply(op, 8, xs[i], ys[i]));
  }

  /** An operation on a word in memory is the operation on each of its bytes. */
  lemma WordIsBytewise(op: Op, xs: seq<nat>, ys: seq<nat>) returns (rs: seq<nat>)
    requires |xs| == |ys| && AllBytes(xs) && AllBytes(ys)
    ensures |rs| == |xs| && Apply(op, 8 * |xs|, Load(xs), Load(ys)) == Load(rs) && AllBytes(rs)
    ensures forall i :: 0 <= i < |xs| ==> rs[i] == Apply(op, 8, xs[i], ys[i])
  {
    rs := BytewiseIsBytes(op, xs, ys);
    var ands := AndOfBytes(xs, ys);
    AndIsOpen(8 * |xs|, Load(xs), Load(ys), Load(ands));
    match op
    case OpAnd => assert rs == ands;
    case OpOr => LoadSums(xs, ys, ands, false, rs);
    case OpXor => LoadSums(xs, ys, ands, true, rs);
    case OpNot =>
      Max8();
      LoadNot(xs, rs);
  }

  // ---- the command ----

  /** A source is zero beyond its end. */
  function ByteOf(s: seq<nat>, j: nat): nat {
    if j < |s| then s[j] else 0
  }

  /** Byte `j` of the first `n` sources, combined from the first on. */
  function Fold(op: Op, srcs: seq<seq<nat>>, j: nat, n: nat): int
    requires 1 <= n <= |srcs|
  {
    if n == 1 then ByteOf(srcs[0], j)
    else
      var x := Fold(op, srcs, j, n - 1);
      if x < 0 then 0 else Apply(op, 8, x, ByteOf(srcs[n - 1], j))
  }

  /** Byte `j` of the result. */
  function Combined(op: Op, srcs: seq<seq<nat>>, j: nat): int
    requires srcs != []
  {
    if op.OpNot? then Apply(op, 8, ByteOf(srcs[0], j), 0) else Fold(op, srcs, j, |srcs|)
  }

  ghost predicate AllSources(srcs: seq<seq<nat>>) {
    forall i :: 0 <= i < |srcs| ==> AllBytes(srcs[i])
  }

  lemma {:induction false} FoldIsByte(op: Op, srcs: seq<seq<nat>>, j: nat, n: nat)
    requires AllSources(srcs) && 1 <= n <= |srcs|
    ensures 0 <= Fold(op, srcs, j, n) < 0x100
  {
    assert AllBytes(srcs[n - 1]);
    if n > 1 {
      FoldIsByte(op, srcs, j, n - 1);
      Max8();
      ApplyRange(op, 8, Fold(op, srcs, j, n - 1), ByteOf(srcs[n - 1], j));
    }
  }

  /** The bits of the first `n` sources at one place, combined. */
  function FoldBit(op: Op, srcs: seq<seq<nat>>, j: nat, k: nat, n: nat): nat
    requires 1 <= n <= |srcs|
  {
    if n == 1 then Bit(ByteOf(srcs[0], j), k)
    else BitOp(op, FoldBit(op, srcs, j, k, n - 1), Bit(ByteOf(srcs[n - 1], j), k))
  }

  /** Every bit of the result is the combination of the bits of the sources at its place. */
  lemma {:induction false} FoldBits(op: Op, srcs: seq<seq<nat>>, j: nat, k: nat, n: nat)
    requires AllSources(srcs) && 1 <= n <= |srcs| && k < 8
    ensures 0 <= Fold(op, srcs, j, n) < 0x100 && Bit(Fold(op, srcs, j, n), k) == FoldBit(op, srcs, j, k, n)
  {
    FoldIsByte(op, srcs, j, n);
    assert AllBytes(srcs[n - 1]);
    if n > 1 {
      FoldBits(op, srcs, j, k, n - 1);
      Max8();
      ApplyBits(op, 8, Fold(op, srcs, j, n - 1), ByteOf(srcs[n - 1], j), k);
    }
  }

  /** The lengths of the sources, with missing keys as empty strings. */
  method Lengths(objects: seq<Option<seq<nat>>>) returns (srcs: seq<seq<nat>>, maxlen: nat, minlen: nat)
    ensures |srcs| == |objects|
    ensures forall i :: 0 <= i < |objects| ==> srcs[i] == if objects[i].Some? then objects[i].value else []
    ensures forall i :: 0 <= i < |srcs| ==> minlen <= |srcs[i]| <= maxlen
    ensures maxlen == 0 || exists i :: 0 <= i < |srcs| && |srcs[i]| == maxlen
  {
    srcs, maxlen, minlen := [], 0, 0;
    for j := 0 to |objects|
      invariant |srcs| == j
      invariant forall i :: 0 <= i < j ==> srcs[i] == if objects[i].Some? then objects[i].value else []
      invariant forall i :: 0 <= i < j ==> minlen <= |srcs[i]| <= maxlen
      invariant maxlen == 0 || exists i :: 0 <= i < j && |srcs[i]| == maxlen
    {
      if objects[j].None? {
        srcs := srcs + [[]];
        minlen := 0;
      } else {
        var s := objects[j].value;
        ghost var before := srcs;
        srcs := srcs + [s];
        assert forall i :: 0 <= i < j ==> srcs[i] == before[i];
        assert srcs[j] == s;
        if |s| > maxlen {
          maxlen := |s|;
        }
        if j == 0 || |s| < minlen {
          minlen := |s|;
        }
      }
    }
  }

  /** One word of the result combined with one word of a source, in place. */
  method WordStep(op: Op, res: array<nat>, pos: nat, src: seq<nat>)
    requires pos + 8 <= res.Length && AllBytes(res[..]) && pos + 8 <= |src| && AllBytes(src)
    modifies res
    ensures AllBytes(res[..])
    ensures forall p :: pos <= p < pos + 8 ==> res[p] == Apply(op, 8, old(res[p]), src[p])
    ensures forall p :: 0 <= p < res.Length && !(pos <= p < pos + 8) ==> res[p] == old(res[p])
  {
    var xs, ys := res[pos..pos + 8], src[pos..pos + 8];
    ghost var rs := WordIsBytewise(op, xs, ys);
    var word := Apply(op, 64, Load(xs), Load(ys));
    StoreLoad(rs);
    var bytes := Store(word, 8);
    forall k | 0 <= k < 8 {
      res[pos + k] := bytes[k];
    }
    forall p | pos <= p < pos + 8
      ensures res[p] == rs[p - pos]
    {
      assert res[pos + (p - pos)] == bytes[p - pos];
    }
  }

  /** Four words of the result combined with four words of a source. */
  method FourWords(op: Op, res: array<nat>, j: nat, src: seq<nat>)
    requires j + 32 <= res.Length && AllBytes(res[..]) && j + 32 <= |src| && AllBytes(src)
    modifies res
    ensures AllBytes(res[..])
    ensures forall p :: j <= p < j + 32 ==> res[p] == Apply(op, 8, old(res[p]), src[p])
    ensures forall p :: 0 <= p < res.Length && !(j <= p < j + 32) ==> res[p] == old(res[p])
  {
    for k := 0 to 4
      invariant AllBytes(res[..])
      invariant forall p :: j <= p < j + 8 * k ==> res[p] == Apply(op, 8, old(res[p]), src[p])
      invariant forall p :: 0 <= p < res.Length && !(j <= p < j + 8 * k) ==> res[p] == old(res[p])
    {
      WordStep(op, res, j + 8 * k, src);
    }
  }

  /** Positions from `lo` to `hi` hold the first `n` sources combined. */
  ghost predicate Folded(res: array<nat>, op: Op, srcs: seq<seq<nat>>, lo: nat, hi: nat, n: nat)
    requires 1 <= n <= |srcs| && hi <= res.Length
    reads res
  {
    forall p :: lo <= p < hi ==> res[p] == Fold(op, srcs, p, n)
  }

  /** 32 bytes by words, one source after the other. */
  method FastBlock(op: Op, res: array<nat>, j: nat, srcs: seq<seq<nat>>)
    requires srcs != [] && AllSources(srcs) && (op.OpNot? ==> |srcs| == 1)
    requires forall i :: 0 <= i < |srcs| ==> j + 32 <= |srcs[i]|
    requires j + 32 <= res.Length && AllBytes(res[..]) && forall p :: j <= p < j + 32 ==> res[p] == srcs[0][p]
    modifies res
    ensures AllBytes(res[..])
    ensures forall p :: j <= p < j + 32 ==> res[p] == Combined(op, srcs, p)
    ensures forall p :: 0 <= p < res.Length && !(j <= p < j + 32) ==> res[p] == old(res[p])
  {
    assert AllBytes(srcs[0]);
    if op.OpNot? {
      FourWords(op, res, j, srcs[0]);
    } else {
      for i := 1 to |srcs|
        invariant AllBytes(res[..]) && Folded(res, op, srcs, j, j + 32, i)
        invariant forall p :: 0 <= p < res.Length && !(j <= p < j + 32) ==> res[p] == old(res[p])
      {
        assert AllBytes(srcs[i]) && j + 32 <= |srcs[i]|;
        FourWords(op, res, j, srcs[i]);
      }
    }
  }

  /** One byte of the result, from all sources. */
  method SlowByte(op: Op, j: nat, srcs: seq<seq<nat>>) returns (output: nat)
    requires srcs != [] && AllSources(srcs) && (op.OpNot? ==> |srcs| == 1)
    ensures output == Combined(op, srcs, j) && output < 0x100
  {
    output := if |srcs[0]| <= j then 0 else srcs[0][j];
    assert AllBytes(srcs[0]);
    if op.OpNot? {
      Max8();
      ApplyRange(op, 8, output, 0);
      output := Apply(op, 8, output, 0);
      return;
    }
    for i := 1 to |srcs|
      invariant output == Fold(op, srcs, j, i)
    {
      FoldIsByte(op, srcs, j, i + 1);
      var byte := if |srcs[i]| <= j then 0 else srcs[i][j];
      output := Apply(op, 8, output, byte);
    }
    FoldIsByte(op, srcs, j, |srcs|);
  }

  /** The fast path, if it applies; `j` is the next byte to process. */
  method FastPath(op: Op, res: array<nat>, srcs: seq<seq<nat>>, minlen: nat) returns (j: nat)
    requires srcs != [] && AllSources(srcs) && (op.OpNot? ==> |srcs| == 1)
    requires minlen <= res.Length && forall i :: 0 <= i < |srcs| ==> minlen <= |srcs[i]|
    requires AllBytes(res[..])
    modifies res
    ensures j <= res.Length && AllBytes(res[..])
    ensures forall p :: 0 <= p < j ==> res[p] == Combined(op, srcs, p)
  {
    j := 0;
    if minlen >= 32 && |srcs| <= 16 {
      assert AllBytes(srcs[0]) && minlen <= |srcs[0]|;
      forall p | 0 <= p < minlen {
        res[p] := srcs[0][p];
      }
      while minlen - j >= 32
        invariant j <= minlen && AllBytes(res[..])
        invariant forall p :: 0 <= p < j ==> res[p] == Combined(op, srcs, p)
        invariant forall p :: j <= p < minlen ==> res[p] == srcs[0][p]
      {
        FastBlock(op, res, j, srcs);
        j := j + 32;
      }
    }
  }

  /** bitopCommand between the lookups and the store: every byte of the result is the
      combination of the bytes of all sources, whichever path computed it. */
  method Bitop(op: Op, objects: seq<Option<seq<nat>>>) returns (res: array<nat>)
    requires objects != [] && (op.OpNot? ==> |objects| == 1)
    requires forall i :: 0 <= i < |objects| && objects[i].Some? ==> AllBytes(objects[i].value)
    ensures var srcs := seq(|objects|,
                            i requires 0 <= i < |objects| => if objects[i].Some? then objects[i].value else []);
            && (forall i :: 0 <= i < |srcs| ==> |srcs[i]| <= res.Length)
            && (res.Length > 0 ==> exists i :: 0 <= i < |srcs| && |srcs[i]| == res.Length)
            && forall j :: 0 <= j < res.Length ==> res[j] == Combined(op, srcs, j)
  {
    var srcs, maxlen, minlen := Lengths(objects);
    assert srcs == seq(|objects|, i requires 0 <= i < |objects| => if objects[i].Some? then objects[i].value else []);
    res := new nat[maxlen](_ => 0);
    assert minlen <= |srcs[0]| <= maxlen;
    var j := FastPath(op, res, srcs, minlen);
    while j < maxlen
      invariant j <= maxlen && forall p :: 0 <= p < j ==> res[p] == Combined(op, srcs, p)
    {
      res[j] := SlowByte(op, j, srcs);
      j := j + 1;
    }
  }
}
