/** The AOF rewrite buffer: a list of fixed-size blocks, appended to by the parent and
    drained, front first, into the pipe to the child. */
module RewriteBuffer {
  import opened Hiding
  import opened LogScan
  import opened Sequences

  const BLOCK_SIZE: nat := 1024 * 1024 * 10

  class Block {
    var used: nat
    var free: nat
    const buf: array<int>

    constructor ()
      ensures Holds([]) && used == 0 && free == BLOCK_SIZE && fresh(buf)
    {
      buf := new int[BLOCK_SIZE];
      used, free := 0, BLOCK_SIZE;
    }

    /** The block is well formed and `text` is what it holds. */
    ghost predicate Holds(text: Bytes)
      reads this, buf
    {
      buf.Length == BLOCK_SIZE && used + free == BLOCK_SIZE && buf[..used] == text
    }

    /** memcpy at the end of the block. */
    method Push(s: Bytes, ghost text: Bytes)
      requires Holds(text) && |s| <= free
      modifies this, buf
      ensures Holds(text + s) && free == old(free) - |s|
    {
      forall i | 0 <= i < |s| {
        buf[used + i] := s[i];
      }
      used := used + |s|;
      free := free - |s|;
    }

    /** memmove of what is left after `n` bytes were written. */
    method Drop(n: nat, ghost text: Bytes)
      requires Holds(text) && n <= used
      modifies this, buf
      ensures Holds(text[n..])
    {
      forall i | 0 <= i < used - n {
        buf[i] := buf[i + n];
      }
      used := used - n;
      free := free + n;
    }
  }

  ghost predicate Separate(bs: seq<Block>) {
    forall i, j :: 0 <= i < j < |bs| ==> bs[i] != bs[j] && bs[i].buf != bs[j].buf
  }

  ghost function Arrays(bs: seq<Block>): set<array<int>> {
    set b | b in bs :: b.buf
  }

  ghost predicate HoldAll(bs: seq<Block>, texts: seq<Bytes>)
    reads bs, Arrays(bs)
  {
    |bs| == |texts| && forall i :: 0 <= i < |bs| ==> bs[i].Holds(texts[i])
  }

  lemma FlattenLast(texts: seq<Bytes>, t: Bytes)
    ensures Flatten(texts + [t]) == Flatten(texts) + t
  {
    FlattenTogether(texts, [t]);
    assert Flatten([t]) == t + Flatten([t][1..]) && [t][1..] == [];
  }

  /** Growing the last text grows the whole. */
  lemma FlattenGrow(texts: seq<Bytes>, s: Bytes)
    requires texts != []
    ensures var n := |texts| - 1;
      Flatten(texts[n := texts[n] + s]) == Flatten(texts) + s
  {
    var n := |texts| - 1;
    assert texts == texts[..n] + [texts[n]];
    assert texts[n := texts[n] + s] == texts[..n] + [texts[n] + s];
    FlattenLast(texts[..n], texts[n]);
    FlattenLast(texts[..n], texts[n] + s);
    assert Flatten(texts[..n]) + (texts[n] + s) == Flatten(texts[..n]) + texts[n] + s;
  }

  lemma FlattenSuffix(texts: seq<Bytes>, n: nat)
    requires n < |texts|
    ensures Flatten(texts[n..]) == texts[n] + Flatten(texts[n + 1..])
  {
    assert texts[n..][1..] == texts[n + 1..];
  }

  class Buffer {
    var blocks: seq<Block>
    var stopSending: bool
    var handler: bool
    ghost var texts: seq<Bytes>

    ghost predicate Valid()
      reads this, blocks, Arrays(blocks)
    {
      forall u: nat :: Unfold(Blocks, u) ==> Separate(blocks) && HoldAll(blocks, texts)
    }

    /** As long as the child wants more, data in the buffer means that the handler which sends
        it is installed. */
    ghost predicate Draining()
      reads this
    {
      blocks != [] && !stopSending ==> handler
    }

    ghost function Contents(): Bytes
      reads this
    {
      Flatten(texts)
    }

    ghost function Last(): set<object>
      reads this
    {
      if blocks == [] then {} else {blocks[|blocks| - 1], blocks[|blocks| - 1].buf}
    }

    lemma FirstFits()
      requires Valid() && blocks != []
      ensures blocks[0].used <= |Contents()|
    {
      assert Unfold(Blocks, 0);
      assert blocks[0].Holds(texts[0]);
      assert Flatten(texts) == texts[0] + Flatten(texts[1..]);
    }

    lemma NoBlocks()
      requires Valid() && blocks == []
      ensures Contents() == []
    {
      assert Unfold(Blocks, 0);
    }

    constructor ()
      ensures Valid() && Draining() && blocks == [] && Contents() == []
    {
      blocks, texts, stopSending, handler := [], [], false, false;
    }

    method AddBlock()
      requires Valid()
      modifies `blocks, `texts
      ensures Valid() && Contents() == old(Contents())
      ensures |blocks| == |old(blocks)| + 1 && blocks[|old(blocks)|].free == BLOCK_SIZE
      ensures forall b :: b in blocks && b !in old(blocks) ==> fresh(b) && fresh(b.buf)
    {
      assert Unfold(Blocks, 0);
      var b := new Block();
      FlattenLast(texts, []);
      blocks, texts := blocks + [b], texts + [[]];
    }

    /** Append to the last block as much as fits. */
    method PushLast(s: Bytes) returns (k: nat)
      requires Valid() && blocks != []
      modifies `texts, blocks[|blocks| - 1], blocks[|blocks| - 1].buf
      ensures Valid() && k <= |s| && Contents() == old(Contents()) + s[..k]
      ensures k == |s| || k == old(blocks[|blocks| - 1].free)
    {
      assert Unfold(Blocks, 0);
      var n := |blocks| - 1;
      var b := blocks[n];
      k := if b.free < |s| then b.free else |s|;
      var part := s[..k];
      FlattenGrow(texts, part);
      b.Push(part, texts[n]);
      texts := texts[n := texts[n] + part];
    }

    method AppendMore(s: Bytes, done: nat) returns (now: nat)
      requires Valid() && done < |s|
      modifies `blocks, `texts, Last()
      ensures Valid() && done <= now <= |s|
      ensures Contents() == old(Contents()) + s[done..now]
      ensures forall b :: b in blocks && b !in old(blocks) ==> fresh(b) && fresh(b.buf)
      ensures now < |s| ==> blocks != [] && blocks[|blocks| - 1].free > 0
      ensures old(blocks != [] && blocks[|blocks| - 1].free > 0) ==> done < now
    {
      now := done;
      if blocks != [] {
        var k := PushLast(s[done..]);
        now := done + k;
        assert s[done..][..k] == s[done..now];
      }
      if now < |s| {
        AddBlock();
      }
    }

    /** aofRewriteBufferAppend. */
    method Append(s: Bytes)
      requires Valid()
      modifies this, blocks, Arrays(blocks)
      ensures Valid() && Draining() && Contents() == old(Contents()) + s
      ensures stopSending == old(stopSending)
      ensures forall b :: b in blocks && b !in old(blocks) ==> fresh(b) && fresh(b.buf)
    {
      var done := 0;
      while done < |s|
        invariant 0 <= done <= |s|
        invariant Valid() && Contents() == old(Contents()) + s[..done]
        invariant stopSending == old(stopSending)
        invariant forall b :: b in blocks && b !in old(blocks) ==> fresh(b) && fresh(b.buf)
        decreases |s| - done, if blocks != [] && blocks[|blocks| - 1].free > 0 then 0 else 1
      {
        assert blocks != [] ==>
            var b := blocks[|blocks| - 1];
            b in blocks && (b in old(blocks) ==> b.buf in Arrays(old(blocks)));
        var now := AppendMore(s, done);
        assert s[..now] == s[..done] + s[done..now];
        done := now;
      }
      if !handler {
        handler := true;
      }
    }

    /** aofRewriteBufferSize. */
    method Size() returns (size: nat)
      requires Valid()
      ensures size == |Contents()|
    {
      assert Unfold(Blocks, 0);
      size := 0;
      for i := 0 to |blocks|
        invariant size + |Flatten(texts[i..])| == |Contents()|
      {
        FlattenSuffix(texts, i);
        assert blocks[i].Holds(texts[i]);
        size := size + blocks[i].used;
      }
    }

    /** `n` bytes of the first block were written; an empty block is deleted. */
    method DropFirst(n: nat) returns (sent: Bytes)
      requires Valid() && blocks != [] && n <= blocks[0].used
      modifies `blocks, `texts, blocks[0], blocks[0].buf
      ensures Valid() && |sent| == n && sent + Contents() == old(Contents())
      ensures blocks == old(blocks) || blocks == old(blocks)[1..]
      ensures old(blocks[0].used) == n ==> blocks == old(blocks)[1..]
    {
      assert Unfold(Blocks, 0);
      var b := blocks[0];
      ghost var text := texts[0];
      assert b.Holds(text);
      sent := b.buf[..n];
      assert sent + (text[n..] + Flatten(texts[1..])) == text + Flatten(texts[1..]);
      b.Drop(n, text);
      texts := texts[0 := text[n..]];
      assert texts[1..] == old(texts)[1..];
      if b.used == 0 {
        assert text[n..] == [];
        blocks, texts := blocks[1..], texts[1..];
      }
    }

    method SendFirst(sent: Bytes, n: nat) returns (more: Bytes)
      requires Valid() && blocks != [] && n <= blocks[0].used && (n == 0 ==> blocks[0].used == 0)
      modifies `blocks, `texts, blocks[0], blocks[0].buf
      ensures Valid() && more + Contents() == old(sent + Contents())
      ensures forall b :: b in blocks ==> b in old(blocks)
      ensures |Contents()| == old(|Contents()|) - n && |blocks| <= |old(blocks)| && |more| == |sent| + n
      ensures n == 0 ==> |blocks| < |old(blocks)|
    {
      ghost var left := Contents();
      var piece := DropFirst(n);
      assert sent + left == sent + piece + Contents();
      more := sent + piece;
    }

    /** aofChildWriteDiffData: write block by block until a write does not succeed, nothing is
        left, or the child has asked to stop. `writes` are the results of write(2), which
        reports no more than it was given; past its end write(2) would block. */
    method ChildWriteDiffData(writes: seq<int>) returns (sent: Bytes)
      requires Valid() && Draining()
      modifies this, blocks, Arrays(blocks)
      ensures Valid() && Draining() && sent + Contents() == old(Contents())
      ensures stopSending == old(stopSending)
      ensures stopSending ==> sent == [] && !handler
      ensures !handler && !stopSending ==> Contents() == []
      ensures !stopSending && AllTaken(writes) && |writes| >= |old(Contents())| ==> Contents() == [] && !handler
      ensures !stopSending && writes != [] && writes[0] > 0 && old(Contents()) != [] ==> sent != []
      ensures forall b :: b in blocks ==> b in old(blocks)
    {
      sent := [];
      var i := 0;
      while true
        invariant 0 <= i && Valid() && Draining() && sent + Contents() == old(Contents())
        invariant stopSending == old(stopSending) && (stopSending ==> sent == [])
        invariant handler == old(handler)
        invariant AllTaken(writes) ==> i + |Contents()| <= |old(Contents())|
        invariant if i == 0 then sent == [] else sent != []
        invariant forall b :: b in blocks ==> b in old(blocks)
        decreases |Contents()|, |blocks|
      {
        if stopSending || blocks == [] {
          if blocks == [] {
            NoBlocks();
          }
          handler := false;
          return;
        }
        var k := 0;
        if blocks[0].used > 0 {
          var n := if i < |writes| then writes[i] else -1;
          i := i + 1;
          if n <= 0 {
            FirstFits();
            return;
          }
          k := if n < blocks[0].used then n else blocks[0].used;
        }
        assert blocks[0] in old(blocks) && blocks[0].buf in Arrays(old(blocks));
        sent := SendFirst(sent, k);
      }
    }

    /** aofRewriteBufferWrite: all of it goes to the file, or the call fails. */
    method WriteTo(file: Bytes, writes: seq<int>) returns (ok: bool, out: Bytes)
      requires Valid()
      ensures file <= out <= file + Contents()
      ensures ok ==> out == file + Contents()
      ensures ok <==> forall i :: 0 <= i < |blocks| && blocks[i].used > 0 ==>
                i < |writes| && writes[i] == blocks[i].used
    {
      assert Unfold(Blocks, 0);
      ghost var goal := file + Contents();
      out := file;
      for i := 0 to |blocks|
        invariant file <= out && out + Flatten(texts[i..]) == goal
        invariant forall j :: 0 <= j < i && blocks[j].used > 0 ==> j < |writes| && writes[j] == blocks[j].used
      {
        var b := blocks[i];
        assert b.Holds(texts[i]);
        FlattenSuffix(texts, i);
        if b.used > 0 {
          var n := if i < |writes| then writes[i] else -1;
          var k := if n < 0 then 0 else if n < b.used then n else b.used;
          WritePart(out, texts[i], Flatten(texts[i + 1..]), goal, k);
          out := out + b.buf[..k];
          if n != b.used {
            return false, out;
          }
        }
      }
      ok := true;
    }
  }

  /** No call of write(2) fails or writes nothing. */
  predicate AllTaken(writes: seq<int>) {
    forall i :: 0 <= i < |writes| ==> writes[i] > 0
  }

  lemma WritePart(out: Bytes, text: Bytes, rest: Bytes, goal: Bytes, k: nat)
    requires out + (text + rest) == goal && k <= |text|
    ensures out <= out + text[..k] <= goal
    ensures k == |text| ==> out + text[..k] + rest == goal
  {
    assert goal == out + text[..k] + (text[k..] + rest);
  }
}
