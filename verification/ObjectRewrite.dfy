/**
 Rewriting an aggregate: the variadic commands that the child emits for lists, sets and hashes,
 at most 64 elements each, and the loop with two counters that prints them.
*/
module ObjectRewrite {
  import opened AofProtocol
  import opened AofWriter
  import opened Dataset
  import opened LogReplay
  import opened LogScan
  import opened Sequences

  const ITEMS_PER_CMD: nat := 64

  // ---- the commands for one aggregate ----

  function ChunkSize(n: nat): nat {
    if n > ITEMS_PER_CMD then ITEMS_PER_CMD else n
  }

  /** The elements are groups of arguments: an element of a hash is a field and a value. */
  function AddCommand(a: Adder, key: Bytes, groups: seq<seq<Bytes>>): Command {
    [Name(a), key] + Flatten(groups)
  }

  /** Variadic commands of at most 64 elements each. */
  function Commands(a: Adder, key: Bytes, groups: seq<seq<Bytes>>): seq<Command>
    decreases |groups|
  {
    if groups == [] then []
    else
      var m := ChunkSize(|groups|);
      [AddCommand(a, key, groups[..m])] + Commands(a, key, groups[m..])
  }

  function Width(a: Adder): nat {
    if a.Hmset? then 2 else 1
  }

  ghost predicate Grouped(a: Adder, groups: seq<seq<Bytes>>) {
    forall i :: 0 <= i < |groups| ==> |groups[i]| == Width(a)
  }

  lemma {:induction false} FlattenLength(a: Adder, groups: seq<seq<Bytes>>)
    requires Grouped(a, groups)
    ensures |Flatten(groups)| == Width(a) * |groups|
  {
    if groups != [] {
      FlattenLength(a, groups[1..]);
    }
  }

  // ---- the loop that prints them ----

  lemma {:induction false} EncodeArgsSplit(x: seq<Bytes>, y: seq<Bytes>)
    ensures EncodeArgs(x + y) == EncodeArgs(x) + EncodeArgs(y)
    decreases |x|
  {
    if x == [] {
      assert x + y == y;
    } else {
      assert (x + y)[1..] == x[1..] + y;
      EncodeArgsSplit(x[1..], y);
    }
  }

  lemma Reassociate(out: Bytes, opening: Bytes, rest: Bytes)
    ensures out + (opening + rest) == out + opening + rest
  {
  }

  /** What is left to print of a command with `m` more elements, and of the ones after it. */
  function OpenRest(a: Adder, key: Bytes, groups: seq<seq<Bytes>>, m: nat): Bytes
    requires m <= |groups|
  {
    EncodeArgs(Flatten(groups[..m])) + EncodeAll(Commands(a, key, groups[m..]))
  }

  /** How many elements still belong to a command that has `count`. */
  function Left(n: nat, count: nat): nat
    requires count < ITEMS_PER_CMD
  {
    if n > ITEMS_PER_CMD - count then ITEMS_PER_CMD - count else n
  }

  /** What is left to print with `groups` to come when `count` elements of the current command
      are out. */
  function Rest(a: Adder, key: Bytes, groups: seq<seq<Bytes>>, count: nat): Bytes
    requires count < ITEMS_PER_CMD
  {
    if count == 0 then EncodeAll(Commands(a, key, groups)) else OpenRest(a, key, groups, Left(|groups|, count))
  }

  lemma EncodeFirst(cmd: Command, rest: seq<Command>)
    ensures EncodeAll([cmd] + rest) == Encode(cmd) + EncodeAll(rest)
  {
    assert ([cmd] + rest)[1..] == rest;
  }

  lemma OpeningText(name: Bytes, key: Bytes, args: seq<Bytes>)
    ensures Encode([name, key] + args) ==
              Header(STAR, 2 + |args|) + EncodeArg(name) + EncodeArg(key) + EncodeArgs(args)
  {
    EncodeTwoArgs(name, key);
    EncodeArgsSplit([name, key], args);
    Reassociate(Header(STAR, 2 + |args|), EncodeArg(name), EncodeArg(key));
    Reassociate(Header(STAR, 2 + |args|), EncodeArg(name) + EncodeArg(key), EncodeArgs(args));
  }

  /** The header of a command promises exactly the elements that follow it. */
  lemma OpenCommand(a: Adder, key: Bytes, groups: seq<seq<Bytes>>)
    requires groups != [] && Grouped(a, groups)
    ensures var m := ChunkSize(|groups|);
            Rest(a, key, groups, 0) ==
              Header(STAR, 2 + m * Width(a)) + EncodeArg(Name(a)) + EncodeArg(key) + OpenRest(a, key, groups, m)
  {
    var m := ChunkSize(|groups|);
    var args, rest := Flatten(groups[..m]), Commands(a, key, groups[m..]);
    FlattenLength(a, groups[..m]);
    EncodeFirst(AddCommand(a, key, groups[..m]), rest);
    OpeningText(Name(a), key, args);
    Reassociate(Header(STAR, 2 + |args|) + EncodeArg(Name(a)) + EncodeArg(key), EncodeArgs(args), EncodeAll(rest));
  }

  lemma OpenStep(a: Adder, key: Bytes, groups: seq<seq<Bytes>>, m: nat)
    requires 0 < m <= |groups|
    ensures OpenRest(a, key, groups, m) == EncodeArgs(groups[0]) + OpenRest(a, key, groups[1..], m - 1)
  {
    assert groups[..m][1..] == groups[1..][..m - 1];
    EncodeArgsSplit(groups[0], Flatten(groups[1..][..m - 1]));
    assert groups[1..][m - 1..] == groups[m..];
    Reassociate(EncodeArgs(groups[0]), EncodeArgs(Flatten(groups[1..][..m - 1])),
                EncodeAll(Commands(a, key, groups[m..])));
  }

  lemma OpenNone(a: Adder, key: Bytes, groups: seq<seq<Bytes>>)
    ensures OpenRest(a, key, groups, 0) == Rest(a, key, groups, 0)
  {
    assert groups[..0] == [] && groups[0..] == groups;
  }

  /** Printing one element moves the count on, and the 64th closes the command. */
  lemma RestStep(a: Adder, key: Bytes, groups: seq<seq<Bytes>>, count: nat)
    requires groups != [] && count < ITEMS_PER_CMD
    ensures OpenRest(a, key, groups, Left(|groups|, count)) ==
              EncodeArgs(groups[0]) + Rest(a, key, groups[1..], if count + 1 == ITEMS_PER_CMD then 0 else count + 1)
  {
    var m, rest := Left(|groups|, count), groups[1..];
    OpenStep(a, key, groups, m);
    if count + 1 == ITEMS_PER_CMD {
      assert m - 1 == 0;
      OpenNone(a, key, rest);
    } else {
      assert m - 1 == Left(|rest|, count + 1);
      assert Rest(a, key, rest, count + 1) == OpenRest(a, key, rest, m - 1);
    }
  }

  method WriteBulkCount(out: Bytes, prefix: byte, n: nat) returns (r: Bytes)
    ensures r == out + Header(prefix, n)
  {
    r := out + ([prefix] + Dec(n) + CRLF);
  }

  method WriteBulkString(out: Bytes, s: Bytes) returns (r: Bytes)
    ensures r == out + EncodeArg(s)
  {
    r := WriteBulkCount(out, DOLLAR, |s|);
    if |s| > 0 {
      r := r + s;
    }
    r := r + CRLF;
    assert r == out + (Header(DOLLAR, |s|) + (s + CRLF));
  }

  method WriteArgs(out: Bytes, args: seq<Bytes>) returns (r: Bytes)
    ensures r == out + EncodeArgs(args)
  {
    r := out;
    for j := 0 to |args|
      invariant r == out + EncodeArgs(args[..j])
    {
      EncodeArgsAppend(args[..j], args[j]);
      assert args[..j + 1] == args[..j] + [args[j]];
      r := WriteBulkString(r, args[j]);
    }
    assert args[..|args|] == args;
  }

  method WriteOpening(out: Bytes, a: Adder, key: Bytes, items: nat) returns (r: Bytes)
    ensures r == out + (Header(STAR, 2 + ChunkSize(items) * Width(a)) + EncodeArg(Name(a)) + EncodeArg(key))
  {
    var cmdItems := if items > ITEMS_PER_CMD then ITEMS_PER_CMD else items;
    r := WriteBulkCount(out, STAR, 2 + cmdItems * Width(a));
    r := WriteBulkString(r, Name(a));
    r := WriteBulkString(r, key);
  }

  /** Open a command when none is open. */
  method OpenIfNone(out: Bytes, a: Adder, key: Bytes, groups: seq<seq<Bytes>>, count: nat) returns (r: Bytes)
    requires groups != [] && Grouped(a, groups) && count < ITEMS_PER_CMD
    ensures r + OpenRest(a, key, groups, Left(|groups|, count)) == out + Rest(a, key, groups, count)
  {
    r := out;
    if count == 0 {
      OpenCommand(a, key, groups);
      r := WriteOpening(r, a, key, |groups|);
      Reassociate(out, Header(STAR, 2 + ChunkSize(|groups|) * Width(a)) + EncodeArg(Name(a)) + EncodeArg(key),
                  OpenRest(a, key, groups, Left(|groups|, count)));
    }
  }

  /** One turn of the loop: open a command when none is open, then print the element. */
  method WriteElement(out: Bytes, a: Adder, key: Bytes, groups: seq<seq<Bytes>>, count: nat)
    returns (r: Bytes, next: nat)
    requires groups != [] && Grouped(a, groups) && count < ITEMS_PER_CMD
    ensures next < ITEMS_PER_CMD && r + Rest(a, key, groups[1..], next) == out + Rest(a, key, groups, count)
  {
    r := OpenIfNone(out, a, key, groups, count);
    RestStep(a, key, groups, count);
    ghost var before := r;
    r := WriteArgs(r, groups[0]);
    next := count + 1;
    if next == ITEMS_PER_CMD {
      next := 0;
    }
    Reassociate(before, EncodeArgs(groups[0]), Rest(a, key, groups[1..], next));
  }

  /** The loop shared by rewriteListObject, rewriteSetObject and rewriteHashObject. */
  method WriteAggregate(out: Bytes, a: Adder, key: Bytes, groups: seq<seq<Bytes>>) returns (r: Bytes)
    requires Grouped(a, groups)
    ensures r == out + EncodeAll(Commands(a, key, groups))
  {
    r := out;
    var count: nat := 0;
    ghost var goal := out + EncodeAll(Commands(a, key, groups));
    assert groups[0..] == groups;
    for i := 0 to |groups|
      invariant count < ITEMS_PER_CMD && r + Rest(a, key, groups[i..], count) == goal
    {
      assert groups[i..][1..] == groups[i + 1..];
      r, count := WriteElement(r, a, key, groups[i..], count);
    }
    assert groups[|groups|..] == [];
    assert Rest(a, key, [], count) == [];
  }
}
