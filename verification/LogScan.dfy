/**
 A log is the concatenation of its printed items. Reading it item by item, for any item type,
 printer, parser and effect. The append only file is the instance where items are commands.
*/
module LogScan {
  import opened Sequences

  type Bytes = seq<int>

  /** `Eof` is a clean end, `Short` an end inside an item (the readerr label with feof set),
      `Bad` a format error (fmterr), `Fatal` an unrecoverable read (readerr without feof). */
  datatype Parse<+T> = Ok(value: T, used: nat) | Eof | Short | Bad | Fatal

  ghost predicate Advances<T(!new)>(parse: Bytes -> Parse<T>) {
    forall s :: parse(s).Ok? ==> 0 < parse(s).used <= |s|
  }

  type Parser<!T(!new)> = parse: Bytes -> Parse<T> | Advances(parse) ghost witness _ => Eof

  /** Items are read and run from offset `pos` until one cannot be; the result is the state
      then and what the parser said. */
  function Scan<T(!new), R>(s: Bytes, pos: nat, r: R, known: T -> bool, parse: Parser<T>,
                            step: (R, T, nat) -> R): (R, Parse<T>)
    decreases |s|
  {
    var p := parse(s);
    if p.Ok? && known(p.value)
    then Scan(s[p.used..], pos + p.used, step(r, p.value, pos + p.used), known, parse, step)
    else (r, p)
  }

  /** How many whole items the first `n` bytes of a log hold. */
  function Whole<T>(items: seq<T>, n: nat, enc: T -> Bytes): (k: nat)
    ensures k <= |items|
    decreases |items|
  {
    if items == [] || n < |enc(items[0])| then 0
    else 1 + Whole(items[1..], n - |enc(items[0])|, enc)
  }

  /** Running items that start at offset `pos`. */
  function RunAll<T, R>(r: R, items: seq<T>, pos: nat, enc: T -> Bytes, step: (R, T, nat) -> R): R
    decreases |items|
  {
    if items == [] then r
    else
      var next := pos + |enc(items[0])|;
      RunAll(step(r, items[0], next), items[1..], next, enc, step)
  }

  lemma {:induction false} RunAllSplit<T, R>(r: R, items: seq<T>, more: seq<T>, pos: nat, enc: T -> Bytes,
                                             step: (R, T, nat) -> R)
    ensures RunAll(r, items + more, pos, enc, step) ==
              RunAll(RunAll(r, items, pos, enc, step), more, pos + |Joined(items, enc)|, enc, step)
    decreases |items|
  {
    if items == [] {
      assert items + more == more;
    } else {
      var next := pos + |enc(items[0])|;
      assert (items + more)[1..] == items[1..] + more;
      RunAllSplit(step(r, items[0], next), items[1..], more, next, enc, step);
    }
  }

  /** It is the longest prefix of whole items that fits. */
  lemma {:induction false} WholeIsLongest<T>(items: seq<T>, n: nat, enc: T -> Bytes)
    ensures var k := Whole(items, n, enc);
            && |Joined(items[..k], enc)| <= n
            && (k < |items| ==> n < |Joined(items[..k + 1], enc)|)
    decreases |items|
  {
    var k := Whole(items, n, enc);
    if k > 0 {
      WholeIsLongest(items[1..], n - |enc(items[0])|, enc);
      assert items[..k][1..] == items[1..][..k - 1];
      assert k < |items| ==> items[..k + 1][1..] == items[1..][..k];
    } else if items != [] {
      assert items[..1][1..] == [];
    }
  }

  lemma KeptIsPrefix<T>(items: seq<T>, n: nat, enc: T -> Bytes)
    requires n <= |Joined(items, enc)|
    ensures var kept := Joined(items[..Whole(items, n, enc)], enc);
            |kept| <= n && Joined(items, enc)[..n][..|kept|] == kept
  {
    var k := Whole(items, n, enc);
    WholeIsLongest(items, n, enc);
    JoinedTogether(items[..k], items[k..], enc);
    assert items[..k] + items[k..] == items;
  }

  lemma {:induction false} WholeOfAll<T>(items: seq<T>, enc: T -> Bytes)
    ensures Whole(items, |Joined(items, enc)|, enc) == |items|
    decreases |items|
  {
    if items != [] {
      WholeOfAll(items[1..], enc);
    }
  }

  /** Bytes beyond some items are looked for in the items after them. */
  lemma {:induction false} WholeBeyond<T>(items: seq<T>, more: seq<T>, m: nat, enc: T -> Bytes)
    ensures Whole(items + more, |Joined(items, enc)| + m, enc) == |items| + Whole(more, m, enc)
    decreases |items|
  {
    if items == [] {
      assert items + more == more;
    } else {
      assert (items + more)[1..] == items[1..] + more;
      WholeBeyond(items[1..], more, m, enc);
    }
  }

  /** A cut inside an item. */
  lemma CutInItem<T>(done: seq<T>, item: T, rest: seq<T>, m: nat, enc: T -> Bytes)
    requires 0 < m < |enc(item)|
    ensures var items, n := done + ([item] + rest), |Joined(done, enc)| + m;
            Whole(items, n, enc) == |done| && items[..|done|] == done && n <= |Joined(items, enc)|
  {
    var more := [item] + rest;
    WholeBeyond(done, more, m, enc);
    JoinedTogether(done, more, enc);
    assert more[0] == item && Joined(more, enc) == enc(item) + Joined(more[1..], enc);
  }

  /** `parse` reads each printed item as such, whatever follows it, and reports one that is
      cut anywhere as a short read. */
  ghost predicate Reads<T(!new)>(items: seq<T>, enc: T -> Bytes, parse: Parser<T>) {
    && parse([]) == Eof
    && (forall i, rest: Bytes :: 0 <= i < |items| ==>
          parse(enc(items[i]) + rest) == Ok(items[i], |enc(items[i])|))
    && (forall i, m: nat :: 0 <= i < |items| && 0 < m < |enc(items[i])| ==> parse(enc(items[i])[..m]) == Short)
  }

  lemma ReadsRest<T(!new)>(items: seq<T>, enc: T -> Bytes, parse: Parser<T>)
    requires items != [] && Reads(items, enc, parse)
    ensures Reads(items[1..], enc, parse)
  {
    forall i, rest: Bytes | 0 <= i < |items[1..]|
      ensures parse(enc(items[1..][i]) + rest) == Ok(items[1..][i], |enc(items[1..][i])|)
    {
      assert items[1..][i] == items[i + 1];
    }
    forall i, m: nat | 0 <= i < |items[1..]| && 0 < m < |enc(items[1..][i])|
      ensures parse(enc(items[1..][i])[..m]) == Short
    {
      assert items[1..][i] == items[i + 1];
    }
  }

  lemma ScanOne<T(!new), R>(e: Bytes, tail: Bytes, item: T, pos: nat, r: R, known: T -> bool, parse: Parser<T>,
                            step: (R, T, nat) -> R)
    requires parse(e + tail) == Ok(item, |e|) && known(item)
    ensures Scan(e + tail, pos, r, known, parse, step) ==
              Scan(tail, pos + |e|, step(r, item, pos + |e|), known, parse, step)
  {
    assert (e + tail)[|e|..] == tail;
  }

  /** Reading the first `n` bytes of a log, item by item. */
  function ReadPrefix<T, R>(items: seq<T>, n: nat, pos: nat, r: R, enc: T -> Bytes,
                            step: (R, T, nat) -> R): (R, Parse<T>)
    decreases |items|
  {
    if n == 0 then (r, Eof)
    else if items == [] || n < |enc(items[0])| then (r, Short)
    else
      var next := pos + |enc(items[0])|;
      ReadPrefix(items[1..], n - |enc(items[0])|, next, step(r, items[0], next), enc, step)
  }

  lemma {:induction false} ScanIsReadPrefix<T(!new), R>(items: seq<T>, n: nat, pos: nat, r: R, known: T -> bool,
                                                        enc: T -> Bytes, parse: Parser<T>, step: (R, T, nat) -> R)
    requires n <= |Joined(items, enc)| && Reads(items, enc, parse)
    requires forall i :: 0 <= i < |items| ==> known(items[i])
    ensures Scan(Joined(items, enc)[..n], pos, r, known, parse, step) == ReadPrefix(items, n, pos, r, enc, step)
    decreases |items|
  {
    var s := Joined(items, enc)[..n];
    if n == 0 {
      assert s == [];
    } else {
      var e := enc(items[0]);
      if n < |e| {
        assert s == e[..n];
      } else {
        var tail := Joined(items[1..], enc)[..n - |e|];
        assert s == e + tail;
        ReadsRest(items, enc, parse);
        ScanOne(e, tail, items[0], pos, r, known, parse, step);
        ScanIsReadPrefix(items[1..], n - |e|, pos + |e|, step(r, items[0], pos + |e|), known, enc, parse, step);
      }
    }
  }

  lemma {:induction false} ReadPrefixRunsWhole<T, R>(items: seq<T>, n: nat, pos: nat, r: R, enc: T -> Bytes,
                                                     step: (R, T, nat) -> R)
    requires n <= |Joined(items, enc)| && forall i :: 0 <= i < |items| ==> enc(items[i]) != []
    ensures var k := Whole(items, n, enc);
            ReadPrefix(items, n, pos, r, enc, step) ==
              (RunAll(r, items[..k], pos, enc, step), if n == |Joined(items[..k], enc)| then Eof else Short)
    decreases |items|
  {
    var k := Whole(items, n, enc);
    if k == 0 {
      assert items[..0] == [];
    } else {
      var e := |enc(items[0])|;
      ReadPrefixRunsWhole(items[1..], n - e, pos + e, step(r, items[0], pos + e), enc, step);
      assert items[..k][1..] == items[1..][..k - 1] && items[..k][0] == items[0];
    }
  }

  /** Reading a prefix of a log runs the longest prefix of whole items and stops, cleanly if
      nothing is left and with a short read otherwise. */
  lemma ScanPrefix<T(!new), R>(items: seq<T>, n: nat, pos: nat, r: R, known: T -> bool, enc: T -> Bytes,
                               parse: Parser<T>, step: (R, T, nat) -> R)
    requires n <= |Joined(items, enc)| && Reads(items, enc, parse)
    requires forall i :: 0 <= i < |items| ==> known(items[i]) && enc(items[i]) != []
    ensures var k := Whole(items, n, enc);
            Scan(Joined(items, enc)[..n], pos, r, known, parse, step) ==
              (RunAll(r, items[..k], pos, enc, step), if n == |Joined(items[..k], enc)| then Eof else Short)
  {
    ScanIsReadPrefix(items, n, pos, r, known, enc, parse, step);
    ReadPrefixRunsWhole(items, n, pos, r, enc, step);
  }
}
