/**
 Rewriting all databases, and the proof that replaying the rewrite rebuilds the dataset: the
 concrete server for which the theorems of AofRewrite hold.
*/
module DatasetRewrite {
  import opened AofLoad
  import opened AofProtocol
  import opened AofRewrite
  import opened AofWriter
  import opened Dataset
  import opened LogReplay
  import opened LogScan
  import opened ObjectRewrite
  import opened Options
  import opened Sequences

  // ---- what the child iterates over ----

  /** An object as its iterator presents it: sets and hashes in some order. */
  datatype Body =
    | StrBody(text: Bytes)
    | ListBody(items: seq<Bytes>)
    | SetBody(order: seq<Bytes>)
    | HashBody(pairs: seq<(Bytes, Bytes)>)

  datatype Item = Item(key: Bytes, body: Body, expire: Option<nat>)

  function Singles(items: seq<Bytes>): seq<seq<Bytes>> {
    seq(|items|, i requires 0 <= i < |items| => [items[i]])
  }

  function Doubles(pairs: seq<(Bytes, Bytes)>): seq<seq<Bytes>> {
    seq(|pairs|, i requires 0 <= i < |pairs| => [pairs[i].0, pairs[i].1])
  }

  ghost predicate SmallText(s: Bytes) {
    |s| < 0x8000_0000_0000_0000
  }

  ghost predicate DistinctFields(pairs: seq<(Bytes, Bytes)>) {
    forall i, j :: 0 <= i < j < |pairs| ==> pairs[i].0 != pairs[j].0
  }

  ghost function AsMap(pairs: seq<(Bytes, Bytes)>): map<Bytes, Bytes>
    requires DistinctFields(pairs)
  {
    map i | 0 <= i < |pairs| :: pairs[i].0 := pairs[i].1
  }

  ghost predicate BodyOk(body: Body) {
    match body
    case StrBody(text) => SmallText(text)
    case ListBody(items) => items != [] && forall i :: 0 <= i < |items| ==> SmallText(items[i])
    case SetBody(order) => order != [] && Distinct(order) && forall i :: 0 <= i < |order| ==> SmallText(order[i])
    case HashBody(pairs) =>
      && pairs != [] && DistinctFields(pairs)
      && forall i :: 0 <= i < |pairs| ==> SmallText(pairs[i].0) && SmallText(pairs[i].1)
  }

  ghost function ValueOf(body: Body): Value
    requires BodyOk(body)
  {
    match body
    case StrBody(text) => Str(text)
    case ListBody(items) => List(items)
    case SetBody(order) => Set(set x | x in order)
    case HashBody(pairs) => Hash(AsMap(pairs))
  }

  /** An object as the server may hold it: aggregates are never empty. */
  ghost predicate ItemOk(item: Item) {
    && SmallText(item.key) && BodyOk(item.body)
    && (item.expire.Some? ==> item.expire.value < 0x8000_0000_0000_0000)
  }

  ghost function ObjectOf(item: Item): Object
    requires ItemOk(item)
  {
    Object(ValueOf(item.body), item.expire)
  }

  function BodyCommands(key: Bytes, body: Body): seq<Command> {
    match body
    case StrBody(text) => [[SET, key, text]]
    case ListBody(items) => Commands(Rpush, key, Singles(items))
    case SetBody(order) => Commands(Sadd, key, Singles(order))
    case HashBody(pairs) => Commands(Hmset, key, Doubles(pairs))
  }

  function ExpireCommands(key: Bytes, expire: Option<nat>): seq<Command> {
    if expire.Some? then [[PEXPIREAT, key, Dec(expire.value)]] else []
  }

  function ItemCommands(item: Item): seq<Command> {
    BodyCommands(item.key, item.body) + ExpireCommands(item.key, item.expire)
  }

  function DbCommands(items: seq<Item>): seq<Command> {
    if items == [] then [] else ItemCommands(items[0]) + DbCommands(items[1..])
  }

  function SelectedDb(db: nat, items: seq<Item>): seq<Command> {
    if items == [] then [] else [Select(db)] + DbCommands(items)
  }

  /** Databases `db`, `db` + 1, ... in turn; an empty one is skipped. */
  function DumpCommands(db: nat, dump: seq<seq<Item>>): seq<Command>
    decreases |dump|
  {
    if dump == [] then [] else SelectedDb(db, dump[0]) + DumpCommands(db + 1, dump[1..])
  }

  // ---- replaying commands in one database ----

  function Run<S>(w: World<S>, db: nat, d: S, cmds: seq<Command>): S {
    Fold(w, d, Executed(db, cmds))
  }

  ghost predicate NoSelects(cmds: seq<Command>) {
    forall i :: 0 <= i < |cmds| ==> !IsSelect(cmds[i])
  }

  lemma {:induction false} StaysInDb(db: nat, cmds: seq<Command>)
    requires NoSelects(cmds)
    ensures DbAfter(db, cmds) == db
    decreases |cmds|
  {
    if cmds != [] {
      assert !IsSelect(cmds[0]);
      assert forall i :: 0 <= i < |cmds| - 1 ==> cmds[1..][i] == cmds[i + 1];
      StaysInDb(db, cmds[1..]);
    }
  }

  lemma RunSplit<S>(w: World<S>, db: nat, d: S, a: seq<Command>, b: seq<Command>)
    requires NoSelects(a)
    ensures Run(w, db, d, a + b) == Run(w, db, Run(w, db, d, a), b)
  {
    ExecutedSplit(db, a, b);
    StaysInDb(db, a);
    FoldSplit(w, d, Executed(db, a), Executed(db, b));
  }

  lemma RunOne<S>(w: World<S>, db: nat, d: S, cmd: Command)
    requires !IsSelect(cmd)
    ensures Run(w, db, d, [cmd]) == w.apply(d, Issued(db, cmd))
  {
    assert [cmd][1..] == [];
    assert Executed(db, [cmd]) == [Issued(db, cmd)];
    assert Fold(w, d, [Issued(db, cmd)]) == Fold(w, w.apply(d, Issued(db, cmd)), []);
  }

  // ---- one object ----

  /** The commands of the rewrite act as the dataset says they do. */
  ghost predicate Acts(w: World<Data>, other: (Data, Issued) -> Data) {
    forall d, i :: w.apply(d, i) == ApplyCommand(d, i, other)
  }

  lemma AddCommandAdds(w: World<Data>, other: (Data, Issued) -> Data, db: nat, d: Data, a: Adder, key: Bytes,
                       args: seq<Bytes>)
    requires Acts(w, other) && args != []
    ensures var cmd := [Name(a), key] + args;
            !IsSelect(cmd) && Run(w, db, d, [cmd]) == AddAt(d, Location(db, key), a, args)
  {
    var cmd := [Name(a), key] + args;
    assert cmd[2..] == args && |cmd| > 2;
    assert AdderOf(Name(a)) == Some(a);
    RunOne(w, db, d, cmd);
  }

  lemma {:induction false} AddCommandsPlain(a: Adder, key: Bytes, groups: seq<seq<Bytes>>)
    requires Grouped(a, groups)
    ensures NoSelects(Commands(a, key, groups))
    decreases |groups|
  {
    if groups != [] {
      var m := ChunkSize(|groups|);
      FlattenLength(a, groups[..m]);
      AddCommandsPlain(a, key, groups[m..]);
      assert |AddCommand(a, key, groups[..m])| > 2;
    }
  }

  lemma FlattenSome(a: Adder, groups: seq<seq<Bytes>>)
    requires Grouped(a, groups)
    ensures groups != [] ==> Flatten(groups) != []
    ensures a.Hmset? ==> |Flatten(groups)| % 2 == 0
  {
    FlattenLength(a, groups);
  }

  lemma FlattenAround(a: Adder, groups: seq<seq<Bytes>>, m: nat)
    requires Grouped(a, groups) && 0 < m <= |groups|
    ensures Flatten(groups) == Flatten(groups[..m]) + Flatten(groups[m..]) && Flatten(groups[..m]) != []
    ensures Grouped(a, groups[m..])
    ensures a.Hmset? ==> |Flatten(groups[..m])| % 2 == 0 && |Flatten(groups[m..])| % 2 == 0
  {
    var x, y := groups[..m], groups[m..];
    assert x + y == groups && x != [];
    GroupedParts(a, groups, m);
    FlattenSome(a, x);
    FlattenSome(a, y);
    FlattenTogether(x, y);
  }

  lemma GroupedParts(a: Adder, groups: seq<seq<Bytes>>, m: nat)
    requires Grouped(a, groups) && 0 < m <= |groups|
    ensures Grouped(a, groups[..m]) && Grouped(a, groups[m..])
  {
  }

  /** The first chunk, and then the others. */
  lemma FirstChunk(w: World<Data>, other: (Data, Issued) -> Data, db: nat, d: Data, a: Adder, key: Bytes,
                   group: seq<seq<Bytes>>, more: seq<Command>)
    requires Acts(w, other) && Flatten(group) != []
    ensures Run(w, db, d, [AddCommand(a, key, group)] + more) ==
              Run(w, db, AddAt(d, Location(db, key), a, Flatten(group)), more)
  {
    var first := [AddCommand(a, key, group)];
    AddCommandAdds(w, other, db, d, a, key, Flatten(group));
    assert NoSelects(first);
    RunSplit(w, db, d, first, more);
  }

  lemma NothingAdded(w: World<Data>, db: nat, d: Data, a: Adder, p: Location)
    ensures Run(w, db, d, []) == d == AddAt(d, p, a, [])
  {
    assert p in d ==> d[p := d[p]] == d;
  }

  /** The commands of an aggregate, however they are cut into chunks, add all its elements. */
  lemma {:induction false} ChunksAddAll(w: World<Data>, other: (Data, Issued) -> Data, db: nat, d: Data, a: Adder,
                                        key: Bytes, groups: seq<seq<Bytes>>)
    requires Acts(w, other) && Grouped(a, groups)
    ensures Run(w, db, d, Commands(a, key, groups)) == AddAt(d, Location(db, key), a, Flatten(groups))
    decreases |groups|
  {
    var p := Location(db, key);
    if groups == [] {
      NothingAdded(w, db, d, a, p);
    } else {
      var m := ChunkSize(|groups|);
      var args, rest := Flatten(groups[..m]), Flatten(groups[m..]);
      FlattenAround(a, groups, m);
      FirstChunk(w, other, db, d, a, key, groups[..m], Commands(a, key, groups[m..]));
      ChunksAddAll(w, other, db, AddAt(d, p, a, args), a, key, groups[m..]);
      AddAtSplit(d, p, a, args, rest);
    }
  }

  lemma {:induction false} FlattenSingles(items: seq<Bytes>)
    ensures Flatten(Singles(items)) == items
    decreases |items|
  {
    if items != [] {
      assert Singles(items)[1..] == Singles(items[1..]);
      FlattenSingles(items[1..]);
      assert items == [items[0]] + items[1..];
    }
  }

  lemma {:induction false} FlattenDoubles(m: map<Bytes, Bytes>, pairs: seq<(Bytes, Bytes)>)
    requires DistinctFields(pairs)
    ensures Updated(m, Flatten(Doubles(pairs))) == m + AsMap(pairs)
    decreases |pairs|
  {
    if pairs == [] {
      assert m + AsMap(pairs) == m;
    } else {
      var p, rest := pairs[0], pairs[1..];
      assert Doubles(pairs)[1..] == Doubles(rest);
      assert Flatten(Doubles(pairs))[2..] == Flatten(Doubles(rest));
      FlattenDoubles(m[p.0 := p.1], rest);
      assert m[p.0 := p.1] + AsMap(rest) == m + AsMap(pairs);
    }
  }

  /** Adding to a key that is not there makes a new object without an expire. */
  lemma AggregateRebuilds(w: World<Data>, other: (Data, Issued) -> Data, db: nat, d: Data, a: Adder, key: Bytes,
                          groups: seq<seq<Bytes>>)
    requires Acts(w, other) && Grouped(a, groups) && groups != [] && Location(db, key) !in d
    ensures NoSelects(Commands(a, key, groups))
    ensures var v := Add(a, None, Flatten(groups));
            v.Some? && Run(w, db, d, Commands(a, key, groups)) == d[Location(db, key) := Object(v.value, None)]
  {
    FlattenLength(a, groups);
    AddCommandsPlain(a, key, groups);
    ChunksAddAll(w, other, db, d, a, key, groups);
  }

  lemma StringRebuilds(w: World<Data>, other: (Data, Issued) -> Data, db: nat, d: Data, key: Bytes, text: Bytes)
    requires Acts(w, other)
    ensures NoSelects([[SET, key, text]])
    ensures Run(w, db, d, [[SET, key, text]]) == d[Location(db, key) := Object(Str(text), None)]
  {
    RunOne(w, db, d, [SET, key, text]);
  }

  lemma HashRebuilds(w: World<Data>, other: (Data, Issued) -> Data, db: nat, d: Data, key: Bytes,
                     pairs: seq<(Bytes, Bytes)>)
    requires Acts(w, other) && DistinctFields(pairs) && pairs != [] && Location(db, key) !in d
    ensures NoSelects(Commands(Hmset, key, Doubles(pairs)))
    ensures Run(w, db, d, Commands(Hmset, key, Doubles(pairs))) ==
              d[Location(db, key) := Object(Hash(AsMap(pairs)), None)]
  {
    FlattenDoubles(map[], pairs);
    assert map[] + AsMap(pairs) == AsMap(pairs);
    FlattenLength(Hmset, Doubles(pairs));
    AggregateRebuilds(w, other, db, d, Hmset, key, Doubles(pairs));
  }

  lemma BodyRebuilds(w: World<Data>, other: (Data, Issued) -> Data, db: nat, d: Data, item: Item)
    requires Acts(w, other) && ItemOk(item) && Location(db, item.key) !in d
    ensures NoSelects(BodyCommands(item.key, item.body))
    ensures Run(w, db, d, BodyCommands(item.key, item.body)) ==
              d[Location(db, item.key) := Object(ValueOf(item.body), None)]
  {
    match item.body
    case StrBody(text) => StringRebuilds(w, other, db, d, item.key, text);
    case ListBody(items) =>
      FlattenSingles(items);
      AggregateRebuilds(w, other, db, d, Rpush, item.key, Singles(items));
    case SetBody(order) =>
      FlattenSingles(order);
      AggregateRebuilds(w, other, db, d, Sadd, item.key, Singles(order));
    case HashBody(pairs) => HashRebuilds(w, other, db, d, item.key, pairs);
  }

  /** Replaying the commands of one object adds that object and changes nothing else. */
  lemma ItemRebuilds(w: World<Data>, other: (Data, Issued) -> Data, db: nat, d: Data, item: Item)
    requires Acts(w, other) && ItemOk(item) && Location(db, item.key) !in d
    ensures NoSelects(ItemCommands(item))
    ensures Run(w, db, d, ItemCommands(item)) == d[Location(db, item.key) := ObjectOf(item)]
  {
    var p := Location(db, item.key);
    var body, more := BodyCommands(item.key, item.body), ExpireCommands(item.key, item.expire);
    BodyRebuilds(w, other, db, d, item);
    RunSplit(w, db, d, body, more);
    var mid := d[p := Object(ValueOf(item.body), None)];
    if item.expire.Some? {
      DigitsOfDec(item.expire.value);
      RunOne(w, db, mid, more[0]);
      assert more == [more[0]];
    } else {
      assert Run(w, db, mid, []) == mid;
    }
  }

  // ---- all databases ----

  /** `dump` is what iterating over every database of `d` gives. */
  ghost predicate DumpOf(d: Data, dump: seq<seq<Item>>) {
    && |dump| <= 0x8000_0000
    && (forall j, k :: 0 <= j < |dump| && 0 <= k < |dump[j]| ==>
          && ItemOk(dump[j][k]) && Location(j, dump[j][k].key) in d
          && d[Location(j, dump[j][k].key)] == ObjectOf(dump[j][k]))
    && (forall j, k, l :: 0 <= j < |dump| && 0 <= k < l < |dump[j]| ==> dump[j][k].key != dump[j][l].key)
    && (forall p :: p in d ==> p.db < |dump| && Before(dump[p.db], |dump[p.db]|, p.key))
  }

  /** One of the first `k` items has the key. */
  ghost predicate Before(items: seq<Item>, k: nat, key: Bytes)
    requires k <= |items|
  {
    exists i :: 0 <= i < k && items[i].key == key
  }

  /** The part of `d` in the databases below `j` and the first `k` items of database `j`. */
  ghost function Part(d: Data, dump: seq<seq<Item>>, j: nat, k: nat): Data
    requires j <= |dump| && (j < |dump| ==> k <= |dump[j]|)
  {
    map p | p in d && (p.db < j || (p.db == j < |dump| && Before(dump[j], k, p.key))) :: d[p]
  }

  lemma PartStep(d: Data, dump: seq<seq<Item>>, j: nat, k: nat)
    requires DumpOf(d, dump) && j < |dump| && k < |dump[j]|
    ensures var p := Location(j, dump[j][k].key);
            p in d && p !in Part(d, dump, j, k) && Part(d, dump, j, k + 1) == Part(d, dump, j, k)[p := d[p]]
  {
    var p := Location(j, dump[j][k].key);
    assert p in d;
    assert !Before(dump[j], k, p.key);
    assert Before(dump[j], k + 1, p.key);
    forall q | q in d && q.db == j && q != p
      ensures Before(dump[j], k + 1, q.key) <==> Before(dump[j], k, q.key)
    {
    }
  }

  lemma PartDone(d: Data, dump: seq<seq<Item>>, j: nat)
    requires DumpOf(d, dump) && j < |dump|
    ensures Part(d, dump, j, |dump[j]|) == Part(d, dump, j + 1, 0)
  {
  }

  lemma PartEnds(d: Data, dump: seq<seq<Item>>)
    requires DumpOf(d, dump)
    ensures Part(d, dump, |dump|, 0) == d && Part(d, dump, 0, 0) == map[]
  {
  }

  lemma DbCommandsSplit(items: seq<Item>, k: nat)
    requires k < |items|
    ensures DbCommands(items[k..]) == ItemCommands(items[k]) + DbCommands(items[k + 1..])
  {
    assert items[k..][1..] == items[k + 1..];
  }

  /** Replaying the items of a database from the `k`-th on adds the rest of that database. */
  lemma {:induction false} DbRebuilds(w: World<Data>, other: (Data, Issued) -> Data, d: Data, dump: seq<seq<Item>>,
                                      j: nat, k: nat)
    requires Acts(w, other) && DumpOf(d, dump) && j < |dump| && k <= |dump[j]|
    ensures NoSelects(DbCommands(dump[j][k..]))
    ensures Run(w, j, Part(d, dump, j, k), DbCommands(dump[j][k..])) == Part(d, dump, j + 1, 0)
    decreases |dump[j]| - k
  {
    if k == |dump[j]| {
      PartDone(d, dump, j);
      assert Run(w, j, Part(d, dump, j, k), []) == Part(d, dump, j, k);
    } else {
      var item := dump[j][k];
      PartStep(d, dump, j, k);
      DbCommandsSplit(dump[j], k);
      DbRebuilds(w, other, d, dump, j, k + 1);
      ItemRebuilds(w, other, j, Part(d, dump, j, k), item);
      RunSplit(w, j, Part(d, dump, j, k), ItemCommands(item), DbCommands(dump[j][k + 1..]));
    }
  }

  lemma RunSelect<S>(w: World<S>, at: nat, db: nat, d: S, cmds: seq<Command>)
    ensures Run(w, at, d, [Select(db)] + cmds) == Run(w, db, d, cmds)
  {
    DigitsOfDec(db);
    assert ([Select(db)] + cmds)[1..] == cmds;
  }

  lemma SelectedThen(j: nat, items: seq<Item>, rest: seq<Command>)
    ensures SelectedDb(j, items) + rest == if items == [] then rest else [Select(j)] + (DbCommands(items) + rest)
  {
    JoinThree([Select(j)], DbCommands(items), rest);
  }

  lemma JoinThree(a: seq<Command>, b: seq<Command>, c: seq<Command>)
    ensures (a + b) + c == a + (b + c) && [] + c == c
  {
  }

  lemma DumpCommandsAt(dump: seq<seq<Item>>, j: nat)
    requires j < |dump|
    ensures var rest := DumpCommands(j + 1, dump[j + 1..]);
            DumpCommands(j, dump[j..]) ==
              if dump[j] == [] then rest else [Select(j)] + (DbCommands(dump[j]) + rest)
  {
    assert dump[j..][0] == dump[j] && dump[j..][1..] == dump[j + 1..];
    SelectedThen(j, dump[j], DumpCommands(j + 1, dump[j + 1..]));
  }

  /** One database that is not empty, and then the others. */
  lemma OneDbRebuilds(w: World<Data>, other: (Data, Issued) -> Data, d: Data, dump: seq<seq<Item>>, j: nat, at: nat,
                      rest: seq<Command>)
    requires Acts(w, other) && DumpOf(d, dump) && j < |dump|
    ensures Run(w, at, Part(d, dump, j, 0), [Select(j)] + (DbCommands(dump[j]) + rest)) ==
              Run(w, j, Part(d, dump, j + 1, 0), rest)
  {
    assert dump[j][0..] == dump[j];
    DbRebuilds(w, other, d, dump, j, 0);
    RunSelect(w, at, j, Part(d, dump, j, 0), DbCommands(dump[j]) + rest);
    RunSplit(w, j, Part(d, dump, j, 0), DbCommands(dump[j]), rest);
  }

  lemma {:induction false} DumpRebuilds(w: World<Data>, other: (Data, Issued) -> Data, d: Data, dump: seq<seq<Item>>,
                                        j: nat, at: nat)
    requires Acts(w, other) && DumpOf(d, dump) && j <= |dump|
    ensures Run(w, at, Part(d, dump, j, 0), DumpCommands(j, dump[j..])) == d
    decreases |dump| - j
  {
    if j == |dump| {
      PartEnds(d, dump);
      assert Run(w, at, d, []) == d;
    } else {
      DumpCommandsAt(dump, j);
      if dump[j] == [] {
        PartDone(d, dump, j);
        DumpRebuilds(w, other, d, dump, j + 1, at);
      } else {
        OneDbRebuilds(w, other, d, dump, j, at, DumpCommands(j + 1, dump[j + 1..]));
        DumpRebuilds(w, other, d, dump, j + 1, j);
      }
    }
  }

  // ---- every emitted command is one that can be loaded ----

  const NAMES: set<Bytes> := {SELECT, SET, RPUSH, SADD, HMSET, PEXPIREAT}

  ghost predicate Emitted(cmd: Command) {
    && 2 <= |cmd| <= 2 + 2 * ITEMS_PER_CMD && cmd[0] in NAMES
    && forall i :: 1 <= i < |cmd| ==> SmallText(cmd[i])
  }

  ghost predicate AllEmitted(cmds: seq<Command>) {
    forall i :: 0 <= i < |cmds| ==> Emitted(cmds[i])
  }

  ghost predicate KnowsRewrites(known: Command -> bool) {
    forall cmd :: Emitted(cmd) ==> known(cmd)
  }

  lemma EmittedIsGood(cmd: Command)
    requires Emitted(cmd)
    ensures Sized(cmd) && KindOf(cmd).Plain?
  {
    assert |cmd[0]| <= 9;
    assert Lower(cmd[0])[0] !in {101, 109};
  }

  ghost predicate SmallGroups(groups: seq<seq<Bytes>>) {
    forall i, j :: 0 <= i < |groups| && 0 <= j < |groups[i]| ==> SmallText(groups[i][j])
  }

  lemma {:induction false} FlattenSmall(groups: seq<seq<Bytes>>)
    requires SmallGroups(groups)
    ensures forall i :: 0 <= i < |Flatten(groups)| ==> SmallText(Flatten(groups)[i])
  {
    if groups != [] {
      FlattenFirst(groups);
      assert forall j :: 0 <= j < |groups[0]| ==> SmallText(groups[0][j]);
      FlattenSmall(groups[1..]);
    }
  }

  lemma {:induction false} AddCommandsEmitted(a: Adder, key: Bytes, groups: seq<seq<Bytes>>)
    requires Grouped(a, groups) && SmallGroups(groups) && SmallText(key)
    ensures AllEmitted(Commands(a, key, groups))
    decreases |groups|
  {
    if groups != [] {
      var m := ChunkSize(|groups|);
      FlattenLength(a, groups[..m]);
      FlattenSmall(groups[..m]);
      assert Emitted(AddCommand(a, key, groups[..m]));
      AddCommandsEmitted(a, key, groups[m..]);
    }
  }

  lemma BodyEmitted(key: Bytes, body: Body)
    requires SmallText(key) && BodyOk(body)
    ensures AllEmitted(BodyCommands(key, body))
  {
    match body
    case StrBody(text) =>
    case ListBody(items) => AddCommandsEmitted(Rpush, key, Singles(items));
    case SetBody(order) => AddCommandsEmitted(Sadd, key, Singles(order));
    case HashBody(pairs) => AddCommandsEmitted(Hmset, key, Doubles(pairs));
  }

  lemma DecIsSmall(n: nat)
    requires n < 0x8000_0000_0000_0000
    ensures SmallText(Dec(n))
  {
    Pow10Values();
    DecLength(n, 19);
  }

  lemma JoinEmitted(a: seq<Command>, b: seq<Command>)
    requires AllEmitted(a) && AllEmitted(b)
    ensures AllEmitted(a + b)
  {
  }

  lemma ItemEmitted(item: Item)
    requires ItemOk(item)
    ensures AllEmitted(ItemCommands(item))
  {
    BodyEmitted(item.key, item.body);
    if item.expire.Some? {
      DecIsSmall(item.expire.value);
    }
    JoinEmitted(BodyCommands(item.key, item.body), ExpireCommands(item.key, item.expire));
  }

  ghost predicate ItemsOk(items: seq<Item>) {
    forall k :: 0 <= k < |items| ==> ItemOk(items[k])
  }

  lemma {:induction false} DbEmitted(items: seq<Item>)
    requires ItemsOk(items)
    ensures AllEmitted(DbCommands(items))
  {
    if items != [] {
      ItemEmitted(items[0]);
      DbEmitted(items[1..]);
      JoinEmitted(ItemCommands(items[0]), DbCommands(items[1..]));
    }
  }

  lemma SelectedEmitted(db: nat, items: seq<Item>)
    requires ItemsOk(items) && db < 0x8000_0000
    ensures AllEmitted(SelectedDb(db, items))
  {
    DbEmitted(items);
    DecIsSmall(db);
    assert Emitted(Select(db));
    JoinEmitted([Select(db)], DbCommands(items));
  }

  lemma {:induction false} DumpEmitted(db: nat, dump: seq<seq<Item>>)
    requires db + |dump| <= 0x8000_0000
    requires forall j :: 0 <= j < |dump| ==> ItemsOk(dump[j])
    ensures AllEmitted(DumpCommands(db, dump))
    decreases |dump|
  {
    if dump != [] {
      SelectedEmitted(db, dump[0]);
      DumpEmitted(db + 1, dump[1..]);
      JoinEmitted(SelectedDb(db, dump[0]), DumpCommands(db + 1, dump[1..]));
    }
  }

  // ---- the server ----

  ghost predicate Rewrites(d: Data, cmds: seq<Command>) {
    exists dump :: DumpOf(d, dump) && cmds == DumpCommands(0, dump)
  }

  ghost function Server(known: Command -> bool, other: (Data, Issued) -> Data): World<Data> {
    World(map[], (d, i) => ApplyCommand(d, i, other), known, (d, cmds) => Rewrites(d, cmds))
  }

  /** Replaying the rewrite of any dataset, in whatever order the iterators give it, into an
      empty server gives exactly that dataset. */
  lemma RewriteRebuilds(known: Command -> bool, other: (Data, Issued) -> Data, d: Data, dump: seq<seq<Item>>)
    requires DumpOf(d, dump)
    ensures Meaning(Server(known, other), DumpCommands(0, dump)) == d
  {
    var w := Server(known, other);
    PartEnds(d, dump);
    assert dump[0..] == dump;
    DumpRebuilds(w, other, d, dump, 0, 0);
  }

  /** The concrete server meets what the rewrite protocol asks of a dataset. */
  lemma ServerIsSound(known: Command -> bool, other: (Data, Issued) -> Data)
    requires KnowsRewrites(known)
    ensures Sound(Server(known, other))
  {
    var w := Server(known, other);
    forall d, cmds | w.rewrites(d, cmds)
      ensures Good(w, cmds) && Meaning(w, cmds) == d
    {
      var dump :| DumpOf(d, dump) && cmds == DumpCommands(0, dump);
      RewriteRebuilds(known, other, d, dump);
      DumpEmitted(0, dump);
      forall i | 0 <= i < |cmds|
        ensures Sized(cmds[i]) && KindOf(cmds[i]).Plain? && known(cmds[i])
      {
        EmittedIsGood(cmds[i]);
      }
    }
  }

  // ---- the code that prints it ----

  method RewriteListObject(out: Bytes, key: Bytes, items: seq<Bytes>) returns (r: Bytes)
    ensures r == out + EncodeAll(BodyCommands(key, ListBody(items)))
  {
    r := WriteAggregate(out, Rpush, key, Singles(items));
  }

  method RewriteSetObject(out: Bytes, key: Bytes, order: seq<Bytes>) returns (r: Bytes)
    ensures r == out + EncodeAll(BodyCommands(key, SetBody(order)))
  {
    r := WriteAggregate(out, Sadd, key, Singles(order));
  }

  method RewriteHashObject(out: Bytes, key: Bytes, pairs: seq<(Bytes, Bytes)>) returns (r: Bytes)
    ensures r == out + EncodeAll(BodyCommands(key, HashBody(pairs)))
  {
    r := WriteAggregate(out, Hmset, key, Doubles(pairs));
  }

  lemma ThreeArgs(name: Bytes, key: Bytes, arg: Bytes)
    ensures EncodeAll([[name, key, arg]]) == Header(STAR, 3) + EncodeArg(name) + EncodeArg(key) + EncodeArg(arg)
  {
    assert [name, key, arg] == [name, key] + [arg];
    OpeningText(name, key, [arg]);
    EncodeArgsAppend([], arg);
    assert [] + [arg] == [arg];
    EncodeFirst([name, key, arg], []);
    assert [[name, key, arg]] + [] == [[name, key, arg]];
  }

  /** A fixed header, a command name and two bulk arguments. */
  method WriteThree(out: Bytes, name: Bytes, key: Bytes, arg: Bytes) returns (r: Bytes)
    ensures r == out + EncodeAll([[name, key, arg]])
  {
    ThreeArgs(name, key, arg);
    r := WriteBulkCount(out, STAR, 3);
    r := WriteBulkString(r, name);
    r := WriteBulkString(r, key);
    r := WriteBulkString(r, arg);
    ghost var head := Header(STAR, 3) + EncodeArg(name) + EncodeArg(key);
    Reassociate(out, head, EncodeArg(arg));
    assert r == out + head + EncodeArg(arg);
  }

  method WriteItem(out: Bytes, item: Item) returns (r: Bytes)
    ensures r == out + EncodeAll(ItemCommands(item))
  {
    match item.body {
      case StrBody(text) => r := WriteThree(out, SET, item.key, text);
      case ListBody(items) => r := RewriteListObject(out, item.key, items);
      case SetBody(order) => r := RewriteSetObject(out, item.key, order);
      case HashBody(pairs) => r := RewriteHashObject(out, item.key, pairs);
    }
    ghost var body, more := BodyCommands(item.key, item.body), ExpireCommands(item.key, item.expire);
    JoinedTogether(body, more, Encode);
    if item.expire.Some? {
      r := WriteThree(r, PEXPIREAT, item.key, Dec(item.expire.value));
    } else {
      assert EncodeAll(more) == [];
    }
    Reassociate(out, EncodeAll(body), EncodeAll(more));
  }

  lemma {:induction false} DbCommandsAppend(items: seq<Item>, item: Item)
    ensures DbCommands(items + [item]) == DbCommands(items) + ItemCommands(item)
    decreases |items|
  {
    if items == [] {
      assert [item][1..] == [] && [] + [item] == [item];
    } else {
      assert (items + [item])[1..] == items[1..] + [item];
      DbCommandsAppend(items[1..], item);
    }
  }

  lemma NextItem(out: Bytes, items: seq<Item>, k: nat)
    requires k < |items|
    ensures out + EncodeAll(DbCommands(items[..k + 1])) ==
              out + EncodeAll(DbCommands(items[..k])) + EncodeAll(ItemCommands(items[k]))
  {
    DbCommandsAppend(items[..k], items[k]);
    assert items[..k + 1] == items[..k] + [items[k]];
    JoinedTogether(DbCommands(items[..k]), ItemCommands(items[k]), Encode);
    Reassociate(out, EncodeAll(DbCommands(items[..k])), EncodeAll(ItemCommands(items[k])));
  }

  method WriteItems(out: Bytes, items: seq<Item>) returns (r: Bytes)
    ensures r == out + EncodeAll(DbCommands(items))
  {
    r := out;
    for k := 0 to |items|
      invariant r == out + EncodeAll(DbCommands(items[..k]))
    {
      NextItem(out, items, k);
      r := WriteItem(r, items[k]);
    }
    assert items[..|items|] == items;
  }

  method WriteDb(out: Bytes, db: nat, items: seq<Item>) returns (r: Bytes)
    ensures r == out + EncodeAll(SelectedDb(db, items))
  {
    if items == [] {
      return out;
    }
    r := WriteBulkCount(out, STAR, 2);
    r := WriteBulkString(r, SELECT);
    r := WriteBulkString(r, Dec(db));
    EncodeTwoArgs(SELECT, Dec(db));
    assert r == out + Encode(Select(db));
    EncodeFirst(Select(db), DbCommands(items));
    Reassociate(out, Encode(Select(db)), EncodeAll(DbCommands(items)));
    r := WriteItems(r, items);
  }

  /** rewriteAppendOnlyFileRio: the bytes of the temporary file. */
  method RewriteAppendOnlyFileRio(dump: seq<seq<Item>>) returns (r: Bytes)
    ensures r == EncodeAll(DumpCommands(0, dump))
  {
    r := [];
    ghost var goal := EncodeAll(DumpCommands(0, dump));
    assert dump[0..] == dump;
    for j := 0 to |dump|
      invariant r + EncodeAll(DumpCommands(j, dump[j..])) == goal
    {
      ghost var first, rest := SelectedDb(j, dump[j]), DumpCommands(j + 1, dump[j + 1..]);
      assert dump[j..][0] == dump[j] && dump[j..][1..] == dump[j + 1..];
      JoinedTogether(first, rest, Encode);
      Reassociate(r, EncodeAll(first), EncodeAll(rest));
      r := WriteDb(r, j, dump[j]);
    }
    assert dump[|dump|..] == [];
  }
}
