/** Datasets, and what the commands that a rewrite emits do to them. */
module Dataset {
  import opened AofProtocol
  import opened AofWriter
  import opened LogScan
  import opened Options

  datatype Value =
    | Str(text: Bytes)
    | List(items: seq<Bytes>)
    | Set(members: set<Bytes>)
    | Hash(fields: map<Bytes, Bytes>)

  datatype Object = Object(value: Value, expire: Option<nat>)

  datatype Location = Location(db: nat, key: Bytes)

  type Data = map<Location, Object>

  /** The variadic commands that add elements to an aggregate. */
  datatype Adder = Rpush | Sadd | Hmset

  const RPUSH: Bytes := [82, 80, 85, 83, 72]
  const SADD: Bytes := [83, 65, 68, 68]
  const HMSET: Bytes := [72, 77, 83, 69, 84]
  const SET: Bytes := [83, 69, 84]
  const PEXPIREAT: Bytes := [80, 69, 88, 80, 73, 82, 69, 65, 84]

  function Name(a: Adder): Bytes {
    match a case Rpush => RPUSH case Sadd => SADD case Hmset => HMSET
  }

  /** Field and value, field and value, and so on. */
  function Updated(m: map<Bytes, Bytes>, args: seq<Bytes>): map<Bytes, Bytes>
    decreases |args|
  {
    if |args| < 2 then m else Updated(m[args[0] := args[1]], args[2..])
  }

  /** The value after adding `args` to what is there: nothing, an aggregate of the right type,
      or something else, which is left alone. */
  function Add(a: Adder, v: Option<Value>, args: seq<Bytes>): Option<Value> {
    if args == [] || (a.Hmset? && |args| % 2 != 0) then v
    else match (a, v)
      case (Rpush, None) => Some(List(args))
      case (Rpush, Some(List(items))) => Some(List(items + args))
      case (Sadd, None) => Some(Set(set x | x in args))
      case (Sadd, Some(Set(members))) => Some(Set(members + set x | x in args))
      case (Hmset, None) => Some(Hash(Updated(map[], args)))
      case (Hmset, Some(Hash(fields))) => Some(Hash(Updated(fields, args)))
      case _ => v
  }

  function ValueAt(d: Data, p: Location): Option<Value> {
    if p in d then Some(d[p].value) else None
  }

  function AddAt(d: Data, p: Location, a: Adder, args: seq<Bytes>): Data {
    var v := Add(a, ValueAt(d, p), args);
    if v.None? then d else d[p := Object(v.value, if p in d then d[p].expire else None)]
  }

  function AdderOf(name: Bytes): Option<Adder> {
    if name == RPUSH then Some(Rpush)
    else if name == SADD then Some(Sadd)
    else if name == HMSET then Some(Hmset)
    else None
  }

  /** What a command does; `other` is the effect of all the commands a rewrite never emits. */
  function ApplyCommand(d: Data, i: Issued, other: (Data, Issued) -> Data): Data {
    var c := i.cmd;
    if |c| >= 3 && AdderOf(c[0]).Some? then AddAt(d, Location(i.db, c[1]), AdderOf(c[0]).value, c[2..])
    else if |c| == 3 && c[0] == SET then d[Location(i.db, c[1]) := Object(Str(c[2]), None)]
    else if |c| == 3 && c[0] == PEXPIREAT then
      var p := Location(i.db, c[1]);
      if p in d then d[p := d[p].(expire := Some(Digits(0, c[2])))] else d
    else other(d, i)
  }

  lemma {:induction false} UpdatedSplit(m: map<Bytes, Bytes>, x: seq<Bytes>, y: seq<Bytes>)
    requires |x| % 2 == 0
    ensures Updated(m, x + y) == Updated(Updated(m, x), y)
    decreases |x|
  {
    if x == [] {
      assert x + y == y;
    } else {
      assert (x + y)[2..] == x[2..] + y;
      UpdatedSplit(m[x[0] := x[1]], x[2..], y);
    }
  }

  /** Adding in two commands is adding in one. */
  lemma AddSplit(a: Adder, v: Option<Value>, x: seq<Bytes>, y: seq<Bytes>)
    requires a.Hmset? ==> |x| % 2 == 0 && |y| % 2 == 0
    ensures Add(a, Add(a, v, x), y) == Add(a, v, x + y)
  {
    if x == [] {
      assert x + y == y;
    } else if y == [] {
      assert x + y == x;
    } else if a.Rpush? && v.Some? && v.value.List? {
      assert v.value.items + (x + y) == v.value.items + x + y;
    } else if a.Sadd? {
      assert (set e | e in x + y) == (set e | e in x) + (set e | e in y);
      assert v.Some? && v.value.Set? ==>
          v.value.members + (set e | e in x + y) == v.value.members + (set e | e in x) + (set e | e in y);
    } else if a.Hmset? {
      UpdatedSplit(map[], x, y);
      if v.Some? && v.value.Hash? {
        UpdatedSplit(v.value.fields, x, y);
      }
    }
  }

  lemma AddAtSplit(d: Data, p: Location, a: Adder, x: seq<Bytes>, y: seq<Bytes>)
    requires a.Hmset? ==> |x| % 2 == 0 && |y| % 2 == 0
    ensures AddAt(AddAt(d, p, a, x), p, a, y) == AddAt(d, p, a, x + y)
  {
    AddSplit(a, ValueAt(d, p), x, y);
  }
}
