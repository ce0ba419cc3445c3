/**
 What serving blocked clients does to the data, as values: one client, all the clients served
 for a key, and what no number of them loses or makes up.
*/
module Serving {
  import opened BlockedIndex
  import opened Hiding
  import opened Options
  import opened Sequences

  datatype Reply =
    | Popped(to: Id, key: Key, value: int)
    | Moved(to: Id, value: int)
    | WrongType(to: Id)
    | Entries(to: Id, key: Key, after: int)
    | Nil(to: Id)

  // ---- one client ----

  /** The element that a pop takes, and what it leaves. */
  function PopValue(items: seq<int>, head: bool): int
    requires items != []
  {
    if head then items[0] else items[|items| - 1]
  }

  function PopRest(items: seq<int>, head: bool): seq<int>
    requires items != []
  {
    if head then items[1..] else items[..|items| - 1]
  }

  function PushTo(items: seq<int>, value: int, head: bool): seq<int> {
    if head then [value] + items else items + [value]
  }

  lemma PushUndoesPop(items: seq<int>, head: bool)
    requires items != []
    ensures PushTo(PopRest(items, head), PopValue(items, head), head) == items
  {
  }

  function ItemsAt(db: Db, k: Key): seq<int> {
    if k in db && db[k].ListObj? then db[k].items else []
  }

  /** BRPOPLPUSH cannot push when the target holds something else. */
  predicate BadTarget(db: Db, target: Option<Key>) {
    target.Some? && target.value in db && !db[target.value].ListObj?
  }

  /** Serving one client of a list: an element leaves `key`, and goes to the head of the target
      if there is one; with a target of the wrong type nothing moves. */
  function ServedDb(db: Db, key: Key, c: Client): Db
    requires key in db && db[key].ListObj? && db[key].items != []
  {
    var items := db[key].items;
    var popped := db[key := ListObj(PopRest(items, c.head))];
    if BadTarget(db, c.target) then db
    else if c.target.None? then popped
    else popped[c.target.value := ListObj([PopValue(items, c.head)] + ItemsAt(popped, c.target.value))]
  }

  function ServedReply(db: Db, key: Key, id: Id, c: Client): Reply
    requires key in db && db[key].ListObj? && db[key].items != []
  {
    var v := PopValue(db[key].items, c.head);
    if BadTarget(db, c.target) then WrongType(id)
    else if c.target.None? then Popped(id, key, v)
    else Moved(id, v)
  }

  /** A sorted set that gave its last member is gone. */
  function ZpoppedDb(db: Db, key: Key, head: bool): Db
    requires key in db && db[key].ZsetObj? && db[key].members != []
  {
    var members := db[key].members;
    if |members| == 1 then db - {key} else db[key := ZsetObj(PopRest(members, head))]
  }

  /** There is something to give to a client of the type of the key. */
  predicate Full(db: Db, key: Key) {
    key in db &&
    match db[key]
    case ListObj(items) => items != []
    case ZsetObj(members) => members != []
    case StreamObj(_, _) => true
    case OtherObj => false
  }

  function StepDb(db: Db, key: Key, c: Client): Db
    requires Full(db, key)
  {
    match db[key]
    case ListObj(_) => ServedDb(db, key, c)
    case ZsetObj(_) => ZpoppedDb(db, key, c.head)
    case StreamObj(_, _) => db
  }

  function StepReply(db: Db, key: Key, id: Id, c: Client): Reply
    requires Full(db, key)
  {
    match db[key]
    case ListObj(_) => ServedReply(db, key, id, c)
    case ZsetObj(members) => Popped(id, key, PopValue(members, c.head))
    case StreamObj(_, _) => Entries(id, key, if key in c.keys then c.keys[key] else 0)
  }

  // ---- conservation ----

  ghost function Contents(o: Obj): multiset<int> {
    match o
    case ListObj(items) => multiset(items)
    case ZsetObj(members) => multiset(members)
    case _ => multiset{}
  }

  /** All elements of all lists and sorted sets. */
  ghost function Elements(db: Db): multiset<int>
    decreases |db|
  {
    if db == map[] then multiset{}
    else
      var k :| k in db;
      Smaller(db, k);
      Contents(db[k]) + Elements(db - {k})
  }

  lemma Smaller(db: Db, k: Key)
    requires k in db
    ensures |db - {k}| < |db|
  {
    assert (db - {k}).Keys == db.Keys - {k};
    assert |db.Keys - {k}| == |db.Keys| - 1;
  }

  /** The element that a client gets and nothing keeps. */
  function Delivered(r: Reply): multiset<int> {
    if r.Popped? then multiset{r.value} else multiset{}
  }

  function DeliveredAll(rs: seq<Reply>): multiset<int> {
    if rs == [] then multiset{} else DeliveredAll(rs[..|rs| - 1]) + Delivered(rs[|rs| - 1])
  }

  lemma {:induction false} DeliveredTogether(a: seq<Reply>, b: seq<Reply>)
    ensures DeliveredAll(a + b) == DeliveredAll(a) + DeliveredAll(b)
  {
    if b == [] {
      assert a + b == a;
    } else {
      var n := |b| - 1;
      assert (a + b)[..|a + b| - 1] == a + b[..n];
      DeliveredTogether(a, b[..n]);
    }
  }

  lemma Regroup(a: multiset<int>, b: multiset<int>, c: multiset<int>)
    ensures a + b + c == b + c + a
  {
  }

  lemma Swap(a: multiset<int>, b: multiset<int>, c: multiset<int>)
    ensures a + (b + c) == b + (a + c)
  {
  }

  lemma {:induction false} ElementsAt(db: Db, k: Key)
    requires k in db
    ensures Elements(db) == Contents(db[k]) + Elements(db - {k})
    decreases |db|
  {
    var j :| j in db && Elements(db) == Contents(db[j]) + Elements(db - {j});
    if j != k {
      Smaller(db, j);
      Smaller(db, k);
      ElementsAt(db - {j}, k);
      ElementsAt(db - {k}, j);
      assert db - {j} - {k} == db - {k} - {j};
      Swap(Contents(db[j]), Contents(db[k]), Elements(db - {j} - {k}));
    }
  }

  lemma ElementsSet(db: Db, k: Key, o: Obj)
    ensures Elements(db[k := o]) == Contents(o) + Elements(db - {k})
  {
    ElementsAt(db[k := o], k);
    assert db[k := o] - {k} == db - {k};
  }

  lemma PopTakesOne(items: seq<int>, head: bool)
    requires items != []
    ensures multiset(items) == multiset(PopRest(items, head)) + multiset{PopValue(items, head)}
  {
    if head {
      assert items == [items[0]] + items[1..];
    } else {
      assert items == items[..|items| - 1] + [items[|items| - 1]];
    }
  }

  lemma PushAddsOne(v: int, items: seq<int>)
    ensures multiset([v] + items) == multiset{v} + multiset(items)
  {
  }

  /** Replacing the contents of a key by a part of it takes the rest out of the whole. */
  lemma TakeOut(db: Db, k: Key, o: Obj, v: int)
    requires k in db && Contents(db[k]) == Contents(o) + multiset{v}
    ensures Elements(db) == Elements(db[k := o]) + multiset{v}
  {
    ElementsAt(db, k);
    ElementsSet(db, k, o);
  }

  lemma PutIn(db: Db, k: Key, v: int)
    requires k in db ==> db[k].ListObj?
    ensures Elements(db[k := ListObj([v] + ItemsAt(db, k))]) == Elements(db) + multiset{v}
  {
    var items := ItemsAt(db, k);
    PushAddsOne(v, items);
    ElementsSet(db, k, ListObj([v] + items));
    if k in db {
      ElementsAt(db, k);
      Regroup(multiset{v}, multiset(items), Elements(db - {k}));
    } else {
      assert db - {k} == db;
      Regroup(multiset{v}, multiset{}, Elements(db));
    }
  }

  lemma ElementsDelete(db: Db, k: Key)
    requires k in db && Contents(db[k]) == multiset{}
    ensures Elements(db - {k}) == Elements(db)
  {
    ElementsAt(db, k);
  }

  lemma ListStepConserves(db: Db, key: Key, id: Id, c: Client)
    requires key in db && db[key].ListObj? && db[key].items != []
    ensures Elements(db) == Elements(ServedDb(db, key, c)) + Delivered(ServedReply(db, key, id, c))
  {
    var items := db[key].items;
    var v := PopValue(items, c.head);
    var popped := db[key := ListObj(PopRest(items, c.head))];
    PopTakesOne(items, c.head);
    TakeOut(db, key, ListObj(PopRest(items, c.head)), v);
    if c.target.Some? && !BadTarget(db, c.target) {
      PutIn(popped, c.target.value, v);
    }
  }

  lemma ZsetStepConserves(db: Db, key: Key, id: Id, c: Client)
    requires key in db && db[key].ZsetObj? && db[key].members != []
    ensures Elements(db) == Elements(ZpoppedDb(db, key, c.head)) + multiset{PopValue(db[key].members, c.head)}
  {
    var members := db[key].members;
    var rest := PopRest(members, c.head);
    PopTakesOne(members, c.head);
    TakeOut(db, key, ZsetObj(rest), PopValue(members, c.head));
    if |members| == 1 {
      assert rest == [];
      ElementsDelete(db[key := ZsetObj(rest)], key);
      assert db[key := ZsetObj(rest)] - {key} == db - {key};
    }
  }

  /** Serving a client neither loses nor makes up an element: it stays where it was, goes to the
      target, or is delivered. */
  lemma StepConserves(db: Db, key: Key, id: Id, c: Client)
    requires Full(db, key)
    ensures Elements(db) == Elements(StepDb(db, key, c)) + Delivered(StepReply(db, key, id, c))
  {
    match db[key]
    case ListObj(_) => ListStepConserves(db, key, id, c);
    case ZsetObj(_) => ZsetStepConserves(db, key, id, c);
    case StreamObj(_, _) =>
  }

  // ---- the clients served for one key ----

  /** The data after the clients `cs` of `key` were served in this order, those who find nothing
      excepted; an emptied list is still there. */
  function DbAfter(db: Db, clients: Clients, key: Key, cs: seq<Id>): Db {
    if cs == [] then db
    else
      var d, c := DbAfter(db, clients, key, cs[..|cs| - 1]), cs[|cs| - 1];
      if c in clients && Full(d, key) then StepDb(d, key, clients[c]) else d
  }

  function RepliesTo(db: Db, clients: Clients, key: Key, cs: seq<Id>): seq<Reply> {
    if cs == [] then []
    else
      var d, c := DbAfter(db, clients, key, cs[..|cs| - 1]), cs[|cs| - 1];
      var rs := RepliesTo(db, clients, key, cs[..|cs| - 1]);
      if c in clients && Full(d, key) then rs + [StepReply(d, key, c, clients[c])] else rs
  }

  /** Nobody in `cs` found nothing. */
  ghost predicate AllFed(db: Db, clients: Clients, key: Key, cs: seq<Id>) {
    forall u: nat :: Unfold(Giving, u) ==>
      forall j :: 0 <= j < |cs| ==> cs[j] in clients && Full(DbAfter(db, clients, key, cs[..j]), key)
  }

  function FreedAll(clients: Clients, cs: seq<Id>): Clients {
    if cs == [] then clients
    else
      var m, c := FreedAll(clients, cs[..|cs| - 1]), cs[|cs| - 1];
      if c in m then m[c := Freed(m[c])] else m
  }

  function WithoutAll(s: seq<Id>, cs: seq<Id>): seq<Id> {
    if cs == [] then s else Without(WithoutAll(s, cs[..|cs| - 1]), cs[|cs| - 1])
  }

  /** The clients, the lists of waiters, the data and the replies sent at one moment. */
  datatype Moment = Moment(clients: Clients, waiters: Waiters, db: Db, replies: seq<Reply>)

  /** Between the two moments the clients `cs` were served from `key` in this order, each found
      something, and nothing else happened; the list of `key` itself may have been rotated. */
  ghost predicate Gave(a: Moment, b: Moment, key: Key, cs: seq<Id>) {
    forall u: nat :: Unfold(Giving, u) ==>
      && AllFed(a.db, a.clients, key, cs)
      && b.db == DbAfter(a.db, a.clients, key, cs)
      && b.replies == a.replies + RepliesTo(a.db, a.clients, key, cs)
      && b.clients == FreedAll(a.clients, cs)
      && forall k :: k != key ==> At(b.waiters, k) == WithoutAll(At(a.waiters, k), cs)
  }

  lemma GaveNothing(a: Moment, key: Key)
    ensures Gave(a, a, key, [])
  {
  }

  lemma GaveRotated(a: Moment, b: Moment, key: Key, cs: seq<Id>, waiters: Waiters)
    requires Gave(a, b, key, cs) && forall k :: k != key ==> At(waiters, k) == At(b.waiters, k)
    ensures Gave(a, b.(waiters := waiters), key, cs)
  {
    assert Unfold(Giving, 0);
  }

  /** One more client is served. */
  ghost predicate GaveOne(b: Moment, d: Moment, key: Key, c: Id) {
    && c in b.clients && Full(b.db, key)
    && d.db == StepDb(b.db, key, b.clients[c])
    && d.replies == b.replies + [StepReply(b.db, key, c, b.clients[c])]
    && d.clients == b.clients[c := Freed(b.clients[c])]
    && forall k :: At(d.waiters, k) == Without(At(b.waiters, k), c)
  }

  lemma AllFedMore(db: Db, clients: Clients, key: Key, cs: seq<Id>, c: Id)
    requires AllFed(db, clients, key, cs) && c in clients && Full(DbAfter(db, clients, key, cs), key)
    ensures AllFed(db, clients, key, cs + [c])
  {
    assert Unfold(Giving, 0);
    forall j | 0 <= j < |cs + [c]|
      ensures (cs + [c])[j] in clients && Full(DbAfter(db, clients, key, (cs + [c])[..j]), key)
    {
      assert (cs + [c])[..j] == cs[..j];
      assert j == |cs| ==> cs[..j] == cs;
    }
  }

  lemma GaveMore(a: Moment, b: Moment, d: Moment, key: Key, cs: seq<Id>, c: Id)
    requires Gave(a, b, key, cs) && GaveOne(b, d, key, c) && c in a.clients && a.clients[c] == b.clients[c]
    ensures Gave(a, d, key, cs + [c])
  {
    assert Unfold(Giving, 0);
    assert (cs + [c])[..|cs|] == cs;
    AllFedMore(a.db, a.clients, key, cs, c);
    var rs := RepliesTo(a.db, a.clients, key, cs);
    var r := StepReply(b.db, key, c, b.clients[c]);
    assert RepliesTo(a.db, a.clients, key, cs + [c]) == rs + [r];
    assert a.replies + rs + [r] == a.replies + (rs + [r]);
  }

  lemma GaveDb(a: Moment, b: Moment, key: Key, cs: seq<Id>)
    requires Gave(a, b, key, cs)
    ensures b.db == DbAfter(a.db, a.clients, key, cs)
  {
    assert Unfold(Giving, 0);
  }

  lemma GaveWaiters(a: Moment, b: Moment, key: Key, cs: seq<Id>)
    requires Gave(a, b, key, cs)
    ensures forall k :: k != key ==> At(b.waiters, k) == WithoutAll(At(a.waiters, k), cs)
  {
    assert Unfold(Giving, 0);
  }

  // ---- which clients a key serves ----

  /** The clients of `s` with a property, in order, and the others. */
  function Picked(clients: Clients, p: Client -> bool, s: seq<Id>): seq<Id> {
    if s == [] then []
    else
      var rest, c := Picked(clients, p, s[..|s| - 1]), s[|s| - 1];
      if c in clients && p(clients[c]) then rest + [c] else rest
  }

  function Others(clients: Clients, p: Client -> bool, s: seq<Id>): seq<Id> {
    if s == [] then []
    else
      var rest, c := Others(clients, p, s[..|s| - 1]), s[|s| - 1];
      if c in clients && p(clients[c]) then rest else rest + [c]
  }

  /** The type of the clients that an object can serve. */
  function Kind(o: Obj): BType {
    match o
    case ListObj(_) => OnList
    case ZsetObj(_) => OnZset
    case StreamObj(_, _) => OnStream
    case OtherObj => OnOther
  }

  /** Different clients that wait for the key, and for an object of its type. */
  ghost predicate Fit(clients: Clients, db: Db, key: Key, cs: seq<Id>) {
    && Distinct(cs)
    && forall c :: c in cs ==> Waits(clients, c, key) && key in db && clients[c].btype == Kind(db[key])
  }

  lemma {:induction false} PickedAre(clients: Clients, p: Client -> bool, s: seq<Id>)
    requires Distinct(s)
    ensures Distinct(Picked(clients, p, s))
    ensures forall c :: c in Picked(clients, p, s) <==> c in s && c in clients && p(clients[c])
  {
    if s != [] {
      var n := |s| - 1;
      PickedAre(clients, p, s[..n]);
      assert s == s[..n] + [s[n]];
      assert s[n] !in s[..n];
    }
  }

  lemma {:induction false} OthersAre(clients: Clients, p: Client -> bool, s: seq<Id>)
    ensures forall c :: c in Others(clients, p, s) <==> c in s && !(c in clients && p(clients[c]))
  {
    if s != [] {
      OthersAre(clients, p, s[..|s| - 1]);
      assert s == s[..|s| - 1] + [s[|s| - 1]];
    }
  }

  lemma NextPicked(clients: Clients, p: Client -> bool, s: seq<Id>, i: nat)
    requires i < |s|
    ensures s[i] in clients && p(clients[s[i]]) ==>
              && Picked(clients, p, s[..i + 1]) == Picked(clients, p, s[..i]) + [s[i]]
              && Others(clients, p, s[..i + 1]) == Others(clients, p, s[..i])
    ensures !(s[i] in clients && p(clients[s[i]])) ==>
              && Picked(clients, p, s[..i + 1]) == Picked(clients, p, s[..i])
              && Others(clients, p, s[..i + 1]) == Others(clients, p, s[..i]) + [s[i]]
  {
    assert s[..i + 1][..i] == s[..i];
  }

  // ---- several keys ----

  function Tos(rs: seq<Reply>): seq<Id> {
    seq(|rs|, i requires 0 <= i < |rs| => rs[i].to)
  }

  /** The reply is one that the client asked for. */
  predicate Suits(r: Reply, c: Client) {
    match r
    case Popped(_, key, _) => key in c.keys && (c.btype.OnZset? || (c.btype.OnList? && c.target.None?))
    case Moved(_, _) => c.btype.OnList? && c.target.Some?
    case WrongType(_) => c.btype.OnList? && c.target.Some?
    case Entries(_, key, after) => c.btype.OnStream? && key in c.keys && after == c.keys[key]
    case Nil(_) => false
  }

  ghost predicate Concerned(clients: Clients, k: Key) {
    exists c :: c in clients && (k in clients[c].keys || clients[c].target == Some(k))
  }

  predicate SameAt(a: Db, b: Db, k: Key) {
    if k in a then k in b && a[k] == b[k] else k !in b
  }

  /** The clients `cs` got one reply each, of the kind they waited for, and stopped waiting; all
      other clients are as before. */
  ghost predicate Answered(before: Clients, after: Clients, cs: seq<Id>, rs: seq<Reply>) {
    forall u: nat :: Unfold(Serves, u) ==>
      && Distinct(cs) && Tos(rs) == cs && after == FreedAll(before, cs)
      && forall j :: 0 <= j < |rs| ==> rs[j].to in before && Suits(rs[j], before[rs[j].to])
  }

  /** Every element is where it was, in another list, or with a client. */
  ghost predicate Conserved(before: Db, after: Db, rs: seq<Reply>) {
    forall u: nat :: Unfold(Serves, u) ==> Elements(before) == Elements(after) + DeliveredAll(rs)
  }

  /** The keys that no client was concerned with are as before. */
  ghost predicate OthersKept(clients: Clients, before: Db, after: Db) {
    forall u: nat :: Unfold(Serves, u) ==> forall k :: !Concerned(clients, k) ==> SameAt(before, after, k)
  }

  /** What may happen between two moments in which only waiting clients are served. */
  ghost predicate Settled(a: Moment, b: Moment, cs: seq<Id>, rs: seq<Reply>) {
    forall u: nat :: Unfold(Settling, u) ==>
      && b.replies == a.replies + rs
      && Answered(a.clients, b.clients, cs, rs)
      && Conserved(a.db, b.db, rs)
      && OthersKept(a.clients, a.db, b.db)
  }

  lemma {:induction false} FreedAllAt(clients: Clients, cs: seq<Id>)
    ensures FreedAll(clients, cs).Keys == clients.Keys
    ensures forall c :: c in clients ==> FreedAll(clients, cs)[c] == if c in cs then Freed(clients[c]) else clients[c]
  {
    if cs != [] {
      var n := |cs| - 1;
      FreedAllAt(clients, cs[..n]);
      assert cs == cs[..n] + [cs[n]];
    }
  }

  lemma SettledNothing(a: Moment)
    ensures Settled(a, a, [], [])
  {
    assert a.replies + [] == a.replies;
  }

  lemma StepSuits(db: Db, key: Key, id: Id, c: Client)
    requires Full(db, key) && key in c.keys && c.btype == Kind(db[key])
    ensures Suits(StepReply(db, key, id, c), c) && StepReply(db, key, id, c).to == id
  {
  }

  lemma StepKeeps(db: Db, key: Key, c: Client, k: Key)
    requires Full(db, key) && k != key && c.target != Some(k)
    ensures SameAt(db, StepDb(db, key, c), k)
  {
  }

  lemma TosMore(rs: seq<Reply>, r: Reply)
    ensures Tos(rs + [r]) == Tos(rs) + [r.to]
  {
  }

  /** A client that still waits was not answered. */
  lemma StillWaits(before: Clients, after: Clients, cs: seq<Id>, rs: seq<Reply>, c: Id, key: Key)
    requires Answered(before, after, cs, rs) && Waits(after, c, key)
    ensures c !in cs && c in before && before[c] == after[c] && Concerned(before, key)
  {
    assert Unfold(Serves, 0);
    FreedAllAt(before, cs);
  }

  lemma FreedOneMore(clients: Clients, cs: seq<Id>, c: Id)
    requires c in FreedAll(clients, cs)
    ensures FreedAll(clients, cs + [c]) == FreedAll(clients, cs)[c := Freed(FreedAll(clients, cs)[c])]
  {
    assert (cs + [c])[..|cs|] == cs;
  }

  lemma OneMoreDistinct(cs: seq<Id>, c: Id)
    requires Distinct(cs) && c !in cs
    ensures Distinct(cs + [c])
  {
  }

  lemma AnsweredOne(before: Clients, after: Clients, cs: seq<Id>, rs: seq<Reply>, r: Reply)
    requires Answered(before, after, cs, rs) && r.to !in cs && r.to in before && r.to in after
    requires before[r.to] == after[r.to] && Suits(r, before[r.to])
    ensures Answered(before, after[r.to := Freed(after[r.to])], cs + [r.to], rs + [r])
  {
    assert Unfold(Serves, 0);
    TosMore(rs, r);
    OneMoreDistinct(cs, r.to);
    FreedOneMore(before, cs, r.to);
    forall j | 0 <= j < |rs + [r]|
      ensures var q := (rs + [r])[j]; q.to in before && Suits(q, before[q.to])
    {
      if j < |rs| {
        assert (rs + [r])[j] == rs[j];
      }
    }
  }

  lemma ConservedOne(before: Db, after: Db, rs: seq<Reply>, key: Key, id: Id, c: Client)
    requires Conserved(before, after, rs) && Full(after, key)
    ensures Conserved(before, StepDb(after, key, c), rs + [StepReply(after, key, id, c)])
  {
    assert Unfold(Serves, 0);
    var r := StepReply(after, key, id, c);
    StepConserves(after, key, id, c);
    DeliveredTogether(rs, [r]);
    assert DeliveredAll([r]) == Delivered(r) by {
      assert [r][..0] == [];
    }
  }

  lemma KeptOne(clients: Clients, before: Db, after: Db, key: Key, id: Id)
    requires OthersKept(clients, before, after) && Full(after, key) && Waits(clients, id, key)
    ensures OthersKept(clients, before, StepDb(after, key, clients[id]))
  {
    assert Unfold(Serves, 0);
    forall k | !Concerned(clients, k)
      ensures SameAt(before, StepDb(after, key, clients[id]), k)
    {
      StepKeeps(after, key, clients[id], k);
    }
  }

  /** Serving one more client. */
  lemma SettledOne(a: Moment, b: Moment, cs: seq<Id>, rs: seq<Reply>, key: Key, c: Id)
    requires Settled(a, b, cs, rs) && Full(b.db, key) && Waits(b.clients, c, key)
    requires b.clients[c].btype == Kind(b.db[key])
    ensures var r := StepReply(b.db, key, c, b.clients[c]);
            Settled(a, b.(clients := b.clients[c := Freed(b.clients[c])], db := StepDb(b.db, key, b.clients[c]),
                          replies := b.replies + [r]), cs + [c], rs + [r])
  {
    assert Unfold(Settling, 0);
    var r := StepReply(b.db, key, c, b.clients[c]);
    StillWaits(a.clients, b.clients, cs, rs, c, key);
    StepSuits(b.db, key, c, b.clients[c]);
    AnsweredOne(a.clients, b.clients, cs, rs, r);
    ConservedOne(a.db, b.db, rs, key, c, b.clients[c]);
    KeptOne(a.clients, a.db, b.db, key, c);
    assert a.replies + rs + [r] == a.replies + (rs + [r]);
  }

  lemma {:induction false} SameKind(db: Db, clients: Clients, key: Key, cs: seq<Id>)
    requires key in db
    ensures var d := DbAfter(db, clients, key, cs); key in d ==> Kind(d[key]) == Kind(db[key])
  {
    if cs != [] {
      SameKind(db, clients, key, cs[..|cs| - 1]);
    }
  }

  lemma AllFedFewer(db: Db, clients: Clients, key: Key, cs: seq<Id>)
    requires AllFed(db, clients, key, cs) && cs != []
    ensures AllFed(db, clients, key, cs[..|cs| - 1])
    ensures Full(DbAfter(db, clients, key, cs[..|cs| - 1]), key)
  {
    assert Unfold(Giving, 0);
    var most := cs[..|cs| - 1];
    assert forall j :: 0 <= j < |most| ==> most[j] == cs[j] && most[..j] == cs[..j];
    assert cs[|cs| - 1] in clients;
  }

  /** The moment after the clients `cs` were served from `key`. */
  function Later(b: Moment, key: Key, cs: seq<Id>): Moment {
    b.(clients := FreedAll(b.clients, cs), db := DbAfter(b.db, b.clients, key, cs),
       replies := b.replies + RepliesTo(b.db, b.clients, key, cs))
  }

  lemma FitFewer(clients: Clients, db: Db, key: Key, cs: seq<Id>, c: Id)
    requires Fit(clients, db, key, cs + [c])
    ensures Fit(clients, db, key, cs) && c !in cs
    ensures Waits(clients, c, key) && key in db && clients[c].btype == Kind(db[key])
  {
    var all := cs + [c];
    assert all[|cs|] in all;
    assert forall j :: 0 <= j < |cs| ==> cs[j] == all[j];
  }

  /** After `cs` there is something for `c` as well. */
  ghost predicate IsNext(b: Moment, key: Key, cs: seq<Id>, c: Id) {
    forall u: nat :: Unfold(Giving, u) ==>
      var m := Later(b, key, cs);
      && Full(m.db, key) && Waits(m.clients, c, key) && m.clients[c].btype == Kind(m.db[key])
      && c in b.clients && m.clients[c] == b.clients[c]
  }

  lemma LastIsNext(b: Moment, key: Key, cs: seq<Id>, c: Id)
    requires AllFed(b.db, b.clients, key, cs + [c]) && Fit(b.clients, b.db, key, cs + [c])
    ensures IsNext(b, key, cs, c)
    ensures AllFed(b.db, b.clients, key, cs) && Fit(b.clients, b.db, key, cs)
  {
    FitFewer(b.clients, b.db, key, cs, c);
    assert (cs + [c])[..|cs|] == cs;
    AllFedFewer(b.db, b.clients, key, cs + [c]);
    SameKind(b.db, b.clients, key, cs);
    FreedAllAt(b.clients, cs);
  }

  lemma LaterOne(b: Moment, key: Key, cs: seq<Id>, c: Id)
    requires var m := Later(b, key, cs);
             Full(m.db, key) && c in m.clients && c in b.clients && m.clients[c] == b.clients[c]
    ensures var m := Later(b, key, cs);
            var r := StepReply(m.db, key, c, m.clients[c]);
            && Later(b, key, cs + [c]) == m.(clients := m.clients[c := Freed(m.clients[c])],
                                             db := StepDb(m.db, key, m.clients[c]), replies := m.replies + [r])
            && RepliesTo(b.db, b.clients, key, cs + [c]) == RepliesTo(b.db, b.clients, key, cs) + [r]
  {
    assert (cs + [c])[..|cs|] == cs;
  }

  lemma SettledLast(a: Moment, b: Moment, cs: seq<Id>, rs: seq<Reply>, key: Key, more: seq<Id>, c: Id)
    requires IsNext(b, key, more, c)
    requires Settled(a, Later(b, key, more), cs + more, rs + RepliesTo(b.db, b.clients, key, more))
    ensures Settled(a, Later(b, key, more + [c]), cs + (more + [c]), rs + RepliesTo(b.db, b.clients, key, more + [c]))
  {
    assert Unfold(Giving, 0);
    var m, before := Later(b, key, more), RepliesTo(b.db, b.clients, key, more);
    SettledOne(a, m, cs + more, rs + before, key, c);
    LaterOne(b, key, more, c);
    assert cs + more + [c] == cs + (more + [c]);
    var r := StepReply(m.db, key, c, m.clients[c]);
    assert rs + before + [r] == rs + (before + [r]);
  }

  lemma {:induction false} SettledKey(a: Moment, b: Moment, cs: seq<Id>, rs: seq<Reply>, key: Key, more: seq<Id>)
    requires Settled(a, b, cs, rs) && AllFed(b.db, b.clients, key, more) && Fit(b.clients, b.db, key, more)
    ensures Settled(a, Later(b, key, more), cs + more, rs + RepliesTo(b.db, b.clients, key, more))
  {
    if more == [] {
      assert Later(b, key, more) == b && cs + more == cs && rs + [] == rs;
    } else {
      var most, c := more[..|more| - 1], more[|more| - 1];
      assert more == most + [c];
      LastIsNext(b, key, most, c);
      SettledKey(a, b, cs, rs, key, most);
      SettledLast(a, b, cs, rs, key, most, c);
    }
  }

  /** A list that was emptied is deleted. */
  function Tidied(db: Db, key: Key): Db {
    if key in db && db[key] == ListObj([]) then db - {key} else db
  }

  lemma TidiedConserves(before: Db, after: Db, rs: seq<Reply>, key: Key)
    requires Conserved(before, after, rs)
    ensures Conserved(before, Tidied(after, key), rs)
  {
    assert Unfold(Serves, 0);
    if key in after && after[key] == ListObj([]) {
      ElementsDelete(after, key);
    }
  }

  lemma TidiedKeeps(clients: Clients, before: Db, after: Db, key: Key)
    requires OthersKept(clients, before, after) && Concerned(clients, key)
    ensures OthersKept(clients, before, Tidied(after, key))
  {
    assert Unfold(Serves, 0);
  }

  lemma SettledTidied(a: Moment, b: Moment, cs: seq<Id>, rs: seq<Reply>, key: Key)
    requires Settled(a, b, cs, rs) && Concerned(a.clients, key)
    ensures Settled(a, b.(db := Tidied(b.db, key)), cs, rs)
  {
    assert Unfold(Settling, 0);
    TidiedConserves(a.db, b.db, rs, key);
    TidiedKeeps(a.clients, a.db, b.db, key);
  }

  /** The clients `cs` were served from `key`, which is deleted if that emptied it. */
  ghost predicate Fed(a: Moment, b: Moment, key: Key, cs: seq<Id>) {
    var after := DbAfter(a.db, a.clients, key, cs);
    Gave(a, b.(db := after), key, cs) && b.db == Tidied(after, key) && Fit(a.clients, a.db, key, cs)
  }

  lemma FedWaiters(a: Moment, b: Moment, key: Key, cs: seq<Id>)
    requires Fed(a, b, key, cs)
    ensures forall k :: k != key ==> At(b.waiters, k) == WithoutAll(At(a.waiters, k), cs)
  {
    GaveWaiters(a, b.(db := DbAfter(a.db, a.clients, key, cs)), key, cs);
  }

  lemma FedSettles(a: Moment, b: Moment, d: Moment, cs: seq<Id>, rs: seq<Reply>, key: Key, more: seq<Id>)
    requires Settled(a, b, cs, rs) && Fed(b, d, key, more) && (key in b.db ==> b.db[key] != ListObj([]))
    ensures Settled(a, d, cs + more, rs + RepliesTo(b.db, b.clients, key, more))
  {
    assert Unfold(Giving, 0);
    SettledKey(a, b, cs, rs, key, more);
    if more != [] {
      assert more[0] in more;
      SettledConcerns(a, b, cs, rs, more[0], key);
      SettledTidied(a, Later(b, key, more), cs + more, rs + RepliesTo(b.db, b.clients, key, more), key);
    }
    SettledWaiters(a, Later(b, key, more).(db := d.db), cs + more, rs + RepliesTo(b.db, b.clients, key, more),
                   d.waiters);
  }

  lemma SettledConcerns(a: Moment, b: Moment, cs: seq<Id>, rs: seq<Reply>, c: Id, key: Key)
    requires Settled(a, b, cs, rs) && Waits(b.clients, c, key)
    ensures Concerned(a.clients, key)
  {
    assert Unfold(Settling, 0);
    StillWaits(a.clients, b.clients, cs, rs, c, key);
  }

  lemma SettledStill(a: Moment, b: Moment, cs: seq<Id>, rs: seq<Reply>, key: Key)
    requires Settled(a, b, cs, rs) && forall c :: c in At(b.waiters, key) ==> Waits(b.clients, c, key)
    ensures forall c :: c in At(b.waiters, key) ==> c in a.clients && c in b.clients && a.clients[c] == b.clients[c]
  {
    assert Unfold(Settling, 0);
    forall c | c in At(b.waiters, key)
      ensures c in a.clients && c in b.clients && a.clients[c] == b.clients[c]
    {
      StillWaits(a.clients, b.clients, cs, rs, c, key);
    }
  }

  lemma SettledWaiters(a: Moment, b: Moment, cs: seq<Id>, rs: seq<Reply>, waiters: Waiters)
    requires Settled(a, b, cs, rs)
    ensures Settled(a, b.(waiters := waiters), cs, rs)
  {
    assert Unfold(Settling, 0);
  }
}
