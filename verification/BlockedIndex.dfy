/**
 The two-way index between blocked clients and the keys they wait for, as values: what it
 means, and what each update of it keeps.
*/
module BlockedIndex {
  import opened Hiding
  import opened Options
  import opened Sequences

  type Id = nat

  datatype Key = Key(db: nat, name: int)

  datatype BType = NotBlocked | OnList | OnZset | OnStream | OnOther

  /** A client: the flags CLIENT_BLOCKED and CLIENT_UNBLOCKED, and its bpop state. The value of
      a key is the stream ID the client waits beyond, and means nothing for the other types. */
  datatype Client = Client(btype: BType, blocked: bool, unblocked: bool, keys: map<Key, int>, target: Option<Key>,
                           head: bool)

  datatype Obj = ListObj(items: seq<int>) | ZsetObj(members: seq<int>) | StreamObj(lastId: int, length: nat) | OtherObj

  type Clients = map<Id, Client>
  type Waiters = map<Key, seq<Id>>
  type Db = map<Key, Obj>

  /** The clients waiting for a key, first come first. */
  function At(waiters: Waiters, k: Key): seq<Id> {
    if k in waiters then waiters[k] else []
  }

  predicate Waits(clients: Clients, c: Id, k: Key) {
    c in clients && k in clients[c].keys
  }

  predicate ForKeys(t: BType) {
    t.OnList? || t.OnZset? || t.OnStream?
  }

  /** A client is in the list of a key exactly once when the key is among its own, and never
      otherwise; no list is empty. */
  ghost predicate Index(clients: Clients, waiters: Waiters) {
    forall u: nat :: Unfold(Waiting, u) ==>
      && (forall c, k :: Waits(clients, c, k) <==> c in At(waiters, k))
      && (forall k :: Distinct(At(waiters, k)))
      && (forall k :: k in waiters ==> waiters[k] != [])
  }

  ghost predicate Typed(clients: Clients) {
    forall u: nat :: Unfold(Types, u) ==> forall c :: c in clients ==> TypedClient(clients[c])
  }

  ghost predicate TypedClient(c: Client) {
    && (c.keys != map[] <==> ForKeys(c.btype)) && (!ForKeys(c.btype) ==> c.target.None?)
    && (c.blocked <==> !c.btype.NotBlocked?)
  }

  ghost predicate Flags(clients: Clients, unblocked: seq<Id>) {
    forall u: nat :: Unfold(Marks, u) ==>
      Distinct(unblocked) && forall c :: c in unblocked <==> c in clients && clients[c].unblocked
  }

  ghost function Having(clients: Clients, p: Client -> bool): set<Id> {
    set c | c in clients && p(clients[c])
  }

  /** How many clients have a property. */
  ghost function Count(clients: Clients, p: Client -> bool): nat {
    |Having(clients, p)|
  }

  function HasType(t: BType): Client -> bool {
    (c: Client) => c.btype == t
  }

  function IsBlocked(): Client -> bool {
    (c: Client) => c.blocked
  }

  ghost predicate Counted(clients: Clients, count: nat, byType: map<BType, nat>) {
    forall u: nat :: Unfold(Counts, u) ==>
      && count == Count(clients, IsBlocked())
      && forall t: BType :: !t.NotBlocked? ==> t in byType && byType[t] == Count(clients, HasType(t))
  }

  /** A key is in the ready dictionary exactly when it is queued, and it is queued once. */
  ghost predicate Queued(ready: set<Key>, queue: seq<Key>) {
    forall u: nat :: Unfold(Queues, u) ==> Distinct(queue) && forall k :: k in ready <==> k in queue
  }

  // ---- wakeups ----

  /** The object could serve the client right now. */
  ghost predicate CanServe(db: Db, k: Key, c: Client) {
    k in db && k in c.keys &&
    match db[k]
    case ListObj(items) => c.btype.OnList? && items != []
    case ZsetObj(members) => c.btype.OnZset? && members != []
    case StreamObj(lastId, length) => c.btype.OnStream? && length > 0 && lastId > c.keys[k]
    case OtherObj => false
  }

  /** Every key with data for one of its waiters is about to be looked at. */
  ghost predicate NoneMissed(clients: Clients, db: Db, ready: set<Key>) {
    forall u: nat :: Unfold(Wakeups, u) ==>
      forall c, k :: Waits(clients, c, k) && CanServe(db, k, clients[c]) ==> k in ready
  }

  /** Lists and sorted sets are deleted when they become empty, except `now` for a moment. */
  ghost predicate NoEmpty(db: Db, now: set<Key>) {
    forall u: nat :: Unfold(Wakeups, u) ==>
      forall k :: k in db && k !in now ==> db[k] != ListObj([]) && db[k] != ZsetObj([])
  }

  // ---- lists of clients ----

  /** `s` with the first occurrence of `c` taken out. */
  function Without(s: seq<Id>, c: Id): seq<Id> {
    if s == [] then [] else if s[0] == c then s[1..] else [s[0]] + Without(s[1..], c)
  }

  lemma {:induction false} WithoutKeeps(s: seq<Id>, c: Id)
    requires Distinct(s)
    ensures Distinct(Without(s, c)) && forall d :: d in Without(s, c) <==> d in s && d != c
    ensures c in s ==> |Without(s, c)| == |s| - 1
    ensures c !in s ==> Without(s, c) == s
  {
    if s != [] {
      WithoutKeeps(s[1..], c);
      var t := Without(s, c);
      assert s == [s[0]] + s[1..];
      if s[0] != c {
        assert forall i :: 0 < i < |t| ==> t[i] == Without(s[1..], c)[i - 1];
        assert forall i :: 0 < i < |t| ==> t[i] in Without(s[1..], c);
      } else {
        assert forall i :: 0 < i < |s| ==> s[i] != c;
      }
    }
  }

  lemma {:induction false} WithoutFirst(s: seq<Id>, i: nat)
    requires i < |s| && Distinct(s)
    ensures Without(s, s[i]) == s[..i] + s[i + 1..]
  {
    if i > 0 {
      assert s[1..][i - 1] == s[i];
      WithoutFirst(s[1..], i - 1);
      assert s[..i] == [s[0]] + s[1..][..i - 1];
    }
  }

  // ---- taking a client out, and putting one in ----

  function Freed(c: Client): Client {
    c.(btype := NotBlocked, blocked := false, unblocked := true, keys := map[], target := None)
  }

  /** `c` is out of the lists of the keys `ks`, and no other list changed. */
  ghost predicate TakenOut(before: Waiters, after: Waiters, ks: set<Key>, c: Id) {
    forall u: nat :: Unfold(Waiting, u) ==>
      && (forall k :: At(after, k) == if k in ks then Without(At(before, k), c) else At(before, k))
      && (forall k :: k in after ==> after[k] != [])
  }

  lemma TakenOutStep(before: Waiters, after: Waiters, ks: set<Key>, c: Id, k: Key)
    requires TakenOut(before, after, ks, c) && k in after && k !in ks
    ensures var l := Without(after[k], c);
            TakenOut(before, if l == [] then after - {k} else after[k := l], ks + {k}, c)
  {
    assert Unfold(Waiting, 0);
    var l := Without(after[k], c);
    var next := if l == [] then after - {k} else after[k := l];
    assert At(next, k) == l;
    assert forall j :: j != k ==> At(next, j) == At(after, j);
  }

  lemma FreeKeepsIndex(clients: Clients, before: Waiters, after: Waiters, c: Id, now: Client)
    requires Index(clients, before) && c in clients && TakenOut(before, after, clients[c].keys.Keys, c)
    requires now.keys == map[]
    ensures Index(clients[c := now], after)
    ensures forall k :: At(after, k) == Without(At(before, k), c)
  {
    assert Unfold(Waiting, 0);
    forall k
      ensures At(after, k) == Without(At(before, k), c) && Distinct(At(after, k))
      ensures forall d :: Waits(clients[c := now], d, k) <==> d in At(after, k)
    {
      WithoutKeeps(At(before, k), c);
      assert Waits(clients, c, k) <==> c in At(before, k);
      assert forall d :: Waits(clients, d, k) <==> d in At(before, k);
    }
  }

  lemma CountChange(clients: Clients, c: Id, now: Client, p: Client -> bool)
    requires c in clients
    ensures Count(clients[c := now], p) ==
              Count(clients, p) - (if p(clients[c]) then 1 else 0) + (if p(now) then 1 else 0)
    ensures p(clients[c]) ==> Count(clients, p) > 0
  {
    var all, next := Having(clients, p), Having(clients[c := now], p);
    assert next - {c} == all - {c};
    assert |all - {c}| == |all| - (if c in all then 1 else 0);
    assert |next - {c}| == |next| - (if c in next then 1 else 0);
  }

  lemma FreeKeepsCount(clients: Clients, c: Id, count: nat, byType: map<BType, nat>)
    requires Counted(clients, count, byType) && c in clients && clients[c].blocked && !clients[c].btype.NotBlocked?
    ensures var t := clients[c].btype;
            && count > 0 && t in byType && byType[t] > 0
            && Counted(clients[c := Freed(clients[c])], count - 1, byType[t := byType[t] - 1])
  {
    assert Unfold(Counts, 0);
    var t := clients[c].btype;
    CountChange(clients, c, Freed(clients[c]), IsBlocked());
    forall u: BType {
      CountChange(clients, c, Freed(clients[c]), HasType(u));
    }
    assert HasType(t)(clients[c]);
  }

  lemma BlockKeepsCount(clients: Clients, c: Id, count: nat, byType: map<BType, nat>, now: Client)
    requires Counted(clients, count, byType) && c in clients && !clients[c].blocked && clients[c].btype.NotBlocked?
    requires now.blocked && !now.btype.NotBlocked?
    ensures now.btype in byType
    ensures Counted(clients[c := now], count + 1, byType[now.btype := byType[now.btype] + 1])
  {
    assert Unfold(Counts, 0);
    CountChange(clients, c, now, IsBlocked());
    forall u: BType {
      CountChange(clients, c, now, HasType(u));
    }
  }

  lemma PutInKeepsIndex(clients: Clients, waiters: Waiters, c: Id, k: Key, id: int)
    requires Index(clients, waiters) && c in clients && k !in clients[c].keys
    ensures var was := clients[c];
            Index(clients[c := was.(keys := was.keys[k := id])], waiters[k := At(waiters, k) + [c]])
  {
    assert Unfold(Waiting, 0);
    var was := clients[c];
    var after, next := clients[c := was.(keys := was.keys[k := id])], waiters[k := At(waiters, k) + [c]];
    assert !Waits(clients, c, k);
    forall j
      ensures Distinct(At(next, j)) && forall d :: Waits(after, d, j) <==> d in At(next, j)
    {
      assert forall d :: Waits(clients, d, j) <==> d in At(waiters, j);
      assert j != k ==> At(next, j) == At(waiters, j);
    }
  }

  // ---- what keeps wakeups ----

  lemma FreeMissesNone(clients: Clients, db: Db, ready: set<Key>, c: Id)
    requires NoneMissed(clients, db, ready) && c in clients
    ensures NoneMissed(clients[c := Freed(clients[c])], db, ready)
  {
    assert Unfold(Wakeups, 0);
    var after := clients[c := Freed(clients[c])];
    assert after[c].keys == map[];
    forall d, k | Waits(after, d, k) && CanServe(db, k, after[d])
      ensures k in ready
    {
      assert d != c;
      assert Waits(clients, d, k);
    }
  }

  /** A key that is about to be looked at may change. */
  lemma ChangeMissesNone(clients: Clients, db: Db, ready: set<Key>, now: set<Key>, k: Key, o: Obj)
    requires NoneMissed(clients, db, ready) && NoEmpty(db, now) && k in ready && k in now
    ensures NoneMissed(clients, db[k := o], ready) && NoEmpty(db[k := o], now)
  {
    assert Unfold(Wakeups, 0);
    assert forall d, j :: Waits(clients, d, j) && CanServe(db[k := o], j, clients[d]) && j != k ==>
             CanServe(db, j, clients[d]);
  }

  /** Neither is anybody forgotten when a list or sorted set gets smaller. */
  lemma FewerMissesNone(clients: Clients, db: Db, ready: set<Key>, now: set<Key>, k: Key, o: Obj)
    requires NoneMissed(clients, db, ready) && NoEmpty(db, now) && k in db
    requires (o.ListObj? && db[k].ListObj? && o.items != [] && db[k].items != [])
          || (o.ZsetObj? && db[k].ZsetObj? && o.members != [] && db[k].members != [])
    ensures NoneMissed(clients, db[k := o], ready) && NoEmpty(db[k := o], now)
  {
    assert Unfold(Wakeups, 0);
    assert forall d, j :: Waits(clients, d, j) && CanServe(db[k := o], j, clients[d]) ==> CanServe(db, j, clients[d]);
  }

  /** Pushing to a list that is there needs no signal: if it had waiters they were seen to when
      it got its first element. */
  lemma PushMissesNone(clients: Clients, db: Db, ready: set<Key>, now: set<Key>, k: Key, items: seq<int>)
    requires NoneMissed(clients, db, ready) && NoEmpty(db, now) && now <= ready
    requires k in db && db[k].ListObj? && items != []
    ensures NoneMissed(clients, db[k := ListObj(items)], ready) && NoEmpty(db[k := ListObj(items)], now)
  {
    assert Unfold(Wakeups, 0);
    assert k in now || db[k].items != [];
    forall d, j | Waits(clients, d, j) && CanServe(db[k := ListObj(items)], j, clients[d])
      ensures j in ready
    {
      assert k in now || CanServe(db, j, clients[d]);
    }
  }

  /** A new key needs the signal, and only if somebody waits for it. */
  lemma AddMissesNone(clients: Clients, waiters: Waiters, db: Db, ready: set<Key>, more: set<Key>, now: set<Key>,
                      k: Key, o: Obj)
    requires Index(clients, waiters) && NoneMissed(clients, db, ready) && NoEmpty(db, now)
    requires o != ListObj([]) && o != ZsetObj([])
    requires ready <= more && (k in waiters ==> k in more)
    ensures NoneMissed(clients, db[k := o], more) && NoEmpty(db[k := o], now)
  {
    assert Unfold(Wakeups, 0) && Unfold(Waiting, 0);
    forall d, j | Waits(clients, d, j) && CanServe(db[k := o], j, clients[d])
      ensures j in more
    {
      assert d in At(waiters, j);
      assert j == k || CanServe(db, j, clients[d]);
    }
  }

  lemma DeleteMissesNone(clients: Clients, db: Db, ready: set<Key>, now: set<Key>, k: Key)
    requires NoneMissed(clients, db, ready) && NoEmpty(db, now)
    ensures NoneMissed(clients, db - {k}, ready) && NoEmpty(db - {k}, now)
    ensures NoneMissed(clients, db - {k}, ready - {k}) && NoEmpty(db - {k}, now - {k})
  {
    assert Unfold(Wakeups, 0);
    assert forall d, j :: Waits(clients, d, j) && CanServe(db - {k}, j, clients[d]) ==>
             j != k && CanServe(db, j, clients[d]);
  }

  /** When nobody who waits for the key can be served it need not be looked at again. */
  lemma DoneMissesNone(clients: Clients, waiters: Waiters, db: Db, ready: set<Key>, now: set<Key>, k: Key)
    requires Index(clients, waiters) && NoneMissed(clients, db, ready) && NoEmpty(db, now)
    requires k in db ==> db[k] != ListObj([]) && db[k] != ZsetObj([])
    requires forall d :: d in At(waiters, k) && d in clients ==> !CanServe(db, k, clients[d])
    ensures NoneMissed(clients, db, ready - {k}) && NoEmpty(db, now - {k})
  {
    assert Unfold(Wakeups, 0) && Unfold(Waiting, 0);
    forall d, j | Waits(clients, d, j) && CanServe(db, j, clients[d])
      ensures j in ready - {k}
    {
      assert d in At(waiters, j);
    }
  }

  lemma MoreReady(clients: Clients, db: Db, ready: set<Key>, more: set<Key>)
    requires NoneMissed(clients, db, ready) && ready <= more
    ensures NoneMissed(clients, db, more)
  {
    assert Unfold(Wakeups, 0);
  }

  lemma QueueOne(ready: set<Key>, queue: seq<Key>, k: Key)
    requires Queued(ready, queue) && k !in ready
    ensures Queued(ready + {k}, queue + [k])
  {
    assert Unfold(Queues, 0);
  }

  lemma DequeueOne(ready: set<Key>, queue: seq<Key>)
    requires Queued(ready, queue) && queue != []
    ensures Queued(ready - {queue[0]}, queue[1..]) && queue[0] in ready
  {
    assert Unfold(Queues, 0);
    assert queue[0] in queue;
    assert forall k :: k in queue[1..] <==> k in queue && k != queue[0];
  }
}
