/**
 What the steps of blocked.c and of the blocking commands keep: the index, the flags, the
 counters, the queue of ready keys, and that nobody waits for data that is there.
*/
module BlockedSteps {
  import opened BlockedIndex
  import opened Hiding
  import opened Options
  import opened Sequences
  import opened Serving

  const IDLE: Client := Client(NotBlocked, false, false, map[], None, false)

  function FirstIds(keys: seq<Key>, ids: seq<int>): map<Key, int>
    requires |ids| == |keys|
  {
    if keys == [] then map[]
    else
      var n := |keys| - 1;
      var m := FirstIds(keys[..n], ids[..n]);
      if keys[n] in m then m else m[keys[n] := ids[n]]
  }

  lemma {:induction false} FirstIdsAre(keys: seq<Key>, ids: seq<int>)
    requires |ids| == |keys|
    ensures forall k :: k in FirstIds(keys, ids) <==> k in keys
  {
    if keys != [] {
      var n := |keys| - 1;
      FirstIdsAre(keys[..n], ids[..n]);
      assert keys == keys[..n] + [keys[n]];
    }
  }

  lemma FirstIdsStep(keys: seq<Key>, ids: seq<int>, j: nat)
    requires |ids| == |keys| && j < |keys|
    ensures var m := FirstIds(keys[..j], ids[..j]);
            FirstIds(keys[..j + 1], ids[..j + 1]) == if keys[j] in m then m else m[keys[j] := ids[j]]
  {
    assert keys[..j + 1][..j] == keys[..j] && ids[..j + 1][..j] == ids[..j];
  }

  lemma FirstIdsSome(keys: seq<Key>, ids: seq<int>)
    requires |ids| == |keys| && keys != []
    ensures FirstIds(keys, ids) != map[]
  {
    FirstIdsAre(keys, ids);
    assert keys[0] in keys;
  }

  function PushAll(items: seq<int>, values: seq<int>, head: bool): seq<int> {
    if values == [] then items
    else PushTo(PushAll(items, values[..|values| - 1], head), values[|values| - 1], head)
  }

  lemma PushAllSome(items: seq<int>, values: seq<int>, head: bool)
    requires values != []
    ensures PushAll(items, values, head) != []
  {
  }

  /** The client `c` once it is blocked. */
  function Asker(c: Client, t: BType, keys: map<Key, int>, target: Option<Key>, head: bool): Client {
    Client(t, true, c.unblocked, keys, target, head)
  }

  function PopAsker(c: Client, t: BType, keys: seq<Key>, target: Option<Key>, head: bool): Client {
    Asker(c, t, FirstIds(keys, seq(|keys|, i => 0)), target, head)
  }

  ghost predicate NothingFor(db: Db, c: Client) {
    forall k :: k in c.keys ==> !CanServe(db, k, c)
  }

  function FirstHere(db: Db, keys: seq<Key>): nat {
    if keys == [] || keys[0] in db then 0 else 1 + FirstHere(db, keys[1..])
  }

  lemma {:induction false} FirstHereIs(db: Db, keys: seq<Key>, j: nat)
    requires j < |keys| && keys[j] in db && forall i :: 0 <= i < j ==> keys[i] !in db
    ensures FirstHere(db, keys) == j
  {
    if j > 0 {
      FirstHereIs(db, keys[1..], j - 1);
    }
  }

  lemma {:induction false} FirstHereNone(db: Db, keys: seq<Key>)
    requires forall i :: 0 <= i < |keys| ==> keys[i] !in db
    ensures FirstHere(db, keys) == |keys|
    ensures forall k :: k in keys ==> k !in db
  {
    if keys != [] {
      FirstHereNone(db, keys[1..]);
    }
  }

  /** The blocking pop of `c`, who blocks as `me`: the first of the keys that is there gives what
      it would have given to `me`, or the command fails on its type; without such a key the
      client blocks, or gets nothing within MULTI. */
  ghost predicate PoppedOrBlocked(a: Moment, b: Moment, c: Id, me: Client, keys: seq<Key>, multi: bool) {
    var j := FirstHere(a.db, keys);
    if j >= |keys| then
      if multi then b == a.(replies := a.replies + [Nil(c)])
      else b.clients == a.clients[c := me] && b.db == a.db && b.replies == a.replies
    else if !Full(a.db, keys[j]) || Kind(a.db[keys[j]]) != me.btype then
      b == a.(replies := a.replies + [WrongType(c)])
    else
      b == a.(db := Tidied(StepDb(a.db, keys[j], me), keys[j]),
              replies := a.replies + [StepReply(a.db, keys[j], c, me)])
  }

  predicate AllStreams(db: Db, keys: seq<Key>) {
    forall k :: k in keys && k in db ==> db[k].StreamObj?
  }

  /** What a client that reads after `ids` gets at once. */
  function EntriesFor(db: Db, c: Id, keys: seq<Key>, ids: seq<int>): seq<Reply>
    requires |ids| == |keys|
  {
    if keys == [] then []
    else
      var n := |keys| - 1;
      var rest := EntriesFor(db, c, keys[..n], ids[..n]);
      if keys[n] in db && db[keys[n]].StreamObj? && db[keys[n]].length > 0 && db[keys[n]].lastId > ids[n]
      then rest + [Entries(c, keys[n], ids[n])] else rest
  }

  lemma {:induction false} NoEntries(db: Db, c: Id, keys: seq<Key>, ids: seq<int>)
    requires |ids| == |keys| && EntriesFor(db, c, keys, ids) == []
    ensures forall k :: k in FirstIds(keys, ids) && k in db && db[k].StreamObj? ==>
              db[k].length == 0 || db[k].lastId <= FirstIds(keys, ids)[k]
  {
    if keys != [] {
      NoEntries(db, c, keys[..|keys| - 1], ids[..|keys| - 1]);
    }
  }

  lemma EmptyStreamMissesNone(clients: Clients, db: Db, ready: set<Key>, k: Key)
    requires NoneMissed(clients, db, ready) && NoEmpty(db, {}) && k !in db
    ensures NoneMissed(clients, db[k := StreamObj(0, 0)], ready) && NoEmpty(db[k := StreamObj(0, 0)], {})
  {
    assert Unfold(Wakeups, 0);
    var after := db[k := StreamObj(0, 0)];
    assert forall d, j :: Waits(clients, d, j) && CanServe(after, j, clients[d]) ==> CanServe(db, j, clients[d]);
  }

  lemma NoneOfType(clients: Clients, count: nat, byType: map<BType, nat>, t: BType)
    requires Counted(clients, count, byType) && !t.NotBlocked?
    ensures t in byType
    ensures byType[t] == 0 ==> forall c :: c in clients ==> clients[c].btype != t
  {
    assert Unfold(Counts, 0);
    assert forall c :: c in clients && clients[c].btype == t ==> c in Having(clients, HasType(t));
  }

  lemma NoStreamWaiters(clients: Clients, db: Db, ready: set<Key>, k: Key, o: Obj)
    requires NoneMissed(clients, db, ready) && NoEmpty(db, {})
    requires o.StreamObj? && forall c :: c in clients ==> clients[c].btype != OnStream
    ensures NoneMissed(clients, db[k := o], ready) && NoEmpty(db[k := o], {})
  {
    assert Unfold(Wakeups, 0);
    assert forall d, j :: Waits(clients, d, j) && CanServe(db[k := o], j, clients[d]) ==> CanServe(db, j, clients[d]);
  }

  /** `k` may get smaller while it is about to be looked at. */
  lemma StartNow(clients: Clients, db: Db, ready: set<Key>, forgotten: set<Key>, k: Key, o: Obj)
    requires NoneMissed(clients, db, ready + {} + forgotten) && NoEmpty(db, {})
    ensures NoneMissed(clients, db[k := o], ready + {k} + forgotten) && NoEmpty(db[k := o], {k})
  {
    MoreEmpty(db, k);
    MoreReady(clients, db, ready + {} + forgotten, ready + {k} + forgotten);
    ChangeMissesNone(clients, db, ready + {k} + forgotten, {k}, k, o);
  }

  /** Whoever can use what is left could use what was there before. */
  lemma StopNow(clients: Clients, before: Db, db: Db, early: set<Key>, ready: set<Key>, forgotten: set<Key>, k: Key)
    requires NoneMissed(clients, before, early + {} + forgotten) && early <= ready
    requires NoneMissed(clients, db, ready + {k} + forgotten) && NoEmpty(db, {k})
    requires k in before && before[k].ListObj? && before[k].items != []
    requires k in db && db[k].ListObj? && db[k].items != []
    ensures NoneMissed(clients, db, ready + {} + forgotten) && NoEmpty(db, {})
  {
    assert Unfold(Wakeups, 0);
    forall d, j | Waits(clients, d, j) && CanServe(db, j, clients[d])
      ensures j in ready + {} + forgotten
    {
      assert j == k ==> CanServe(before, k, clients[d]);
    }
  }

  /** dbAdd tells the waiters of lists and sorted sets. */
  predicate Signals(db: Db, k: Key, o: Obj) {
    k !in db && (o.ListObj? || o.ZsetObj?)
  }

  ghost predicate NobodyFor(clients: Clients, k: Key, o: Obj) {
    forall c :: Waits(clients, c, k) ==> !CanServe(map[k := o], k, clients[c])
  }

  /** Whoever can use the new object of `k` is looked at. */
  ghost predicate Heard(clients: Clients, db: Db, ready: set<Key>, k: Key, o: Obj) {
    Signals(db, k, o) || k in ready || NobodyFor(clients, k, o)
  }

  lemma NobodyListed(clients: Clients, waiters: Waiters, k: Key, o: Obj)
    requires Index(clients, waiters)
    ensures k !in waiters ==> NobodyFor(clients, k, o)
  {
    assert Unfold(Waiting, 0);
    assert k !in waiters ==> At(waiters, k) == [];
  }

  /** Storing without a signal forgets nobody if and only if the key is to be looked at anyway, or
      none of its waiters can use the object. */
  lemma StoreMisses(clients: Clients, db: Db, ready: set<Key>, after: set<Key>, k: Key, o: Obj)
    requires NoneMissed(clients, db, ready) && ready - {k} <= after
    ensures NoneMissed(clients, db[k := o], after) <==> k in after || NobodyFor(clients, k, o)
  {
    assert Unfold(Wakeups, 0);
    assert forall c, j :: j != k && Waits(clients, c, j) ==>
                            (CanServe(db[k := o], j, clients[c]) <==> CanServe(db, j, clients[c]));
    assert forall c :: Waits(clients, c, k) ==>
                         (CanServe(db[k := o], k, clients[c]) <==> CanServe(map[k := o], k, clients[c]));
  }

  lemma StoredEmpty(db: Db, k: Key, o: Obj)
    requires NoEmpty(db, {}) && o != ListObj([]) && o != ZsetObj([])
    ensures NoEmpty(db[k := o], {})
  {
    assert Unfold(Wakeups, 0);
  }

  lemma OnlyForgotten(clients: Clients, db: Db, ready: set<Key>, forgotten: set<Key>)
    requires NoneMissed(clients, db, ready) && ready <= forgotten
    ensures forall c, k :: Waits(clients, c, k) && CanServe(db, k, clients[c]) ==> k in forgotten
  {
    assert Unfold(Wakeups, 0);
  }

  lemma IdleAt(clients: Clients, c: Id)
    requires Typed(clients) && c in clients && !clients[c].blocked
    ensures clients[c].btype.NotBlocked? && clients[c].keys == map[]
  {
    assert Unfold(Types, 0);
  }

  /** Same clients, with `c` changed in a way that no list or count depends on. */
  lemma RetargetKeeps(clients: Clients, waiters: Waiters, c: Id, now: Client)
    requires Index(clients, waiters) && c in clients && now.keys == clients[c].keys
    ensures Index(clients[c := now], waiters)
  {
    assert Unfold(Waiting, 0);
    assert forall d, k :: Waits(clients[c := now], d, k) <==> Waits(clients, d, k);
  }

  lemma RetargetCounts(clients: Clients, after: Clients, count: nat, byType: map<BType, nat>, c: Id)
    requires Counted(clients, count, byType) && c in clients && c in after && after == clients[c := after[c]]
    requires after[c].btype == clients[c].btype && after[c].blocked == clients[c].blocked
    ensures Counted(after, count, byType)
  {
    assert Unfold(Counts, 0);
    CountChange(clients, c, after[c], IsBlocked());
    forall t: BType {
      CountChange(clients, c, after[c], HasType(t));
    }
  }

  lemma BlockKeeps(clients: Clients, mid: Clients, waiters: Waiters, unblocked: seq<Id>, c: Id, now: Client)
    requires Typed(clients) && Flags(clients, unblocked) && Index(mid, waiters)
    requires c in clients && c in mid && mid == clients[c := mid[c]] && now.keys == mid[c].keys
    requires now.unblocked == clients[c].unblocked && TypedClient(now)
    ensures Index(mid[c := now], waiters) && Typed(mid[c := now]) && Flags(mid[c := now], unblocked)
  {
    RetargetKeeps(mid, waiters, c, now);
    assert Unfold(Marks, 0) && Unfold(Types, 0);
    assert mid[c := now] == clients[c := now];
  }

  lemma BlockMissesNone(clients: Clients, db: Db, ready: set<Key>, c: Id, now: Client)
    requires NoneMissed(clients, db, ready) && c in clients && NothingFor(db, now)
    ensures NoneMissed(clients[c := now], db, ready)
  {
    assert Unfold(Wakeups, 0);
    var after := clients[c := now];
    forall d, k | Waits(after, d, k) && CanServe(db, k, after[d])
      ensures k in ready
    {
      assert d != c;
      assert Waits(clients, d, k);
    }
  }

  lemma ConnectMissesNone(clients: Clients, db: Db, ready: set<Key>, c: Id)
    requires NoneMissed(clients, db, ready)
    ensures NoneMissed(clients[c := IDLE], db, ready)
  {
    assert Unfold(Wakeups, 0);
    assert IDLE.keys == map[];
    var after := clients[c := IDLE];
    forall d, k | Waits(after, d, k) && CanServe(db, k, after[d])
      ensures k in ready
    {
      assert d != c;
      assert Waits(clients, d, k);
    }
  }

  lemma ConnectKeeps(clients: Clients, waiters: Waiters, unblocked: seq<Id>, count: nat, byType: map<BType, nat>, c: Id)
    requires Index(clients, waiters) && Typed(clients)
    requires Flags(clients, unblocked) && Counted(clients, count, byType) && c !in clients
    ensures Index(clients[c := IDLE], waiters) && Typed(clients[c := IDLE])
    ensures Flags(clients[c := IDLE], unblocked) && Counted(clients[c := IDLE], count, byType)
  {
    var after := clients[c := IDLE];
    assert Unfold(Waiting, 0) && Unfold(Types, 0) && Unfold(Marks, 0) && Unfold(Counts, 0);
    assert IDLE.keys == map[];
    assert forall d, k :: Waits(after, d, k) <==> Waits(clients, d, k);
    assert Having(after, IsBlocked()) == Having(clients, IsBlocked());
    forall t: BType | !t.NotBlocked?
      ensures Having(after, HasType(t)) == Having(clients, HasType(t))
    {
    }
  }

  lemma TakeKeeps(clients: Clients, waiters: Waiters, unblocked: seq<Id>, count: nat, byType: map<BType, nat>, db: Db,
                  ready: set<Key>)
    requires Index(clients, waiters) && Typed(clients) && Flags(clients, unblocked) && Counted(clients, count, byType)
    requires NoneMissed(clients, db, ready) && unblocked != []
    ensures unblocked[0] in clients
    ensures var c := unblocked[0];
            var after := clients[c := clients[c].(unblocked := false)];
            && Index(after, waiters) && Typed(after) && Flags(after, unblocked[1..]) && Counted(after, count, byType)
            && NoneMissed(after, db, ready)
  {
    var c := unblocked[0];
    assert Unfold(Marks, 0);
    assert c in unblocked;
    var after := clients[c := clients[c].(unblocked := false)];
    assert unblocked == [c] + unblocked[1..];
    RetargetKeeps(clients, waiters, c, after[c]);
    RetargetCounts(clients, after, count, byType, c);
    assert Typed(after) by {
      assert Unfold(Types, 0);
    }
    assert NoneMissed(after, db, ready) by {
      assert Unfold(Wakeups, 0);
      assert forall d, k :: Waits(after, d, k) && CanServe(db, k, after[d]) ==>
               Waits(clients, d, k) && CanServe(db, k, clients[d]);
    }
  }

  lemma MoreEmpty(db: Db, k: Key)
    requires NoEmpty(db, {})
    ensures NoEmpty(db, {k})
    ensures k in db ==> db[k] != ListObj([]) && db[k] != ZsetObj([])
  {
    assert Unfold(Wakeups, 0);
  }

  lemma NothingQueued(ready: set<Key>, queue: seq<Key>)
    requires Queued(ready, queue) && queue == []
    ensures ready == {}
  {
    assert Unfold(Queues, 0);
  }

  lemma DropNow(clients: Clients, db: Db, ready: set<Key>, forgotten: set<Key>, k: Key)
    requires NoneMissed(clients, db, ready + {k} + forgotten - {k}) && NoEmpty(db, {k} - {k})
    ensures NoneMissed(clients, db, ready + {} + (forgotten - {k})) && NoEmpty(db, {})
  {
    assert {k} - {k} == {};
    MoreReady(clients, db, ready + {k} + forgotten - {k}, ready + {} + (forgotten - {k}));
  }

  lemma RotateKeepsIndex(clients: Clients, waiters: Waiters, k: Key)
    requires Index(clients, waiters) && k in waiters && waiters[k] != []
    ensures Index(clients, waiters[k := waiters[k][1..] + [waiters[k][0]]])
  {
    assert Unfold(Waiting, 0);
    var l := waiters[k];
    var after := waiters[k := l[1..] + [l[0]]];
    assert l == [l[0]] + l[1..] && At(waiters, k) == l;
    forall j
      ensures Distinct(At(after, j)) && forall d :: d in At(after, j) <==> d in At(waiters, j)
    {
      assert j != k ==> At(after, j) == At(waiters, j);
    }
  }

  lemma WaitersAt(clients: Clients, waiters: Waiters, k: Key)
    requires Index(clients, waiters)
    ensures Distinct(At(waiters, k))
    ensures forall d :: d in At(waiters, k) ==> Waits(clients, d, k)
  {
    assert Unfold(Waiting, 0);
  }

  lemma BlockedAt(clients: Clients, c: Id)
    requires Typed(clients) && c in clients && !clients[c].btype.NotBlocked?
    ensures clients[c].blocked
  {
    assert Unfold(Types, 0);
  }

  lemma StartTurning(clients: Clients, waiters: Waiters, t: BType, k: Key)
    requires Index(clients, waiters)
    ensures Turned(clients, clients, t, At(waiters, k), 0, At(waiters, k))
  {
    WaitersAt(clients, waiters, k);
    var s := At(waiters, k);
    assert s[0..] + Others(clients, HasType(t), s[..0]) == s;
  }

  /** The state of a loop over the clients `s` of a key when the first `i` were looked at: those
      of another type were moved to the end, the rest are gone. */
  ghost predicate Turned(before: Clients, clients: Clients, t: BType, s: seq<Id>, i: nat, l: seq<Id>) {
    && i <= |s| && l == s[i..] + Others(before, HasType(t), s[..i])
    && forall d :: d in l ==> d in before && d in clients && clients[d] == before[d]
  }

  lemma TurnOn(before: Clients, clients: Clients, t: BType, s: seq<Id>, i: nat, l: seq<Id>)
    requires Turned(before, clients, t, s, i, l) && i < |s| && clients[l[0]].btype != t
    ensures Turned(before, clients, t, s, i + 1, l[1..] + [l[0]])
    ensures Picked(before, HasType(t), s[..i + 1]) == Picked(before, HasType(t), s[..i])
  {
    NextPicked(before, HasType(t), s, i);
    assert l[0] == s[i] && l[0] in l;
    assert l[1..] + [l[0]] == s[i + 1..] + Others(before, HasType(t), s[..i + 1]);
    assert forall d :: d in l[1..] + [l[0]] ==> d in l;
  }

  lemma ServeOn(before: Clients, clients: Clients, t: BType, s: seq<Id>, i: nat, l: seq<Id>, now: Client)
    requires Turned(before, clients, t, s, i, l) && i < |s| && clients[l[0]].btype == t && Distinct(l)
    ensures Turned(before, clients[l[0] := now], t, s, i + 1, Without(l, l[0]))
    ensures Picked(before, HasType(t), s[..i + 1]) == Picked(before, HasType(t), s[..i]) + [l[0]]
    ensures l[0] in before && before[l[0]] == clients[l[0]]
  {
    NextPicked(before, HasType(t), s, i);
    assert l[0] == s[i] && l[0] in l;
    assert Without(l, l[0]) == l[1..] == s[i + 1..] + Others(before, HasType(t), s[..i + 1]);
    assert forall d :: d in l[1..] ==> d in l && d != l[0];
  }

  /** When all were looked at nobody of the type is left. */
  lemma AllTurned(before: Clients, clients: Clients, t: BType, s: seq<Id>, l: seq<Id>)
    requires Turned(before, clients, t, s, |s|, l)
    ensures forall d :: d in l && d in clients ==> clients[d].btype != t
  {
    OthersAre(before, HasType(t), s);
    assert s[..|s|] == s && l == Others(before, HasType(t), s);
  }

  /** The clients of the right type among the waiting ones fit. */
  lemma PickedFit(clients: Clients, waiters: Waiters, db: Db, key: Key, p: Client -> bool, i: nat)
    requires Index(clients, waiters) && key in db && i <= |At(waiters, key)|
    requires forall c: Client :: p(c) ==> c.btype == Kind(db[key])
    ensures Fit(clients, db, key, Picked(clients, p, At(waiters, key)[..i]))
  {
    WaitersAt(clients, waiters, key);
    PickedAre(clients, p, At(waiters, key)[..i]);
  }

  /** The state of the loop over the clients `s` of a stream when the first `i` were looked at:
      those who were served are gone, the others stay in place. */
  ghost predicate Passed(before: Clients, clients: Clients, p: Client -> bool, s: seq<Id>, i: nat, l: seq<Id>,
                         pos: int) {
    && i <= |s| && l == Others(before, p, s[..i]) + s[i..] && pos == |Others(before, p, s[..i])|
    && forall d :: d in l ==> d in before && d in clients && clients[d] == before[d]
  }

  lemma StartPassing(clients: Clients, waiters: Waiters, p: Client -> bool, k: Key)
    requires Index(clients, waiters)
    ensures Passed(clients, clients, p, At(waiters, k), 0, At(waiters, k), 0)
  {
    WaitersAt(clients, waiters, k);
    var s := At(waiters, k);
    assert Others(clients, p, s[..0]) + s[0..] == s;
  }

  lemma PassOne(before: Clients, clients: Clients, p: Client -> bool, s: seq<Id>, i: nat, l: seq<Id>, pos: int)
    requires Passed(before, clients, p, s, i, l, pos) && pos < |l| && Distinct(l)
    ensures i < |s| && l[pos] == s[i] && s[i] in before && s[i] in clients && before[s[i]] == clients[s[i]]
    ensures !p(clients[s[i]]) ==>
              && Passed(before, clients, p, s, i + 1, l, pos + 1)
              && Picked(before, p, s[..i + 1]) == Picked(before, p, s[..i])
    ensures p(clients[s[i]]) ==>
              && Passed(before, clients[s[i] := Freed(clients[s[i]])], p, s, i + 1, l[..pos] + l[pos + 1..], pos)
              && Picked(before, p, s[..i + 1]) == Picked(before, p, s[..i]) + [s[i]]
  {
    assert l[pos] in l && i < |s| && l[pos] == s[i];
    NextPicked(before, p, s, i);
    if p(clients[s[i]]) {
      var rest := l[..pos] + l[pos + 1..];
      assert rest == Others(before, p, s[..i]) + s[i + 1..];
      forall d | d in rest
        ensures d in l && d != s[i]
      {
      }
    } else {
      assert l == Others(before, p, s[..i + 1]) + s[i + 1..];
    }
  }

  lemma AllPassed(before: Clients, clients: Clients, p: Client -> bool, s: seq<Id>, i: nat, l: seq<Id>, pos: int)
    requires Passed(before, clients, p, s, i, l, pos) && pos >= |l|
    ensures i == |s| && s[..i] == s && l == Others(before, p, s)
    ensures forall d :: d in l && d in clients ==> !p(clients[d])
  {
    assert s[..i] == s;
    OthersAre(before, p, s);
  }

  /** The clients that wait for entries older than the last one. */
  function Behind(key: Key, lastId: int): Client -> bool {
    (c: Client) => c.btype.OnStream? && key in c.keys && lastId > c.keys[key]
  }

  lemma TakenOutNone(clients: Clients, waiters: Waiters, c: Id)
    requires Index(clients, waiters)
    ensures TakenOut(waiters, waiters, {}, c)
  {
    assert Unfold(Waiting, 0);
  }

  lemma FreeKeepsTypes(clients: Clients, c: Id)
    requires Typed(clients) && c in clients
    ensures TypedClient(clients[c]) && Typed(clients[c := Freed(clients[c])])
  {
    assert Unfold(Types, 0);
  }

  lemma QueueKeepsFlags(clients: Clients, unblocked: seq<Id>, c: Id)
    requires Flags(clients, unblocked) && c in clients && !clients[c].unblocked
    ensures Flags(clients[c := clients[c].(unblocked := true)], unblocked + [c])
  {
    assert Unfold(Marks, 0);
  }

  lemma SetTwice(clients: Clients, c: Id, x: Client, y: Client)
    ensures clients[c := x][c := y] == clients[c := y]
  {
  }

  lemma SameFlags(clients: Clients, unblocked: seq<Id>, c: Id, now: Client)
    requires Flags(clients, unblocked) && c in clients && now.unblocked == clients[c].unblocked
    ensures Flags(clients[c := now], unblocked)
  {
    assert Unfold(Marks, 0);
  }
}
