/**
 The order of values. Pushed values lie in a list in the order of the command, clients that pop
 take them from their end one after the other, and what BRPOPLPUSH moves keeps its order.
*/
module ServingOrder {
  import opened BlockedIndex
  import opened BlockedSteps
  import opened Options
  import opened Sequences
  import opened Serving

  // ---- pushing ----

  /** RPUSH appends the values in order. */
  lemma {:induction false} PushedAtTail(items: seq<int>, values: seq<int>)
    ensures PushAll(items, values, false) == items + values
  {
    if values != [] {
      PushedAtTail(items, values[..|values| - 1]);
    }
  }

  /** LPUSH puts the last value first. */
  lemma {:induction false} PushedAtHead(items: seq<int>, values: seq<int>)
    ensures var all, n := PushAll(items, values, true), |values|;
            && |all| == n + |items| && all[n..] == items
            && forall i :: 0 <= i < n ==> all[i] == values[n - 1 - i]
  {
    if values != [] {
      var n := |values| - 1;
      PushedAtHead(items, values[..n]);
      var most, all := PushAll(items, values[..n], true), PushAll(items, values, true);
      assert all == [values[n]] + most;
      assert all[n + 1..] == most[n..];
    }
  }

  // ---- popping ----

  /** The element that the client number `i` takes, counted from 0. */
  function TakenAt(items: seq<int>, head: bool, i: nat): int
    requires i < |items|
  {
    if head then items[i] else items[|items| - 1 - i]
  }

  function LeftAfter(items: seq<int>, head: bool, n: nat): seq<int>
    requires n <= |items|
  {
    if head then items[n..] else items[..|items| - n]
  }

  lemma NextTaken(items: seq<int>, head: bool, n: nat)
    requires n < |items|
    ensures var left := LeftAfter(items, head, n);
            && left != [] && PopValue(left, head) == TakenAt(items, head, n)
            && PopRest(left, head) == LeftAfter(items, head, n + 1)
  {
  }

  /** The clients wait at one end, and want the element for themselves. */
  ghost predicate AllPop(clients: Clients, cs: seq<Id>, head: bool) {
    forall i :: 0 <= i < |cs| ==> cs[i] in clients && clients[cs[i]].target.None? && clients[cs[i]].head == head
  }

  function PoppedAll(cs: seq<Id>, key: Key, items: seq<int>, head: bool): seq<Reply>
    requires |cs| <= |items|
  {
    seq(|cs|, i requires 0 <= i < |cs| => Popped(cs[i], key, TakenAt(items, head, i)))
  }

  lemma PoppedMore(cs: seq<Id>, c: Id, key: Key, items: seq<int>, head: bool)
    requires |cs| < |items|
    ensures PoppedAll(cs + [c], key, items, head) ==
              PoppedAll(cs, key, items, head) + [Popped(c, key, TakenAt(items, head, |cs|))]
  {
  }

  lemma SetAgain(db: Db, key: Key, o: Obj, p: Obj)
    ensures db[key := o][key := p] == db[key := p]
  {
  }

  /** The last client of `cs + [c]`. */
  lemma OneMore(db: Db, clients: Clients, key: Key, cs: seq<Id>, c: Id)
    requires c in clients && Full(DbAfter(db, clients, key, cs), key)
    ensures var d := DbAfter(db, clients, key, cs);
            && DbAfter(db, clients, key, cs + [c]) == StepDb(d, key, clients[c])
            && RepliesTo(db, clients, key, cs + [c]) ==
                 RepliesTo(db, clients, key, cs) + [StepReply(d, key, c, clients[c])]
  {
    assert (cs + [c])[..|cs|] == cs;
  }

  /** Clients that pop from a list get its elements from their end, in the order of the clients. */
  lemma {:induction false} ListPopsInOrder(db: Db, clients: Clients, key: Key, cs: seq<Id>, items: seq<int>, head: bool)
    requires key in db && db[key] == ListObj(items) && AllPop(clients, cs, head) && |cs| <= |items|
    ensures DbAfter(db, clients, key, cs) == db[key := ListObj(LeftAfter(items, head, |cs|))]
    ensures RepliesTo(db, clients, key, cs) == PoppedAll(cs, key, items, head)
    decreases |cs|
  {
    if cs == [] {
      assert db[key := ListObj(items)] == db && LeftAfter(items, head, 0) == items;
    } else {
      var most, c := cs[..|cs| - 1], cs[|cs| - 1];
      assert cs == most + [c];
      ListPopsInOrder(db, clients, key, most, items, head);
      NextTaken(items, head, |most|);
      OneMore(db, clients, key, most, c);
      PoppedMore(most, c, key, items, head);
      SetAgain(db, key, ListObj(LeftAfter(items, head, |most|)), ListObj(LeftAfter(items, head, |cs|)));
    }
  }

  function ZsetLeft(db: Db, key: Key, members: seq<int>, head: bool, n: nat): Db
    requires n <= |members|
  {
    if n == |members| then db - {key} else db[key := ZsetObj(LeftAfter(members, head, n))]
  }

  /** Those of a sorted set get the members with the lowest scores first, or the highest. */
  lemma {:induction false} ZsetPopsInOrder(db: Db, clients: Clients, key: Key, cs: seq<Id>, members: seq<int>,
                                           head: bool)
    requires key in db && db[key] == ZsetObj(members) && AllPop(clients, cs, head) && |cs| <= |members| && members != []
    ensures DbAfter(db, clients, key, cs) == ZsetLeft(db, key, members, head, |cs|)
    ensures RepliesTo(db, clients, key, cs) == PoppedAll(cs, key, members, head)
    decreases |cs|
  {
    if cs == [] {
      assert db[key := ZsetObj(members)] == db && LeftAfter(members, head, 0) == members;
    } else {
      var most, c := cs[..|cs| - 1], cs[|cs| - 1];
      assert cs == most + [c];
      ZsetPopsInOrder(db, clients, key, most, members, head);
      ZsetPopOne(db, key, members, head, |most|, clients[c]);
      OneMore(db, clients, key, most, c);
      PoppedMore(most, c, key, members, head);
    }
  }

  lemma ZsetPopOne(db: Db, key: Key, members: seq<int>, head: bool, n: nat, c: Client)
    requires key in db && n < |members| && c.head == head
    ensures var d := ZsetLeft(db, key, members, head, n);
            && Full(d, key) && StepDb(d, key, c) == ZsetLeft(db, key, members, head, n + 1)
            && forall id :: StepReply(d, key, id, c) == Popped(id, key, TakenAt(members, head, n))
  {
    NextTaken(members, head, n);
    var d := db[key := ZsetObj(LeftAfter(members, head, n))];
    SetAgain(db, key, ZsetObj(LeftAfter(members, head, n)), ZsetObj(LeftAfter(members, head, n + 1)));
    assert d - {key} == db - {key};
  }

  // ---- moving ----

  /** The clients are in BRPOPLPUSH to `target`. */
  ghost predicate AllMove(clients: Clients, cs: seq<Id>, target: Key) {
    forall i :: 0 <= i < |cs| ==> cs[i] in clients && clients[cs[i]].target == Some(target) && !clients[cs[i]].head
  }

  function MovedDb(db: Db, key: Key, target: Key, items: seq<int>, n: nat): Db
    requires n <= |items|
  {
    if n == 0 then db
    else
      var at := |items| - n;
      db[key := ListObj(items[..at])][target := ListObj(items[at..] + ItemsAt(db, target))]
  }

  function MovedReplies(cs: seq<Id>, items: seq<int>): seq<Reply>
    requires |cs| <= |items|
  {
    seq(|cs|, i requires 0 <= i < |cs| => Moved(cs[i], items[|items| - 1 - i]))
  }

  lemma MovedMore(cs: seq<Id>, c: Id, items: seq<int>)
    requires |cs| < |items|
    ensures MovedReplies(cs + [c], items) == MovedReplies(cs, items) + [Moved(c, items[|items| - 1 - |cs|])]
  {
  }

  lemma MoveOne(db: Db, key: Key, target: Key, items: seq<int>, n: nat, c: Client)
    requires key != target && key in db && db[key] == ListObj(items) && !BadTarget(db, Some(target)) && n < |items|
    requires c.target == Some(target) && !c.head
    ensures var d := MovedDb(db, key, target, items, n);
            && Full(d, key) && StepDb(d, key, c) == MovedDb(db, key, target, items, n + 1)
            && forall id :: StepReply(d, key, id, c) == Moved(id, items[|items| - 1 - n])
  {
    var d, at := MovedDb(db, key, target, items, n), |items| - n;
    assert items[..at] == (if n == 0 then items else items[..at]);
    assert d[key] == ListObj(items[..at]) && ItemsAt(d, target) == items[at..] + ItemsAt(db, target);
    assert items[..at][..at - 1] == items[..at - 1];
    assert [items[at - 1]] + (items[at..] + ItemsAt(db, target)) == items[at - 1..] + ItemsAt(db, target);
  }

  /** What BRPOPLPUSH moves from one list to another keeps its order: the last elements of the one
      are the first of the other. */
  lemma {:induction false} MovesInOrder(db: Db, clients: Clients, key: Key, target: Key, cs: seq<Id>, items: seq<int>)
    requires key != target && key in db && db[key] == ListObj(items) && !BadTarget(db, Some(target))
    requires AllMove(clients, cs, target) && |cs| <= |items|
    ensures DbAfter(db, clients, key, cs) == MovedDb(db, key, target, items, |cs|)
    ensures RepliesTo(db, clients, key, cs) == MovedReplies(cs, items)
    decreases |cs|
  {
    if cs != [] {
      var most, c := cs[..|cs| - 1], cs[|cs| - 1];
      assert cs == most + [c];
      MovesInOrder(db, clients, key, target, most, items);
      MoveOne(db, key, target, items, |most|, clients[c]);
      OneMore(db, clients, key, most, c);
      MovedMore(most, c, items);
    }
  }

  /** The last `n` elements come first. */
  function TurnedBy(items: seq<int>, n: nat): seq<int>
    requires n <= |items|
  {
    items[|items| - n..] + items[..|items| - n]
  }

  lemma TurnOnce(items: seq<int>, n: nat, turned: seq<int>)
    requires n < |items| && turned == TurnedBy(items, n)
    ensures [PopValue(turned, false)] + PopRest(turned, false) == TurnedBy(items, n + 1)
  {
    var at := |items| - n;
    assert turned[|items| - 1] == items[at - 1];
    assert items[at - 1..] == [items[at - 1]] + items[at..];
    assert turned[..|items| - 1] == items[at..] + items[..at - 1];
  }

  lemma TurnedFully(items: seq<int>)
    ensures TurnedBy(items, |items|) == items && TurnedBy(items, 0) == items
  {
  }

  lemma MoveToItself(db: Db, key: Key, turned: seq<int>, c: Client)
    requires turned != [] && c.target == Some(key) && !c.head
    ensures var d := db[key := ListObj(turned)];
            && Full(d, key)
            && StepDb(d, key, c) == db[key := ListObj([PopValue(turned, false)] + PopRest(turned, false))]
  {
    SetAgain(db, key, ListObj(turned), ListObj(PopRest(turned, false)));
    SetAgain(db, key, ListObj(PopRest(turned, false)), ListObj([PopValue(turned, false)] + PopRest(turned, false)));
  }

  lemma OneRoundLess(q: nat, n: nat)
    requires q > 0
    ensures q * n == (q - 1) * n + n
  {
  }

  /** BRPOPLPUSH from a list to itself turns it round, however many clients are served: after `q`
      full rounds and `n` more, the last `n` elements come first. */
  lemma {:induction false} TurnsRound(db: Db, clients: Clients, key: Key, cs: seq<Id>, items: seq<int>, q: nat, n: nat)
    requires key in db && db[key] == ListObj(items) && items != [] && AllMove(clients, cs, key)
    requires |cs| == q * |items| + n && n <= |items|
    ensures DbAfter(db, clients, key, cs) == db[key := ListObj(TurnedBy(items, n))]
    decreases |cs|, q
  {
    TurnedFully(items);
    if cs == [] {
      assert db[key := ListObj(items)] == db;
      assert n == 0;
    } else if n == 0 {
      OneRoundLess(q, |items|);
      TurnsRound(db, clients, key, cs, items, q - 1, |items|);
    } else {
      var most, c := cs[..|cs| - 1], cs[|cs| - 1];
      assert cs == most + [c];
      TurnsRound(db, clients, key, most, items, q, n - 1);
      var turned := TurnedBy(items, n - 1);
      MoveToItself(db, key, turned, clients[c]);
      OneMore(db, clients, key, most, c);
      TurnOnce(items, n - 1, turned);
    }
  }

  /** With a target of another type nothing moves, and every client gets an error. */
  lemma {:induction false} BadTargetMovesNothing(db: Db, clients: Clients, key: Key, target: Key, cs: seq<Id>)
    requires key in db && db[key].ListObj? && db[key].items != [] && target in db && !db[target].ListObj?
    requires AllMove(clients, cs, target)
    ensures DbAfter(db, clients, key, cs) == db
    ensures RepliesTo(db, clients, key, cs) == seq(|cs|, i requires 0 <= i < |cs| => WrongType(cs[i]))
    decreases |cs|
  {
    if cs != [] {
      var most, c := cs[..|cs| - 1], cs[|cs| - 1];
      assert cs == most + [c];
      BadTargetMovesNothing(db, clients, key, target, most);
      OneMore(db, clients, key, most, c);
    }
  }

  // ---- which keys and IDs a client waits for ----

  /** A key given twice counts with the ID given first. */
  lemma {:induction false} FirstIdCounts(keys: seq<Key>, ids: seq<int>, i: nat)
    requires |ids| == |keys| && i < |keys| && keys[i] !in keys[..i]
    ensures keys[i] in FirstIds(keys, ids) && FirstIds(keys, ids)[keys[i]] == ids[i]
    decreases |keys|
  {
    var n := |keys| - 1;
    if i < n {
      assert keys[..n][..i] == keys[..i];
      FirstIdCounts(keys[..n], ids[..n], i);
    } else {
      FirstIdsAre(keys[..n], ids[..n]);
    }
  }

  /** XREAD finds exactly the streams with an entry after the ID given for them. */
  lemma {:induction false} EntriesAreNew(db: Db, c: Id, keys: seq<Key>, ids: seq<int>)
    requires |ids| == |keys|
    ensures forall i :: 0 <= i < |keys| && HasNew(db, keys[i], ids[i]) ==>
              Entries(c, keys[i], ids[i]) in EntriesFor(db, c, keys, ids)
    ensures forall r :: r in EntriesFor(db, c, keys, ids) ==>
              r.Entries? && r.to == c && HasNew(db, r.key, r.after) &&
              exists i :: 0 <= i < |keys| && keys[i] == r.key && ids[i] == r.after
    decreases |keys|
  {
    if keys != [] {
      var n := |keys| - 1;
      var most, all := EntriesFor(db, c, keys[..n], ids[..n]), EntriesFor(db, c, keys, ids);
      EntriesAreNew(db, c, keys[..n], ids[..n]);
      forall i | 0 <= i < |keys| && HasNew(db, keys[i], ids[i])
        ensures Entries(c, keys[i], ids[i]) in all
      {
        if i < n {
          assert keys[..n][i] == keys[i] && ids[..n][i] == ids[i];
        }
      }
      forall r | r in all
        ensures r.Entries? && r.to == c && HasNew(db, r.key, r.after)
        ensures exists i :: 0 <= i < |keys| && keys[i] == r.key && ids[i] == r.after
      {
        if r in most {
          var i :| 0 <= i < n && keys[..n][i] == r.key && ids[..n][i] == r.after;
          assert keys[i] == r.key && ids[i] == r.after;
        } else {
          assert r == Entries(c, keys[n], ids[n]);
        }
      }
    }
  }

  predicate HasNew(db: Db, k: Key, id: int) {
    k in db && db[k].StreamObj? && db[k].length > 0 && db[k].lastId > id
  }
}
