/** Blocking clients on keys and serving them when the keys get data. */
module Blocked {
  import opened BlockedIndex
  import opened BlockedSteps
  import opened Fairness
  import opened Hiding
  import opened Options
  import opened Sequences
  import opened Serving
  import opened ServingOrder
  import opened Turns

  class Server {
    var clients: Clients
    var waiters: Waiters            // db->blocking_keys
    var ready: set<Key>             // db->ready_keys
    var readyKeys: seq<Key>         // server.ready_keys
    var unblocked: seq<Id>          // server.unblocked_clients
    var blockedClients: nat
    var byType: map<BType, nat>     // blocked_clients_by_type
    var db: Db
    var replies: seq<Reply>
    ghost var draining: seq<Key>    // the rest of the list being drained
    ghost var forgotten: set<Key>   // keys that were overwritten without a signal

    ghost function Now(): Moment
      reads this
    {
      Moment(clients, waiters, db, replies)
    }

    ghost predicate Valid()
      reads this
    {
      && Index(clients, waiters) && Typed(clients)
      && Flags(clients, unblocked)
      && Counted(clients, blockedClients, byType)
      && Queued(ready, draining + readyKeys)
    }

    /** No client waits for data that is there, except for keys that are queued, in `now` or
        forgotten. */
    ghost predicate Served(now: set<Key>)
      reads this
    {
      NoEmpty(db, now) && NoneMissed(clients, db, ready + now + forgotten)
    }

    constructor ()
      ensures Valid() && Served({}) && clients == map[] && db == map[] && readyKeys == [] && draining == []
      ensures forgotten == {} && ready == {}
    {
      clients, waiters, ready, readyKeys, unblocked := map[], map[], {}, [], [];
      blockedClients, db, replies, draining, forgotten := 0, map[], [], [], {};
      byType := map[OnList := 0, OnZset := 0, OnStream := 0, OnOther := 0];
    }

    /** listSearchKey. */
    method SearchKey(l: seq<Id>, c: Id) returns (i: nat)
      requires c in l
      ensures i < |l| && l[i] == c && c !in l[..i]
    {
      i := 0;
      while l[i] != c
        invariant i < |l| && c !in l[..i]
        decreases |l| - i
      {
        assert l == l[..i + 1] + l[i + 1..];
        i := i + 1;
      }
    }

    method RemoveWaiter(c: Id, k: Key)
      requires k in waiters && c in waiters[k] && Distinct(waiters[k])
      modifies `waiters
      ensures var l := Without(old(waiters)[k], c);
              waiters == if l == [] then old(waiters) - {k} else old(waiters)[k := l]
    {
      var l := waiters[k];
      var i := SearchKey(l, c);
      WithoutFirst(l, i);
      l := l[..i] + l[i + 1..];
      waiters := waiters[k := l];
      if l == [] {
        waiters := waiters - {k};
      }
    }

    method UnblockClientWaitingData(c: Id)
      requires Index(clients, waiters) && c in clients && clients[c].keys != map[]
      modifies `clients, `waiters
      ensures clients == old(clients)[c := old(clients)[c].(keys := map[], target := None)]
      ensures TakenOut(old(waiters), waiters, old(clients)[c].keys.Keys, c)
    {
      ghost var ks := clients[c].keys.Keys;
      TakenOutNone(clients, waiters, c);
      var todo := clients[c].keys.Keys;
      while todo != {}
        invariant todo <= ks && clients == old(clients)
        invariant TakenOut(old(waiters), waiters, ks - todo, c)
        decreases todo
      {
        var k :| k in todo;
        assert Unfold(Waiting, 0);
        assert Waits(clients, c, k) && At(waiters, k) == At(old(waiters), k);
        TakenOutStep(old(waiters), waiters, ks - todo, c, k);
        assert ks - (todo - {k}) == ks - todo + {k};
        RemoveWaiter(c, k);
        todo := todo - {k};
      }
      assert ks - todo == ks;
      clients := clients[c := clients[c].(keys := map[], target := None)];
    }

    method QueueClientForReprocessing(c: Id)
      requires c in clients && Flags(clients, unblocked)
      modifies `clients, `unblocked
      ensures clients == old(clients)[c := old(clients)[c].(unblocked := true)] && Flags(clients, unblocked)
      ensures unblocked == if old(clients)[c].unblocked then old(unblocked) else old(unblocked) + [c]
    {
      if !clients[c].unblocked {
        QueueKeepsFlags(clients, unblocked, c);
        clients := clients[c := clients[c].(unblocked := true)];
        unblocked := unblocked + [c];
      }
    }

    /** The part of unblockClient that depends on the type of the client. */
    method LeaveKeys(c: Id)
      requires Index(clients, waiters) && c in clients && TypedClient(clients[c])
      modifies `clients, `waiters
      ensures clients == old(clients)[c := old(clients)[c].(keys := map[], target := None)]
      ensures Index(old(clients)[c := Freed(old(clients)[c])], waiters)
      ensures forall k :: At(waiters, k) == Without(At(old(waiters), k), c)
    {
      if ForKeys(clients[c].btype) {
        UnblockClientWaitingData(c);
      } else {
        TakenOutNone(clients, waiters, c);
        assert clients[c].keys.Keys == {};
        assert clients == clients[c := clients[c].(keys := map[], target := None)];
      }
      FreeKeepsIndex(old(clients), old(waiters), waiters, c, Freed(old(clients)[c]));
    }

    /** The client leaves every list it is in, exactly once is in the list of clients to be
        processed again, and nothing else changes. */
    method UnblockClient(c: Id)
      requires Valid() && c in clients && clients[c].blocked
      modifies `clients, `waiters, `unblocked, `blockedClients, `byType
      ensures Valid() && clients == old(clients)[c := Freed(old(clients)[c])]
      ensures forall k :: At(waiters, k) == Without(At(old(waiters), k), c)
      ensures blockedClients == old(blockedClients) - 1
      ensures unblocked == if old(clients)[c].unblocked then old(unblocked) else old(unblocked) + [c]
    {
      ghost var all, was := clients, clients[c];
      var t := clients[c].btype;
      FreeKeepsTypes(clients, c);
      FreeKeepsCount(clients, c, blockedClients, byType);
      LeaveKeys(c);
      blockedClients := blockedClients - 1;
      byType := byType[t := byType[t] - 1];
      clients := clients[c := clients[c].(blocked := false, btype := NotBlocked)];
      ghost var mid := Freed(was).(unblocked := was.unblocked);
      SetTwice(all, c, was.(keys := map[], target := None), mid);
      SetTwice(all, c, mid, Freed(was));
      SameFlags(all, unblocked, c, mid);
      QueueClientForReprocessing(c);
    }

    // ---- signalling ----

    method SignalKeyAsReady(k: Key)
      requires Valid()
      modifies `ready, `readyKeys
      ensures Valid()
      ensures readyKeys == if k in waiters && k !in old(ready) then old(readyKeys) + [k] else old(readyKeys)
      ensures ready == if k in waiters then old(ready) + {k} else old(ready)
    {
      if k !in waiters {
        return;
      }
      if k in ready {
        return;
      }
      QueueOne(ready, draining + readyKeys, k);
      assert draining + (readyKeys + [k]) == draining + readyKeys + [k];
      readyKeys := readyKeys + [k];
      ready := ready + {k};
    }

    /** rpoplpushHandlePush: a new key is signalled by dbAdd, an existing list is not. */
    method RpoplpushHandlePush(c: Id, dst: Key, value: int, ghost now: set<Key>)
      requires Valid() && Served(now) && (dst in db ==> db[dst].ListObj?)
      modifies `db, `ready, `readyKeys, `replies
      ensures Valid() && Served(now) && old(ready) <= ready && old(readyKeys) <= readyKeys
      ensures db == old(db)[dst := ListObj([value] + ItemsAt(old(db), dst))]
      ensures replies == old(replies) + [Moved(c, value)]
    {
      ghost var items := [value] + ItemsAt(db, dst);
      if dst in db {
        PushMissesNone(clients, db, ready + now + forgotten, now, dst, items);
        db := db[dst := ListObj([value] + db[dst].items)];
      } else {
        SignalKeyAsReady(dst);
        AddMissesNone(clients, waiters, db, old(ready) + now + forgotten, ready + now + forgotten, now, dst,
                      ListObj(items));
        assert items == [value];
        db := db[dst := ListObj([value])];
      }
      replies := replies + [Moved(c, value)];
    }

    method ServeClientBlockedOnList(c: Id, key: Key, dst: Option<Key>, value: int, ghost now: set<Key>)
      returns (ok: bool)
      requires Valid() && Served(now)
      modifies `db, `ready, `readyKeys, `replies
      ensures Valid() && Served(now) && old(ready) <= ready && old(readyKeys) <= readyKeys
      ensures ok == !BadTarget(old(db), dst)
      ensures db == if !ok || dst.None? then old(db)
                    else old(db)[dst.value := ListObj([value] + ItemsAt(old(db), dst.value))]
      ensures replies == old(replies) + [if !ok then WrongType(c)
                                         else if dst.Some? then Moved(c, value)
                                         else Popped(c, key, value)]
    {
      if dst.None? {
        replies := replies + [Popped(c, key, value)];
        return true;
      }
      if dst.value in db && !db[dst.value].ListObj? {
        replies := replies + [WrongType(c)];
        return false;
      }
      RpoplpushHandlePush(c, dst.value, value, now);
      return true;
    }

    /** listTypePop for a client, which is unblocked. */
    method PopFor(key: Key, c: Id) returns (value: int)
      requires Valid() && Served({key}) && key in db && db[key].ListObj? && db[key].items != []
      requires c in clients && clients[c].blocked
      modifies `db, `clients, `waiters, `unblocked, `blockedClients, `byType
      ensures Valid() && Served({key}) && blockedClients == old(blockedClients) - 1
      ensures var items, head := old(db)[key].items, old(clients)[c].head;
              value == PopValue(items, head) && db == old(db)[key := ListObj(PopRest(items, head))]
      ensures clients == old(clients)[c := Freed(old(clients)[c])]
      ensures forall k :: At(waiters, k) == Without(At(old(waiters), k), c)
    {
      var head, items := clients[c].head, db[key].items;
      value := PopValue(items, head);
      ghost var marked := ready + {key} + forgotten;
      ChangeMissesNone(clients, db, marked, {key}, key, ListObj(PopRest(items, head)));
      db := db[key := ListObj(PopRest(items, head))];
      FreeMissesNone(clients, db, marked, c);
      UnblockClient(c);
    }

    /** listTypePush undoes the pop. */
    method UndoPop(key: Key, value: int, head: bool, ghost before: Db)
      requires Valid() && Served({key}) && key in before && before[key].ListObj? && before[key].items != []
      requires value == PopValue(before[key].items, head)
      requires db == before[key := ListObj(PopRest(before[key].items, head))]
      modifies `db
      ensures Valid() && Served({key}) && db == before
    {
      ghost var items := before[key].items;
      PushUndoesPop(items, head);
      ChangeMissesNone(clients, db, ready + {key} + forgotten, {key}, key, ListObj(items));
      db := db[key := ListObj(PushTo(db[key].items, value, head))];
      assert db == before;
    }

    /** Pop an element for one client and serve it, or undo the pop. */
    method ServeListClient(key: Key, c: Id) returns (popped: bool)
      requires Valid() && Served({key}) && key in db && db[key].ListObj?
      requires c in clients && clients[c].blocked
      modifies this
      ensures Valid() && Served({key}) && key in db && db[key].ListObj?
      ensures draining == old(draining) && forgotten == old(forgotten)
      ensures old(ready) <= ready && old(readyKeys) <= readyKeys
      ensures popped == (old(db)[key].items != [])
      ensures !popped ==> unchanged(this)
      ensures popped ==> blockedClients == old(blockedClients) - 1 && GaveOne(old(Now()), Now(), key, c)
    {
      if db[key].items == [] {
        return false;
      }
      popped := true;
      var dst, head := clients[c].target, clients[c].head;
      var value := PopFor(key, c);
      var ok := ServeClientBlockedOnList(c, key, dst, value, {key});
      if !ok {
        UndoPop(key, value, head, old(db));
      }
    }

    /** Move the first client of a key to the end of its list. */
    method Rotate(key: Key)
      requires Valid() && key in waiters && waiters[key] != []
      modifies `waiters
      ensures Valid() && key in waiters && waiters[key] == old(waiters)[key][1..] + [old(waiters)[key][0]]
      ensures forall k :: k != key ==> At(waiters, k) == At(old(waiters), k)
    {
      RotateKeepsIndex(clients, waiters, key);
      waiters := waiters[key := waiters[key][1..] + [waiters[key][0]]];
    }

    /** One turn of the loop over the clients waiting for a list: the first of them is served, or
        moved to the end because it waits for something else. */
    method ListTurn(key: Key, ghost a: Moment, ghost s: seq<Id>, ghost i: nat) returns (more: bool)
      requires Valid() && Served({key}) && key in db && db[key].ListObj?
      requires Turned(a.clients, clients, OnList, s, i, At(waiters, key)) && i < |s|
      requires Gave(a, Now(), key, Picked(a.clients, HasType(OnList), s[..i]))
      modifies this
      ensures Valid() && Served({key}) && key in db && db[key].ListObj?
      ensures draining == old(draining) && forgotten == old(forgotten)
      ensures old(ready) <= ready && old(readyKeys) <= readyKeys
      ensures !more ==> db[key].items == [] && unchanged(this)
      ensures more ==> Turned(a.clients, clients, OnList, s, i + 1, At(waiters, key))
      ensures more ==> var cs := Picked(a.clients, HasType(OnList), s[..i + 1]);
                       && Gave(a, Now(), key, cs)
                       && blockedClients == old(blockedClients) - |cs| + |Picked(a.clients, HasType(OnList), s[..i])|
      ensures blockedClients <= old(blockedClients)
      ensures blockedClients == old(blockedClients) ==> readyKeys == old(readyKeys)
    {
      ghost var l := At(waiters, key);
      WaitersAt(clients, waiters, key);
      var c := waiters[key][0];
      assert c in l;
      ghost var cs := Picked(a.clients, HasType(OnList), s[..i]);
      if clients[c].btype != OnList {
        TurnOn(a.clients, clients, OnList, s, i, l);
        Rotate(key);
        GaveRotated(a, old(Now()), key, cs, waiters);
        return true;
      }
      ServeOn(a.clients, clients, OnList, s, i, l, Freed(clients[c]));
      BlockedAt(clients, c);
      more := ServeListClient(key, c);
      if more {
        GaveMore(a, old(Now()), Now(), key, cs, c);
      }
    }

    /** Serve the clients waiting for a list, first come first served: of the first `i` those who
        wait for a list, until all were looked at or the list is empty. Those left are the ones
        not looked at, and everybody who waits for another type. */
    method ServeList(key: Key) returns (ghost i: nat, ghost cs: seq<Id>)
      requires Valid() && Served({key}) && key in db && db[key].ListObj?
      modifies this
      ensures Valid() && Served({}) && draining == old(draining) && forgotten == old(forgotten) - {key}
      ensures blockedClients == old(blockedClients) - |cs|
      ensures old(ready) <= ready && old(readyKeys) <= readyKeys && (cs == [] ==> readyKeys == old(readyKeys))
      ensures Turned(old(clients), clients, OnList, At(old(waiters), key), i, At(waiters, key))
      ensures cs == Picked(old(clients), HasType(OnList), At(old(waiters), key)[..i])
      ensures Fed(old(Now()), Now(), key, cs)
      ensures i == |At(old(waiters), key)| || ItemsAt(DbAfter(old(db), old(clients), key, cs), key) == []
    {
      ghost var a, s := Now(), At(waiters, key);
      i, cs := ListLoop(key, a, s);
      GaveDb(a, Now(), key, cs);
      PickedFit(a.clients, a.waiters, a.db, key, HasType(OnList), i);
      if i == |s| {
        AllTurned(a.clients, clients, OnList, s, At(waiters, key));
      }
      CloseList(key);
    }

    method ListLoop(key: Key, ghost a: Moment, ghost s: seq<Id>) returns (ghost i: nat, ghost cs: seq<Id>)
      requires Valid() && Served({key}) && key in db && db[key].ListObj? && a == Now() && s == At(waiters, key)
      modifies this
      ensures Valid() && Served({key}) && key in db && db[key].ListObj?
      ensures draining == old(draining) && forgotten == old(forgotten)
      ensures old(ready) <= ready && old(readyKeys) <= readyKeys
      ensures blockedClients == old(blockedClients) - |cs| && (cs == [] ==> readyKeys == old(readyKeys))
      ensures Turned(a.clients, clients, OnList, s, i, At(waiters, key))
      ensures cs == Picked(a.clients, HasType(OnList), s[..i]) && Gave(a, Now(), key, cs)
      ensures i == |s| || db[key].items == []
    {
      i, cs := 0, [];
      StartTurning(clients, waiters, OnList, key);
      GaveNothing(a, key);
      if key in waiters {
        var n := |waiters[key]|;
        while n > 0
          invariant Valid() && Served({key}) && key in db && db[key].ListObj?
          invariant draining == old(draining) && forgotten == old(forgotten)
          invariant old(ready) <= ready && old(readyKeys) <= readyKeys
          invariant n <= |s| && i == |s| - n && Turned(a.clients, clients, OnList, s, i, At(waiters, key))
          invariant cs == Picked(a.clients, HasType(OnList), s[..i]) && Gave(a, Now(), key, cs)
          invariant blockedClients == old(blockedClients) - |cs|
          invariant blockedClients == old(blockedClients) ==> readyKeys == old(readyKeys)
        {
          n := n - 1;
          var more := ListTurn(key, a, s, i);
          if !more {
            break;
          }
          i := i + 1;
          cs := Picked(a.clients, HasType(OnList), s[..i]);
        }
      }
    }

    /** The end of the service for a list: it is deleted if it is empty. */
    method CloseList(key: Key)
      requires Valid() && Served({key}) && key in db && db[key].ListObj?
      requires db[key].items == [] || forall d :: d in At(waiters, key) && d in clients ==> clients[d].btype != OnList
      modifies `db, `forgotten
      ensures Valid() && Served({}) && db == Tidied(old(db), key) && forgotten == old(forgotten) - {key}
    {
      if db[key].items == [] {
        DeleteMissesNone(clients, db, ready + {key} + forgotten, {key}, key);
        db := db - {key};
      } else {
        DoneMissesNone(clients, waiters, db, ready + {key} + forgotten, {key}, key);
      }
      Done(key);
    }

    /** `key` was looked at, so that it is not forgotten any more. */
    ghost method Done(key: Key)
      requires NoneMissed(clients, db, ready + {key} + forgotten - {key}) && NoEmpty(db, {key} - {key})
      modifies `forgotten
      ensures Served({}) && forgotten == old(forgotten) - {key}
    {
      DropNow(clients, db, ready, forgotten, key);
      forgotten := forgotten - {key};
    }

    /** Pop the member with the lowest or highest score; an empty sorted set is deleted. */
    method ZpopFor(c: Id, key: Key, head: bool, ghost now: set<Key>)
      requires Valid() && Served(now) && key in db && db[key].ZsetObj? && db[key].members != []
      modifies `db, `replies
      ensures Served(now)
      ensures replies == old(replies) + [Popped(c, key, PopValue(old(db)[key].members, head))]
      ensures db == ZpoppedDb(old(db), key, head)
    {
      var members := db[key].members;
      var value := PopValue(members, head);
      replies := replies + [Popped(c, key, value)];
      members := PopRest(members, head);
      if members == [] {
        DeleteMissesNone(clients, db, ready + now + forgotten, now, key);
        db := db - {key};
      } else {
        FewerMissesNone(clients, db, ready + now + forgotten, now, key, ZsetObj(members));
        db := db[key := ZsetObj(members)];
      }
    }

    /** `left` is zcard: the sorted set has that many members, and is gone when none are left. */
    ghost predicate Zcard(key: Key, left: nat)
      reads this
    {
      if left == 0 then key !in db else key in db && db[key].ZsetObj? && |db[key].members| == left
    }

    /** One turn of the loop over the clients waiting for a sorted set. */
    method ZsetTurn(key: Key, left: nat, ghost a: Moment, ghost s: seq<Id>, ghost i: nat) returns (now: nat)
      requires Valid() && Served({key}) && left > 0 && Zcard(key, left)
      requires Turned(a.clients, clients, OnZset, s, i, At(waiters, key)) && i < |s|
      requires Gave(a, Now(), key, Picked(a.clients, HasType(OnZset), s[..i]))
      modifies this
      ensures Valid() && Served({key}) && Zcard(key, now)
      ensures draining == old(draining) && forgotten == old(forgotten)
      ensures readyKeys == old(readyKeys) && ready == old(ready)
      ensures Turned(a.clients, clients, OnZset, s, i + 1, At(waiters, key))
      ensures var cs := Picked(a.clients, HasType(OnZset), s[..i + 1]);
              && Gave(a, Now(), key, cs)
              && blockedClients == old(blockedClients) - |cs| + |Picked(a.clients, HasType(OnZset), s[..i])|
    {
      ghost var l := At(waiters, key);
      WaitersAt(clients, waiters, key);
      var c := waiters[key][0];
      assert c in l;
      ghost var cs := Picked(a.clients, HasType(OnZset), s[..i]);
      if clients[c].btype != OnZset {
        TurnOn(a.clients, clients, OnZset, s, i, l);
        Rotate(key);
        GaveRotated(a, old(Now()), key, cs, waiters);
        return left;
      }
      ServeOn(a.clients, clients, OnZset, s, i, l, Freed(clients[c]));
      BlockedAt(clients, c);
      ServeZsetClient(key, c);
      GaveMore(a, old(Now()), Now(), key, cs, c);
      now := left - 1;
    }

    method ServeZsetClient(key: Key, c: Id)
      requires Valid() && Served({key}) && key in db && db[key].ZsetObj? && db[key].members != []
      requires c in clients && clients[c].blocked
      modifies `db, `replies, `clients, `waiters, `unblocked, `blockedClients, `byType
      ensures Valid() && Served({key}) && blockedClients == old(blockedClients) - 1
      ensures db == ZpoppedDb(old(db), key, old(clients)[c].head)
      ensures GaveOne(old(Now()), Now(), key, c)
    {
      var head := clients[c].head;
      FreeMissesNone(clients, db, ready + {key} + forgotten, c);
      UnblockClient(c);
      ZpopFor(c, key, head, {key});
    }

    /** The same for a sorted set: of the first `i` clients those who wait for one, until all
        were looked at or the sorted set is gone. */
    method ServeZset(key: Key) returns (ghost i: nat, ghost cs: seq<Id>)
      requires Valid() && Served({key}) && key in db && db[key].ZsetObj? && db[key].members != []
      modifies this
      ensures Valid() && Served({}) && draining == old(draining) && forgotten == old(forgotten) - {key}
      ensures blockedClients == old(blockedClients) - |cs| && readyKeys == old(readyKeys) && ready == old(ready)
      ensures Turned(old(clients), clients, OnZset, At(old(waiters), key), i, At(waiters, key))
      ensures cs == Picked(old(clients), HasType(OnZset), At(old(waiters), key)[..i])
      ensures Fed(old(Now()), Now(), key, cs)
      ensures i == |At(old(waiters), key)| || key !in db
    {
      ghost var a, s := Now(), At(waiters, key);
      i, cs := ZsetLoop(key, a, s);
      GaveDb(a, Now(), key, cs);
      PickedFit(a.clients, a.waiters, a.db, key, HasType(OnZset), i);
      if i == |s| {
        AllTurned(a.clients, clients, OnZset, s, At(waiters, key));
      }
      DoneMissesNone(clients, waiters, db, ready + {key} + forgotten, {key}, key);
      Done(key);
    }

    method ZsetLoop(key: Key, ghost a: Moment, ghost s: seq<Id>) returns (ghost i: nat, ghost cs: seq<Id>)
      requires Valid() && Served({key}) && key in db && db[key].ZsetObj? && db[key].members != []
      requires a == Now() && s == At(waiters, key)
      modifies this
      ensures Valid() && Served({key}) && (key in db ==> db[key].ZsetObj? && db[key].members != [])
      ensures draining == old(draining) && forgotten == old(forgotten)
      ensures blockedClients == old(blockedClients) - |cs| && readyKeys == old(readyKeys) && ready == old(ready)
      ensures Turned(a.clients, clients, OnZset, s, i, At(waiters, key))
      ensures cs == Picked(a.clients, HasType(OnZset), s[..i]) && Gave(a, Now(), key, cs)
      ensures i == |s| || key !in db
    {
      i, cs := 0, [];
      StartTurning(clients, waiters, OnZset, key);
      GaveNothing(a, key);
      var left: nat := |db[key].members|;
      if key in waiters {
        var n := |waiters[key]|;
        while n > 0 && left > 0
          invariant Valid() && Served({key}) && Zcard(key, left)
          invariant draining == old(draining) && forgotten == old(forgotten)
          invariant readyKeys == old(readyKeys) && ready == old(ready)
          invariant n <= |s| && i == |s| - n && Turned(a.clients, clients, OnZset, s, i, At(waiters, key))
          invariant cs == Picked(a.clients, HasType(OnZset), s[..i]) && Gave(a, Now(), key, cs)
          invariant blockedClients == old(blockedClients) - |cs|
        {
          n := n - 1;
          left := ZsetTurn(key, left, a, s, i);
          i := i + 1;
          cs := Picked(a.clients, HasType(OnZset), s[..i]);
        }
      }
    }

    /** Every client waiting for an older entry gets the new ones, in order, and nobody else. */
    method ServeStream(key: Key) returns (ghost cs: seq<Id>)
      requires Valid() && Served({key}) && key in db && db[key].StreamObj?
      modifies this
      ensures Valid() && Served({}) && draining == old(draining) && forgotten == old(forgotten) - {key}
      ensures blockedClients == old(blockedClients) - |cs| && readyKeys == old(readyKeys) && ready == old(ready)
      ensures var p, s := Behind(key, old(db)[key].lastId), At(old(waiters), key);
              cs == Picked(old(clients), p, s) && At(waiters, key) == Others(old(clients), p, s)
      ensures Fed(old(Now()), Now(), key, cs) && db == old(db)
    {
      cs := [];
      var lastId := db[key].lastId;
      var pos := 0;
      ghost var a, s, i, p := Now(), At(waiters, key), 0, Behind(key, lastId);
      StartPassing(clients, waiters, p, key);
      GaveNothing(a, key);
      while key in waiters && pos < |waiters[key]|
        invariant Valid() && Served({key}) && db == a.db
        invariant draining == old(draining) && forgotten == old(forgotten)
        invariant readyKeys == old(readyKeys) && ready == old(ready)
        invariant Passed(a.clients, clients, p, s, i, At(waiters, key), pos)
        invariant cs == Picked(a.clients, p, s[..i]) && Gave(a, Now(), key, cs)
        invariant blockedClients == old(blockedClients) - |cs|
        decreases |s| - i
      {
        pos := StreamTurn(key, lastId, pos, a, s, i);
        i := i + 1;
        cs := Picked(a.clients, p, s[..i]);
      }
      AllPassed(a.clients, clients, p, s, i, At(waiters, key), pos);
      GaveDb(a, Now(), key, cs);
      PickedFit(a.clients, a.waiters, a.db, key, p, i);
      DoneMissesNone(clients, waiters, db, ready + {key} + forgotten, {key}, key);
      Done(key);
    }

    /** One turn of the loop over the clients waiting for a stream. */
    method StreamTurn(key: Key, lastId: int, pos: nat, ghost a: Moment, ghost s: seq<Id>, ghost i: nat)
      returns (next: nat)
      requires Valid() && Served({key}) && db == a.db && key in db && db[key].StreamObj? && lastId == db[key].lastId
      requires key in waiters && pos < |waiters[key]|
      requires Passed(a.clients, clients, Behind(key, lastId), s, i, At(waiters, key), pos)
      requires Gave(a, Now(), key, Picked(a.clients, Behind(key, lastId), s[..i]))
      modifies this
      ensures Valid() && Served({key}) && db == a.db && i < |s|
      ensures draining == old(draining) && forgotten == old(forgotten)
      ensures readyKeys == old(readyKeys) && ready == old(ready)
      ensures Passed(a.clients, clients, Behind(key, lastId), s, i + 1, At(waiters, key), next)
      ensures var p := Behind(key, lastId);
              var cs := Picked(a.clients, p, s[..i + 1]);
              Gave(a, Now(), key, cs) && blockedClients == old(blockedClients) - |cs| + |Picked(a.clients, p, s[..i])|
    {
      ghost var p := Behind(key, lastId);
      next := pos;
      WaitersAt(clients, waiters, key);
      var c := waiters[key][pos];
      assert c in At(waiters, key);
      PassOne(a.clients, clients, p, s, i, At(waiters, key), pos);
      var receiver := clients[c];
      if receiver.btype == OnStream && lastId > receiver.keys[key] {
        ServeStreamClient(key, c, pos);
        GaveMore(a, old(Now()), Now(), key, Picked(a.clients, p, s[..i]), c);
      } else {
        next := pos + 1;
      }
    }

    method ServeStreamClient(key: Key, c: Id, ghost pos: nat)
      requires Valid() && Served({key}) && pos < |At(waiters, key)| && At(waiters, key)[pos] == c
      requires c in clients && clients[c].btype.OnStream? && key in clients[c].keys
      requires key in db && db[key].StreamObj?
      modifies this
      ensures Valid() && Served({key}) && db == old(db)
      ensures draining == old(draining) && forgotten == old(forgotten)
      ensures readyKeys == old(readyKeys) && ready == old(ready)
      ensures blockedClients == old(blockedClients) - 1 && GaveOne(old(Now()), Now(), key, c)
      ensures var l := old(At(waiters, key)); At(waiters, key) == l[..pos] + l[pos + 1..]
    {
      WaitersAt(clients, waiters, key);
      WithoutFirst(At(waiters, key), pos);
      replies := replies + [Entries(c, key, clients[c].keys[key])];
      BlockedAt(clients, c);
      FreeMissesNone(clients, db, ready + {key} + forgotten, c);
      UnblockClient(c);
    }

    /** The body of the loop over the ready keys. */
    method ServeKey(key: Key) returns (ghost cs: seq<Id>)
      requires Valid() && NoEmpty(db, {}) && NoneMissed(clients, db, ready + {key} + forgotten)
      modifies this
      ensures Valid() && Served({}) && draining == old(draining) && forgotten == old(forgotten) - {key}
      ensures blockedClients == old(blockedClients) - |cs|
      ensures old(ready) <= ready && old(readyKeys) <= readyKeys && (cs == [] ==> readyKeys == old(readyKeys))
      ensures Fed(old(Now()), Now(), key, cs) && FirstServed(old(Now()), waiters, key, cs)
      ensures Enough(old(Now()), key, cs)
    {
      MoreEmpty(db, key);
      ghost var i, b := 0, Now();
      WaitersAt(clients, waiters, key);
      if key in db && db[key].ListObj? {
        i, cs := ServeList(key);
        TurnedServesFirst(b, clients, waiters, OnList, key, i, cs);
        if i < |At(b.waiters, key)| {
          ListRanOut(b, key, cs);
        }
        EnoughTurned(b, OnList, key, i, cs);
      } else if key in db && db[key].ZsetObj? {
        i, cs := ServeZset(key);
        TurnedServesFirst(b, clients, waiters, OnZset, key, i, cs);
        EnoughTurned(b, OnZset, key, i, cs);
      } else if key in db && db[key].StreamObj? {
        cs := ServeStream(key);
        StreamServesNone(b, waiters, key, b.db[key].lastId, cs);
        EnoughPassed(b, key, cs);
      } else {
        cs := [];
        GaveNothing(Now(), key);
        EnoughNone(b, key);
        DoneMissesNone(clients, waiters, db, ready + {key} + forgotten, {key}, key);
        Done(key);
      }
    }

    /** handleClientsBlockedOnKeys: it ends, though serving a client may make other keys ready.
        Then no client waits for data that is there, except for keys that were forgotten before
        and not signalled since; everybody who stopped waiting got one reply; and no element was
        lost or made up. The clients of a key are served first come first served if they all wait
        for a list or all for a sorted set. */
    method HandleClientsBlockedOnKeys() returns (ghost book: Book)
      requires Valid() && Served({}) && draining == []
      modifies this
      ensures Valid() && Served({}) && draining == [] && readyKeys == [] && ready == {}
      ensures forgotten <= old(forgotten) - old(ready)
      ensures forall c, k :: Waits(clients, c, k) && CanServe(db, k, clients[c]) ==> k in forgotten
      ensures Settled(old(Now()), Now(), book.served, book.rs)
      ensures Fair(old(Now()), waiters, book.turns) && book.served == Everybody(book.turns)
      ensures TracedFrom(old(Now()), Now(), book.ms, book.turns) && old(readyKeys) <= KeysOf(book.turns)
      ensures blockedClients == old(blockedClients) - |book.served|
    {
      ghost var a, queue := Now(), readyKeys;
      book := Book([], [], [], [a]);
      OpenBook(a, queue);
      while readyKeys != []
        invariant Valid() && Served({}) && draining == []
        invariant forgotten <= old(forgotten) && old(ready) * forgotten <= ready
        invariant Accounts(a, Now(), book, queue, readyKeys)
        invariant blockedClients == old(blockedClients) - |book.served|
        decreases blockedClients, |readyKeys|
      {
        var l := readyKeys;
        assert draining + readyKeys == l + [] && l + [] == l;
        readyKeys := [];
        draining := l;
        ghost var blocked := blockedClients;
        while l != []
          invariant Valid() && Served({}) && draining == l
          invariant blockedClients <= blocked
          invariant blockedClients == blocked ==> readyKeys == []
          invariant forgotten <= old(forgotten) && old(ready) * forgotten <= ready
          invariant Accounts(a, Now(), book, queue, l + readyKeys)
          invariant blockedClients == old(blockedClients) - |book.served|
          decreases blockedClients, |l|
        {
          book := DrainOne(l[0], a, book, queue);
          l := l[1..];
        }
        assert l + readyKeys == readyKeys;
      }
      CloseBook(a, Now(), book, queue);
      NothingQueued(ready, draining + readyKeys);
      OnlyForgotten(clients, db, ready + {} + forgotten, forgotten);
    }

    /** One turn of the loop over the keys that were ready. */
    method DrainOne(key: Key, ghost a: Moment, ghost book: Book, ghost queue: seq<Key>) returns (ghost book': Book)
      requires Valid() && Served({}) && draining != [] && key == draining[0]
      requires Accounts(a, Now(), book, queue, draining + readyKeys)
      modifies this
      ensures Valid() && Served({}) && draining == old(draining)[1..]
      ensures forgotten == old(forgotten) - {key} && old(ready) - {key} <= ready
      ensures Accounts(a, Now(), book', queue, draining + readyKeys)
      ensures |book.served| <= |book'.served| && blockedClients == old(blockedClients) - |book'.served| + |book.served|
      ensures blockedClients == old(blockedClients) ==> readyKeys == old(readyKeys)
    {
      ghost var b := Now();
      DequeueOne(ready, draining + readyKeys);
      assert (draining + readyKeys)[1..] == draining[1..] + readyKeys;
      MoreReady(clients, db, ready + {} + forgotten, ready - {key} + {key} + forgotten);
      ready := ready - {key};
      draining := draining[1..];
      MoreEmpty(db, key);
      ghost var cs := ServeKey(key);
      WaitersAt(b.clients, b.waiters, key);
      book' := Entered(book, b, Now(), key, cs);
      EnterTurn(a, b, Now(), book, queue, old(draining), cs, old(readyKeys), readyKeys);
    }

    // ---- blocking ----

    method Connect(c: Id)
      requires Valid() && Served({}) && c !in clients
      modifies `clients
      ensures Valid() && Served({}) && clients == old(clients)[c := IDLE]
    {
      ConnectKeeps(clients, waiters, unblocked, blockedClients, byType, c);
      ConnectMissesNone(clients, db, ready + {} + forgotten, c);
      clients := clients[c := IDLE];
    }

    /** Add one key to those of a client, unless it is there. */
    method AddKey(c: Id, k: Key, id: int)
      requires Index(clients, waiters) && c in clients
      modifies `clients, `waiters
      ensures Index(clients, waiters)
      ensures var was := old(clients)[c];
              clients == old(clients)[c := was.(keys := if k in was.keys then was.keys else was.keys[k := id])]
    {
      if k in clients[c].keys {
        return;
      }
      PutInKeepsIndex(clients, waiters, c, k, id);
      clients := clients[c := clients[c].(keys := clients[c].keys[k := id])];
      if k !in waiters {
        waiters := waiters[k := []];
      }
      waiters := waiters[k := waiters[k] + [c]];
      assert waiters == old(waiters)[k := At(old(waiters), k) + [c]];
    }

    /** The loop of blockForKeys. */
    method AddKeys(c: Id, keys: seq<Key>, ids: seq<int>)
      requires Index(clients, waiters) && c in clients && clients[c].keys == map[] && |ids| == |keys|
      modifies `clients, `waiters
      ensures Index(clients, waiters)
      ensures clients == old(clients)[c := old(clients)[c].(keys := FirstIds(keys, ids))]
    {
      for j := 0 to |keys|
        invariant Index(clients, waiters)
        invariant clients == old(clients)[c := old(clients)[c].(keys := FirstIds(keys[..j], ids[..j]))]
      {
        FirstIdsStep(keys, ids, j);
        AddKey(c, keys[j], ids[j]);
      }
      assert keys[..|keys|] == keys && ids[..|keys|] == ids;
    }

    method BlockClient(c: Id, t: BType)
      requires c in clients && !t.NotBlocked? && !clients[c].blocked && clients[c].btype.NotBlocked?
      requires Counted(clients, blockedClients, byType)
      modifies `clients, `blockedClients, `byType
      ensures clients == old(clients)[c := old(clients)[c].(blocked := true, btype := t)]
      ensures Counted(clients, blockedClients, byType)
    {
      BlockKeepsCount(clients, c, blockedClients, byType, clients[c].(blocked := true, btype := t));
      clients := clients[c := clients[c].(blocked := true, btype := t)];
      blockedClients := blockedClients + 1;
      byType := byType[t := byType[t] + 1];
    }

    /** The first part of blockForKeys: target and keys. */
    method Register(c: Id, keys: seq<Key>, ids: seq<int>, target: Option<Key>, head: bool)
      requires Index(clients, waiters) && c in clients && clients[c].keys == map[] && |ids| == |keys|
      modifies `clients, `waiters
      ensures Index(clients, waiters)
      ensures var was := old(clients)[c];
              clients == old(clients)[c := was.(keys := FirstIds(keys, ids), target := target, head := head)]
    {
      RetargetKeeps(clients, waiters, c, clients[c].(target := target, head := head));
      clients := clients[c := clients[c].(target := target, head := head)];
      AddKeys(c, keys, ids);
    }

    /** blockForKeys: a key given twice counts once, with its first ID. */
    method BlockForKeys(c: Id, t: BType, keys: seq<Key>, ids: seq<int>, target: Option<Key>, head: bool)
      requires Valid() && c in clients && !clients[c].blocked
      requires ForKeys(t) && keys != [] && |ids| == |keys|
      modifies `clients, `waiters, `blockedClients, `byType
      ensures Valid()
      ensures clients == old(clients)[c := Asker(old(clients)[c], t, FirstIds(keys, ids), target, head)]
    {
      IdleAt(clients, c);
      FirstIdsSome(keys, ids);
      Register(c, keys, ids, target, head);
      ghost var mid := clients;
      RetargetCounts(old(clients), mid, blockedClients, byType, c);
      BlockKeeps(old(clients), mid, waiters, unblocked, c, mid[c].(blocked := true, btype := t));
      BlockClient(c, t);
    }

    /** A client that finds nothing for it blocks, and waits for nothing that is there. */
    method BlockOn(c: Id, t: BType, keys: seq<Key>, ids: seq<int>, target: Option<Key>, head: bool)
      requires Valid() && Served({}) && c in clients && !clients[c].blocked
      requires ForKeys(t) && keys != [] && |ids| == |keys|
      requires NothingFor(db, Asker(clients[c], t, FirstIds(keys, ids), target, head))
      modifies `clients, `waiters, `blockedClients, `byType
      ensures Valid() && Served({})
      ensures clients == old(clients)[c := Asker(old(clients)[c], t, FirstIds(keys, ids), target, head)]
    {
      BlockMissesNone(clients, db, ready + {} + forgotten, c, Asker(clients[c], t, FirstIds(keys, ids), target, head));
      BlockForKeys(c, t, keys, ids, target, head);
    }

    /** blockingPopGenericCommand. The first key that is there decides: what a client that had
        been blocked would get from it, or an error. Without one the client blocks. */
    method BlockingPop(c: Id, keys: seq<Key>, head: bool, multi: bool)
      requires Valid() && Served({}) && c in clients && !clients[c].blocked && keys != []
      modifies `clients, `waiters, `blockedClients, `byType, `db, `replies
      ensures Valid() && Served({})
      ensures PoppedOrBlocked(old(Now()), Now(), c, PopAsker(old(clients)[c], OnList, keys, None, head), keys, multi)
      ensures c in clients && (clients[c].blocked ==> clients[c].btype == OnList && AllPop(clients, [c], head))
      ensures var j := FirstHere(old(db), keys);
              j < |keys| && keys[j] in old(db) && old(db)[keys[j]].ListObj? ==>
                old(db)[keys[j]].items != [] && !clients[c].blocked &&
                replies == old(replies) + [Popped(c, keys[j], TakenAt(old(db)[keys[j]].items, head, 0))]
    {
      ghost var me := PopAsker(clients[c], OnList, keys, None, head);
      for j := 0 to |keys|
        invariant unchanged(this) && forall i :: 0 <= i < j ==> keys[i] !in db
      {
        MoreEmpty(db, keys[j]);
        if keys[j] in db {
          FirstHereIs(db, keys, j);
          if !db[keys[j]].ListObj? {
            replies := replies + [WrongType(c)];
            return;
          } else if db[keys[j]].items != [] {
            PopAndReply(c, keys[j], head, me);
            return;
          }
        }
      }
      FirstHereNone(db, keys);
      if multi {
        replies := replies + [Nil(c)];
        return;
      }
      var ids := seq(|keys|, i => 0);
      FirstIdsAre(keys, ids);
      BlockOn(c, OnList, keys, ids, None, head);
    }

    /** The reply of a pop that finds a list. */
    method PopAndReply(c: Id, k: Key, head: bool, ghost me: Client)
      requires Valid() && Served({}) && k in db && db[k].ListObj? && db[k].items != []
      requires me.target.None? && me.head == head
      modifies `db, `replies
      ensures Valid() && Served({})
      ensures Now() == old(Now()).(db := Tidied(StepDb(old(db), k, me), k),
                                   replies := old(replies) + [StepReply(old(db), k, c, me)])
      ensures replies == old(replies) + [Popped(c, k, TakenAt(old(db)[k].items, head, 0))]
    {
      var value := PopValue(db[k].items, head);
      replies := replies + [Popped(c, k, value)];
      PopNow(k, head);
    }

    /** listTypePop by a command, with the deletion of an emptied list. */
    method PopNow(k: Key, head: bool)
      requires Valid() && Served({}) && k in db && db[k].ListObj? && db[k].items != []
      modifies `db
      ensures Valid() && Served({}) && db == Tidied(old(db)[k := ListObj(PopRest(old(db)[k].items, head))], k)
    {
      var items := PopRest(db[k].items, head);
      if items == [] {
        DeleteMissesNone(clients, db, ready + {} + forgotten, {}, k);
        assert db[k := ListObj(items)] - {k} == db - {k};
        db := db - {k};
      } else {
        FewerMissesNone(clients, db, ready + {} + forgotten, {}, k, ListObj(items));
        db := db[k := ListObj(items)];
      }
    }

    /** blockingGenericZpopCommand. */
    method BlockingZpop(c: Id, keys: seq<Key>, head: bool, multi: bool)
      requires Valid() && Served({}) && c in clients && !clients[c].blocked && keys != []
      modifies `clients, `waiters, `blockedClients, `byType, `db, `replies
      ensures Valid() && Served({})
      ensures PoppedOrBlocked(old(Now()), Now(), c, PopAsker(old(clients)[c], OnZset, keys, None, head), keys, multi)
      ensures c in clients && (clients[c].blocked ==> clients[c].btype == OnZset && AllPop(clients, [c], head))
      ensures var j := FirstHere(old(db), keys);
              j < |keys| && keys[j] in old(db) && old(db)[keys[j]].ZsetObj? ==>
                old(db)[keys[j]].members != [] && !clients[c].blocked &&
                replies == old(replies) + [Popped(c, keys[j], TakenAt(old(db)[keys[j]].members, head, 0))]
    {
      ghost var me := PopAsker(clients[c], OnZset, keys, None, head);
      for j := 0 to |keys|
        invariant unchanged(this) && forall i :: 0 <= i < j ==> keys[i] !in db
      {
        MoreEmpty(db, keys[j]);
        if keys[j] in db {
          FirstHereIs(db, keys, j);
          if !db[keys[j]].ZsetObj? {
            replies := replies + [WrongType(c)];
            return;
          } else if db[keys[j]].members != [] {
            ZpopFor(c, keys[j], head, {});
            return;
          }
        }
      }
      FirstHereNone(db, keys);
      if multi {
        replies := replies + [Nil(c)];
        return;
      }
      var ids := seq(|keys|, i => 0);
      FirstIdsAre(keys, ids);
      BlockOn(c, OnZset, keys, ids, None, head);
    }

    /** brpoplpushCommand, with rpoplpushCommand when the list is there. */
    method Brpoplpush(c: Id, key: Key, target: Key, multi: bool)
      requires Valid() && Served({}) && c in clients && !clients[c].blocked
      modifies `clients, `waiters, `blockedClients, `byType, `db, `replies, `ready, `readyKeys
      ensures Valid() && Served({})
      ensures PoppedOrBlocked(old(Now()), Now(), c, PopAsker(old(clients)[c], OnList, [key], Some(target), false),
                              [key], multi)
    {
      MoreEmpty(db, key);
      if key !in db {
        FirstHereNone(db, [key]);
        if multi {
          replies := replies + [Nil(c)];
          return;
        }
        FirstIdsAre([key], [0]);
        assert seq(1, i => 0) == [0];
        BlockOn(c, OnList, [key], [0], Some(target), false);
        return;
      }
      FirstHereIs(db, [key], 0);
      if !db[key].ListObj? {
        replies := replies + [WrongType(c)];
        return;
      }
      if target in db && !db[target].ListObj? {
        replies := replies + [WrongType(c)];
        return;
      }
      Rpoplpush(c, key, target);
    }

    method Rpoplpush(c: Id, key: Key, target: Key)
      requires Valid() && Served({}) && key in db && db[key].ListObj? && db[key].items != []
      requires target in db ==> db[target].ListObj?
      modifies `db, `replies, `ready, `readyKeys
      ensures Valid() && Served({})
      ensures var popped := old(db)[key := ListObj(PopRest(old(db)[key].items, false))];
              var value := PopValue(old(db)[key].items, false);
              && db == Tidied(popped[target := ListObj([value] + ItemsAt(popped, target))], key)
              && replies == old(replies) + [Moved(c, value)]
    {
      var value, rest := PopValue(db[key].items, false), PopRest(db[key].items, false);
      StartNow(clients, db, ready, forgotten, key, ListObj(rest));
      db := db[key := ListObj(rest)];
      RpoplpushHandlePush(c, target, value, {key});
      if db[key].items == [] {
        DeleteMissesNone(clients, db, ready + {key} + forgotten, {key}, key);
        db := db - {key};
        DropNow(clients, db, ready, forgotten, key);
        MoreReady(clients, db, ready + {} + (forgotten - {key}), ready + {} + forgotten);
      } else {
        StopNow(clients, old(db), db, old(ready), ready, forgotten, key);
      }
    }

    /** xreadCommand without a group: the new entries of every stream that has some, or the
        client blocks. */
    method Xread(c: Id, keys: seq<Key>, ids: seq<int>, mayBlock: bool)
      requires Valid() && Served({}) && c in clients && !clients[c].blocked && keys != [] && |ids| == |keys|
      modifies `clients, `waiters, `blockedClients, `byType, `replies
      ensures Valid() && Served({})
      ensures var found := EntriesFor(old(db), c, keys, ids);
              if !AllStreams(old(db), keys) then
                Now() == old(Now()).(replies := old(replies) + [WrongType(c)])
              else if found != [] then
                Now() == old(Now()).(replies := old(replies) + found)
              else if !mayBlock then
                Now() == old(Now()).(replies := old(replies) + [Nil(c)])
              else
                && clients == old(clients)[c := Asker(old(clients)[c], OnStream, FirstIds(keys, ids), None, false)]
                && replies == old(replies)
    {
      for j := 0 to |keys|
        invariant unchanged(this) && AllStreams(db, keys[..j])
      {
        assert keys[..j + 1] == keys[..j] + [keys[j]];
        assert keys[j] in keys;
        if keys[j] in db && !db[keys[j]].StreamObj? {
          replies := replies + [WrongType(c)];
          return;
        }
      }
      assert keys[..|keys|] == keys && ids[..|keys|] == ids;
      var found: seq<Reply> := [];
      for j := 0 to |keys|
        invariant unchanged(this) && found == EntriesFor(db, c, keys[..j], ids[..j])
      {
        assert keys[..j + 1][..j] == keys[..j] && ids[..j + 1][..j] == ids[..j];
        if keys[j] in db && db[keys[j]].StreamObj? && db[keys[j]].length > 0 && db[keys[j]].lastId > ids[j] {
          found := found + [Entries(c, keys[j], ids[j])];
        }
      }
      if found != [] {
        replies := replies + found;
      } else if !mayBlock {
        replies := replies + [Nil(c)];
      } else {
        NoEntries(db, c, keys, ids);
        BlockOn(c, OnStream, keys, ids, None, false);
      }
    }

    /** A timeout, a disconnection or CLIENT UNBLOCK. */
    method Timeout(c: Id)
      requires Valid() && Served({}) && c in clients && clients[c].blocked
      modifies `clients, `waiters, `unblocked, `blockedClients, `byType
      ensures Valid() && Served({}) && clients == old(clients)[c := Freed(old(clients)[c])]
    {
      FreeMissesNone(clients, db, ready + {} + forgotten, c);
      UnblockClient(c);
    }

    /** One turn of processUnblockedClients, up to the processing of the input. */
    method TakeUnblocked() returns (c: Id)
      requires Valid() && Served({}) && unblocked != []
      modifies `clients, `unblocked
      ensures Valid() && Served({}) && c == old(unblocked)[0] && unblocked == old(unblocked)[1..]
      ensures c in old(clients) && clients == old(clients)[c := old(clients)[c].(unblocked := false)]
    {
      c := unblocked[0];
      TakeKeeps(clients, waiters, unblocked, blockedClients, byType, db, ready + {} + forgotten);
      unblocked := unblocked[1..];
      clients := clients[c := clients[c].(unblocked := false)];
    }

    // ---- commands that store ----

    /** pushGenericCommand. */
    method Push(k: Key, values: seq<int>, head: bool) returns (ok: bool)
      requires Valid() && Served({})
      modifies `db, `ready, `readyKeys
      ensures Valid() && Served({})
      ensures ok == (k in old(db) ==> old(db)[k].ListObj?)
      ensures db == if !ok || values == [] then old(db)
                    else old(db)[k := ListObj(PushAll(ItemsAt(old(db), k), values, head))]
      ensures readyKeys == if values != [] && k !in old(db) && k in waiters && k !in old(ready)
                           then old(readyKeys) + [k] else old(readyKeys)
    {
      if k in db && !db[k].ListObj? {
        return false;
      }
      ok := true;
      if values == [] {
        return;
      }
      var items := if k in db then db[k].items else [];
      ghost var start := items;
      for j := 0 to |values|
        invariant items == PushAll(start, values[..j], head)
      {
        assert values[..j + 1][..j] == values[..j];
        items := PushTo(items, values[j], head);
      }
      assert values[..|values|] == values;
      PushAllSome(start, values, head);
      if k in db {
        PushMissesNone(clients, db, ready + {} + forgotten, {}, k, items);
        db := db[k := ListObj(items)];
      } else {
        DbAdd(k, ListObj(items));
      }
    }

    /** A push to a new list, with the handling of ready keys after the command: the clients that
        wait for the list and pop at one end get the values one by one, in the order in which they
        came. At different ends the list is a queue, at the same end a stack. */
    method PushAndServe(k: Key, values: seq<int>, pushed: bool, popped: bool)
      requires Valid() && Served({}) && readyKeys == [] && draining == [] && k !in db && values != []
      requires OneType(clients, At(waiters, k), OnList) && AllPop(clients, At(waiters, k), popped)
      modifies this
      ensures Valid() && Served({}) && readyKeys == [] && draining == []
      ensures Given(old(replies), replies, old(At(waiters, k)), k, values, pushed, popped)
    {
      ghost var s := At(waiters, k);
      NothingQueued(ready, draining + readyKeys);
      WaitersAt(clients, waiters, k);
      var _ := Push(k, values, pushed);
      ghost var was := Now();
      ghost var book := HandleClientsBlockedOnKeys();
      if s != [] {
        assert KeysOf(book.turns)[0] == k;
        FirstTurnGives(was, Now(), book.ms, book.turns, k, s, values, pushed, popped);
      } else {
        NothingGiven(was, Now(), book.ms, book.turns, k, values, pushed, popped);
      }
    }

    /** A blocking pop of a missing key for which nobody waits, and then a push: the client gets the
        first of the values if popped and pushed at different ends, and the last otherwise. */
    method BlockAndPush(c: Id, k: Key, popped: bool, values: seq<int>, pushed: bool)
      requires Valid() && Served({}) && readyKeys == [] && draining == [] && c in clients && !clients[c].blocked
      requires k !in db && At(waiters, k) == [] && values != []
      modifies this
      ensures Valid() && Served({}) && Given(old(replies), replies, [c], k, values, pushed, popped)
    {
      FirstHereNone(db, [k]);
      NothingQueued(ready, draining + readyKeys);
      ghost var before, list := clients, waiters;
      BlockingPop(c, [k], popped, false);
      FirstIdsAre([k], seq(1, i => 0));
      OnlyWaiter(before, list, clients, waiters, c, k);
      PushAndServe(k, values, pushed, popped);
    }

    /** dbAdd of a list or sorted set: waiters are told. */
    method DbAdd(k: Key, o: Obj)
      requires Valid() && Served({}) && k !in db && (o.ListObj? || o.ZsetObj?) && o != ListObj([]) && o != ZsetObj([])
      modifies `db, `ready, `readyKeys
      ensures Valid() && Served({}) && db == old(db)[k := o] && old(ready) <= ready
      ensures k in waiters ==> k in ready
      ensures readyKeys == if k in waiters && k !in old(ready) then old(readyKeys) + [k] else old(readyKeys)
    {
      SignalKeyAsReady(k);
      AddMissesNone(clients, waiters, db, old(ready) + {} + forgotten, ready + {} + forgotten, {}, k, o);
      db := db[k := o];
    }

    /** zaddGenericCommand, where `members` is the sorted set after the insertions. */
    method Zadd(k: Key, members: seq<int>) returns (ok: bool)
      requires Valid() && Served({}) && members != []
      modifies `db, `ready, `readyKeys
      ensures Valid() && Served({})
      ensures ok == (k in old(db) ==> old(db)[k].ZsetObj?)
      ensures db == if ok then old(db)[k := ZsetObj(members)] else old(db)
    {
      ok := true;
      if k !in db {
        DbAdd(k, ZsetObj(members));
      } else if db[k].ZsetObj? {
        MoreEmpty(db, k);
        FewerMissesNone(clients, db, ready + {} + forgotten, {}, k, ZsetObj(members));
        db := db[k := ZsetObj(members)];
      } else {
        ok := false;
      }
    }

    /** xaddCommand: a new stream is created even if the ID is refused; waiters are told when
        anybody at all waits for a stream. */
    method Xadd(k: Key, id: int) returns (ok: bool)
      requires Valid() && Served({})
      modifies `db, `ready, `readyKeys
      ensures Valid() && Served({})
      ensures var s := if k in old(db) then old(db)[k] else StreamObj(0, 0);
              && ok == (s.StreamObj? && id > s.lastId)
              && db == if !s.StreamObj? then old(db)
                       else old(db)[k := if ok then StreamObj(id, s.length + 1) else s]
    {
      if k in db && !db[k].StreamObj? {
        return false;
      }
      if k !in db {
        EmptyStreamMissesNone(clients, db, ready + {} + forgotten, k);
        db := db[k := StreamObj(0, 0)];
      }
      var s := db[k];
      if id <= s.lastId {
        assert db[k := s] == db;
        return false;
      }
      ghost var before, marked := db, ready + {} + forgotten;
      db := db[k := StreamObj(id, s.length + 1)];
      NoneOfType(clients, blockedClients, byType, OnStream);
      if byType[OnStream] > 0 {
        SignalKeyAsReady(k);
        AddMissesNone(clients, waiters, before, marked, ready + {} + forgotten, {}, k, StreamObj(id, s.length + 1));
      } else {
        NoStreamWaiters(clients, before, marked, k, StreamObj(id, s.length + 1));
      }
      ok := true;
    }

    /** setKey: a new list or sorted set is signalled, overwriting one is not. The waiters of the
        key are forgotten exactly when it is neither signalled nor queued, and holds something
        that one of them can use. */
    method SetKey(k: Key, o: Obj)
      requires Valid() && Served({}) && o != ListObj([]) && o != ZsetObj([])
      modifies `db, `ready, `readyKeys, `forgotten
      ensures Valid() && Served({}) && db == old(db)[k := o]
      ensures !old(Signals(db, k, o)) ==> ready == old(ready) && readyKeys == old(readyKeys)
      ensures forgotten == if old(Heard(clients, db, ready, k, o)) then old(forgotten) - {k} else old(forgotten) + {k}
      ensures NoneMissed(clients, db, ready + (old(forgotten) - {k})) <==> old(Heard(clients, db, ready, k, o))
    {
      ghost var marked, heard := ready + {} + forgotten, Heard(clients, db, ready, k, o);
      if k !in db {
        if o.ListObj? || o.ZsetObj? {
          SignalKeyAsReady(k);
          NobodyListed(clients, waiters, k, o);
        }
      }
      StoreMisses(clients, db, marked, ready + (forgotten - {k}), k, o);
      StoredEmpty(db, k, o);
      db := db[k := o];
      forgotten := if heard then forgotten - {k} else forgotten + {k};
      StoreMisses(clients, old(db), marked, ready + {} + forgotten, k, o);
    }

    /** dbDelete. */
    method Delete(k: Key)
      requires Valid() && Served({})
      modifies `db, `forgotten
      ensures Valid() && Served({}) && db == old(db) - {k} && forgotten == old(forgotten) - {k}
    {
      DeleteMissesNone(clients, db, ready + {} + forgotten, {}, k);
      db := db - {k};
      MoreReady(clients, db, ready + {} + forgotten - {k}, ready + {} + (forgotten - {k}));
      forgotten := forgotten - {k};
    }
  }

  /** A client waits for a key; the key is set to a string and then, as SORT STORE does it,
      overwritten by a list. Nothing is queued, and the client waits for data that is there. */
  method ForgottenWaiter() returns (s: Server)
    ensures s.Valid() && s.Served({}) && s.readyKeys == [] && s.draining == []
    ensures var k := Key(0, 0); Waits(s.clients, 1, k) && CanServe(s.db, k, s.clients[1]) && s.forgotten == {k}
  {
    s := new Server();
    s.Connect(1);
    FirstWaiter(s, Key(0, 0));
    StoreTwice(s, Key(0, 0));
  }

  /** BLPOP of client 1 on a missing key. */
  method FirstWaiter(s: Server, k: Key)
    requires s.Valid() && s.Served({}) && s.clients == map[1 := IDLE] && s.db == map[]
    modifies s`clients, s`waiters, s`blockedClients, s`byType, s`db, s`replies
    ensures s.Valid() && s.Served({}) && Waits(s.clients, 1, k) && s.clients[1].btype == OnList && s.db == map[]
  {
    FirstHereNone(s.db, [k]);
    s.BlockingPop(1, [k], true, false);
    FirstIdsAre([k], seq(1, i => 0));
    assert k in [k];
  }

  method StoreTwice(s: Server, k: Key)
    requires s.Valid() && s.Served({}) && Waits(s.clients, 1, k) && s.clients[1].btype == OnList && s.db == map[]
    requires s.readyKeys == [] && s.ready == {} && s.forgotten == {}
    modifies s`db, s`ready, s`readyKeys, s`forgotten
    ensures s.Valid() && s.Served({}) && s.readyKeys == [] && s.db == map[k := ListObj([7])] && s.forgotten == {k}
  {
    s.SetKey(k, OtherObj);
    assert CanServe(map[k := ListObj([7])], k, s.clients[1]);
    s.SetKey(k, ListObj([7]));
  }
}
