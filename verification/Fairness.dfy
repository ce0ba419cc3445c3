/**
 Fairness of handleClientsBlockedOnKeys: as long as all clients of a key wait for a list, or all
 for a sorted set, they are served in the order in which they came, over the whole call and
 whatever happens to other keys in between. With clients of both types it is not fair, because a
 client of the other type is moved to the end.
*/
module Fairness {
  import opened BlockedIndex
  import opened BlockedSteps
  import opened Hiding
  import opened Options
  import opened Sequences
  import opened Serving

  /** The clients `cs` were served from `key`. */
  datatype Turn = Turn(key: Key, cs: seq<Id>)

  function Everybody(turns: seq<Turn>): seq<Id> {
    if turns == [] then [] else Everybody(turns[..|turns| - 1]) + turns[|turns| - 1].cs
  }

  function ServedFrom(turns: seq<Turn>, k: Key): seq<Id> {
    if turns == [] then []
    else
      var last := turns[|turns| - 1];
      ServedFrom(turns[..|turns| - 1], k) + if last.key == k then last.cs else []
  }

  ghost predicate Precedes(s: seq<Id>, c: Id, d: Id) {
    exists p, q :: 0 <= p < q < |s| && s[p] == c && s[q] == d
  }

  /** The clients of `x` are some of `s`, in the same order. */
  ghost predicate InOrder(x: seq<Id>, s: seq<Id>) {
    && (forall c :: c in x ==> c in s)
    && (forall c, d :: Precedes(x, c, d) ==> Precedes(s, c, d))
  }

  ghost predicate OneType(clients: Clients, s: seq<Id>, t: BType) {
    (t.OnList? || t.OnZset?) && forall c :: c in s ==> c in clients && clients[c].btype == t
  }

  /** For every key with clients of one type: those served from it, in the order of service, and
      then those who still wait, are in the order in which they waited at first. */
  ghost predicate Fair(a: Moment, waiters: Waiters, turns: seq<Turn>) {
    forall u: nat :: Unfold(Orders, u) ==>
      forall k, t :: OneType(a.clients, At(a.waiters, k), t) ==>
        InOrder(ServedFrom(turns, k) + At(waiters, k), At(a.waiters, k))
  }

  /** A turn serves the first of the clients of its key, if they are of one type. */
  ghost predicate FirstServed(b: Moment, waiters: Waiters, key: Key, cs: seq<Id>) {
    forall u: nat :: Unfold(Orders, u) ==>
      forall t :: OneType(b.clients, At(b.waiters, key), t) ==> cs + At(waiters, key) == At(b.waiters, key)
  }

  // ---- orders ----

  lemma InOrderTrans(x: seq<Id>, y: seq<Id>, z: seq<Id>)
    requires InOrder(x, y) && InOrder(y, z)
    ensures InOrder(x, z)
  {
  }

  lemma PrecedesIn(x: seq<Id>, y: seq<Id>, p: nat, q: nat)
    requires p < q < |x| + |y|
    ensures var c, d := (x + y)[p], (x + y)[q];
            Precedes(x, c, d) || Precedes(y, c, d) || (c in x && d in y)
  {
    if q < |x| {
      assert Precedes(x, x[p], x[q]);
    } else if p >= |x| {
      assert Precedes(y, y[p - |x|], y[q - |x|]);
    }
  }

  lemma PrecedesJoined(x: seq<Id>, y: seq<Id>, c: Id, d: Id)
    requires Precedes(x, c, d) || Precedes(y, c, d) || (c in x && d in y)
    ensures Precedes(x + y, c, d)
  {
    var s := x + y;
    if Precedes(x, c, d) {
      var p, q :| 0 <= p < q < |x| && x[p] == c && x[q] == d;
      assert s[p] == c && s[q] == d;
    } else if Precedes(y, c, d) {
      var p, q :| 0 <= p < q < |y| && y[p] == c && y[q] == d;
      assert s[|x| + p] == c && s[|x| + q] == d;
    } else {
      var p :| 0 <= p < |x| && x[p] == c;
      var q :| 0 <= q < |y| && y[q] == d;
      assert s[p] == c && s[|x| + q] == d;
    }
  }

  lemma InOrderBehind(x: seq<Id>, y: seq<Id>, z: seq<Id>)
    requires InOrder(y, z)
    ensures InOrder(x + y, x + z)
  {
    forall c, d | Precedes(x + y, c, d)
      ensures Precedes(x + z, c, d)
    {
      var p: nat, q: nat :| p < q < |x + y| && (x + y)[p] == c && (x + y)[q] == d;
      PrecedesIn(x, y, p, q);
      PrecedesJoined(x, z, c, d);
    }
  }

  lemma TailInOrder(s: seq<Id>)
    requires s != []
    ensures InOrder(s[1..], s)
  {
    forall c, d | Precedes(s[1..], c, d)
      ensures Precedes(s, c, d)
    {
      var p, q :| 0 <= p < q < |s[1..]| && s[1..][p] == c && s[1..][q] == d;
      assert s[p + 1] == c && s[q + 1] == d;
    }
  }

  lemma {:induction false} WithoutInOrder(s: seq<Id>, c: Id)
    ensures InOrder(Without(s, c), s)
  {
    if s != [] {
      if s[0] == c {
        TailInOrder(s);
      } else {
        WithoutInOrder(s[1..], c);
        InOrderBehind([s[0]], Without(s[1..], c), s[1..]);
        assert [s[0]] + s[1..] == s;
      }
    }
  }

  lemma {:induction false} WithoutAllInOrder(s: seq<Id>, cs: seq<Id>)
    ensures InOrder(WithoutAll(s, cs), s)
  {
    if cs != [] {
      var most := cs[..|cs| - 1];
      WithoutAllInOrder(s, most);
      WithoutInOrder(WithoutAll(s, most), cs[|cs| - 1]);
      InOrderTrans(WithoutAll(s, cs), WithoutAll(s, most), s);
    }
  }

  // ---- turns ----

  lemma FairAtFirst(a: Moment)
    ensures Fair(a, a.waiters, [])
  {
    forall k
      ensures ServedFrom([], k) + At(a.waiters, k) == At(a.waiters, k)
    {
    }
  }

  lemma ServedMore(turns: seq<Turn>, key: Key, cs: seq<Id>, k: Key)
    ensures ServedFrom(turns + [Turn(key, cs)], k) == ServedFrom(turns, k) + (if key == k then cs else [])
    ensures Everybody(turns + [Turn(key, cs)]) == Everybody(turns) + cs
  {
    assert (turns + [Turn(key, cs)])[..|turns|] == turns;
  }

  /** Those who wait for the key are of the same type as at first. */
  lemma SameType(a: Moment, b: Moment, mine: seq<Id>, k: Key, t: BType)
    requires OneType(a.clients, At(a.waiters, k), t) && InOrder(mine + At(b.waiters, k), At(a.waiters, k))
    requires forall c :: c in At(b.waiters, k) ==> c in a.clients && c in b.clients && a.clients[c] == b.clients[c]
    ensures OneType(b.clients, At(b.waiters, k), t)
  {
    assert forall c :: c in At(b.waiters, k) ==> c in mine + At(b.waiters, k);
  }

  /** One more turn. */
  lemma FairTurn(a: Moment, b: Moment, waiters: Waiters, turns: seq<Turn>, key: Key, cs: seq<Id>)
    requires Fair(a, b.waiters, turns) && FirstServed(b, waiters, key, cs)
    requires forall k :: k != key ==> At(waiters, k) == WithoutAll(At(b.waiters, k), cs)
    requires forall c :: c in At(b.waiters, key) ==> c in a.clients && c in b.clients && a.clients[c] == b.clients[c]
    ensures Fair(a, waiters, turns + [Turn(key, cs)])
  {
    assert Unfold(Orders, 0);
    forall k, t | OneType(a.clients, At(a.waiters, k), t)
      ensures InOrder(ServedFrom(turns + [Turn(key, cs)], k) + At(waiters, k), At(a.waiters, k))
    {
      var mine, now := ServedFrom(turns, k), At(b.waiters, k);
      ServedMore(turns, key, cs, k);
      if k == key {
        SameType(a, b, mine, k, t);
        assert (mine + cs) + At(waiters, k) == mine + (cs + At(waiters, k));
      } else {
        WithoutAllInOrder(now, cs);
        InOrderBehind(mine, At(waiters, k), now);
        InOrderTrans(mine + At(waiters, k), mine + now, At(a.waiters, k));
        assert mine + [] == mine;
      }
    }
  }

  // ---- what a turn does to a key with clients of one type ----

  lemma {:induction false} AllPicked(clients: Clients, p: Client -> bool, s: seq<Id>)
    requires forall c :: c in s ==> c in clients && p(clients[c])
    ensures Picked(clients, p, s) == s && Others(clients, p, s) == []
  {
    if s != [] {
      var n := |s| - 1;
      assert s == s[..n] + [s[n]];
      AllPicked(clients, p, s[..n]);
    }
  }

  lemma {:induction false} NonePicked(clients: Clients, p: Client -> bool, s: seq<Id>)
    requires forall c :: c in s ==> c in clients && !p(clients[c])
    ensures Picked(clients, p, s) == [] && Others(clients, p, s) == s
  {
    if s != [] {
      var n := |s| - 1;
      assert s == s[..n] + [s[n]];
      NonePicked(clients, p, s[..n]);
    }
  }

  lemma Rejoin(s: seq<Id>, i: nat)
    requires i <= |s|
    ensures s[..i] + (s[i..] + []) == s
    ensures i == |s| ==> [] + (s[i..] + s[..i]) == s
  {
  }

  /** A loop that looks at the clients in order and moves those of another type to the end. */
  lemma TurnedServesFirst(b: Moment, clients: Clients, waiters: Waiters, kind: BType, key: Key, i: nat, cs: seq<Id>)
    requires Turned(b.clients, clients, kind, At(b.waiters, key), i, At(waiters, key))
    requires cs == Picked(b.clients, HasType(kind), At(b.waiters, key)[..i])
    requires cs == [] ==> i == |At(b.waiters, key)|
    ensures FirstServed(b, waiters, key, cs)
  {
    var s := At(b.waiters, key);
    forall t | OneType(b.clients, s, t)
      ensures cs + At(waiters, key) == s
    {
      assert forall c :: c in s[..i] ==> c in s;
      Rejoin(s, i);
      if t == kind {
        AllPicked(b.clients, HasType(kind), s[..i]);
      } else {
        NonePicked(b.clients, HasType(kind), s[..i]);
      }
    }
  }

  lemma StreamServesNone(b: Moment, waiters: Waiters, key: Key, lastId: int, cs: seq<Id>)
    requires cs == Picked(b.clients, Behind(key, lastId), At(b.waiters, key))
    requires At(waiters, key) == Others(b.clients, Behind(key, lastId), At(b.waiters, key))
    ensures FirstServed(b, waiters, key, cs)
  {
    var s := At(b.waiters, key);
    forall t | OneType(b.clients, s, t)
      ensures cs + At(waiters, key) == s
    {
      NonePicked(b.clients, Behind(key, lastId), s);
    }
  }

  /** Clients 1 and 3 wait for a list and client 2 for a sorted set. A sorted set with one member
      serves client 2 and moves client 1 behind client 3. */
  lemma MixedKeyIsUnfair(before: Clients, clients: Clients, l: seq<Id>)
    requires {1, 2, 3} <= before.Keys && before[1].btype == OnList == before[3].btype && before[2].btype == OnZset
    requires Turned(before, clients, OnZset, [1, 2, 3], 2, l)
    ensures Precedes([1, 2, 3], 1, 3) && Precedes(l, 3, 1)
  {
    var s: seq<Id> := [1, 2, 3];
    NextPicked(before, HasType(OnZset), s, 0);
    NextPicked(before, HasType(OnZset), s, 1);
    assert s[..0] == [] && s[..2] == [1, 2] && s[2..] == [3];
    assert l == [3, 1] && l[0] == 3 && l[1] == 1;
    assert s[0] == 1 && s[2] == 3;
  }
}
