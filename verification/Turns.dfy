/**
 A call of handleClientsBlockedOnKeys as a sequence of turns, one for each ready key, with the
 moments between them. Each turn serves those who want what the key holds, as long as it lasts.
*/
module Turns {
  import opened BlockedIndex
  import opened BlockedSteps
  import opened Fairness
  import opened Hiding
  import opened Options
  import opened Sequences
  import opened Serving
  import opened ServingOrder

  /** The key holds something for the client: an object of the type it waits for and, if it is a
      stream, with entries after the ID it waits for. */
  ghost predicate Wants(b: Moment, key: Key, c: Id) {
    && key in b.db && c in b.clients && b.clients[c].btype == Kind(b.db[key])
    && (b.db[key].StreamObj? ==> key in b.clients[c].keys && b.db[key].lastId > b.clients[c].keys[key])
  }

  /** Only such clients are served, and all of them or until nothing is left. */
  ghost predicate Enough(b: Moment, key: Key, cs: seq<Id>) {
    && (forall c :: c in cs ==> Wants(b, key, c))
    && (forall c :: c in At(b.waiters, key) && c !in cs && Wants(b, key, c) ==>
          !Full(DbAfter(b.db, b.clients, key, cs), key))
  }

  ghost predicate TurnTaken(b: Moment, d: Moment, turn: Turn) {
    forall u: nat :: Unfold(Turning, u) ==>
      Fed(b, d, turn.key, turn.cs) && FirstServed(b, d.waiters, turn.key, turn.cs) && Enough(b, turn.key, turn.cs)
  }

  /** The moments before, between and after the turns. */
  ghost predicate Traced(ms: seq<Moment>, turns: seq<Turn>) {
    forall u: nat :: Unfold(Turning, u) ==>
      |ms| == |turns| + 1 && forall i :: 0 <= i < |turns| ==> TurnTaken(ms[i], ms[i + 1], turns[i])
  }

  function KeysOf(turns: seq<Turn>): seq<Key> {
    seq(|turns|, i requires 0 <= i < |turns| => turns[i].key)
  }

  /** The turns lead from `a` to `b`. */
  ghost predicate TracedFrom(a: Moment, b: Moment, ms: seq<Moment>, turns: seq<Turn>) {
    forall u: nat :: Unfold(Turning, u) ==> Traced(ms, turns) && ms != [] && ms[0] == a && ms[|ms| - 1] == b
  }

  lemma NothingTraced(b: Moment)
    ensures TracedFrom(b, b, [b], [])
  {
  }

  lemma TracedMore(a: Moment, ms: seq<Moment>, turns: seq<Turn>, b: Moment, d: Moment, turn: Turn)
    requires TracedFrom(a, b, ms, turns) && TurnTaken(b, d, turn)
    ensures TracedFrom(a, d, ms + [d], turns + [turn])
  {
    assert Unfold(Turning, 0);
    var ms', turns' := ms + [d], turns + [turn];
    forall i | 0 <= i < |turns'|
      ensures TurnTaken(ms'[i], ms'[i + 1], turns'[i])
    {
      assert i < |turns| ==> ms'[i] == ms[i] && ms'[i + 1] == ms[i + 1] && turns'[i] == turns[i];
      assert i == |turns| ==> ms'[i] == b && ms'[i + 1] == d && turns'[i] == turn;
    }
  }

  // ---- the queue ----

  /** The keys that were ready first get the first turns; `left` are still to come. */
  ghost predicate InTurn(queue: seq<Key>, turns: seq<Turn>, left: seq<Key>) {
    forall u: nat :: Unfold(Turning, u) ==> queue <= KeysOf(turns) + left
  }

  lemma AllInTurn(queue: seq<Key>, turns: seq<Turn>)
    requires InTurn(queue, turns, [])
    ensures queue <= KeysOf(turns)
  {
    assert Unfold(Turning, 0) && KeysOf(turns) + [] == KeysOf(turns);
  }

  lemma FirstInTurn(queue: seq<Key>)
    ensures InTurn(queue, [], queue)
  {
    assert KeysOf([]) + queue == queue;
  }

  lemma NextInTurn(queue: seq<Key>, turns: seq<Turn>, l: seq<Key>, cs: seq<Id>, early: seq<Key>, late: seq<Key>)
    requires l != [] && InTurn(queue, turns, l + early) && early <= late
    ensures InTurn(queue, turns + [Turn(l[0], cs)], l[1..] + late)
  {
    assert Unfold(Turning, 0);
    var key, left, more := l[0], l[1..] + early, l[1..] + late;
    assert l + early == [key] + left;
    var turns' := turns + [Turn(key, cs)];
    assert KeysOf(turns') == KeysOf(turns) + [key];
    assert KeysOf(turns) + ([key] + left) == KeysOf(turns') + left;
    assert KeysOf(turns') + left <= KeysOf(turns') + more;
  }

  // ---- which clients a turn serves ----

  lemma EnoughTurned(b: Moment, kind: BType, key: Key, i: nat, cs: seq<Id>)
    requires key in b.db && kind == Kind(b.db[key]) && !b.db[key].StreamObj? && Distinct(At(b.waiters, key))
    requires i <= |At(b.waiters, key)| && cs == Picked(b.clients, HasType(kind), At(b.waiters, key)[..i])
    requires i == |At(b.waiters, key)| || !Full(DbAfter(b.db, b.clients, key, cs), key)
    ensures Enough(b, key, cs)
  {
    var s := At(b.waiters, key);
    PickedAre(b.clients, HasType(kind), s[..i]);
    assert i == |s| ==> s[..i] == s;
  }

  lemma ListRanOut(b: Moment, key: Key, cs: seq<Id>)
    requires key in b.db && b.db[key].ListObj? && ItemsAt(DbAfter(b.db, b.clients, key, cs), key) == []
    ensures !Full(DbAfter(b.db, b.clients, key, cs), key)
  {
    SameKind(b.db, b.clients, key, cs);
  }

  lemma EnoughPassed(b: Moment, key: Key, cs: seq<Id>)
    requires key in b.db && b.db[key].StreamObj? && Distinct(At(b.waiters, key))
    requires cs == Picked(b.clients, Behind(key, b.db[key].lastId), At(b.waiters, key))
    ensures Enough(b, key, cs)
  {
    PickedAre(b.clients, Behind(key, b.db[key].lastId), At(b.waiters, key));
  }

  lemma EnoughNone(b: Moment, key: Key)
    requires key in b.db ==> b.db[key].OtherObj?
    ensures Enough(b, key, [])
  {
  }

  /** Nobody is woken in vain: whoever is served waited for the key and wanted what it held. */
  lemma ServedWanted(ms: seq<Moment>, turns: seq<Turn>, i: nat, c: Id)
    requires Traced(ms, turns) && i < |turns| && i < |ms| && c in turns[i].cs
    ensures Waits(ms[i].clients, c, turns[i].key) && Wants(ms[i], turns[i].key, c)
  {
    assert Unfold(Turning, 0) && TurnTaken(ms[i], ms[i + 1], turns[i]);
  }

  // ---- the whole call ----

  /** The clients served so far, their replies, the turns, and the moments between them. */
  datatype Book = Book(served: seq<Id>, rs: seq<Reply>, turns: seq<Turn>, ms: seq<Moment>)

  /** The book tells all that happened from `a` to `b`; of the keys in `queue`, and those that got
      ready since, `left` are still to come. */
  ghost predicate Accounts(a: Moment, b: Moment, book: Book, queue: seq<Key>, left: seq<Key>) {
    forall u: nat :: Unfold(Books, u) ==>
      && Settled(a, b, book.served, book.rs)
      && Fair(a, b.waiters, book.turns) && book.served == Everybody(book.turns)
      && TracedFrom(a, b, book.ms, book.turns)
      && InTurn(queue, book.turns, left)
  }

  lemma OpenBook(a: Moment, queue: seq<Key>)
    ensures Accounts(a, a, Book([], [], [], [a]), queue, queue)
  {
    SettledNothing(a);
    FairAtFirst(a);
    NothingTraced(a);
    FirstInTurn(queue);
  }

  function Entered(book: Book, b: Moment, d: Moment, key: Key, cs: seq<Id>): Book {
    Book(book.served + cs, book.rs + RepliesTo(b.db, b.clients, key, cs), book.turns + [Turn(key, cs)], book.ms + [d])
  }

  /** One more turn. */
  lemma EnterTurn(a: Moment, b: Moment, d: Moment, book: Book, queue: seq<Key>, l: seq<Key>, cs: seq<Id>,
                  early: seq<Key>, late: seq<Key>)
    requires l != [] && Accounts(a, b, book, queue, l + early) && early <= late
    requires Fed(b, d, l[0], cs) && FirstServed(b, d.waiters, l[0], cs) && Enough(b, l[0], cs)
    requires l[0] in b.db ==> b.db[l[0]] != ListObj([])
    requires forall c :: c in At(b.waiters, l[0]) ==> Waits(b.clients, c, l[0])
    ensures Accounts(a, d, Entered(book, b, d, l[0], cs), queue, l[1..] + late)
  {
    assert Unfold(Books, 0);
    var key := l[0];
    FedSettles(a, b, d, book.served, book.rs, key, cs);
    SettledStill(a, b, book.served, book.rs, key);
    FedWaiters(b, d, key, cs);
    FairTurn(a, b, d.waiters, book.turns, key, cs);
    ServedMore(book.turns, key, cs, key);
    TracedMore(a, book.ms, book.turns, b, d, Turn(key, cs));
    NextInTurn(queue, book.turns, l, cs, early, late);
  }

  lemma CloseBook(a: Moment, b: Moment, book: Book, queue: seq<Key>)
    requires Accounts(a, b, book, queue, [])
    ensures Settled(a, b, book.served, book.rs)
    ensures Fair(a, b.waiters, book.turns) && book.served == Everybody(book.turns)
    ensures TracedFrom(a, b, book.ms, book.turns) && queue <= KeysOf(book.turns)
  {
    assert Unfold(Books, 0);
    AllInTurn(queue, book.turns);
  }

  // ---- the values of the first turn ----

  lemma {:induction false} RepliesStay(ms: seq<Moment>, turns: seq<Turn>, i: nat)
    requires Traced(ms, turns) && 0 < |ms| && i < |ms|
    ensures ms[i].replies <= ms[|ms| - 1].replies
    decreases |ms| - i
  {
    if i + 1 < |ms| {
      assert Unfold(Turning, 0) && Unfold(Giving, 0) && TurnTaken(ms[i], ms[i + 1], turns[i]);
      RepliesStay(ms, turns, i + 1);
    }
  }

  lemma PopsOfPrefix(clients: Clients, s: seq<Id>, n: nat, head: bool)
    requires AllPop(clients, s, head) && n <= |s|
    ensures AllPop(clients, s[..n], head)
  {
  }

  /** Not more are served than there are elements. */
  lemma NotMore(b: Moment, key: Key, cs: seq<Id>, items: seq<int>, head: bool)
    requires key in b.db && b.db[key] == ListObj(items) && AllPop(b.clients, cs, head)
    requires AllFed(b.db, b.clients, key, cs)
    ensures |cs| <= |items|
  {
    assert Unfold(Giving, 0);
    if |cs| > |items| {
      var n := |items|;
      PopsOfPrefix(b.clients, cs, n, head);
      ListPopsInOrder(b.db, b.clients, key, cs[..n], items, head);
    }
  }

  /** Not fewer either. */
  lemma NotFewer(b: Moment, key: Key, s: seq<Id>, n: nat, items: seq<int>, head: bool)
    requires key in b.db && b.db[key] == ListObj(items) && s == At(b.waiters, key) && Distinct(s)
    requires AllPop(b.clients, s, head) && OneType(b.clients, s, OnList)
    requires n <= |s| && n <= |items| && Enough(b, key, s[..n])
    ensures n == |s| || n == |items|
  {
    if n < |s| && n < |items| {
      PopsOfPrefix(b.clients, s, n, head);
      ListPopsInOrder(b.db, b.clients, key, s[..n], items, head);
      assert s[n] in s && s[n] !in s[..n];
      assert Wants(b, key, s[n]);
    }
  }

  /** The clients `s` of a list that all pop at the same end get its elements from there, in the
      order of the clients, as many as there are. */
  lemma TurnGivesInOrder(b: Moment, d: Moment, turn: Turn, s: seq<Id>, items: seq<int>, head: bool)
    requires TurnTaken(b, d, turn) && turn.key in b.db && b.db[turn.key] == ListObj(items)
    requires s == At(b.waiters, turn.key) && Distinct(s) && AllPop(b.clients, s, head) && OneType(b.clients, s, OnList)
    ensures var n := if |s| < |items| then |s| else |items|;
            turn.cs == s[..n] && d.replies == b.replies + PoppedAll(s[..n], turn.key, items, head)
  {
    assert Unfold(Turning, 0) && Unfold(Orders, 0) && Unfold(Giving, 0);
    var key, cs := turn.key, turn.cs;
    assert cs + At(d.waiters, key) == s;
    assert cs == s[..|cs|];
    PopsOfPrefix(b.clients, s, |cs|, head);
    NotMore(b, key, cs, items, head);
    NotFewer(b, key, s, |cs|, items, head);
    ListPopsInOrder(b.db, b.clients, key, cs, items, head);
  }

  /** A client that blocks on a key for which nobody waits is alone there. */
  lemma OnlyWaiter(before: Clients, list: Waiters, clients: Clients, waiters: Waiters, c: Id, k: Key)
    requires Index(before, list) && Index(clients, waiters) && At(list, k) == []
    requires c in clients && clients == before[c := clients[c]] && k in clients[c].keys
    ensures At(waiters, k) == [c]
  {
    assert Unfold(Waiting, 0);
    var l := At(waiters, k);
    forall d | d in l ensures d == c {
      assert Waits(clients, d, k);
      assert d != c ==> Waits(before, d, k);
    }
    assert Waits(clients, c, k) && c in l;
    assert l[0] in l && l[|l| - 1] in l;
    assert l[0] == c == l[|l| - 1];
  }

  /** The value that the client number `i` gets after a push of `values` to a new list. */
  function PushedFor(values: seq<int>, pushed: bool, popped: bool, i: nat): int
    requires i < |values|
  {
    if pushed != popped then values[i] else values[|values| - 1 - i]
  }

  /** A queue if pushed and popped at different ends, a stack if at the same. */
  lemma PushedThenTaken(values: seq<int>, pushed: bool, popped: bool, i: nat)
    requires i < |values|
    ensures var items := PushAll([], values, pushed);
            |items| == |values| && TakenAt(items, popped, i) == PushedFor(values, pushed, popped, i)
  {
    PushedAtTail([], values);
    PushedAtHead([], values);
  }

  /** The clients `s` got the first of the values, in their own order. */
  ghost predicate Given(before: seq<Reply>, after: seq<Reply>, s: seq<Id>, key: Key, values: seq<int>, pushed: bool,
                        popped: bool) {
    && before <= after
    && forall i :: 0 <= i < |s| && i < |values| ==>
         && |before| + i < |after|
         && after[|before| + i] == Popped(s[i], key, PushedFor(values, pushed, popped, i))
  }

  lemma PoppedAreGiven(before: seq<Reply>, middle: seq<Reply>, after: seq<Reply>, s: seq<Id>, n: nat, key: Key,
                       values: seq<int>, pushed: bool, popped: bool)
    requires n == (if |s| < |values| then |s| else |values|) && |PushAll([], values, pushed)| == |values|
    requires middle == before + PoppedAll(s[..n], key, PushAll([], values, pushed), popped) && middle <= after
    ensures Given(before, after, s, key, values, pushed, popped)
  {
    forall i | 0 <= i < |s| && i < |values|
      ensures |before| + i < |after|
      ensures after[|before| + i] == Popped(s[i], key, PushedFor(values, pushed, popped, i))
    {
      PushedThenTaken(values, pushed, popped, i);
      assert after[|before| + i] == middle[|before| + i];
    }
  }

  lemma FirstTurnGives(a: Moment, b: Moment, ms: seq<Moment>, turns: seq<Turn>, key: Key, s: seq<Id>,
                       values: seq<int>, pushed: bool, popped: bool)
    requires TracedFrom(a, b, ms, turns) && turns != [] && turns[0].key == key
    requires key in a.db && a.db[key] == ListObj(PushAll([], values, pushed))
    requires s == At(a.waiters, key) && Distinct(s) && AllPop(a.clients, s, popped) && OneType(a.clients, s, OnList)
    ensures Given(a.replies, b.replies, s, key, values, pushed, popped)
  {
    assert Unfold(Turning, 0) && TurnTaken(ms[0], ms[1], turns[0]);
    var items := PushAll([], values, pushed);
    PushedLength(values, pushed);
    TurnGivesInOrder(ms[0], ms[1], turns[0], s, items, popped);
    RepliesStay(ms, turns, 1);
    PoppedAreGiven(a.replies, ms[1].replies, b.replies, s,
                   if |s| < |values| then |s| else |values|, key, values, pushed, popped);
  }

  lemma NothingGiven(a: Moment, b: Moment, ms: seq<Moment>, turns: seq<Turn>, key: Key, values: seq<int>,
                     pushed: bool, popped: bool)
    requires TracedFrom(a, b, ms, turns)
    ensures Given(a.replies, b.replies, [], key, values, pushed, popped)
  {
    assert Unfold(Turning, 0);
    RepliesStay(ms, turns, 0);
  }

  lemma PushedLength(values: seq<int>, pushed: bool)
    ensures |PushAll([], values, pushed)| == |values|
  {
    PushedAtTail([], values);
    PushedAtHead([], values);
  }
}
