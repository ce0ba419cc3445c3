/**
 Slot configuration converges. If every master claims a fixed set of slots under a fixed
 configEpoch, each slot that a node is not importing ends up bound to the highest-epoch claimant
 it has processed, whatever the order and repetition of the packets. If claims and epochs change,
 epochs only rise, slots only go to greater ones, and the highest claim of all wins.
*/
module Convergence {
  import opened Hiding
  import opened Options
  import opened SlotTable

  datatype Claim = Claim(epoch: nat, slots: set<nat>)

  type Claims = map<NodeId, Claim>

  /** How a claim reaches a node: a PING or PONG of its owner, an UPDATE sent by another
      node, or some other packet of its owner, of which only the header is read. */
  datatype News = ByPing(from: NodeId) | ByUpdate(from: NodeId) | ByHeader(from: NodeId)

  /** Known masters of the table other than this node. */
  ghost predicate Hears(t: Table, claims: Claims, me: NodeId, n: News) {
    n.from in claims && n.from in t.epochs && n.from != me
  }

  function Receive(t: Table, claims: Claims, n: News): (r: Table)
    requires t.Valid() && n.from in claims && n.from in t.epochs
    ensures r.Valid() && r.epochs.Keys == t.epochs.Keys && r.importing == t.importing
  {
    Take(t, n, claims[n.from])
  }

  function Take(t: Table, n: News, c: Claim): (r: Table)
    requires t.Valid() && n.from in t.epochs
    ensures r.Valid() && r.epochs.Keys == t.epochs.Keys && r.importing == t.importing
  {
    match n
    case ByPing(s) => Rebind(Learn(t, s, c.epoch), s, c.epoch, c.slots)
    case ByUpdate(s) =>
      if t.epochs[s] >= c.epoch then t
      else Rebind(t.(epochs := t.epochs[s := c.epoch]), s, c.epoch, c.slots)
    case ByHeader(s) => Learn(t, s, c.epoch)
  }

  /** The claim this packet makes the node process: an UPDATE counts only if its epoch is new. */
  function Processed(t: Table, claims: Claims, n: News): set<NodeId>
    requires n.from in claims && n.from in t.epochs
  {
    if n.ByPing? || (n.ByUpdate? && t.epochs[n.from] < claims[n.from].epoch) then {n.from} else {}
  }

  ghost predicate Admissible(t: Table, claims: Claims, me: NodeId, news: seq<News>) {
    t.Valid() && forall i :: 0 <= i < |news| ==> Hears(t, claims, me, news[i])
  }

  /** The table and the processed claims after a run, starting from those in `heard`. */
  ghost function Run(t: Table, claims: Claims, me: NodeId, news: seq<News>,
                     heard: set<NodeId>): (r: (Table, set<NodeId>))
    requires Admissible(t, claims, me, news)
    ensures r.0.Valid() && r.0.importing == t.importing && r.0.epochs.Keys == t.epochs.Keys
    decreases |news|
  {
    if news == [] then (t, heard)
    else
      assert Hears(t, claims, me, news[0]);
      Run(Receive(t, claims, news[0]), claims, me, news[1..], heard + Processed(t, claims, news[0]))
  }

  /** `o` is the claimant of slot `j` with the greatest epoch among `heard`, if there is one. */
  ghost predicate IsBest(claims: Claims, heard: set<NodeId>, j: nat, o: Option<NodeId>)
    requires heard <= claims.Keys
  {
    && (o.None? ==> forall s :: s in heard ==> j !in claims[s].slots)
    && (o.Some? ==>
          && o.value in heard && j in claims[o.value].slots
          && forall s :: s in heard && j in claims[s].slots ==> claims[s].epoch <= claims[o.value].epoch)
  }

  /** The table reflects exactly the claims in `heard`. */
  ghost predicate Reflects(t: Table, claims: Claims, heard: set<NodeId>) {
    && heard <= claims.Keys && heard <= t.epochs.Keys
    && (forall s :: s in claims && s in t.epochs ==> t.epochs[s] <= claims[s].epoch)
    && (forall s :: s in heard ==> t.epochs[s] == claims[s].epoch)
    && (forall j: nat :: j < SLOTS && j !in t.importing ==> IsBest(claims, heard, j, t.owner[j]))
  }

  lemma ClaimIsReflected(t: Table, claims: Claims, heard: set<NodeId>, s: NodeId)
    requires t.Valid() && Reflects(t, claims, heard) && s in claims && s in t.epochs && t.epochs[s] == claims[s].epoch
    ensures Reflects(Rebind(t, s, claims[s].epoch, claims[s].slots), claims, heard + {s})
  {
    var c := claims[s];
    var r := Rebind(t, s, c.epoch, c.slots);
    forall j: nat | j < SLOTS && j !in t.importing ensures IsBest(claims, heard + {s}, j, r.owner[j]) {
      RebindAt(t, s, c.epoch, c.slots, j);
      assert IsBest(claims, heard, j, t.owner[j]);
    }
  }

  lemma EpochIsReflected(t: Table, claims: Claims, heard: set<NodeId>, s: NodeId)
    requires t.Valid() && Reflects(t, claims, heard) && s in claims && s in t.epochs
    ensures Reflects(t.(epochs := t.epochs[s := claims[s].epoch]), claims, heard)
  {
  }

  lemma NewsIsReflected(t: Table, claims: Claims, heard: set<NodeId>, n: News)
    requires t.Valid() && Reflects(t, claims, heard) && n.from in claims && n.from in t.epochs
    ensures Reflects(Receive(t, claims, n), claims, heard + Processed(t, claims, n))
  {
    var s := n.from;
    var l := t.(epochs := t.epochs[s := claims[s].epoch]);
    EpochIsReflected(t, claims, heard, s);
    assert Learn(t, s, claims[s].epoch) == l;
    ClaimIsReflected(l, claims, heard, s);
    assert heard + {} == heard;
  }

  /** Every run leaves each slot that is not importing bound to the best claimant heard. */
  lemma {:induction false} ConvergesToBest(t: Table, claims: Claims, me: NodeId, news: seq<News>, heard: set<NodeId>)
    requires Admissible(t, claims, me, news) && Reflects(t, claims, heard)
    ensures var (t', heard') := Run(t, claims, me, news, heard);
            Reflects(t', claims, heard')
    decreases |news|
  {
    if news != [] {
      assert Hears(t, claims, me, news[0]);
      NewsIsReflected(t, claims, heard, news[0]);
      ConvergesToBest(Receive(t, claims, news[0]), claims, me, news[1..], heard + Processed(t, claims, news[0]));
    }
  }

  /** An empty table reflects no claim, so it is a start of every run. */
  lemma EmptyReflectsNothing(t: Table, claims: Claims)
    requires forall j: nat :: j < SLOTS ==> t.owner[j] == None
    requires forall s :: s in t.epochs ==> t.epochs[s] == 0
    ensures t.Valid() && Reflects(t, claims, {})
  {
  }

  lemma OneBest(claims: Claims, heard: set<NodeId>, j: nat, o: Option<NodeId>, p: Option<NodeId>)
    requires forall a, b :: a in claims && b in claims && claims[a].epoch == claims[b].epoch ==> a == b
    requires heard <= claims.Keys && IsBest(claims, heard, j, o) && IsBest(claims, heard, j, p)
    ensures o == p
  {
    assert o.Some? && p.Some? ==> claims[o.value].epoch == claims[p.value].epoch;
  }

  /** Two nodes that processed the same claims, in whatever order and however often, agree on
      every slot neither is importing. */
  lemma SameNewsSameOwners(t: Table, u: Table, claims: Claims, me: NodeId, you: NodeId,
                           news: seq<News>, news': seq<News>, heard: set<NodeId>, heard': set<NodeId>)
    requires forall a, b :: a in claims && b in claims && claims[a].epoch == claims[b].epoch ==> a == b
    requires Admissible(t, claims, me, news) && Reflects(t, claims, heard)
    requires Admissible(u, claims, you, news') && Reflects(u, claims, heard')
    requires Run(t, claims, me, news, heard).1 == Run(u, claims, you, news', heard').1
    ensures forall j: nat :: j < SLOTS && j !in t.importing && j !in u.importing ==>
              Run(t, claims, me, news, heard).0.owner[j] == Run(u, claims, you, news', heard').0.owner[j]
  {
    ConvergesToBest(t, claims, me, news, heard);
    ConvergesToBest(u, claims, you, news', heard');
    var (t', h) := Run(t, claims, me, news, heard);
    var (u', h') := Run(u, claims, you, news', heard');
    forall j: nat | j < SLOTS && j !in t.importing && j !in u.importing ensures t'.owner[j] == u'.owner[j] {
      assert IsBest(claims, h, j, t'.owner[j]) && IsBest(claims, h, j, u'.owner[j]);
      OneBest(claims, h, j, t'.owner[j], u'.owner[j]);
    }
  }

  /** Line 2078 drops an UPDATE whose epoch is already known, though its slots may not be: it
      does what a PING would do exactly when the epoch is new or there is nothing to rebind. */
  lemma UpdateMatchesPing(t: Table, claims: Claims, s: NodeId)
    requires t.Valid() && s in claims && s in t.epochs && t.epochs[s] <= claims[s].epoch
    ensures Receive(t, claims, ByUpdate(s)) == Receive(t, claims, ByPing(s)) <==>
              || t.epochs[s] < claims[s].epoch
              || forall j: nat :: j < SLOTS && j in claims[s].slots && j !in t.importing && t.owner[j] != Some(s) ==>
                   t.owner[j].Some? && t.epochs[t.owner[j].value] >= claims[s].epoch
  {
    var c := claims[s];
    assert t.(epochs := t.epochs[s := c.epoch]) == Learn(t, s, c.epoch);
    if t.epochs[s] == c.epoch {
      var r := Rebind(t, s, c.epoch, c.slots);
      assert r == t <==> forall j: nat :: j < SLOTS ==> r.owner[j] == t.owner[j] by {
        if forall j: nat :: j < SLOTS ==> r.owner[j] == t.owner[j] {
          assert r.owner == t.owner;
        }
      }
      forall j: nat | j < SLOTS
        ensures r.owner[j] == t.owner[j] <==>
                  (j in c.slots && j !in t.importing && t.owner[j] != Some(s) ==>
                     t.owner[j].Some? && t.epochs[t.owner[j].value] >= c.epoch)
      {
        RebindAt(t, s, c.epoch, c.slots, j);
      }
    }
  }

  /** A vote or a FAIL packet of master 1 followed by an UPDATE about it leaves its slot free. */
  lemma UpdateCanBeLost(t: Table)
    requires t.owner == seq(SLOTS, _ => None) && t.epochs == map[1 := 0] && t.importing == {}
    ensures t.Valid()
    ensures var claims := map[1 := Claim(5, {7})];
            var h := Receive(t, claims, ByHeader(1));
            Receive(h, claims, ByUpdate(1)).owner[7] == None && Receive(h, claims, ByPing(1)).owner[7] == Some(1)
  {
  }

  // ---- claims that change ----

  /** A claim of a master, which may differ from its earlier and its later ones. */
  datatype Packet = Packet(news: News, claim: Claim)

  ghost predicate Senders(t: Table, packets: seq<Packet>) {
    t.Valid() && forall i :: 0 <= i < |packets| ==> packets[i].news.from in t.epochs
  }

  function TakeAll(t: Table, packets: seq<Packet>): (r: Table)
    requires Senders(t, packets)
    ensures r.Valid() && r.epochs.Keys == t.epochs.Keys && r.importing == t.importing
    decreases |packets|
  {
    if packets == [] then t
    else
      var last := packets[|packets| - 1];
      Take(TakeAll(t, packets[..|packets| - 1]), last.news, last.claim)
  }

  /** The epoch of `s` is the greatest heard from it, or the one it had if that is greater. */
  ghost predicate Greatest(t: Table, packets: seq<Packet>, s: NodeId, epoch: nat)
    requires s in t.epochs
  {
    && t.epochs[s] <= epoch
    && (forall i :: 0 <= i < |packets| && packets[i].news.from == s ==> packets[i].claim.epoch <= epoch)
    && (epoch == t.epochs[s]
        || exists i :: 0 <= i < |packets| && packets[i].news.from == s && packets[i].claim.epoch == epoch)
  }

  lemma TakesEpoch(t: Table, n: News, c: Claim, s: NodeId)
    requires t.Valid() && n.from in t.epochs && s in t.epochs
    ensures Take(t, n, c).epochs[s] == if n.from == s && c.epoch > t.epochs[s] then c.epoch else t.epochs[s]
  {
  }

  lemma GreatestOfMore(t: Table, packets: seq<Packet>, p: Packet, s: NodeId, was: nat, now: nat)
    requires s in t.epochs && Greatest(t, packets, s, was)
    requires now == if p.news.from == s && p.claim.epoch > was then p.claim.epoch else was
    ensures Greatest(t, packets + [p], s, now)
  {
    var more := packets + [p];
    if now != was {
      assert more[|packets|] == p;
    } else if was != t.epochs[s] {
      var i :| 0 <= i < |packets| && packets[i].news.from == s && packets[i].claim.epoch == was;
      assert more[i] == packets[i];
    }
  }

  lemma {:induction false} EpochIsGreatestHeard(t: Table, packets: seq<Packet>, s: NodeId)
    requires Senders(t, packets) && s in t.epochs
    ensures Greatest(t, packets, s, TakeAll(t, packets).epochs[s])
    decreases |packets|
  {
    if packets != [] {
      var most, p := packets[..|packets| - 1], packets[|packets| - 1];
      var m := TakeAll(t, most);
      EpochIsGreatestHeard(t, most, s);
      TakesEpoch(m, p.news, p.claim, s);
      assert packets == most + [p];
      GreatestOfMore(t, most, p, s, m.epochs[s], TakeAll(t, packets).epochs[s]);
    }
  }

  /** A claim of slot `j` under `epoch` beats its owner. */
  ghost predicate Yields(t: Table, j: nat, epoch: nat)
    requires t.Valid() && j < SLOTS
  {
    t.owner[j].Some? ==> t.epochs[t.owner[j].value] < epoch
  }

  /** One packet takes a slot only from nobody or from an owner with an older epoch than it claims,
      and a PING always does. */
  lemma SlotTaken(t: Table, n: News, c: Claim, j: nat)
    requires t.Valid() && n.from in t.epochs && j < SLOTS
    ensures var r := Take(t, n, c);
            && r.epochs[n.from] >= c.epoch
            && (r.owner[j] == t.owner[j]
                || (r.owner[j] == Some(n.from) && j in c.slots && j !in t.importing && Yields(t, j, c.epoch)))
    ensures n.ByPing? && j in c.slots && j !in t.importing && Yields(t, j, c.epoch) ==>
              Take(t, n, c).owner[j] == Some(n.from)
  {
    if n.ByPing? {
      RebindAt(Learn(t, n.from, c.epoch), n.from, c.epoch, c.slots, j);
    } else if n.ByUpdate? && t.epochs[n.from] < c.epoch {
      RebindAt(t.(epochs := t.epochs[n.from := c.epoch]), n.from, c.epoch, c.slots, j);
    }
  }

  lemma EpochsRise(t: Table, n: News, c: Claim)
    requires t.Valid() && n.from in t.epochs
    ensures forall s :: s in t.epochs ==> Take(t, n, c).epochs[s] >= t.epochs[s]
  {
  }

  /** Over every sequence of claims a bound slot stays bound, and a new owner has a greater epoch
      than the old one had. A slot that is imported keeps its owner. */
  lemma {:induction false} OwnersOnlyGetNewer(t: Table, packets: seq<Packet>, j: nat)
    requires Senders(t, packets) && j < SLOTS
    ensures var r := TakeAll(t, packets);
            && (t.owner[j].Some? ==>
                  && r.owner[j].Some?
                  && (r.owner[j] == t.owner[j]
                      || r.epochs[r.owner[j].value] > t.epochs[t.owner[j].value])
                  && r.epochs[r.owner[j].value] >= t.epochs[t.owner[j].value])
            && (j in t.importing ==> r.owner[j] == t.owner[j])
    decreases |packets|
  {
    if packets != [] {
      var n := |packets| - 1;
      var m := TakeAll(t, packets[..n]);
      OwnersOnlyGetNewer(t, packets[..n], j);
      SlotTaken(m, packets[n].news, packets[n].claim, j);
      EpochsRise(m, packets[n].news, packets[n].claim);
    }
  }

  /** A claim no newer than one already heard from the owner of a slot does not take it, whatever
      came in between. */
  lemma OldClaimTakesNothing(t: Table, packets: seq<Packet>, i: nat, p: Packet, j: nat)
    requires Senders(t, packets) && i < |packets| && p.news.from in t.epochs && j < SLOTS
    requires TakeAll(t, packets).owner[j] == Some(packets[i].news.from)
    requires p.claim.epoch <= packets[i].claim.epoch
    ensures Take(TakeAll(t, packets), p.news, p.claim).owner[j] == Some(packets[i].news.from)
  {
    EpochIsGreatestHeard(t, packets, packets[i].news.from);
    SlotTaken(TakeAll(t, packets), p.news, p.claim, j);
  }

  /** No other node had or claimed an epoch of `epoch` or more. */
  ghost predicate Highest(t: Table, packets: seq<Packet>, s: NodeId, epoch: nat) {
    forall u: nat :: Unfold(Claiming, u) ==>
      && (forall o :: o in t.epochs && o != s ==> t.epochs[o] < epoch)
      && (forall i :: 0 <= i < |packets| && packets[i].news.from != s ==> packets[i].claim.epoch < epoch)
  }

  lemma HighestOfFewer(t: Table, most: seq<Packet>, p: Packet, s: NodeId, epoch: nat)
    requires Highest(t, most + [p], s, epoch)
    ensures Highest(t, most, s, epoch) && (p.news.from != s ==> p.claim.epoch < epoch)
  {
    assert Unfold(Claiming, 0);
    var all := most + [p];
    assert all[|most|] == p;
    assert forall i :: 0 <= i < |most| ==> all[i] == most[i];
  }

  lemma SendersOfFewer(t: Table, most: seq<Packet>, p: Packet)
    requires Senders(t, most + [p])
    ensures Senders(t, most) && p.news.from in t.epochs
    ensures TakeAll(t, most + [p]) == Take(TakeAll(t, most), p.news, p.claim)
  {
    var all := most + [p];
    assert all[|most|] == p && all[..|most|] == most;
    assert forall i :: 0 <= i < |most| ==> all[i] == most[i];
  }

  lemma HeardAtLeast(t: Table, packets: seq<Packet>, i: nat)
    requires Senders(t, packets) && i < |packets|
    ensures packets[i].news.from in t.epochs
    ensures TakeAll(t, packets).epochs[packets[i].news.from] >= packets[i].claim.epoch
  {
    EpochIsGreatestHeard(t, packets, packets[i].news.from);
  }

  lemma OthersAreLower(t: Table, packets: seq<Packet>, s: NodeId, epoch: nat)
    requires Senders(t, packets) && Highest(t, packets, s, epoch)
    ensures forall o :: o in t.epochs && o != s ==> TakeAll(t, packets).epochs[o] < epoch
  {
    assert Unfold(Claiming, 0);
    forall o | o in t.epochs && o != s ensures TakeAll(t, packets).epochs[o] < epoch {
      EpochIsGreatestHeard(t, packets, o);
    }
  }

  lemma StaysWithHighest(m: Table, p: Packet, s: NodeId, epoch: nat, j: nat)
    requires m.Valid() && p.news.from in m.epochs && s in m.epochs && j < SLOTS
    requires m.owner[j] == Some(s) && m.epochs[s] >= epoch && (p.news.from != s ==> p.claim.epoch < epoch)
    ensures Take(m, p.news, p.claim).owner[j] == Some(s)
  {
    SlotTaken(m, p.news, p.claim, j);
  }

  lemma GoesToHighest(m: Table, p: Packet, j: nat)
    requires m.Valid() && p.news.from in m.epochs && j < SLOTS && j !in m.importing
    requires p.news.ByPing? && j in p.claim.slots
    requires forall o :: o in m.epochs && o != p.news.from ==> m.epochs[o] < p.claim.epoch
    ensures Take(m, p.news, p.claim).owner[j] == Some(p.news.from)
  {
    SlotTaken(m, p.news, p.claim, j);
  }

  /** After a PING with the highest claim of a slot the slot belongs to its sender, whatever came
      before and comes after, older claims of the same sender included. */
  lemma {:induction false} HighestClaimWins(t: Table, packets: seq<Packet>, i: nat, j: nat)
    requires Senders(t, packets) && i < |packets| && j < SLOTS && j !in t.importing
    requires packets[i].news.ByPing? && j in packets[i].claim.slots
    requires Highest(t, packets, packets[i].news.from, packets[i].claim.epoch)
    ensures TakeAll(t, packets).owner[j] == Some(packets[i].news.from)
    decreases |packets|
  {
    var most, last := packets[..|packets| - 1], packets[|packets| - 1];
    var s, epoch := packets[i].news.from, packets[i].claim.epoch;
    assert packets == most + [last];
    HighestOfFewer(t, most, last, s, epoch);
    SendersOfFewer(t, most, last);
    if i < |most| {
      assert most[i] == packets[i];
      HighestClaimWins(t, most, i, j);
      HeardAtLeast(t, most, i);
      StaysWithHighest(TakeAll(t, most), last, s, epoch, j);
    } else {
      OthersAreLower(t, most, s, epoch);
      GoesToHighest(TakeAll(t, most), last, j);
    }
  }
}
