/** Epoch dominance over every run of the cluster (crashes and restarts included). */
module Epochs {
  import opened ClusterNode
  import opened ClusterRun
  import opened Hiding

  /** Every configEpoch in the node's table is covered by the epoch it has on disk. */
  ghost predicate TableDominated(l: Local) {
    && l.me in l.epochs
    && l.savedEpoch <= l.currentEpoch
    && forall n :: n in l.epochs ==> l.epochs[n] <= l.savedEpoch
  }

  ghost predicate NodeDominated(l: Local) {
    && TableDominated(l)
    && (l.authSent ==> l.authEpoch <= l.savedEpoch)
  }

  /** A packet's configEpochs are covered by its own currentEpoch. */
  ghost predicate Honest(m: Msg) {
    && m.configEpoch <= m.currentEpoch
    && (m.body.Update? ==> m.body.epoch <= m.currentEpoch)
  }

  /** They are also covered, for good, by the epoch its sender has on disk. */
  ghost predicate MsgDominated(s: State, m: Msg) {
    && Honest(m)
    && m.src in s.nodes
    && m.configEpoch <= s.nodes[m.src].savedEpoch
    && (m.body.Update? ==> m.body.epoch <= s.nodes[m.src].savedEpoch)
  }

  /** So is the epoch of every vote it granted. */
  ghost predicate VoteDominated(s: State, v: Vote) {
    v.voter in s.nodes && v.epoch <= s.nodes[v.voter].savedEpoch
  }

  ghost predicate Dominance(s: State) {
    forall u: nat :: Unfold(Dominating, u) ==>
      && (forall n :: n in s.nodes ==> s.nodes[n].me == n && NodeDominated(s.nodes[n]))
      && (forall n :: n in s.nodes ==> s.nodes[n].handshake !! s.nodes.Keys)
      && (forall m :: m in s.sent ==> MsgDominated(s, m))
      && (forall v :: v in s.acks ==> MsgDominated(s, s.acks[v]))
      && (forall v :: v in s.granted ==> VoteDominated(s, v))
  }

  /** What a step of one node may do to it. */
  ghost predicate Grows(l: Local, l': Local, names: set<NodeId>) {
    && l'.me == l.me
    && l.savedEpoch <= l'.savedEpoch
    && NodeDominated(l')
    && l'.handshake !! names
  }

  lemma NodeAt(s: State, n: NodeId)
    requires Dominance(s) && n in s.nodes
    ensures s.nodes[n].me == n && NodeDominated(s.nodes[n]) && s.nodes[n].handshake !! s.nodes.Keys
  {
    assert Unfold(Dominating, 0);
  }

  lemma PacketsAre(s: State)
    requires Dominance(s)
    ensures forall m :: m in s.sent ==> MsgDominated(s, m)
    ensures forall v :: v in s.acks ==> MsgDominated(s, s.acks[v])
  {
    assert Unfold(Dominating, 0);
  }

  lemma NodeStep(s: State, n: NodeId, l: Local)
    requires Dominance(s) && n in s.nodes && Grows(s.nodes[n], l, s.nodes.Keys)
    ensures Dominance(Set(s, n, l))
  {
    assert Unfold(Dominating, 0);
    var t := Set(s, n, l);
    assert t.nodes.Keys == s.nodes.Keys;
    forall m | MsgDominated(s, m) ensures MsgDominated(t, m) {
      assert m.src != n ==> t.nodes[m.src] == s.nodes[m.src];
    }
    forall v | VoteDominated(s, v) ensures VoteDominated(t, v) {
      assert v.voter != n ==> t.nodes[v.voter] == s.nodes[v.voter];
    }
  }

  lemma HeaderIsDominated(s: State, n: NodeId, body: Body)
    requires Dominance(s) && n in s.nodes
    requires body.Update? ==> body.epoch <= s.nodes[n].savedEpoch
    ensures MsgDominated(s, Header(s.nodes[n], body))
  {
    assert Unfold(Dominating, 0);
  }

  /** The records only hold what is dominated. */
  lemma RecordStep(s: State, t: State)
    requires Dominance(s) && t.nodes == s.nodes
    requires forall m :: m in t.sent ==> m in s.sent || MsgDominated(s, m)
    requires forall v :: v in t.acks ==> (v in s.acks && t.acks[v] == s.acks[v]) || MsgDominated(s, t.acks[v])
    requires forall v :: v in t.granted ==> v in s.granted || VoteDominated(s, v)
    ensures Dominance(t)
  {
    assert Unfold(Dominating, 0);
    assert forall m :: MsgDominated(s, m) ==> MsgDominated(t, m);
    assert forall v :: VoteDominated(s, v) ==> VoteDominated(t, v);
  }

  lemma SendStep(s: State, n: NodeId, body: Body)
    requires Dominance(s) && n in s.nodes
    requires body.Update? ==> body.epoch <= s.nodes[n].savedEpoch
    ensures Dominance(s.(sent := s.sent + {Header(s.nodes[n], body)}))
  {
    HeaderIsDominated(s, n, body);
    RecordStep(s, s.(sent := s.sent + {Header(s.nodes[n], body)}));
  }

  lemma ReceiveGrows(l: Local, m: Msg, names: set<NodeId>)
    requires NodeDominated(l) && l.handshake !! names && m.src in names && Honest(m)
    ensures Grows(l, ProcessHeader(l, m), names)
    ensures Grows(l, CastVote(ProcessHeader(l, m)), names)
    ensures Grows(l, ReceivePing(l, m), names)
    ensures Grows(l, ReceiveAck(l, m), names)
    ensures m.body.Update? ==> Grows(l, ReceiveUpdate(l, m), names)
  {
  }

  lemma ElectionGrows(l: Local, names: set<NodeId>)
    requires NodeDominated(l) && l.handshake !! names
    ensures Grows(l, StartElection(l), names)
    ensures l.authSent && l.me in l.view.slaveof ==> Grows(l, ClaimVictory(l), names)
  {
  }

  lemma TableGrows(l: Local, e: Event, names: set<NodeId>)
    requires NodeDominated(l) && l.handshake !! names && IsLocal(e) && !e.EvPing? && !e.EvUpdate?
    requires e.EvMeet? ==> e.temp !in names
    ensures Grows(l, LocalNext(l, e), names)
  {
  }

  lemma LocalKeepsDominance(s: State, e: Event)
    requires Dominance(s) && Enabled(s, e) && IsLocal(e)
    ensures Dominance(Apply(s, e))
  {
    var l := s.nodes[e.n];
    NodeAt(s, e.n);
    if e.EvPing? || e.EvUpdate? {
      PacketsAre(s);
      assert MsgDominated(s, e.m);
      ReceiveGrows(l, e.m, s.nodes.Keys);
    } else {
      TableGrows(l, e, s.nodes.Keys);
    }
    NodeStep(s, e.n, LocalNext(l, e));
  }

  lemma RequestKeepsDominance(s: State, n: NodeId, m: Msg, calm: bool)
    requires Dominance(s) && n in s.nodes && MsgDominated(s, m) && m.body.AuthRequest?
    ensures Dominance(Request(s, n, m, calm))
  {
    var h := ProcessHeader(s.nodes[n], m);
    NodeAt(s, n);
    ReceiveGrows(s.nodes[n], m, s.nodes.Keys);
    NodeStep(s, n, h);
    if GrantsVote(h, m, calm) {
      var t := Set(s, n, CastVote(h));
      NodeStep(s, n, CastVote(h));
      HeaderIsDominated(t, n, AuthAck(m.src));
      assert VoteDominated(t, Vote(n, m.src, h.currentEpoch));
      RecordStep(t, Request(s, n, m, calm));
    }
  }

  lemma AckKeepsDominance(s: State, n: NodeId, v: Vote)
    requires Dominance(s) && Enabled(s, EvAck(n, v))
    ensures Dominance(Apply(s, EvAck(n, v)))
  {
    PacketsAre(s);
    NodeAt(s, n);
    ReceiveGrows(s.nodes[n], s.acks[v], s.nodes.Keys);
    NodeStep(s, n, ReceiveAck(s.nodes[n], s.acks[v]));
    RecordStep(Set(s, n, ReceiveAck(s.nodes[n], s.acks[v])), Apply(s, EvAck(n, v)));
  }

  lemma StartKeepsDominance(s: State, n: NodeId, force: bool)
    requires Dominance(s) && Enabled(s, EvStart(n, force))
    ensures Dominance(Apply(s, EvStart(n, force)))
  {
    var l' := StartElection(s.nodes[n]);
    NodeAt(s, n);
    ElectionGrows(s.nodes[n], s.nodes.Keys);
    NodeStep(s, n, l');
    SendStep(Set(s, n, l'), n, AuthRequest(force));
  }

  lemma WinKeepsDominance(s: State, n: NodeId, manual: bool)
    requires Dominance(s) && Enabled(s, EvWin(n, manual))
    ensures Dominance(Apply(s, EvWin(n, manual)))
  {
    NodeAt(s, n);
    ElectionGrows(s.nodes[n], s.nodes.Keys);
    NodeStep(s, n, ClaimVictory(s.nodes[n]));
    RecordStep(Set(s, n, ClaimVictory(s.nodes[n])), Apply(s, EvWin(n, manual)));
  }

  lemma StepKeepsDominance(s: State, e: Event)
    requires Dominance(s) && Enabled(s, e)
    ensures Dominance(Apply(s, e))
  {
    var l := s.nodes[e.n];
    NodeAt(s, e.n);
    match e {
      case EvAnnounce(n) => SendStep(s, n, Ping);
      case EvSendUpdate(n, about) => SendStep(s, n, Update(about, l.epochs[about]));
      case EvRequest(n, m, calm) =>
        PacketsAre(s);
        RequestKeepsDominance(s, n, m, calm);
      case EvAck(n, v) => AckKeepsDominance(s, n, v);
      case EvLoseAck(n, v) => RecordStep(s, Apply(s, e));
      case EvStart(n, force) => StartKeepsDominance(s, n, force);
      case EvWin(n, manual) => WinKeepsDominance(s, n, manual);
      case _ => LocalKeepsDominance(s, e);
    }
  }

  /** In every reachable state each node's currentEpoch is at least every configEpoch in
      its table and in every packet it ever sent. */
  lemma EpochDominance(ss: seq<State>, es: seq<Event>)
    requires IsRun(ss, es)
    ensures forall i :: 0 <= i < |ss| ==> Dominance(ss[i])
  {
    assert Dominance(ss[0]);
    for i := 0 to |es|
      invariant forall k :: 0 <= k <= i ==> Dominance(ss[k])
    {
      StepKeepsDominance(ss[i], es[i]);
    }
  }

  /** `own` is greater than all that node `n` knows of, all it reported in any packet, about
      itself or others, and all it voted in. */
  ghost predicate Beats(s: State, n: NodeId, own: nat)
    requires n in s.nodes
  {
    && (forall k :: k in s.nodes[n].epochs ==> s.nodes[n].epochs[k] < own)
    && (forall m :: m in s.sent && m.src == n ==> m.configEpoch < own && (m.body.Update? ==> m.body.epoch < own))
    && (forall v :: v in s.acks && s.acks[v].src == n ==> s.acks[v].configEpoch < own)
    && (forall v :: v in s.granted && v.voter == n ==> v.epoch < own)
  }

  lemma NewEpochBeats(s: State, n: NodeId)
    requires Dominance(s) && n in s.nodes
    ensures Beats(s, n, s.nodes[n].currentEpoch + 1)
  {
    assert Unfold(Dominating, 0);
    assert forall v :: v in s.granted ==> VoteDominated(s, v);
  }

  /** Node `n` takes a new epoch of its own, after it has read the header of the packet. */
  predicate Assigns(l: Local, e: Event) {
    match e
    case EvPing(_, m) => Collides(ProcessHeader(l, m), m)
    case EvBump(_) => BumpEpoch(l) != l
    case _ => false
  }

  /** The state in which the epoch is chosen: that after the header for a collision. */
  function Choosing(s: State, e: Event): State
    requires Enabled(s, e)
  {
    if e.EvPing? then Set(s, e.n, ProcessHeader(s.nodes[e.n], e.m)) else s
  }

  lemma ChoosingKeepsDominance(s: State, e: Event)
    requires Dominance(s) && Enabled(s, e)
    ensures Dominance(Choosing(s, e))
  {
    if e.EvPing? {
      PacketsAre(s);
      NodeAt(s, e.n);
      assert MsgDominated(s, e.m);
      ReceiveGrows(s.nodes[e.n], e.m, s.nodes.Keys);
      NodeStep(s, e.n, ProcessHeader(s.nodes[e.n], e.m));
    }
  }

  lemma AssignedIs(s: State, e: Event)
    requires Dominance(s) && Enabled(s, e) && Assigns(s.nodes[e.n], e)
    ensures var l := Choosing(s, e).nodes[e.n];
            Apply(s, e).nodes[e.n] == NewOwnEpoch(l) && ConfigEpoch(NewOwnEpoch(l), e.n) == l.currentEpoch + 1
  {
    NodeAt(s, e.n);
  }

  /** In every run, the epoch that a step of the collision handler or of a bump gives to its node
      beats everything in the state in which it is chosen, the header that was just read included. */
  lemma AssignedEpochIsGreatest(ss: seq<State>, es: seq<Event>, i: nat)
    requires IsRun(ss, es) && i < |es| && Assigns(ss[i].nodes[es[i].n], es[i])
    ensures var n := es[i].n;
            n in ss[i + 1].nodes && Beats(Choosing(ss[i], es[i]), n, ConfigEpoch(ss[i + 1].nodes[n], n))
  {
    EpochDominance(ss, es);
    ChoosingKeepsDominance(ss[i], es[i]);
    AssignedIs(ss[i], es[i]);
    NewEpochBeats(Choosing(ss[i], es[i]), es[i].n);
  }

  /** After a bump in any run the node's epoch is not zero and is the greatest it knows of. */
  lemma BumpedIsGreatest(ss: seq<State>, es: seq<Event>, i: nat, n: NodeId)
    requires IsRun(ss, es) && i < |es| && es[i] == EvBump(n)
    ensures n in ss[i + 1].nodes
    ensures var l := ss[i + 1].nodes[n];
            && ConfigEpoch(l, n) > 0 && l.currentEpoch <= ConfigEpoch(l, n)
            && forall k :: k in l.epochs ==> l.epochs[k] <= ConfigEpoch(l, n)
  {
    EpochDominance(ss, es);
    NodeAt(ss[i], n);
  }

  /** In every run an UPDATE about a known node is taken over if and only if its epoch is newer: the
      node is a master with that epoch then, and no epoch is ever lowered. */
  lemma UpdateIsTakenOver(ss: seq<State>, es: seq<Event>, i: nat, n: NodeId, m: Msg)
    requires IsRun(ss, es) && i < |es| && es[i] == EvUpdate(n, m) && m.src in ss[i].nodes[n].epochs
    requires m.body.about in ss[i].nodes[n].epochs && m.body.about != m.src
    ensures n in ss[i + 1].nodes
    ensures var l, l', about := ss[i].nodes[n], ss[i + 1].nodes[n], m.body.about;
            && about in l'.epochs
            && l'.epochs[about] == Max(l.epochs[about], m.body.epoch)
            && (m.body.epoch > l.epochs[about] ==> about in l'.view.masters && about !in l'.view.slaveof)
            && (m.body.epoch <= l.epochs[about] ==> l'.view == l.view)
            && l'.currentEpoch >= m.body.epoch
            && forall k :: k in l.epochs ==> k in l'.epochs && l'.epochs[k] >= l.epochs[k]
  {
    NoSenderInHandshake(ss, es, i, n, m);
  }

  /** A node that was forgotten is ignored until it is met again: its packets change nothing, its
      votes are not counted and it gets none. */
  lemma ForgottenIsIgnored(l: Local, other: NodeId, m: Msg)
    requires other != l.me && m.src == other
    ensures var f := Forget(l, other);
            && ReceivePing(f, m) == f && ReceiveAck(f, m) == f
            && (m.body.Update? ==> ReceiveUpdate(f, m) == f)
            && (m.body.AuthRequest? ==> forall calm :: !GrantsVote(f, m, calm))
            && forall k :: k in l.epochs && k != other ==> k in f.epochs && f.epochs[k] == l.epochs[k]
  {
  }

  /** A node met under a random name is known under its own after the handshake, and its packets
      are read then. */
  lemma HandshakeMakesKnown(l: Local, temp: NodeId, name: NodeId, m: Msg)
    requires temp in l.handshake && temp in l.epochs && temp != l.me && name !in l.handshake && m.src == name
    ensures var k := EndHandshake(l, temp, name);
            && name in k.epochs && temp !in k.epochs && temp !in k.handshake
            && ReceivePing(k, m).currentEpoch >= m.currentEpoch
            && name in ReceivePing(k, m).epochs && ReceivePing(k, m).epochs[name] >= m.configEpoch
  {
  }

  /** SET-CONFIG-EPOCH gives a node that knows no other and has no epoch the one asked for, and
      is refused otherwise. */
  lemma ConfigEpochIsSet(l: Local, e: nat)
    ensures var t := SetConfigEpoch(l, e);
            if l.epochs.Keys == {l.me} && ConfigEpoch(l, l.me) == 0
            then t.epochs.Keys == {l.me} && ConfigEpoch(t, l.me) == e && t.currentEpoch == Max(l.currentEpoch, e)
            else t == l
  {
    if l.epochs.Keys == {l.me} && ConfigEpoch(l, l.me) == 0 {
      assert l.epochs == map[l.me := 0];
    }
  }

  /** A restart forgets the currentEpoch that was only heard in a header (line 1706 does not save
      it), and nothing that was ever voted in or put into the table. */
  lemma RestartForgetsHeard(l: Local, m: Msg)
    requires NodeDominated(l) && Honest(m) && m.src in l.epochs && m.src !in l.handshake
    ensures var t := Restart(ProcessHeader(l, m));
            && t.currentEpoch == (if m.configEpoch > l.epochs[m.src] then Max(l.currentEpoch, m.currentEpoch)
                                  else l.savedEpoch)
            && t.lastVoteEpoch == l.lastVoteEpoch && !t.authSent && t.authCount == 0
            && forall k :: k in t.epochs ==> t.epochs[k] <= t.currentEpoch
  {
  }

  // ---- colliding epochs ----

  /** Masters `a` and `b` know each other and have the same configEpoch. */
  ghost predicate Collided(s: State, a: NodeId, b: NodeId) {
    && a in s.nodes && b in s.nodes
    && Knows(s.nodes[a], b) && Knows(s.nodes[b], a)
    && ConfigEpoch(s.nodes[a], a) == ConfigEpoch(s.nodes[b], b)
    && ConfigEpoch(s.nodes[a], b) <= ConfigEpoch(s.nodes[b], b)
    && ConfigEpoch(s.nodes[b], a) <= ConfigEpoch(s.nodes[a], a)
  }

  ghost predicate Knows(l: Local, other: NodeId) {
    l.me in l.view.masters && other in l.view.masters && other in l.epochs
  }

  /** The PING of the node with the greater name makes the other take a new epoch. */
  lemma SmallerYields(l: Local, m: Msg)
    requires TableDominated(l) && Knows(l, m.src) && m.src !in l.handshake && l.me < m.src
    requires m.configEpoch == ConfigEpoch(l, l.me) && ConfigEpoch(l, m.src) <= m.configEpoch
    ensures ConfigEpoch(ReceivePing(l, m), l.me) > m.configEpoch
  {
  }

  /** The other PING, sent before or after, changes nothing at the node with the greater name. */
  lemma GreaterStays(l: Local, m: Msg)
    requires m.src < l.me
    ensures ConfigEpoch(ReceivePing(l, m), l.me) == ConfigEpoch(l, l.me)
  {
  }

  /** In every state of every run two masters with the same epoch end up with different ones
      once each has heard the other, in either order: the one with the smaller name moves on. */
  lemma CollisionEnds(ss: seq<State>, es: seq<Event>, i: nat, a: NodeId, b: NodeId)
    requires IsRun(ss, es) && i < |ss| && Collided(ss[i], a, b) && a < b
    ensures var s := Apply(Apply(ss[i], EvAnnounce(a)), EvAnnounce(b));
            var pa, pb := EvPing(b, Header(ss[i].nodes[a], Ping)), EvPing(a, Header(ss[i].nodes[b], Ping));
            && Enabled(s, pa) && Enabled(Apply(s, pa), pb) && Separated(ss[i], Apply(Apply(s, pa), pb), a, b)
            && Enabled(s, pb) && Enabled(Apply(s, pb), pa) && Separated(ss[i], Apply(Apply(s, pb), pa), a, b)
  {
    var l, r := ss[i].nodes[a], ss[i].nodes[b];
    EpochDominance(ss, es);
    NodeAt(ss[i], a);
    NodeAt(ss[i], b);
    assert a !in r.handshake && b !in l.handshake;
    SmallerYields(l, Header(r, Ping));
    GreaterStays(r, Header(l, Ping));
  }

  ghost predicate Separated(s: State, t: State, a: NodeId, b: NodeId)
    requires b in s.nodes
  {
    && a in t.nodes && b in t.nodes
    && ConfigEpoch(t.nodes[b], b) == ConfigEpoch(s.nodes[b], b) < ConfigEpoch(t.nodes[a], a)
  }

  /** Lines 2070-2091 use the reported epoch even when the header was skipped because the sender
      is in handshake. Taken alone, that keeps the table dominated exactly when the UPDATE is not
      applied or reports no more than the receiver's currentEpoch. */
  lemma HandshakeUpdate(l: Local, m: Msg)
    requires TableDominated(l) && m.body.Update? && m.src in l.handshake
    ensures TableDominated(ReceiveUpdate(l, m)) <==>
              || m.src !in l.epochs
              || m.body.about !in l.epochs
              || m.body.epoch <= l.currentEpoch
  {
    if m.src in l.epochs && m.body.about in l.epochs && l.epochs[m.body.about] < m.body.epoch {
      assert ReceiveUpdate(l, m).epochs[m.body.about] == m.body.epoch;
    }
  }

  /** But no packet of any run names a sender that its receiver has in handshake: those entries
      carry random names. So a guard at line 2070 is not needed, and an UPDATE about a newer epoch
      raises currentEpoch to cover it. */
  lemma NoSenderInHandshake(ss: seq<State>, es: seq<Event>, i: nat, n: NodeId, m: Msg)
    requires IsRun(ss, es) && i < |ss| && n in ss[i].nodes && m in ss[i].sent
    ensures m.src !in ss[i].nodes[n].handshake
    ensures m.body.Update? && m.src in ss[i].nodes[n].epochs ==>
              ReceiveUpdate(ss[i].nodes[n], m).currentEpoch >= m.body.epoch
  {
    EpochDominance(ss, es);
    assert Dominance(ss[i]);
    PacketsAre(ss[i]);
    NodeAt(ss[i], n);
    assert MsgDominated(ss[i], m);
  }
}
