/**
 Election safety. At most one replica wins an epoch whose electorate the nodes agree on,
 provided that
 - no candidate counts a vote between the reset of its vote count (line 3022) and the start
   of its next attempt (line 3082), and
 - no master votes in an epoch that is already its own configEpoch, as the winner of an
   epoch can: it becomes a master with slots and has not voted itself.
 Without either proviso two replicas can win the same epoch; `ElectionRuns` has the runs.
*/
module Election {
  import opened ClusterNode
  import opened ClusterRun
  import opened Hiding

  // ---- the two provisos ----

  /** A candidate that has reset its count and not yet asked again counts no vote. (An old
      vote that arrives after it has asked again is refused by its epoch.) */
  predicate Timely(s: State, e: Event) {
    e.EvAck? && Enabled(s, e) ==>
      s.nodes[e.n].authSent || !AcceptsAck(ProcessHeader(s.nodes[e.n], s.acks[e.v]), s.acks[e.v])
  }

  ghost predicate TimelyRun(ss: seq<State>, es: seq<Event>) {
    IsRun(ss, es) && forall i :: 0 <= i < |es| ==> Timely(ss[i], es[i])
  }

  /** A vote is for an epoch newer than the voter's own configuration. The code has no such
      test among those of lines 2717-2798. */
  predicate Fair(s: State, e: Event) {
    e.EvRequest? && Enabled(s, e) ==>
      var h := ProcessHeader(s.nodes[e.n], e.m);
      GrantsVote(h, e.m, e.calm) ==> ConfigEpoch(h, h.me) < h.currentEpoch
  }

  ghost predicate FairRun(ss: seq<State>, es: seq<Event>) {
    IsRun(ss, es) && forall i :: 0 <= i < |es| ==> Fair(ss[i], es[i])
  }

  // ---- what every step keeps ----

  function Voters(s: State, n: NodeId, epoch: nat): set<NodeId> {
    set m | m in s.nodes && Vote(m, n, epoch) in s.granted
  }

  /** Those whose vote is no longer in flight. */
  function Arrived(s: State, n: NodeId, epoch: nat): set<NodeId> {
    set m | m in s.nodes && Vote(m, n, epoch) in s.granted && Vote(m, n, epoch) !in s.acks
  }

  ghost predicate EpochsOrdered(l: Local) {
    l.lastVoteEpoch <= l.savedEpoch <= l.currentEpoch && (l.authSent ==> l.authEpoch <= l.savedEpoch)
  }

  /** `epoch` belongs to an attempt `l` has already started. */
  ghost predicate Asked(l: Local, epoch: nat) {
    epoch <= l.savedEpoch && (l.authSent ==> epoch <= l.authEpoch)
  }

  ghost predicate OneVotePerEpoch(s: State) {
    forall v, w :: v in s.granted && w in s.granted && v.voter == w.voter && v.epoch == w.epoch ==> v == w
  }

  ghost predicate VoteRecorded(s: State, v: Vote) {
    && v.voter in s.nodes && v.epoch <= s.nodes[v.voter].lastVoteEpoch
    && v.candidate in s.nodes && Asked(s.nodes[v.candidate], v.epoch)
  }

  ghost predicate RequestRecorded(s: State, m: Msg) {
    m.src in s.nodes && Asked(s.nodes[m.src], m.currentEpoch)
  }

  /** The count never exceeds the votes of the running attempt that have arrived. */
  ghost predicate CountBacked(s: State, l: Local) {
    l.authCount <= if l.authSent then |Arrived(s, l.me, l.authEpoch)| else 0
  }

  ghost predicate WinBacked(s: State, w: Win) {
    |Voters(s, w.node, w.epoch)| >= Quorum(w.size)
  }

  ghost predicate Inv(s: State) {
    forall u: nat :: Unfold(Electing, u) ==>
      && (forall n :: n in s.nodes ==> s.nodes[n].me == n && EpochsOrdered(s.nodes[n]))
      && OneVotePerEpoch(s)
      && (forall v :: v in s.granted ==> VoteRecorded(s, v))
      && (forall v :: v in s.acks ==> v in s.granted && s.acks[v].currentEpoch == v.epoch)
      && (forall m :: m in s.sent && m.body.AuthRequest? ==> RequestRecorded(s, m))
      && (forall n :: n in s.nodes ==> CountBacked(s, s.nodes[n]))
      && (forall w :: w in s.wins ==> WinBacked(s, w))
  }

  lemma AckAt(s: State, v: Vote)
    requires Inv(s) && v in s.acks
    ensures s.acks[v].currentEpoch == v.epoch
  {
    assert Unfold(Electing, 0);
  }

  lemma NodeAt(s: State, n: NodeId)
    requires Inv(s) && n in s.nodes
    ensures s.nodes[n].me == n && EpochsOrdered(s.nodes[n]) && CountBacked(s, s.nodes[n])
  {
    assert Unfold(Electing, 0);
  }

  // ---- steps of one node ----

  /** A step that leaves the running attempt alone, or abandons it with a zero count. */
  ghost predicate Quiets(l: Local, l': Local) {
    && l'.me == l.me
    && EpochsOrdered(l')
    && l.lastVoteEpoch <= l'.lastVoteEpoch && l.savedEpoch <= l'.savedEpoch
    && ((l'.authSent == l.authSent && l'.authEpoch == l.authEpoch && l'.authCount == l.authCount)
        || (!l'.authSent && l'.authCount == 0))
  }

  /** The ballots depend only on who exists, what was granted and what is in flight. */
  lemma SameBallots(s: State, t: State)
    requires t.nodes.Keys == s.nodes.Keys && t.granted == s.granted
    ensures forall w :: w in s.wins && WinBacked(s, w) ==> WinBacked(t, w)
    ensures t.acks == s.acks ==> forall k :: k in s.nodes && CountBacked(s, s.nodes[k]) ==> CountBacked(t, s.nodes[k])
  {
    forall w | w in s.wins && WinBacked(s, w) ensures WinBacked(t, w) {
      assert Voters(t, w.node, w.epoch) == Voters(s, w.node, w.epoch);
    }
    if t.acks == s.acks {
      forall k | k in s.nodes && CountBacked(s, s.nodes[k]) ensures CountBacked(t, s.nodes[k]) {
        var l := s.nodes[k];
        assert Arrived(t, l.me, l.authEpoch) == Arrived(s, l.me, l.authEpoch);
      }
    }
  }

  /** Votes and requests stay recorded when no epoch of the node goes back and it forgets none of
      its attempts. */
  lemma RecordsKept(s: State, n: NodeId, l: Local)
    requires n in s.nodes && s.nodes[n].lastVoteEpoch <= l.lastVoteEpoch
    requires forall epoch :: Asked(s.nodes[n], epoch) ==> Asked(l, epoch)
    ensures forall v :: VoteRecorded(s, v) ==> VoteRecorded(Set(s, n, l), v)
    ensures forall m :: RequestRecorded(s, m) ==> RequestRecorded(Set(s, n, l), m)
  {
  }

  lemma NodeStep(s: State, n: NodeId, l: Local)
    requires Inv(s) && n in s.nodes && Quiets(s.nodes[n], l)
    ensures Inv(Set(s, n, l))
  {
    assert Unfold(Electing, 0);
    var t := Set(s, n, l);
    SameBallots(s, t);
    RecordsKept(s, n, l);
    assert CountBacked(t, s.nodes[n]);
  }

  lemma PacketQuiets(l: Local, m: Msg)
    requires EpochsOrdered(l)
    ensures Quiets(l, ReceivePing(l, m))
    ensures m.body.Update? ==> Quiets(l, ReceiveUpdate(l, m))
  {
  }

  lemma TableQuiets(l: Local, e: Event)
    requires EpochsOrdered(l) && IsLocal(e) && !e.EvPing? && !e.EvUpdate?
    ensures Quiets(l, LocalNext(l, e))
  {
  }

  lemma LocalQuiets(l: Local, e: Event)
    requires EpochsOrdered(l) && IsLocal(e) && (e.EvUpdate? ==> e.m.body.Update?)
    ensures Quiets(l, LocalNext(l, e))
  {
    if e.EvPing? || e.EvUpdate? {
      PacketQuiets(l, e.m);
    } else {
      TableQuiets(l, e);
    }
  }

  lemma HeaderQuiets(l: Local, m: Msg)
    requires EpochsOrdered(l)
    ensures Quiets(l, ProcessHeader(l, m))
  {
  }

  lemma SendKeepsInv(s: State, m: Msg)
    requires Inv(s) && (m.body.AuthRequest? ==> RequestRecorded(s, m))
    ensures Inv(s.(sent := s.sent + {m}))
  {
    assert Unfold(Electing, 0);
    SameBallots(s, s.(sent := s.sent + {m}));
  }

  // ---- votes ----

  /** A master whose last vote is older records and sends one for its current epoch. */
  lemma VoteKeepsInv(s: State, n: NodeId, m: Msg, v: Vote, ack: Msg)
    requires Inv(s) && n in s.nodes && m in s.sent && m.body.AuthRequest?
    requires v == Vote(n, m.src, s.nodes[n].currentEpoch)
    requires s.nodes[n].lastVoteEpoch < v.epoch <= m.currentEpoch && ack.currentEpoch == v.epoch
    ensures Inv(Set(s, n, CastVote(s.nodes[n])).(granted := s.granted + {v}, acks := s.acks[v := ack]))
  {
    assert Unfold(Electing, 0);
    assert forall w :: w in s.granted ==> VoteRecorded(s, w);
    NodeStep(s, n, CastVote(s.nodes[n]));
    NewVoteKeepsInv(Set(s, n, CastVote(s.nodes[n])), m, v, ack);
  }

  /** A new vote for a recorded request, on its way to the candidate. */
  lemma NewVoteKeepsInv(u: State, m: Msg, v: Vote, ack: Msg)
    requires Inv(u) && m in u.sent && m.body.AuthRequest? && m.src == v.candidate && v.epoch <= m.currentEpoch
    requires v.voter in u.nodes && v.epoch <= u.nodes[v.voter].lastVoteEpoch && ack.currentEpoch == v.epoch
    requires forall w :: w in u.granted && w.voter == v.voter ==> w.epoch != v.epoch
    ensures Inv(u.(granted := u.granted + {v}, acks := u.acks[v := ack]))
  {
    assert Unfold(Electing, 0);
    var t := u.(granted := u.granted + {v}, acks := u.acks[v := ack]);
    assert v !in u.granted;
    forall w | w in t.granted ensures VoteRecorded(t, w) {
      assert w in u.granted ==> VoteRecorded(u, w);
      assert RequestRecorded(u, m);
    }
    forall r | r in t.sent && r.body.AuthRequest? ensures RequestRecorded(t, r) {
      assert RequestRecorded(u, r);
    }
    forall k | k in t.nodes ensures CountBacked(t, t.nodes[k]) {
      assert CountBacked(u, t.nodes[k]);
      InFlightNotArrived(u, v, ack, t.nodes[k]);
    }
    forall w | w in t.wins ensures WinBacked(t, w) {
      assert WinBacked(u, w);
      MoreVotesBack(u, t, w);
    }
  }

  lemma InFlightNotArrived(u: State, v: Vote, ack: Msg, l: Local)
    requires CountBacked(u, l) && v !in u.granted
    ensures CountBacked(u.(granted := u.granted + {v}, acks := u.acks[v := ack]), l)
  {
    var t := u.(granted := u.granted + {v}, acks := u.acks[v := ack]);
    assert Arrived(t, l.me, l.authEpoch) == Arrived(u, l.me, l.authEpoch);
  }

  lemma MoreVotesBack(u: State, t: State, w: Win)
    requires WinBacked(u, w) && u.granted <= t.granted && u.nodes == t.nodes
    ensures WinBacked(t, w)
  {
    Subset(Voters(u, w.node, w.epoch), Voters(t, w.node, w.epoch));
  }

  lemma RequestKeepsInv(s: State, n: NodeId, m: Msg, calm: bool)
    requires Inv(s) && n in s.nodes && m in s.sent && m.body.AuthRequest?
    ensures Inv(Request(s, n, m, calm))
  {
    NodeAt(s, n);
    var h := ProcessHeader(s.nodes[n], m);
    HeaderQuiets(s.nodes[n], m);
    NodeStep(s, n, h);
    if GrantsVote(h, m, calm) {
      var ack := Header(CastVote(h), AuthAck(m.src));
      VoteKeepsInv(Set(s, n, h), n, m, Vote(n, m.src, h.currentEpoch), ack);
      assert Set(Set(s, n, h), n, CastVote(h)).nodes == Set(s, n, CastVote(h)).nodes;
    }
  }

  // ---- counting ----

  /** A vote the candidate accepts belongs to its running attempt and was not counted. */
  lemma AcceptedIsNew(s: State, v: Vote, l: Local)
    requires Inv(s) && v in s.acks && v.candidate in s.nodes && l == s.nodes[v.candidate]
    requires l.authSent && v.epoch >= l.authEpoch
    ensures l.authCount < |Arrived(s.(acks := s.acks - {v}), l.me, l.authEpoch)|
  {
    assert Unfold(Electing, 0);
    assert VoteRecorded(s, v) && CountBacked(s, l);
    assert Arrived(s.(acks := s.acks - {v}), l.me, v.epoch) == Arrived(s, l.me, v.epoch) + {v.voter};
  }

  lemma LoseKeepsInv(s: State, v: Vote)
    requires Inv(s) && v in s.acks
    ensures Inv(s.(acks := s.acks - {v}))
  {
    assert Unfold(Electing, 0);
    var t := s.(acks := s.acks - {v});
    forall k | k in t.nodes ensures CountBacked(t, t.nodes[k]) {
      var l := s.nodes[k];
      assert CountBacked(s, l);
      Subset(Arrived(s, l.me, l.authEpoch), Arrived(t, l.me, l.authEpoch));
    }
    SameBallots(s, t);
  }

  lemma CountKeepsInv(s: State, n: NodeId)
    requires Inv(s) && n in s.nodes && s.nodes[n].authSent
    requires s.nodes[n].authCount < |Arrived(s, n, s.nodes[n].authEpoch)|
    ensures Inv(Set(s, n, s.nodes[n].(authCount := s.nodes[n].authCount + 1)))
  {
    assert Unfold(Electing, 0);
    var l := s.nodes[n].(authCount := s.nodes[n].authCount + 1);
    var t := Set(s, n, l);
    SameBallots(s, t);
    RecordsKept(s, n, l);
    assert Arrived(t, n, l.authEpoch) == Arrived(s, n, l.authEpoch);
  }

  lemma AckKeepsInv(s: State, n: NodeId, v: Vote)
    requires Inv(s) && n in s.nodes && v in s.acks && v.candidate == n && Timely(s, EvAck(n, v))
    ensures Inv(Set(s, n, ReceiveAck(s.nodes[n], s.acks[v])).(acks := s.acks - {v}))
  {
    AckAt(s, v);
    NodeAt(s, n);
    var l, m := s.nodes[n], s.acks[v];
    var u := s.(acks := s.acks - {v});
    LoseKeepsInv(s, v);
    HeaderQuiets(l, m);
    if AcceptsAck(ProcessHeader(l, m), m) {
      AcceptedIsNew(s, v, l);
      CountKeepsInv(u, n);
      CountedHeader(u, n, m);
    } else {
      NodeStep(u, n, ReceiveAck(l, m));
    }
  }

  lemma CountedHeader(u: State, n: NodeId, m: Msg)
    requires n in u.nodes && Inv(Set(u, n, u.nodes[n].(authCount := u.nodes[n].authCount + 1)))
    requires Quiets(u.nodes[n], ProcessHeader(u.nodes[n], m)) && AcceptsAck(ProcessHeader(u.nodes[n], m), m)
    ensures Inv(Set(u, n, ReceiveAck(u.nodes[n], m)))
  {
    var l := u.nodes[n];
    var t := Set(u, n, l.(authCount := l.authCount + 1));
    NodeStep(t, n, ReceiveAck(l, m));
    assert Set(t, n, ReceiveAck(l, m)).nodes == Set(u, n, ReceiveAck(l, m)).nodes;
  }

  // ---- attempts ----

  lemma StartSetsInv(s: State, n: NodeId)
    requires Inv(s) && n in s.nodes && !s.nodes[n].authSent
    ensures Inv(Set(s, n, StartElection(s.nodes[n])))
    ensures RequestRecorded(Set(s, n, StartElection(s.nodes[n])), Header(StartElection(s.nodes[n]), AuthRequest(true)))
  {
    assert Unfold(Electing, 0);
    var l := StartElection(s.nodes[n]);
    SameBallots(s, Set(s, n, l));
    RecordsKept(s, n, l);
    assert CountBacked(s, s.nodes[n]);
  }

  lemma StartKeepsInv(s: State, n: NodeId, force: bool)
    requires Inv(s) && n in s.nodes && !s.nodes[n].authSent
    ensures Inv(Apply(s, EvStart(n, force)))
  {
    var l' := StartElection(s.nodes[n]);
    StartSetsInv(s, n);
    SendKeepsInv(Set(s, n, l'), Header(l', AuthRequest(force)));
  }

  lemma RecordWin(s: State, w: Win)
    requires Inv(s) && WinBacked(s, w)
    ensures Inv(s.(wins := s.wins + {w}))
  {
    assert Unfold(Electing, 0);
    var t := s.(wins := s.wins + {w});
    SameBallots(s, t);
    SameBallots(t, t);
    assert Voters(t, w.node, w.epoch) == Voters(s, w.node, w.epoch);
  }

  lemma WinKeepsInv(s: State, n: NodeId, manual: bool)
    requires Inv(s) && Enabled(s, EvWin(n, manual))
    ensures Inv(Apply(s, EvWin(n, manual)))
  {
    NodeAt(s, n);
    var l := s.nodes[n];
    assert CountBacked(s, l);
    Subset(Arrived(s, n, l.authEpoch), Voters(s, n, l.authEpoch));
    RecordWin(s, Win(n, l.authEpoch, l.size));
    NodeStep(s.(wins := s.wins + {Win(n, l.authEpoch, l.size)}), n, ClaimVictory(l));
  }

  lemma StepKeepsInv(s: State, e: Event)
    requires Inv(s) && Enabled(s, e) && Timely(s, e)
    ensures Inv(Apply(s, e))
  {
    NodeAt(s, e.n);
    var l := s.nodes[e.n];
    match e {
      case EvAnnounce(n) => SendKeepsInv(s, Header(l, Ping));
      case EvSendUpdate(n, about) => SendKeepsInv(s, Header(l, Update(about, l.epochs[about])));
      case EvRequest(n, m, calm) => RequestKeepsInv(s, n, m, calm);
      case EvAck(n, v) => AckKeepsInv(s, n, v);
      case EvLoseAck(n, v) => LoseKeepsInv(s, v);
      case EvStart(n, force) => StartKeepsInv(s, n, force);
      case EvWin(n, manual) => WinKeepsInv(s, n, manual);
      case _ =>
        LocalQuiets(l, e);
        NodeStep(s, e.n, LocalNext(l, e));
    }
  }

  // ---- quorums ----

  lemma {:induction false} Subset(a: set<NodeId>, b: set<NodeId>)
    requires a <= b
    ensures |a| <= |b|
  {
    assert b == a + (b - a);
  }

  lemma QuorumsMeet(a: set<NodeId>, b: set<NodeId>, v: set<NodeId>, m: nat, n: nat)
    requires a <= v && b <= v && |v| <= m && |v| <= n
    requires |a| >= Quorum(m) && |b| >= Quorum(n)
    ensures exists x :: x in a && x in b
  {
    Subset(a + b, v);
    if a * b == {} {
      assert |a + b| == |a| + |b|;
    } else {
      var x :| x in a * b;
    }
  }

  // ---- the electorate ----

  /** A master with slots that has not voted in `epoch` or a later one, and whose own
      configuration is older. */
  predicate MayVote(l: Local, epoch: nat) {
    && l.me in ServingMasters(l.view)
    && l.currentEpoch <= epoch && l.lastVoteEpoch < epoch && ConfigEpoch(l, l.me) < epoch
  }

  predicate Candidate(l: Local, epoch: nat) {
    IsSlave(l) && l.authSent && l.authEpoch == epoch
  }

  /** Somebody has asked for votes in `epoch` or a later one. */
  ghost predicate Open(s: State, epoch: nat) {
    exists m :: m in s.sent && m.body.AuthRequest? && m.currentEpoch >= epoch
  }

  /** While votes for `epoch` can be asked for, only `masters` see themselves as masters with
      slots that may still vote, and its candidates count on a cluster at least that large. */
  ghost predicate Electorate(s: State, epoch: nat, masters: set<NodeId>) {
    && (forall n :: n in s.nodes && MayVote(s.nodes[n], epoch) && Open(s, epoch) ==> n in masters)
    && (forall n :: n in s.nodes && Candidate(s.nodes[n], epoch) ==> |masters| <= s.nodes[n].size)
  }

  /** The votes and the wins that such an electorate leads to. */
  ghost predicate Agreed(s: State, epoch: nat, masters: set<NodeId>) {
    && (forall v :: v in s.granted && v.epoch == epoch ==> v.voter in masters)
    && (forall w :: w in s.wins && w.epoch == epoch ==> |masters| <= w.size)
  }

  lemma VoterMayVote(l: Local, m: Msg, calm: bool)
    requires m.body.AuthRequest? && EpochsOrdered(l) && GrantsVote(ProcessHeader(l, m), m, calm)
    requires var h := ProcessHeader(l, m); ConfigEpoch(h, h.me) < h.currentEpoch
    ensures MayVote(l, ProcessHeader(l, m).currentEpoch) && m.currentEpoch >= ProcessHeader(l, m).currentEpoch
  {
  }

  lemma RequestKeepsAgreed(s: State, n: NodeId, m: Msg, calm: bool, epoch: nat, masters: set<NodeId>)
    requires n in s.nodes && s.nodes[n].me == n && EpochsOrdered(s.nodes[n]) && m in s.sent && m.body.AuthRequest?
    requires Fair(s, EvRequest(n, m, calm)) && Electorate(s, epoch, masters) && Agreed(s, epoch, masters)
    ensures Agreed(Request(s, n, m, calm), epoch, masters)
  {
    var h := ProcessHeader(s.nodes[n], m);
    if GrantsVote(h, m, calm) {
      VoterMayVote(s.nodes[n], m, calm);
      assert h.currentEpoch == epoch ==> n in masters;
    }
  }

  /** No other event adds a vote or a win. */
  lemma SameRecords(s: State, e: Event)
    requires Enabled(s, e) && !e.EvRequest? && !e.EvWin?
    ensures Apply(s, e).granted == s.granted && Apply(s, e).wins == s.wins
  {
  }

  lemma StepKeepsAgreed(s: State, e: Event, epoch: nat, masters: set<NodeId>)
    requires Enabled(s, e) && Fair(s, e) && s.nodes[e.n].me == e.n && EpochsOrdered(s.nodes[e.n])
    requires Electorate(s, epoch, masters) && Agreed(s, epoch, masters)
    ensures Agreed(Apply(s, e), epoch, masters)
  {
    if e.EvRequest? {
      RequestKeepsAgreed(s, e.n, e.m, e.calm, epoch, masters);
    } else if e.EvWin? {
      assert Candidate(s.nodes[e.n], s.nodes[e.n].authEpoch);
    } else {
      SameRecords(s, e);
    }
  }

  // ---- main results ----

  lemma InitKeepsInv(s: State)
    requires Init(s)
    ensures Inv(s)
  {
  }

  lemma ReachableInv(ss: seq<State>, es: seq<Event>)
    requires TimelyRun(ss, es)
    ensures forall i :: 0 <= i < |ss| ==> Inv(ss[i])
  {
    InitKeepsInv(ss[0]);
    for i := 0 to |es|
      invariant forall k :: 0 <= k <= i ==> Inv(ss[k])
    {
      StepKeepsInv(ss[i], es[i]);
    }
  }

  /** The nodes' agreement about the electorate is an agreement about votes and quorums. */
  lemma ElectorateDecides(ss: seq<State>, es: seq<Event>, i: nat, epoch: nat, masters: set<NodeId>)
    requires TimelyRun(ss, es) && FairRun(ss, es) && i < |ss|
    requires forall k :: 0 <= k <= i ==> Electorate(ss[k], epoch, masters)
    ensures Agreed(ss[i], epoch, masters)
  {
    ReachableInv(ss, es);
    for k := 0 to i
      invariant Agreed(ss[k], epoch, masters)
    {
      NodeAt(ss[k], es[k].n);
      StepKeepsAgreed(ss[k], es[k], epoch, masters);
    }
  }

  /** Two quorums of an agreed electorate are for the same replica. */
  lemma OneWinner(s: State, epoch: nat, masters: set<NodeId>, w: Win, w': Win)
    requires OneVotePerEpoch(s) && Agreed(s, epoch, masters) && WinBacked(s, w) && WinBacked(s, w')
    requires w in s.wins && w' in s.wins && w.epoch == epoch == w'.epoch
    ensures w.node == w'.node
  {
    var a, b := Voters(s, w.node, epoch), Voters(s, w'.node, epoch);
    forall m | m in a + b ensures m in masters {
      assert Vote(m, w.node, epoch) in s.granted || Vote(m, w'.node, epoch) in s.granted;
    }
    QuorumsMeet(a, b, masters, w.size, w'.size);
    var x :| x in a && x in b;
    assert Vote(x, w.node, epoch) in s.granted && Vote(x, w'.node, epoch) in s.granted;
  }

  /** Everybody who voted in `epoch`. */
  function VotedIn(s: State, epoch: nat): set<NodeId> {
    set v | v in s.granted && v.epoch == epoch :: v.voter
  }

  /** Whatever the nodes believe: two winners of an epoch in a timely run took two quorums of
      different voters, more than one of them thought there are masters. */
  lemma TwoWinnersTakeMoreVoters(ss: seq<State>, es: seq<Event>, i: nat, w: Win, w': Win)
    requires TimelyRun(ss, es) && i < |ss| && w in ss[i].wins && w' in ss[i].wins
    requires w.epoch == w'.epoch && w.node != w'.node
    ensures |VotedIn(ss[i], w.epoch)| >= Quorum(w.size) + Quorum(w'.size)
  {
    assert Unfold(Electing, 0);
    ReachableInv(ss, es);
    assert Inv(ss[i]) && WinBacked(ss[i], w) && WinBacked(ss[i], w');
    QuorumsAdd(ss[i], w, w');
  }

  lemma QuorumsAdd(s: State, w: Win, w': Win)
    requires OneVotePerEpoch(s) && WinBacked(s, w) && WinBacked(s, w') && w.epoch == w'.epoch && w.node != w'.node
    ensures |VotedIn(s, w.epoch)| >= Quorum(w.size) + Quorum(w'.size)
  {
    var a, b := Voters(s, w.node, w.epoch), Voters(s, w'.node, w.epoch);
    forall m | m in a + b ensures m in VotedIn(s, w.epoch) {
      assert Vote(m, w.node, w.epoch) in s.granted || Vote(m, w'.node, w.epoch) in s.granted;
    }
    assert a !! b;
    assert |a + b| == |a| + |b|;
    Subset(a + b, VotedIn(s, w.epoch));
  }

  /** Over every timely and fair run, at most one replica wins an epoch whose electorate the
      nodes agreed on in every state so far. */
  lemma ElectionSafety(ss: seq<State>, es: seq<Event>, i: nat, epoch: nat, masters: set<NodeId>, w: Win, w': Win)
    requires TimelyRun(ss, es) && FairRun(ss, es) && i < |ss|
    requires forall k :: 0 <= k <= i ==> Electorate(ss[k], epoch, masters)
    requires w in ss[i].wins && w' in ss[i].wins && w.epoch == epoch == w'.epoch
    ensures w.node == w'.node
  {
    ReachableInv(ss, es);
    ElectorateDecides(ss, es, i, epoch, masters);
    assert Inv(ss[i]) && Unfold(Electing, 0);
    OneWinner(ss[i], epoch, masters, w, w');
  }
}
