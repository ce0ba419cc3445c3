/**
 Ordinary failovers. When a master has failed, a replica of it that asks gets the votes of all
 masters that know of the failure and of nothing that speaks against it, counts them, and takes
 over the slots. A vote that should not be granted is not, whatever the request says.
*/
module Failover {
  import opened ClusterNode
  import opened ClusterRun
  import Election
  import opened Epochs

  // ---- what a failover needs ----

  /** The replica `n` of a failed master that serves slots. */
  ghost predicate Stands(l: Local, n: NodeId) {
    && l.me == n && !l.authSent
    && n !in l.view.masters && n in l.view.slaveof && l.view.slaveof[n] in l.view.failed
    && exists j :: j in l.view.owner && l.view.owner[j] == l.view.slaveof[n]
  }

  /** The request it broadcasts: for the next epoch, with the slots and the epoch of its master. */
  function Plea(l: Local, n: NodeId): Msg
    requires n in l.view.slaveof
  {
    var master := l.view.slaveof[n];
    Msg(n, l.currentEpoch + 1, if master in l.epochs then l.epochs[master] else 0,
        (set j | j in l.view.owner && l.view.owner[j] == master), AuthRequest(false))
  }

  /** Master `q` can vote for the request `m`: it serves a slot, knows no newer epoch, has not
      voted in this one, sees the sender as a replica of a failed master, and knows no owner with
      a newer configuration for any slot in the request. */
  ghost predicate WillVote(l: Local, q: NodeId, m: Msg) {
    && l.me == q && m.src in l.epochs && m.src !in l.handshake
    && q in l.view.masters && (exists j :: j in l.view.owner && l.view.owner[j] == q)
    && l.currentEpoch <= m.currentEpoch && l.lastVoteEpoch != m.currentEpoch
    && m.src !in l.view.masters && m.src in l.view.slaveof && l.view.slaveof[m.src] in l.view.failed
    && (forall j :: j in m.slots && j < CLUSTER_SLOTS && j in l.view.owner && l.view.owner[j] in l.epochs ==>
          l.epochs[l.view.owner[j]] <= m.configEpoch)
  }

  /** The candidate counts a vote of `q`. */
  ghost predicate WillCount(l: Local, q: NodeId) {
    && q in l.epochs && q !in l.handshake && q in l.view.masters
    && exists j :: j in l.view.owner && l.view.owner[j] == q
  }

  ghost predicate Electable(s: State, n: NodeId, voters: seq<NodeId>) {
    && n in s.nodes && Stands(s.nodes[n], n)
    && n !in voters && (forall i, k :: 0 <= i < k < |voters| ==> voters[i] != voters[k])
    && (forall i :: 0 <= i < |voters| ==>
          && voters[i] in s.nodes
          && WillVote(s.nodes[voters[i]], voters[i], Plea(s.nodes[n], n))
          && WillCount(s.nodes[n], voters[i]))
    && |voters| >= s.nodes[n].size / 2 + 1
  }

  function Requests(voters: seq<NodeId>, m: Msg): seq<Event> {
    seq(|voters|, i requires 0 <= i < |voters| => EvRequest(voters[i], m, true))
  }

  function Acks(voters: seq<NodeId>, n: NodeId, epoch: nat): seq<Event> {
    seq(|voters|, i requires 0 <= i < |voters| => EvAck(n, Vote(voters[i], n, epoch)))
  }

  // ---- paths ----

  /** The events lead from `s` to `t`. */
  ghost predicate Path(s: State, es: seq<Event>, t: State)
    decreases |es|
  {
    if es == [] then s == t else Enabled(s, es[0]) && Path(Apply(s, es[0]), es[1..], t)
  }

  lemma {:induction false} PathThen(s: State, es: seq<Event>, t: State, more: seq<Event>, u: State)
    requires Path(s, es, t) && Path(t, more, u)
    ensures Path(s, es + more, u)
    decreases |es|
  {
    if es == [] {
      assert es + more == more;
    } else {
      assert (es + more)[0] == es[0] && (es + more)[1..] == es[1..] + more;
      PathThen(Apply(s, es[0]), es[1..], t, more, u);
    }
  }

  lemma OneStep(s: State, e: Event)
    requires Enabled(s, e)
    ensures Path(s, [e], Apply(s, e))
  {
    assert [e][1..] == [];
    assert Path(Apply(s, e), [], Apply(s, e));
  }

  lemma RunOn(ss: seq<State>, es: seq<Event>, e: Event)
    requires IsRun(ss, es) && Enabled(ss[|es|], e)
    ensures IsRun(ss + [Apply(ss[|es|], e)], es + [e])
  {
    var ss', es' := ss + [Apply(ss[|es|], e)], es + [e];
    forall i | 0 <= i < |es'|
      ensures Enabled(ss'[i], es'[i]) && ss'[i + 1] == Apply(ss'[i], es'[i])
    {
      assert i < |es| ==> ss'[i] == ss[i] && ss'[i + 1] == ss[i + 1] && es'[i] == es[i];
    }
  }

  /** A path from the last state of a run continues the run. */
  lemma {:induction false} PathContinues(ss: seq<State>, es: seq<Event>, more: seq<Event>, t: State)
    returns (ss': seq<State>)
    requires IsRun(ss, es) && Path(ss[|es|], more, t)
    ensures IsRun(ss', es + more) && ss'[|es + more|] == t && ss <= ss'
    decreases |more|
  {
    if more == [] {
      ss' := ss;
      assert es + more == es;
    } else {
      var next := Apply(ss[|es|], more[0]);
      RunOn(ss, es, more[0]);
      assert (ss + [next])[|es + [more[0]]|] == next;
      ss' := PathContinues(ss + [next], es + [more[0]], more[1..], t);
      assert es + [more[0]] + more[1..] == es + more;
      assert ss <= ss + [next] <= ss';
    }
  }

  // ---- asking ----

  lemma PleaIsSent(l: Local, n: NodeId)
    requires Stands(l, n)
    ensures Header(StartElection(l), AuthRequest(false)) == Plea(l, n)
  {
  }

  /** A vote is granted. */
  lemma Grants(l: Local, q: NodeId, m: Msg)
    requires WillVote(l, q, m) && m.body == AuthRequest(false)
    ensures var h := ProcessHeader(l, m);
            GrantsVote(h, m, true) && h.currentEpoch == m.currentEpoch && h.me == q && h.view == l.view
  {
    var h := ProcessHeader(l, m);
    forall j | j in m.slots && j < CLUSTER_SLOTS && j in h.view.owner
      ensures ConfigEpoch(h, h.view.owner[j]) <= m.configEpoch
    {
    }
  }

  /** The first `k` voters have voted for `n` in epoch `m.currentEpoch`. */
  ghost predicate Voted(s: State, t: State, n: NodeId, voters: seq<NodeId>, m: Msg, k: nat) {
    && t.nodes.Keys == s.nodes.Keys && m in t.sent && t.wins == s.wins && n in s.nodes && t.nodes[n] == s.nodes[n]
    && (forall i :: k <= i < |voters| ==> voters[i] in s.nodes && t.nodes[voters[i]] == s.nodes[voters[i]])
    && (forall i :: 0 <= i < k && i < |voters| ==> InFlight(t, Vote(voters[i], n, m.currentEpoch)))
  }

  ghost predicate InFlight(t: State, v: Vote) {
    v in t.granted && v in t.acks && t.acks[v].src == v.voter && t.acks[v].currentEpoch == v.epoch
  }

  lemma OneVote(s: State, t: State, n: NodeId, voters: seq<NodeId>, m: Msg, k: nat)
    requires Voted(s, t, n, voters, m, k) && k < |voters| && n !in voters && m.src == n && m.body == AuthRequest(false)
    requires forall i, j :: 0 <= i < j < |voters| ==> voters[i] != voters[j]
    requires WillVote(t.nodes[voters[k]], voters[k], m)
    ensures var e := EvRequest(voters[k], m, true); Enabled(t, e) && Voted(s, Apply(t, e), n, voters, m, k + 1)
  {
    var q := voters[k];
    Grants(t.nodes[q], q, m);
    var e := EvRequest(q, m, true);
    var u := Apply(t, e);
    var v := Vote(q, n, m.currentEpoch);
    assert u.granted == t.granted + {v};
    forall i | 0 <= i < k + 1
      ensures InFlight(u, Vote(voters[i], n, m.currentEpoch))
    {
      assert i < k ==> InFlight(t, Vote(voters[i], n, m.currentEpoch));
    }
  }

  lemma {:induction false} AllVote(s: State, t: State, n: NodeId, voters: seq<NodeId>, m: Msg, k: nat)
    returns (u: State)
    requires Voted(s, t, n, voters, m, k) && k <= |voters| && n !in voters && m.src == n && m.body == AuthRequest(false)
    requires forall i, j :: 0 <= i < j < |voters| ==> voters[i] != voters[j]
    requires forall i :: 0 <= i < |voters| ==> voters[i] in s.nodes && WillVote(s.nodes[voters[i]], voters[i], m)
    ensures Path(t, Requests(voters, m)[k..], u) && Voted(s, u, n, voters, m, |voters|)
    decreases |voters| - k
  {
    var rest := Requests(voters, m)[k..];
    if k == |voters| {
      u := t;
    } else {
      OneVote(s, t, n, voters, m, k);
      var e := EvRequest(voters[k], m, true);
      u := AllVote(s, Apply(t, e), n, voters, m, k + 1);
      assert rest[0] == e && rest[1..] == Requests(voters, m)[k + 1..];
    }
  }

  // ---- counting ----

  /** The candidate has counted the first `k` votes; the others are in flight. */
  ghost predicate Counted(l: Local, t: State, n: NodeId, voters: seq<NodeId>, epoch: nat, k: nat) {
    && n in t.nodes && SameCandidate(l, t.nodes[n]) && t.nodes[n].authCount == l.authCount + k
    && (forall i :: 0 <= i < |voters| ==> Vote(voters[i], n, epoch) in t.granted)
    && (forall i :: k <= i < |voters| ==> InFlight(t, Vote(voters[i], n, epoch)))
  }

  ghost predicate SameCandidate(l: Local, c: Local) {
    && c.me == l.me && c.currentEpoch == l.currentEpoch && c.authEpoch == l.authEpoch && c.authSent == l.authSent
    && c.size == l.size && c.view == l.view && c.handshake == l.handshake && c.epochs.Keys == l.epochs.Keys
    && c.lastVoteEpoch == l.lastVoteEpoch && ConfigEpoch(c, c.me) == ConfigEpoch(l, l.me)
  }

  lemma OneCount(l: Local, t: State, n: NodeId, voters: seq<NodeId>, epoch: nat, k: nat)
    requires Counted(l, t, n, voters, epoch, k) && k < |voters| && n !in voters && l.me == n
    requires forall i, j :: 0 <= i < j < |voters| ==> voters[i] != voters[j]
    requires l.currentEpoch == epoch == l.authEpoch && WillCount(l, voters[k])
    ensures var e := EvAck(n, Vote(voters[k], n, epoch));
            Enabled(t, e) && Counted(l, Apply(t, e), n, voters, epoch, k + 1) && Apply(t, e).wins == t.wins
            && Apply(t, e).nodes.Keys == t.nodes.Keys
  {
    var q, v := voters[k], Vote(voters[k], n, epoch);
    assert InFlight(t, v);
    var e := EvAck(n, v);
    var u := Apply(t, e);
    assert u.nodes[n] == ReceiveAck(t.nodes[n], t.acks[v]);
    forall i | k + 1 <= i < |voters|
      ensures InFlight(u, Vote(voters[i], n, epoch))
    {
      assert InFlight(t, Vote(voters[i], n, epoch)) && voters[i] != q;
    }
  }

  lemma {:induction false} AllCounted(l: Local, t: State, n: NodeId, voters: seq<NodeId>, epoch: nat, k: nat)
    returns (u: State)
    requires Counted(l, t, n, voters, epoch, k) && k <= |voters| && n !in voters && l.me == n
    requires forall i, j :: 0 <= i < j < |voters| ==> voters[i] != voters[j]
    requires l.currentEpoch == epoch == l.authEpoch && forall i :: 0 <= i < |voters| ==> WillCount(l, voters[i])
    ensures Path(t, Acks(voters, n, epoch)[k..], u) && Counted(l, u, n, voters, epoch, |voters|)
    ensures u.wins == t.wins && u.nodes.Keys == t.nodes.Keys
    decreases |voters| - k
  {
    var rest := Acks(voters, n, epoch)[k..];
    if k == |voters| {
      u := t;
    } else {
      OneCount(l, t, n, voters, epoch, k);
      var e := EvAck(n, Vote(voters[k], n, epoch));
      u := AllCounted(l, Apply(t, e), n, voters, epoch, k + 1);
      assert rest[0] == e && rest[1..] == Acks(voters, n, epoch)[k + 1..];
    }
  }

  // ---- winning ----

  /** The replica `n` is a master of its old master's slots, with the configuration of `epoch`. */
  ghost predicate TookOver(l: Local, c: Local, n: NodeId, epoch: nat)
    requires n in l.view.slaveof
  {
    && n in c.view.masters && n !in c.view.slaveof
    && n in c.epochs && c.epochs[n] == epoch
    && c.view.owner.Keys == l.view.owner.Keys
    && forall j :: j in l.view.owner ==>
         c.view.owner[j] == if l.view.owner[j] == l.view.slaveof[n] then n else l.view.owner[j]
  }

  lemma WinsNow(l: Local, t: State, n: NodeId, epoch: nat)
    requires n in t.nodes && SameCandidate(l, t.nodes[n]) && l.me == n && l.authSent && l.authEpoch == epoch
    requires n !in l.view.masters && n in l.view.slaveof && l.view.slaveof[n] in l.view.failed
    requires exists j :: j in l.view.owner && l.view.owner[j] == l.view.slaveof[n]
    requires t.nodes[n].authCount >= l.size / 2 + 1 && ConfigEpoch(l, n) <= epoch
    ensures var e := EvWin(n, false);
            && Enabled(t, e) && Win(n, epoch, l.size) in Apply(t, e).wins
            && Apply(t, e).granted == t.granted && n in Apply(t, e).nodes
            && TookOver(l, Apply(t, e).nodes[n], n, epoch)
  {
    var j :| j in l.view.owner && l.view.owner[j] == l.view.slaveof[n];
    assert l.view.slaveof[n] in l.view.owner.Values;
  }

  /** The events of an ordinary failover. */
  function FailoverEvents(l: Local, n: NodeId, voters: seq<NodeId>): seq<Event>
    requires n in l.view.slaveof
  {
    [EvStart(n, false)] + Requests(voters, Plea(l, n)) + Acks(voters, n, l.currentEpoch + 1) + [EvWin(n, false)]
  }

  ghost predicate FailedOver(s: State, u: State, n: NodeId, voters: seq<NodeId>)
    requires n in s.nodes && n in s.nodes[n].view.slaveof
  {
    var l := s.nodes[n];
    var epoch := l.currentEpoch + 1;
    && (forall i :: 0 <= i < |voters| ==> Vote(voters[i], n, epoch) in u.granted)
    && Win(n, epoch, l.size) in u.wins
    && n in u.nodes && TookOver(l, u.nodes[n], n, epoch)
  }

  lemma AskAll(s: State, n: NodeId, voters: seq<NodeId>) returns (u: State)
    requires Electable(s, n, voters)
    ensures var l, m := s.nodes[n], Plea(s.nodes[n], n);
            && Path(s, [EvStart(n, false)] + Requests(voters, m), u)
            && Counted(StartElection(l), u, n, voters, l.currentEpoch + 1, 0)
            && u.nodes.Keys == s.nodes.Keys
  {
    var l, m := s.nodes[n], Plea(s.nodes[n], n);
    var t := Apply(s, EvStart(n, false));
    PleaIsSent(l, n);
    OneStep(s, EvStart(n, false));
    assert forall i :: 0 <= i < |voters| ==> t.nodes[voters[i]] == s.nodes[voters[i]];
    u := AllVote(t, t, n, voters, m, 0);
    assert Requests(voters, m)[0..] == Requests(voters, m);
    PathThen(s, [EvStart(n, false)], t, Requests(voters, m), u);
  }

  lemma StillCounts(s: State, n: NodeId, voters: seq<NodeId>)
    requires Electable(s, n, voters)
    ensures forall i :: 0 <= i < |voters| ==> WillCount(StartElection(s.nodes[n]), voters[i])
  {
    assert StartElection(s.nodes[n]).view == s.nodes[n].view;
  }

  lemma QuorumWins(s: State, t: State, n: NodeId, voters: seq<NodeId>)
    requires n in s.nodes && Stands(s.nodes[n], n) && |voters| >= s.nodes[n].size / 2 + 1
    requires ConfigEpoch(s.nodes[n], n) <= s.nodes[n].currentEpoch
    requires Counted(StartElection(s.nodes[n]), t, n, voters, s.nodes[n].currentEpoch + 1, |voters|)
    ensures Enabled(t, EvWin(n, false)) && FailedOver(s, Apply(t, EvWin(n, false)), n, voters)
  {
    WinsNow(StartElection(s.nodes[n]), t, n, s.nodes[n].currentEpoch + 1);
  }

  lemma CountAll(s: State, t: State, n: NodeId, voters: seq<NodeId>) returns (u: State)
    requires Electable(s, n, voters) && ConfigEpoch(s.nodes[n], n) <= s.nodes[n].currentEpoch
    requires Counted(StartElection(s.nodes[n]), t, n, voters, s.nodes[n].currentEpoch + 1, 0)
    ensures Path(t, Acks(voters, n, s.nodes[n].currentEpoch + 1) + [EvWin(n, false)], u)
    ensures FailedOver(s, u, n, voters)
  {
    var epoch := s.nodes[n].currentEpoch + 1;
    StillCounts(s, n, voters);
    var v := AllCounted(StartElection(s.nodes[n]), t, n, voters, epoch, 0);
    assert Acks(voters, n, epoch)[0..] == Acks(voters, n, epoch);
    QuorumWins(s, v, n, voters);
    u := Apply(v, EvWin(n, false));
    OneStep(v, EvWin(n, false));
    PathThen(t, Acks(voters, n, epoch), v, [EvWin(n, false)], u);
  }

  /** From every state of every run in which a replica of a failed master is electable, starting an
      election without force, the requests and the votes of a quorum lead to its victory. */
  lemma OrdinaryFailover(ss: seq<State>, es: seq<Event>, n: NodeId, voters: seq<NodeId>) returns (ss': seq<State>)
    requires IsRun(ss, es) && Electable(ss[|es|], n, voters)
    ensures var es' := es + FailoverEvents(ss[|es|].nodes[n], n, voters);
            && IsRun(ss', es') && ss <= ss' && FailedOver(ss[|es|], ss'[|es'|], n, voters)
  {
    var s := ss[|es|];
    EpochDominance(ss, es);
    NodeAt(s, n);
    var t := AskAll(s, n, voters);
    var u := CountAll(s, t, n, voters);
    var first := [EvStart(n, false)] + Requests(voters, Plea(s.nodes[n], n));
    var last := Acks(voters, n, s.nodes[n].currentEpoch + 1) + [EvWin(n, false)];
    PathThen(s, first, t, last, u);
    assert first + last == FailoverEvents(s.nodes[n], n, voters);
    ss' := PathContinues(ss, es, first + last, u);
  }

  /** The size of the cluster is the number of masters that own a slot. */
  lemma SizeCountsServing(l: Local, serving: set<NodeId>)
    requires forall n :: n in serving <==> n in l.view.masters && exists j :: j in l.view.owner && l.view.owner[j] == n
    ensures UpdateState(l).size == |serving|
  {
    assert serving == ServingMasters(l.view);
  }

  // ---- what is refused ----

  /** A reason against a vote of the node `l` for the request `m`. */
  ghost predicate Refuses(l: Local, m: Msg, calm: bool)
    requires m.body.AuthRequest?
  {
    || m.src !in l.epochs || m.src in l.view.masters || m.src !in l.view.slaveof
    || (l.view.slaveof[m.src] !in l.view.failed && !m.body.force)
    || l.me !in l.view.masters || (forall j :: j in l.view.owner ==> l.view.owner[j] != l.me)
    || m.currentEpoch < l.currentEpoch
    || (l.lastVoteEpoch == m.currentEpoch && l.currentEpoch <= m.currentEpoch && m.src !in l.handshake)
    || !calm
    || exists j :: j in m.slots && j < CLUSTER_SLOTS && j in l.view.owner
                   && l.view.owner[j] in l.epochs && l.epochs[l.view.owner[j]] > m.configEpoch
  }

  /** With any of them no vote is recorded or sent: above all, none without force for a replica
      whose master is up. */
  lemma RefusedVote(s: State, q: NodeId, m: Msg, calm: bool)
    requires Enabled(s, EvRequest(q, m, calm)) && Refuses(s.nodes[q], m, calm)
    ensures var t := Apply(s, EvRequest(q, m, calm));
            t.granted == s.granted && t.acks == s.acks && t.nodes[q].lastVoteEpoch == s.nodes[q].lastVoteEpoch
  {
    var l := s.nodes[q];
    var h := ProcessHeader(l, m);
    assert h.view == l.view && h.me == l.me && h.lastVoteEpoch == l.lastVoteEpoch && h.epochs.Keys == l.epochs.Keys;
    if j: nat :| j in m.slots && j < CLUSTER_SLOTS && j in l.view.owner
                 && l.view.owner[j] in l.epochs && l.epochs[l.view.owner[j]] > m.configEpoch
    {
      assert ConfigEpoch(h, h.view.owner[j]) > m.configEpoch;
    }
  }

  /** Votes are counted from masters with slots only, and for the running attempt or a newer one. */
  lemma IgnoredVote(s: State, n: NodeId, v: Vote)
    requires Enabled(s, EvAck(n, v))
    requires var l, m := s.nodes[n], s.acks[v];
             || m.src !in l.view.masters || (forall j :: j in l.view.owner ==> l.view.owner[j] != m.src)
             || m.src !in l.epochs || m.currentEpoch < l.authEpoch
    ensures Apply(s, EvAck(n, v)).nodes[n].authCount == s.nodes[n].authCount
  {
  }

  /** Without a manual failover only a replica of a failed master with slots can win. */
  lemma WinNeedsFailure(s: State, n: NodeId)
    requires Enabled(s, EvWin(n, false)) && s.nodes[n].me == n
    ensures var l := s.nodes[n];
            && n !in l.view.masters && n in l.view.slaveof && l.view.slaveof[n] in l.view.failed
            && (exists j :: j in l.view.owner && l.view.owner[j] == l.view.slaveof[n])
            && l.authSent && l.authCount >= l.size / 2 + 1
  {
    var l := s.nodes[n];
    assert l.view.slaveof[n] in l.view.owner.Values;
  }

  // ---- the epoch of a winner ----

  /** Node `n` asks for votes in step `j` and wins that attempt in step `i`, and got no other epoch
      of its own in between. */
  ghost predicate Crowned(ss: seq<State>, es: seq<Event>, j: nat, i: nat, n: NodeId)
    requires IsRun(ss, es)
  {
    && j < i < |es| && es[j].EvStart? && es[i].EvWin? && es[j].n == n == es[i].n
    && ss[i].nodes[n].authEpoch == ss[j].nodes[n].currentEpoch + 1
    && ConfigEpoch(ss[i].nodes[n], n) == ConfigEpoch(ss[j].nodes[n], n)
  }

  /** A winner has the configEpoch of its win, and this is greater than all it knew of when it asked. */
  lemma WinnerHasTheEpoch(ss: seq<State>, es: seq<Event>, j: nat, i: nat, n: NodeId)
    requires IsRun(ss, es) && Crowned(ss, es, j, i, n)
    ensures var epoch := ss[i].nodes[n].authEpoch;
            && Win(n, epoch, ss[i].nodes[n].size) in ss[i + 1].wins
            && n in ss[i + 1].nodes && ConfigEpoch(ss[i + 1].nodes[n], n) == epoch
            && forall k :: k in ss[j].nodes[n].epochs ==> ss[j].nodes[n].epochs[k] < epoch
  {
    EpochDominance(ss, es);
    NodeAt(ss[j], n);
    NodeAt(ss[i], n);
  }

  /** In every run a winner has exactly the epoch of its win if and only if it had no greater one. */
  lemma WinnerEpochIsExact(ss: seq<State>, es: seq<Event>, i: nat, n: NodeId, manual: bool)
    requires IsRun(ss, es) && i < |es| && es[i] == EvWin(n, manual)
    ensures n in ss[i + 1].nodes
    ensures var l, own := ss[i].nodes[n], ConfigEpoch(ss[i + 1].nodes[n], n);
            && (own == l.authEpoch <==> ConfigEpoch(l, n) <= l.authEpoch)
            && own >= l.authEpoch && own >= ConfigEpoch(l, n)
  {
    EpochDominance(ss, es);
    NodeAt(ss[i], n);
  }

  /** A replica that is bumped while it waits for votes wins with an epoch greater than that of the
      votes. */
  lemma BumpedWinner(l: Local)
    requires NodeDominated(l) && l.me in l.view.slaveof
    ensures var t := ClaimVictory(BumpEpoch(StartElection(l)));
            ConfigEpoch(t, l.me) == t.authEpoch + 1
  {
    var s := StartElection(l);
    assert KnowsGreater(ConfigEpoch(s, l.me), s.epochs, s.currentEpoch);
  }

  lemma WinsStay(ss: seq<State>, es: seq<Event>, i: nat, k: nat)
    requires IsRun(ss, es) && i <= k < |ss|
    ensures ss[i].wins <= ss[k].wins
  {
    for m := i to k
      invariant ss[i].wins <= ss[m].wins
    {
      assert ss[m + 1] == Apply(ss[m], es[m]);
    }
  }

  /** Two winners take different epochs, where an epoch has at most one winner. */
  lemma WinnersDiffer(ss: seq<State>, es: seq<Event>, j: nat, i: nat, n: NodeId, j': nat, i': nat, n': NodeId,
                      masters: set<NodeId>)
    requires Election.TimelyRun(ss, es) && Election.FairRun(ss, es)
    requires Crowned(ss, es, j, i, n) && Crowned(ss, es, j', i', n') && i < i' && n != n'
    requires forall k :: 0 <= k <= i' + 1 ==> Election.Electorate(ss[k], ss[i].nodes[n].authEpoch, masters)
    ensures n in ss[i + 1].nodes && n' in ss[i' + 1].nodes
    ensures ConfigEpoch(ss[i + 1].nodes[n], n) != ConfigEpoch(ss[i' + 1].nodes[n'], n')
  {
    WinnerHasTheEpoch(ss, es, j, i, n);
    WinnerHasTheEpoch(ss, es, j', i', n');
    WinsStay(ss, es, i + 1, i' + 1);
    var epoch := ss[i].nodes[n].authEpoch;
    if ss[i'].nodes[n'].authEpoch == epoch {
      Election.ElectionSafety(ss, es, i' + 1, epoch, masters, Win(n, epoch, ss[i].nodes[n].size),
                              Win(n', epoch, ss[i'].nodes[n'].size));
    }
  }
}
