/**
 Why election safety needs its two provisos: runs with three masters of one slot each and
 replicas 4 of master 3 and 5 of master 2, in which the nodes agree on the electorate and on
 its size all the time, and both replicas win the same epoch.
*/
module ElectionRuns {
  import opened ClusterNode
  import opened ClusterRun
  import opened Election

  const MASTERS: set<NodeId> := {1, 2, 3}

  /** A table of zero epochs and a view shared by all nodes. */
  datatype Setup = Setup(epochs: map<NodeId, nat>, view: View) {
    ghost predicate Valid() {
      && epochs == map[1 := 0, 2 := 0, 3 := 0, 4 := 0, 5 := 0]
      && view == View({1, 2, 3}, map[4 := 3, 5 := 2], {}, map[0 := 1, 1 := 2, 2 := 3])
    }
  }

  /** The election of `epoch`, and which provisos the run meets. */
  datatype Rules = Rules(epoch: nat, timely: bool, fair: bool)

  // ---- walks ----

  /** What the electorate asks of one node. */
  ghost predicate Elector(l: Local, epoch: nat) {
    (MayVote(l, epoch) ==> l.me in MASTERS) && (Candidate(l, epoch) ==> |MASTERS| <= l.size)
  }

  ghost predicate Allowed(k: Rules, s: State, e: Event) {
    (k.timely ==> Timely(s, e)) && (k.fair ==> Fair(s, e))
  }

  ghost predicate Walk(k: Rules, ss: seq<State>, es: seq<Event>) {
    && IsRun(ss, es)
    && (forall i :: 0 <= i < |es| ==> Allowed(k, ss[i], es[i]))
    && (forall i :: 0 <= i < |ss| ==> AllElect(k, ss[i]))
  }

  ghost predicate AllElect(k: Rules, s: State) {
    forall n :: n in s.nodes ==> s.nodes[n].me == n && Elector(s.nodes[n], k.epoch)
  }

  ghost predicate Reachable(k: Rules, s: State) {
    exists ss: seq<State>, es: seq<Event> :: Walk(k, ss, es) && ss[|es|] == s
  }

  ghost predicate KeepsElectorate(k: Rules, s: State, e: Event)
    requires Enabled(s, e)
  {
    var l := Apply(s, e).nodes[e.n];
    l.me == e.n && Elector(l, k.epoch)
  }

  /** `p` holds on after every step that the rules allow. */
  ghost predicate Closed(k: Rules, p: State -> bool) {
    forall s, e :: p(s) && Enabled(s, e) && Allowed(k, s, e) && KeepsElectorate(k, s, e) ==> p(Apply(s, e))
  }

  lemma OnlyOneChanges(s: State, e: Event)
    requires Enabled(s, e)
    ensures Apply(s, e).nodes == s.nodes[e.n := Apply(s, e).nodes[e.n]]
  {
  }

  lemma LongerRun(ss: seq<State>, es: seq<Event>, e: Event)
    requires IsRun(ss, es) && Enabled(ss[|es|], e)
    ensures IsRun(ss + [Apply(ss[|es|], e)], es + [e])
  {
    var ss', es' := ss + [Apply(ss[|es|], e)], es + [e];
    forall i | 0 <= i < |es'|
      ensures Enabled(ss'[i], es'[i]) && ss'[i + 1] == Apply(ss'[i], es'[i])
    {
      assert i < |es| ==> ss'[i] == ss[i] && ss'[i + 1] == ss[i + 1] && es'[i] == es[i];
    }
  }

  lemma AllElectOn(k: Rules, s: State, e: Event)
    requires AllElect(k, s) && Enabled(s, e) && KeepsElectorate(k, s, e)
    ensures AllElect(k, Apply(s, e))
  {
    OnlyOneChanges(s, e);
    var t := Apply(s, e);
    assert forall n :: n in s.nodes && n != e.n ==> t.nodes[n] == s.nodes[n];
  }

  lemma LongerWalk(k: Rules, ss: seq<State>, es: seq<Event>, e: Event)
    requires Walk(k, ss, es) && Enabled(ss[|es|], e) && Allowed(k, ss[|es|], e)
    requires KeepsElectorate(k, ss[|es|], e)
    ensures Walk(k, ss + [Apply(ss[|es|], e)], es + [e])
  {
    var t := Apply(ss[|es|], e);
    LongerRun(ss, es, e);
    AllElectOn(k, ss[|es|], e);
    forall i | 0 <= i < |es + [e]|
      ensures Allowed(k, (ss + [t])[i], (es + [e])[i])
    {
      assert (ss + [t])[i] == ss[i];
    }
    forall i | 0 <= i < |ss + [t]|
      ensures AllElect(k, (ss + [t])[i])
    {
    }
  }

  lemma WalkReaches(k: Rules, ss: seq<State>, es: seq<Event>, t: State)
    requires Walk(k, ss, es) && ss[|es|] == t
    ensures Reachable(k, t)
  {
  }

  lemma ReachesOn(k: Rules, s: State, e: Event)
    requires Reachable(k, s) && Enabled(s, e) && Allowed(k, s, e) && KeepsElectorate(k, s, e)
    ensures Reachable(k, Apply(s, e))
  {
    var ss: seq<State>, es: seq<Event> :| Walk(k, ss, es) && ss[|es|] == s;
    LongerWalk(k, ss, es, e);
    WalkReaches(k, ss + [Apply(s, e)], es + [e], Apply(s, e));
  }

  lemma ReachableIsClosed(k: Rules)
    ensures Closed(k, s => Reachable(k, s))
  {
    forall s, e | Reachable(k, s) && Enabled(s, e) && Allowed(k, s, e) && KeepsElectorate(k, s, e)
      ensures Reachable(k, Apply(s, e))
    {
      ReachesOn(k, s, e);
    }
  }

  // ---- the nodes ----

  function Node(z: Setup, me: NodeId, cur: nat, vote: nat, auth: nat, count: nat, sent: bool): Local {
    Local(me, cur, cur, vote, auth, count, sent, 3, z.epochs, {}, z.view)
  }

  function Fresh(z: Setup): State {
    State(map[1 := Node(z, 1, 0, 0, 0, 0, false), 2 := Node(z, 2, 0, 0, 0, 0, false),
              3 := Node(z, 3, 0, 0, 0, 0, false),
              4 := Node(z, 4, 0, 0, 0, 0, false), 5 := Node(z, 5, 0, 0, 0, 0, false)], {}, map[], {}, {})
  }

  function MasterOf(n: NodeId): NodeId {
    if n == 4 then 3 else 2
  }

  function Ask(z: Setup, n: NodeId, epoch: nat): Msg {
    Msg(n, epoch, 0, SlotsOf(z.view, MasterOf(n)), AuthRequest(true))
  }

  function Reply(z: Setup, n: NodeId, r: NodeId, epoch: nat): Msg {
    Msg(n, epoch, 0, SlotsOf(z.view, n), AuthAck(r))
  }

  /** All these nodes keep to the electorate: the masters are in it and the replicas do not vote. */
  lemma NodesElect(z: Setup, me: NodeId, cur: nat, vote: nat, auth: nat, count: nat, sent: bool, epoch: nat)
    requires z.Valid()
    ensures Elector(Node(z, me, cur, vote, auth, count, sent), epoch)
  {
    assert |MASTERS| == 3;
  }

  lemma FreshIsReachable(z: Setup, k: Rules)
    requires z.Valid()
    ensures Reachable(k, Fresh(z))
  {
    var s := Fresh(z);
    forall n | n in s.nodes ensures s.nodes[n].me == n && Quiet(s.nodes[n]) && Elector(s.nodes[n], k.epoch) {
      NodesElect(z, n, 0, 0, 0, 0, false, k.epoch);
      assert s.nodes[n] == Node(z, n, 0, 0, 0, 0, false);
    }
    assert Walk(k, [s], []) && [s][0] == s;
  }

  // ---- the steps ----

  lemma Starts(z: Setup, k: Rules, p: State -> bool, s: State, n: NodeId, cur: nat, auth: nat, count: nat)
    returns (t: State)
    requires z.Valid() && Closed(k, p) && p(s) && (n == 4 || n == 5)
    requires n in s.nodes && s.nodes[n] == Node(z, n, cur, 0, auth, count, false)
    ensures p(t)
    ensures t == s.(nodes := s.nodes[n := Node(z, n, cur + 1, 0, cur + 1, count, true)],
                    sent := s.sent + {Ask(z, n, cur + 1)})
  {
    NodesElect(z, n, cur + 1, 0, cur + 1, count, true, k.epoch);
    t := Apply(s, EvStart(n, true));
  }

  lemma GivesUp(z: Setup, k: Rules, p: State -> bool, s: State, n: NodeId, cur: nat, count: nat) returns (t: State)
    requires z.Valid() && Closed(k, p) && p(s) && n in s.nodes && s.nodes[n] == Node(z, n, cur, 0, cur, count, true)
    ensures p(t) && t == s.(nodes := s.nodes[n := Node(z, n, cur, 0, cur, 0, false)])
  {
    NodesElect(z, n, cur, 0, cur, 0, false, k.epoch);
    t := Apply(s, EvSchedule(n));
  }

  lemma GrantedHeader(z: Setup, n: NodeId, r: NodeId, cur: nat, vote: nat, epoch: nat)
    requires z.Valid() && 1 <= n <= 3 && (r == 4 || r == 5) && vote <= cur < epoch
    ensures var h := ProcessHeader(Node(z, n, cur, vote, 0, 0, false), Ask(z, r, epoch));
            && GrantsVote(h, Ask(z, r, epoch), true) && CastVote(h) == Node(z, n, epoch, epoch, 0, 0, false)
            && ConfigEpoch(h, n) == 0 && h.me == n && h.currentEpoch == epoch
    ensures Header(Node(z, n, epoch, epoch, 0, 0, false), AuthAck(r)) == Reply(z, n, r, epoch)
  {
    assert z.view.owner[n - 1] == n;
  }

  /** A master that has not voted in `epoch` votes for the replica that asks. */
  lemma MasterVotes(z: Setup, k: Rules, p: State -> bool, s: State, n: NodeId, r: NodeId, cur: nat, vote: nat,
                    epoch: nat)
    returns (t: State)
    requires z.Valid() && Closed(k, p) && p(s) && 1 <= n <= 3 && (r == 4 || r == 5) && vote <= cur < epoch
    requires Ask(z, r, epoch) in s.sent && n in s.nodes && s.nodes[n] == Node(z, n, cur, vote, 0, 0, false)
    ensures p(t)
    ensures t == s.(nodes := s.nodes[n := Node(z, n, epoch, epoch, 0, 0, false)],
                    granted := s.granted + {Vote(n, r, epoch)},
                    acks := s.acks[Vote(n, r, epoch) := Reply(z, n, r, epoch)])
  {
    GrantedHeader(z, n, r, cur, vote, epoch);
    NodesElect(z, n, epoch, epoch, 0, 0, false, k.epoch);
    t := Apply(s, EvRequest(n, Ask(z, r, epoch), true));
  }

  lemma Counts(z: Setup, k: Rules, p: State -> bool, s: State, n: NodeId, m: NodeId, cur: nat, count: nat, sent: bool)
    returns (t: State)
    requires z.Valid() && Closed(k, p) && p(s) && 1 <= m <= 3 && (k.timely ==> sent)
    requires n in s.nodes && s.nodes[n] == Node(z, n, cur, 0, cur, count, sent)
    requires Vote(m, n, cur) in s.acks && s.acks[Vote(m, n, cur)] == Reply(z, m, n, cur)
    ensures p(t)
    ensures t == s.(nodes := s.nodes[n := Node(z, n, cur, 0, cur, count + 1, sent)], acks := s.acks - {Vote(m, n, cur)})
  {
    assert z.view.owner[m - 1] == m;
    NodesElect(z, n, cur, 0, cur, count + 1, sent, k.epoch);
    t := Apply(s, EvAck(n, Vote(m, n, cur)));
  }

  /** The replica `n` after it won: a master with the slot of its old one. */
  function Winner(z: Setup, n: NodeId, cur: nat): Local {
    Node(z, n, cur, 0, cur, 2, true).(epochs := z.epochs[n := cur], view := TakeOver(z.view, n, MasterOf(n)))
  }

  lemma Wins(z: Setup, k: Rules, p: State -> bool, s: State, n: NodeId, cur: nat) returns (t: State)
    requires z.Valid() && Closed(k, p) && p(s) && (n == 4 || n == 5) && k.epoch <= cur
    requires n in s.nodes && s.nodes[n] == Node(z, n, cur, 0, cur, 2, true)
    ensures p(t) && t == s.(nodes := s.nodes[n := Winner(z, n, cur)], wins := s.wins + {Win(n, cur, 3)})
  {
    assert z.view.owner[2] == 3 && z.view.owner[1] == 2;
    assert ConfigEpoch(Winner(z, n, cur), n) == cur;
    t := Apply(s, EvWin(n, true));
  }

  // ---- a vote counted too early ----

  /** Both replicas fail an attempt in epoch 1, where master 1 voted for replica 4. That
      vote reaches replica 4 after it has reset its count, so it enters epoch 2 with one
      vote already. */
  lemma StaleVote(z: Setup, k: Rules, p: State -> bool) returns (s: State)
    requires z.Valid() && !k.timely && Closed(k, p) && p(Fresh(z))
    ensures p(s) && s.nodes.Keys == {1, 2, 3, 4, 5}
    ensures s.nodes[1] == Node(z, 1, 1, 1, 0, 0, false)
    ensures s.nodes[2] == Node(z, 2, 0, 0, 0, 0, false) && s.nodes[3] == Node(z, 3, 0, 0, 0, 0, false)
    ensures s.nodes[4] == Node(z, 4, 1, 0, 1, 1, false) && s.nodes[5] == Node(z, 5, 1, 0, 1, 0, false)
  {
    s := Fresh(z);
    s := Starts(z, k, p, s, 4, 0, 0, 0);
    s := MasterVotes(z, k, p, s, 1, 4, 0, 0, 1);
    s := GivesUp(z, k, p, s, 4, 1, 0);
    s := Counts(z, k, p, s, 4, 1, 1, 0, false);
    s := Starts(z, k, p, s, 5, 0, 0, 0);
    s := GivesUp(z, k, p, s, 5, 1, 0);
  }

  /** One more vote makes replica 4 win epoch 2. */
  lemma EarlyWinner(z: Setup, k: Rules, p: State -> bool) returns (s: State)
    requires z.Valid() && !k.timely && k.epoch == 2 && Closed(k, p) && p(Fresh(z))
    ensures p(s) && {1, 3, 5} <= s.nodes.Keys && Win(4, 2, 3) in s.wins
    ensures s.nodes[1] == Node(z, 1, 1, 1, 0, 0, false) && s.nodes[3] == Node(z, 3, 0, 0, 0, 0, false)
    ensures s.nodes[5] == Node(z, 5, 1, 0, 1, 0, false)
  {
    s := StaleVote(z, k, p);
    s := Starts(z, k, p, s, 4, 1, 1, 1);
    s := MasterVotes(z, k, p, s, 2, 4, 0, 0, 2);
    s := Counts(z, k, p, s, 4, 2, 2, 1, true);
    s := Wins(z, k, p, s, 4, 2);
  }

  /** Replica 5 wins it as well, with the votes of masters 1 and 3. */
  lemma SecondWinner(z: Setup, k: Rules, p: State -> bool) returns (s: State)
    requires z.Valid() && !k.timely && k.epoch == 2 && Closed(k, p) && p(Fresh(z))
    ensures p(s) && Win(4, 2, 3) in s.wins && Win(5, 2, 3) in s.wins
  {
    s := EarlyWinner(z, k, p);
    s := Starts(z, k, p, s, 5, 1, 1, 0);
    s := MasterVotes(z, k, p, s, 1, 5, 1, 1, 2);
    s := MasterVotes(z, k, p, s, 3, 5, 0, 0, 2);
    s := Counts(z, k, p, s, 5, 1, 2, 0, true);
    s := Counts(z, k, p, s, 5, 3, 2, 1, true);
    s := Wins(z, k, p, s, 5, 2);
  }

  // ---- a winner that votes ----

  /** Both replicas ask for epoch 1. Replica 4 wins it with the votes of masters 1 and 2, and
      master 3 votes for replica 5. */
  lemma BothAsk(z: Setup, k: Rules, p: State -> bool) returns (s: State)
    requires z.Valid() && k.epoch == 1 && Closed(k, p) && p(Fresh(z))
    ensures p(s) && s.nodes.Keys == {1, 2, 3, 4, 5} && Ask(z, 4, 1) in s.sent && Ask(z, 5, 1) in s.sent
    ensures s.nodes[1] == Node(z, 1, 0, 0, 0, 0, false) && s.nodes[2] == Node(z, 2, 0, 0, 0, 0, false)
    ensures s.nodes[4] == Node(z, 4, 1, 0, 1, 0, true) && s.nodes[5] == Node(z, 5, 1, 0, 1, 1, true)
  {
    s := Fresh(z);
    s := Starts(z, k, p, s, 4, 0, 0, 0);
    s := Starts(z, k, p, s, 5, 0, 0, 0);
    s := MasterVotes(z, k, p, s, 3, 5, 0, 0, 1);
    s := Counts(z, k, p, s, 5, 3, 1, 0, true);
  }

  lemma FirstWinner(z: Setup, k: Rules, p: State -> bool) returns (s: State)
    requires z.Valid() && k.epoch == 1 && Closed(k, p) && p(Fresh(z))
    ensures p(s) && {4, 5} <= s.nodes.Keys && Win(4, 1, 3) in s.wins && Ask(z, 5, 1) in s.sent
    ensures s.nodes[4] == Winner(z, 4, 1) && s.nodes[5] == Node(z, 5, 1, 0, 1, 1, true)
  {
    s := BothAsk(z, k, p);
    s := MasterVotes(z, k, p, s, 1, 4, 0, 0, 1);
    s := MasterVotes(z, k, p, s, 2, 4, 0, 0, 1);
    s := Counts(z, k, p, s, 4, 1, 1, 0, true);
    s := Counts(z, k, p, s, 4, 2, 1, 1, true);
    s := Wins(z, k, p, s, 4, 1);
  }

  lemma WinnerGrants(z: Setup)
    requires z.Valid()
    ensures ProcessHeader(Winner(z, 4, 1), Ask(z, 5, 1)) == Winner(z, 4, 1)
    ensures GrantsVote(Winner(z, 4, 1), Ask(z, 5, 1), true)
    ensures !MayVote(CastVote(Winner(z, 4, 1)), 1)
  {
    assert TakeOver(z.view, 4, 3).owner[2] == 4;
  }

  /** The winner has not voted in epoch 1, so it votes for replica 5. */
  lemma WinnerVotes(z: Setup, k: Rules, p: State -> bool, s: State) returns (t: State)
    requires z.Valid() && k == Rules(1, true, false) && Closed(k, p) && p(s)
    requires 4 in s.nodes && s.nodes[4] == Winner(z, 4, 1) && Ask(z, 5, 1) in s.sent
    ensures p(t)
    ensures t == s.(nodes := s.nodes[4 := CastVote(Winner(z, 4, 1))], granted := s.granted + {Vote(4, 5, 1)},
                    acks := s.acks[Vote(4, 5, 1) := Header(CastVote(Winner(z, 4, 1)), AuthAck(5))])
  {
    WinnerGrants(z);
    t := Apply(s, EvRequest(4, Ask(z, 5, 1), true));
  }

  /** Replica 5 with the news that 4 is the master of slot 2. */
  function Told(z: Setup, count: nat): Local {
    Node(z, 5, 1, 0, 1, count, true).(view := TakeOver(z.view, 4, 3))
  }

  lemma Hears(z: Setup, k: Rules, p: State -> bool, s: State) returns (t: State)
    requires z.Valid() && k == Rules(1, true, false) && Closed(k, p) && p(s)
    requires 5 in s.nodes && s.nodes[5] == Node(z, 5, 1, 0, 1, 1, true)
    ensures p(t) && t == s.(nodes := s.nodes[5 := Told(z, 1)])
  {
    t := Apply(s, EvView(5, TakeOver(z.view, 4, 3)));
  }

  lemma CountsWinner(z: Setup, k: Rules, p: State -> bool, s: State) returns (t: State)
    requires z.Valid() && k == Rules(1, true, false) && Closed(k, p) && p(s) && 5 in s.nodes && s.nodes[5] == Told(z, 1)
    requires Vote(4, 5, 1) in s.acks && s.acks[Vote(4, 5, 1)] == Header(CastVote(Winner(z, 4, 1)), AuthAck(5))
    ensures p(t)
    ensures t == s.(nodes := s.nodes[5 := Told(z, 2).(epochs := z.epochs[4 := 1])], acks := s.acks - {Vote(4, 5, 1)})
  {
    assert TakeOver(z.view, 4, 3).owner[2] == 4;
    t := Apply(s, EvAck(5, Vote(4, 5, 1)));
  }

  lemma ToldWins(z: Setup, k: Rules, p: State -> bool, s: State) returns (t: State)
    requires z.Valid() && k == Rules(1, true, false) && Closed(k, p) && p(s)
    requires 5 in s.nodes && s.nodes[5] == Told(z, 2).(epochs := z.epochs[4 := 1])
    ensures p(t) && t.wins == s.wins + {Win(5, 1, 3)}
  {
    assert TakeOver(z.view, 4, 3).owner[1] == 2;
    t := Apply(s, EvWin(5, true));
  }

  lemma WinnerElectsAnother(z: Setup, k: Rules, p: State -> bool) returns (s: State)
    requires z.Valid() && k == Rules(1, true, false) && Closed(k, p) && p(Fresh(z))
    ensures p(s) && Win(4, 1, 3) in s.wins && Win(5, 1, 3) in s.wins
  {
    s := FirstWinner(z, k, p);
    s := WinnerVotes(z, k, p, s);
    s := Hears(z, k, p, s);
    s := CountsWinner(z, k, p, s);
    s := ToldWins(z, k, p, s);
  }

  // ---- the results ----

  /** The run meets the rules, the nodes agree on the electorate throughout, and two replicas
      win the epoch. */
  ghost predicate ElectsTwo(k: Rules, ss: seq<State>, es: seq<Event>) {
    && IsRun(ss, es) && (k.timely ==> TimelyRun(ss, es)) && (k.fair ==> FairRun(ss, es))
    && (forall i :: 0 <= i < |ss| ==> Electorate(ss[i], k.epoch, MASTERS))
    && Win(4, k.epoch, 3) in ss[|es|].wins && Win(5, k.epoch, 3) in ss[|es|].wins
  }

  lemma WalkElectsTwo(k: Rules, s: State) returns (ss: seq<State>, es: seq<Event>)
    requires Reachable(k, s) && Win(4, k.epoch, 3) in s.wins && Win(5, k.epoch, 3) in s.wins
    ensures ElectsTwo(k, ss, es)
  {
    ss, es :| Walk(k, ss, es) && ss[|es|] == s;
    forall i | 0 <= i < |es|
      ensures (k.timely ==> Timely(ss[i], es[i])) && (k.fair ==> Fair(ss[i], es[i]))
    {
      assert Allowed(k, ss[i], es[i]);
    }
    forall i | 0 <= i < |ss|
      ensures Electorate(ss[i], k.epoch, MASTERS)
    {
      assert AllElect(k, ss[i]);
    }
  }

  function Start(): Setup {
    Setup(map[1 := 0, 2 := 0, 3 := 0, 4 := 0, 5 := 0],
          View({1, 2, 3}, map[4 := 3, 5 := 2], {}, map[0 := 1, 1 := 2, 2 := 3]))
  }

  /** Without the first proviso election safety is false: a vote of an old attempt is counted. */
  lemma UntimelyRunElectsTwo()
    ensures exists ss: seq<State>, es: seq<Event> :: ElectsTwo(Rules(2, false, true), ss, es)
  {
    var k := Rules(2, false, true);
    ReachableIsClosed(k);
    FreshIsReachable(Start(), k);
    var s := SecondWinner(Start(), k, s => Reachable(k, s));
    var ss, es := WalkElectsTwo(k, s);
  }

  /** Without the second one it is false as well: the winner of an epoch votes in it. */
  lemma UnfairRunElectsTwo()
    ensures exists ss: seq<State>, es: seq<Event> :: ElectsTwo(Rules(1, true, false), ss, es)
  {
    var k := Rules(1, true, false);
    ReachableIsClosed(k);
    FreshIsReachable(Start(), k);
    var s := WinnerElectsAnother(Start(), k, s => Reachable(k, s));
    var ss, es := WalkElectsTwo(k, s);
  }
}
