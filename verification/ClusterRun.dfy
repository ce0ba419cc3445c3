/**
 The cluster as a whole: its nodes, the packets in flight and a record of the votes
 granted and the elections won.

 Packets other than votes stay in `sent` for good and can be delivered to any node any
 number of times, in any order or never, so loss, reordering, duplication and broadcast
 are all covered. Gossip and time act through `EvView`, which changes a node's view of
 the others arbitrarily. A random handshake name is never the name of a real node. A vote
 travels to one candidate and is delivered at most once.
*/
module ClusterRun {
  import opened ClusterNode

  datatype Vote = Vote(voter: NodeId, candidate: NodeId, epoch: nat)

  /** `size` is the cluster size the winner computed its quorum from. */
  datatype Win = Win(node: NodeId, epoch: nat, size: nat)

  datatype State = State(
    nodes: map<NodeId, Local>,
    sent: set<Msg>,
    acks: map<Vote, Msg>,
    granted: set<Vote>,
    wins: set<Win>)

  datatype Event =
    | EvAnnounce(n: NodeId)
    | EvSendUpdate(n: NodeId, about: NodeId)
    | EvPing(n: NodeId, m: Msg)
    | EvUpdate(n: NodeId, m: Msg)
    | EvRequest(n: NodeId, m: Msg, calm: bool)
    | EvAck(n: NodeId, v: Vote)
    | EvLoseAck(n: NodeId, v: Vote)
    | EvSchedule(n: NodeId)
    | EvStart(n: NodeId, force: bool)
    | EvWin(n: NodeId, manual: bool)
    | EvBump(n: NodeId)
    | EvSetConfigEpoch(n: NodeId, e: nat)
    | EvMeet(n: NodeId, temp: NodeId)
    | EvEndHandshake(n: NodeId, temp: NodeId, name: NodeId)
    | EvForget(n: NodeId, other: NodeId)
    | EvView(n: NodeId, view: View)
    | EvUpdateState(n: NodeId)
    | EvRestart(n: NodeId)

  predicate Enabled(s: State, e: Event) {
    && e.n in s.nodes
    && (match e
        case EvSendUpdate(n, about) => about in s.nodes[n].epochs
        case EvPing(n, m) => m in s.sent
        case EvUpdate(n, m) => m in s.sent && m.body.Update?
        case EvRequest(n, m, _) => m in s.sent && m.body.AuthRequest?
        case EvAck(n, v) => v in s.acks && v.candidate == n
        case EvLoseAck(n, v) => v in s.acks && v.candidate == n
        case EvMeet(n, temp) => temp !in s.nodes
        case EvStart(n, _) => !s.nodes[n].authSent
        case EvWin(n, manual) => MayFailover(s.nodes[n], manual, false) && HasQuorum(s.nodes[n])
        case _ => true)
  }

  function Set(s: State, n: NodeId, l: Local): State {
    s.(nodes := s.nodes[n := l])
  }

  function Request(s: State, n: NodeId, m: Msg, calm: bool): State
    requires n in s.nodes && m.body.AuthRequest?
  {
    var h := ProcessHeader(s.nodes[n], m);
    if GrantsVote(h, m, calm)
    then
      var l := CastVote(h);
      var v := Vote(n, m.src, l.currentEpoch);
      Set(s, n, l).(granted := s.granted + {v}, acks := s.acks[v := Header(l, AuthAck(m.src))])
    else Set(s, n, h)
  }

  /** The events that change one node and nothing else. */
  predicate IsLocal(e: Event) {
    !(e.EvAnnounce? || e.EvSendUpdate? || e.EvRequest? || e.EvAck? || e.EvLoseAck? || e.EvStart? || e.EvWin?)
  }

  function LocalNext(l: Local, e: Event): Local
    requires IsLocal(e) && (e.EvUpdate? ==> e.m.body.Update?)
  {
    match e
    case EvPing(_, m) => ReceivePing(l, m)
    case EvUpdate(_, m) => ReceiveUpdate(l, m)
    case EvSchedule(_) => ScheduleElection(l)
    case EvBump(_) => BumpEpoch(l)
    case EvSetConfigEpoch(_, c) => SetConfigEpoch(l, c)
    case EvMeet(_, temp) => Meet(l, temp)
    case EvEndHandshake(_, temp, name) => EndHandshake(l, temp, name)
    case EvForget(_, other) => Forget(l, other)
    case EvView(_, view) => l.(view := view)
    case EvUpdateState(_) => UpdateState(l)
    case EvRestart(_) => Restart(l)
  }

  function Apply(s: State, e: Event): State
    requires Enabled(s, e)
  {
    var l := s.nodes[e.n];
    match e
    case EvAnnounce(n) => s.(sent := s.sent + {Header(l, Ping)})
    case EvSendUpdate(n, about) => s.(sent := s.sent + {Header(l, Update(about, l.epochs[about]))})
    case EvRequest(n, m, calm) => Request(s, n, m, calm)
    case EvAck(n, v) => Set(s, n, ReceiveAck(l, s.acks[v])).(acks := s.acks - {v})
    case EvLoseAck(n, v) => s.(acks := s.acks - {v})
    case EvStart(n, force) =>
      Set(s, n, StartElection(l)).(sent := s.sent + {Header(StartElection(l), AuthRequest(force))})
    case EvWin(n, _) =>
      Set(s, n, ClaimVictory(l)).(wins := s.wins + {Win(n, l.authEpoch, l.size)})
    case _ => Set(s, e.n, LocalNext(l, e))
  }

  /** A node before it has taken part in anything; a fresh node has all epochs at zero. */
  ghost predicate Quiet(l: Local) {
    && l.me in l.epochs
    && (forall n :: n in l.epochs ==> l.epochs[n] <= l.savedEpoch)
    && l.handshake == {}
    && l.lastVoteEpoch <= l.savedEpoch <= l.currentEpoch
    && l.authEpoch <= l.savedEpoch
    && l.authCount == 0 && !l.authSent
  }

  ghost predicate Init(s: State) {
    && (forall n :: n in s.nodes ==> s.nodes[n].me == n && Quiet(s.nodes[n]))
    && s.sent == {} && s.acks == map[] && s.granted == {} && s.wins == {}
  }

  ghost predicate IsRun(ss: seq<State>, es: seq<Event>) {
    && |ss| == |es| + 1
    && Init(ss[0])
    && forall i :: 0 <= i < |es| ==> Enabled(ss[i], es[i]) && ss[i + 1] == Apply(ss[i], es[i])
  }
}
