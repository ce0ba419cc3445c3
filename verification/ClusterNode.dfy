/**
 One member of the cluster: the part of `server.cluster` and of the node table that
 the epoch and election code of cluster.c reads and writes.

 `Local` is the value of that state. The functions over it are the transitions of one
 node; `ClusterServer` is the mutable object whose methods carry them out with the
 loops and branches of the source. Epochs are unbounded: the wrap-around of the
 64-bit counters is not modelled.
*/
module ClusterNode {

  const CLUSTER_SLOTS: nat := 16384

  /** Node names are compared with memcmp only, so an ordered type is enough. */
  type NodeId = nat

  /** What a node believes about the other nodes: roles, failures and slot owners. */
  datatype View = View(
    masters: set<NodeId>,
    slaveof: map<NodeId, NodeId>,
    failed: set<NodeId>,
    owner: map<nat, NodeId>)

  predicate ServesSlots(v: View, n: NodeId) {
    n in v.owner.Values
  }

  function ServingMasters(v: View): set<NodeId> {
    set n | n in v.masters && ServesSlots(v, n)
  }

  function SlotsOf(v: View, n: NodeId): set<nat> {
    set j | j in v.owner && v.owner[j] == n
  }

  datatype Body =
    | Ping
    | AuthRequest(force: bool)
    | AuthAck(candidate: NodeId)
    | Update(about: NodeId, epoch: nat)

  /** Every packet carries the header built by clusterBuildMessageHdr. */
  datatype Msg = Msg(src: NodeId, currentEpoch: nat, configEpoch: nat, slots: set<nat>, body: Body)

  /** `epochs` holds the configEpoch of every known node, this one included; the nodes in
      `handshake` are known under a random name only.
      `savedEpoch` is the currentEpoch found in nodes.conf after a crash. */
  datatype Local = Local(
    me: NodeId,
    currentEpoch: nat,
    savedEpoch: nat,
    lastVoteEpoch: nat,
    authEpoch: nat,
    authCount: nat,
    authSent: bool,
    size: nat,
    epochs: map<NodeId, nat>,
    handshake: set<NodeId>,
    view: View)

  predicate IsSlave(l: Local) {
    l.me !in l.view.masters
  }

  function ConfigEpoch(l: Local, n: NodeId): nat {
    if n in l.epochs then l.epochs[n] else 0
  }

  function Max(a: nat, b: nat): nat {
    if a < b then b else a
  }

  // ---- sending ----

  /** A slave announces the slots and the configEpoch of its master. */
  function Announced(l: Local): NodeId {
    if IsSlave(l) && l.me in l.view.slaveof then l.view.slaveof[l.me] else l.me
  }

  function Header(l: Local, body: Body): Msg {
    Msg(l.me, l.currentEpoch, ConfigEpoch(l, Announced(l)), SlotsOf(l.view, Announced(l)), body)
  }

  // ---- receiving ----

  /** Lines 1701-1713. Only a changed configEpoch schedules a save; a newer
      currentEpoch alone does not. */
  function ProcessHeader(l: Local, m: Msg): Local {
    if m.src !in l.epochs || m.src in l.handshake then l
    else
      var cur := Max(l.currentEpoch, m.currentEpoch);
      if m.configEpoch > l.epochs[m.src]
      then l.(currentEpoch := cur, savedEpoch := cur, epochs := l.epochs[m.src := m.configEpoch])
      else l.(currentEpoch := cur)
  }

  function NewOwnEpoch(l: Local): Local {
    var cur := l.currentEpoch + 1;
    l.(currentEpoch := cur, savedEpoch := cur, epochs := l.epochs[l.me := cur])
  }

  predicate Collides(l: Local, m: Msg) {
    && m.src in l.epochs
    && m.src in l.view.masters
    && l.me in l.view.masters
    && m.configEpoch == ConfigEpoch(l, l.me)
    && ConfigEpoch(l, m.src) == ConfigEpoch(l, l.me)
    && m.src > l.me
  }

  function ReceivePing(l: Local, m: Msg): Local {
    var h := ProcessHeader(l, m);
    if Collides(h, m) then NewOwnEpoch(h) else h
  }

  function ReceiveUpdate(l: Local, m: Msg): Local
    requires m.body.Update?
  {
    var h := ProcessHeader(l, m);
    if m.src !in h.epochs || m.body.about !in h.epochs || h.epochs[m.body.about] >= m.body.epoch then h
    else h.(savedEpoch := h.currentEpoch,
            epochs := h.epochs[m.body.about := m.body.epoch],
            view := h.view.(masters := h.view.masters + {m.body.about},
                            slaveof := h.view.slaveof - {m.body.about}))
  }

  /** Lines 2714-2798, on the state left by the header of the request. `calm` is the
      test on the time of the last vote for the same master. */
  predicate GrantsVote(l: Local, req: Msg, calm: bool)
    requires req.body.AuthRequest?
  {
    && req.src in l.epochs
    && !IsSlave(l) && ServesSlots(l.view, l.me)
    && req.currentEpoch >= l.currentEpoch
    && l.lastVoteEpoch != l.currentEpoch
    && req.src !in l.view.masters
    && req.src in l.view.slaveof
    && (l.view.slaveof[req.src] in l.view.failed || req.body.force)
    && calm
    && forall j :: j in req.slots && 0 <= j < CLUSTER_SLOTS && j in l.view.owner ==>
        ConfigEpoch(l, l.view.owner[j]) <= req.configEpoch
  }

  function CastVote(l: Local): Local {
    l.(lastVoteEpoch := l.currentEpoch, savedEpoch := l.currentEpoch)
  }

  predicate AcceptsAck(l: Local, m: Msg) {
    && m.src in l.epochs
    && m.src in l.view.masters
    && ServesSlots(l.view, m.src)
    && m.currentEpoch >= l.authEpoch
  }

  function ReceiveAck(l: Local, m: Msg): Local {
    var h := ProcessHeader(l, m);
    if AcceptsAck(h, m) then h.(authCount := h.authCount + 1) else h
  }

  // ---- running for election ----

  /** Lines 2974-2978 for an automatic failover or, with `manual`, a manual one. */
  predicate MayFailover(l: Local, manual: bool, noFailover: bool) {
    && IsSlave(l)
    && l.me in l.view.slaveof
    && (l.view.slaveof[l.me] in l.view.failed || manual)
    && (!noFailover || manual)
    && ServesSlots(l.view, l.view.slaveof[l.me])
  }

  function ScheduleElection(l: Local): Local {
    l.(authCount := 0, authSent := false)
  }

  function StartElection(l: Local): Local {
    var cur := l.currentEpoch + 1;
    l.(currentEpoch := cur, savedEpoch := cur, authEpoch := cur, authSent := true)
  }

  function Quorum(size: nat): nat {
    size / 2 + 1
  }

  predicate HasQuorum(l: Local) {
    l.authSent && l.authCount >= Quorum(l.size)
  }

  /** clusterFailoverReplaceYourMaster on the view: become a master and own its slots. */
  function TakeOver(v: View, me: NodeId, master: NodeId): View {
    v.(masters := v.masters + {me},
       slaveof := v.slaveof - {me},
       owner := map j | j in v.owner :: if v.owner[j] == master then me else v.owner[j])
  }

  function ClaimVictory(l: Local): Local
    requires l.me in l.view.slaveof
  {
    var own := Max(ConfigEpoch(l, l.me), l.authEpoch);
    l.(epochs := l.epochs[l.me := own],
       savedEpoch := l.currentEpoch,
       view := TakeOver(l.view, l.me, l.view.slaveof[l.me]))
  }

  // ---- local events ----

  /** There is an epoch greater than `own` in the table, or the current one is. */
  predicate KnowsGreater(own: nat, epochs: map<NodeId, nat>, currentEpoch: nat) {
    own < currentEpoch || exists n :: n in epochs && own < epochs[n]
  }

  /** clusterBumpConfigEpochWithoutConsensus takes a new epoch for a node with the epoch `own`. */
  predicate Bumps(own: nat, epochs: map<NodeId, nat>, currentEpoch: nat) {
    own == 0 || KnowsGreater(own, epochs, currentEpoch)
  }

  function BumpEpoch(l: Local): Local {
    if Bumps(ConfigEpoch(l, l.me), l.epochs, l.currentEpoch) then NewOwnEpoch(l) else l
  }

  function SetConfigEpoch(l: Local, e: nat): Local {
    if l.epochs == map[l.me := 0]
    then
      var cur := Max(l.currentEpoch, e);
      l.(currentEpoch := cur, savedEpoch := cur, epochs := map[l.me := e])
    else l
  }

  /** A new node enters the table under the random name `temp`. */
  function Meet(l: Local, temp: NodeId): Local {
    if temp in l.epochs then l else l.(epochs := l.epochs[temp := 0], handshake := l.handshake + {temp})
  }

  /** Its first reply renames it, or drops the entry when the node was already known. */
  function EndHandshake(l: Local, temp: NodeId, name: NodeId): Local {
    if temp !in l.handshake || temp !in l.epochs || temp == l.me then l
    else if name in l.epochs then Forget(l, temp)
    else l.(epochs := (l.epochs - {temp})[name := l.epochs[temp]], handshake := l.handshake - {temp})
  }

  function Forget(l: Local, n: NodeId): Local {
    if n == l.me then l else l.(epochs := l.epochs - {n}, handshake := l.handshake - {n})
  }

  function UpdateState(l: Local): Local {
    l.(size := |ServingMasters(l.view)|)
  }

  /** A crash keeps what nodes.conf holds and clears the election state. */
  function Restart(l: Local): Local {
    l.(currentEpoch := l.savedEpoch, authEpoch := 0, authCount := 0, authSent := false)
  }
}
