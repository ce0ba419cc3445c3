/** The epoch and election code of cluster.c as it runs: one mutable object per node. */
module ClusterServer {
  import opened ClusterNode

  /** Clock readings, configuration and randomness read by clusterHandleSlaveFailover. */
  datatype Timing = Timing(
    now: int,
    nodeTimeout: nat,
    manual: bool,      // mf_end is set and mf_can_start holds
    mfEnd: bool,
    noFailover: bool,
    tooOld: bool,      // replication data older than the validity factor allows
    delay: nat,        // random() % 500
    rank: nat)

  datatype FailoverStep = Idle | Scheduled | Started | Won

  /** Twice the node timeout, and at least two seconds. */
  function AuthTimeout(t: Timing): (timeout: nat)
    ensures timeout >= 2000 && timeout >= 2 * t.nodeTimeout && (timeout == 2000 || timeout == 2 * t.nodeTimeout)
  {
    Max(2 * t.nodeTimeout, 2000)
  }

  /** The replica may fail over, and its data is not too old for that. */
  predicate Eligible(l: Local, t: Timing) {
    MayFailover(l, t.manual, t.noFailover) && (t.tooOld ==> t.manual)
  }

  /** How long a replica whose rank got worse waits in addition. */
  function AddedDelay(authSent: bool, authRank: nat, t: Timing): nat {
    if !authSent && !t.mfEnd && t.rank > authRank then (t.rank - authRank) * 1000 else 0
  }

  class Server {
    const me: NodeId
    var currentEpoch: nat
    var savedEpoch: nat
    var lastVoteEpoch: nat
    var authEpoch: nat
    var authCount: nat
    var authSent: bool
    var authTime: int
    var authRank: nat
    var size: nat
    var epochs: map<NodeId, nat>
    var handshake: set<NodeId>
    var view: View

    function Value(): (l: Local)
      reads this
    {
      Local(me, currentEpoch, savedEpoch, lastVoteEpoch, authEpoch, authCount, authSent, size, epochs, handshake, view)
    }

    ghost predicate Valid()
      reads this
    {
      me in epochs
    }

    method GetMaxEpoch() returns (max: nat)
      ensures currentEpoch <= max && forall n :: n in epochs ==> epochs[n] <= max
      ensures max == currentEpoch || exists n :: n in epochs && epochs[n] == max
    {
      max := 0;
      var rest := epochs.Keys;
      while rest != {}
        invariant rest <= epochs.Keys
        invariant forall n :: n in epochs && n !in rest ==> epochs[n] <= max
        invariant max == 0 || exists n :: n in epochs && epochs[n] == max
        decreases |rest|
      {
        var n :| n in rest;
        if epochs[n] > max {
          max := epochs[n];
        }
        rest := rest - {n};
      }
      if max < currentEpoch {
        max := currentEpoch;
      }
    }

    method BumpConfigEpochWithoutConsensus() returns (bumped: bool)
      requires Valid()
      modifies this
      ensures Valid() && Value() == BumpEpoch(old(Value()))
      ensures bumped <==> ConfigEpoch(Value(), me) != ConfigEpoch(old(Value()), me) || old(currentEpoch) != currentEpoch
      ensures 0 < epochs[me] && currentEpoch <= epochs[me]
      ensures forall n :: n in epochs && old(epochs)[n] <= old(currentEpoch) ==> epochs[n] <= epochs[me]
      ensures !bumped ==> forall n :: n in epochs ==> epochs[n] <= epochs[me]
      ensures bumped ==> forall n :: n in epochs && n != me && epochs[n] <= old(currentEpoch) ==> epochs[n] < epochs[me]
    {
      var max := GetMaxEpoch();
      bumped := epochs[me] == 0 || epochs[me] != max;
      assert (epochs[me] != max) == KnowsGreater(epochs[me], epochs, currentEpoch);
      if bumped {
        currentEpoch := currentEpoch + 1;
        epochs := epochs[me := currentEpoch];
        savedEpoch := currentEpoch;
      }
    }

    method HandleConfigEpochCollision(sender: NodeId)
      requires Valid() && sender in epochs
      modifies this
      ensures Valid()
      ensures Value() ==
                if old(epochs[sender] == epochs[me]) && {sender, me} <= view.masters && sender > me
                then NewOwnEpoch(old(Value())) else old(Value())
    {
      if epochs[sender] != epochs[me] || sender !in view.masters || me !in view.masters {
        return;
      }
      if sender <= me {
        return;
      }
      currentEpoch := currentEpoch + 1;
      epochs := epochs[me := currentEpoch];
      savedEpoch := currentEpoch;
    }

    method ReadHeader(m: Msg)
      requires Valid()
      modifies this
      ensures Valid() && Value() == ProcessHeader(old(Value()), m)
    {
      if m.src in epochs && m.src !in handshake {
        if m.currentEpoch > currentEpoch {
          currentEpoch := m.currentEpoch;
        }
        if m.configEpoch > epochs[m.src] {
          epochs := epochs[m.src := m.configEpoch];
          savedEpoch := currentEpoch;
        }
      }
    }

    method ProcessPing(m: Msg)
      requires Valid()
      modifies this
      ensures Valid() && Value() == ReceivePing(old(Value()), m)
    {
      ReadHeader(m);
      if m.src in epochs && me in view.masters && m.src in view.masters && m.configEpoch == epochs[me] {
        HandleConfigEpochCollision(m.src);
      }
    }

    /** The part of an UPDATE that is about roles and epochs. */
    method ProcessUpdate(m: Msg)
      requires Valid() && m.body.Update?
      modifies this
      ensures Valid() && Value() == ReceiveUpdate(old(Value()), m)
    {
      ReadHeader(m);
      if m.src !in epochs || m.body.about !in epochs {
        return;
      }
      if epochs[m.body.about] >= m.body.epoch {
        return;
      }
      view := view.(masters := view.masters + {m.body.about}, slaveof := view.slaveof - {m.body.about});
      epochs := epochs[m.body.about := m.body.epoch];
      savedEpoch := currentEpoch;
    }

    method ProcessAck(m: Msg)
      requires Valid()
      modifies this
      ensures Valid() && Value() == ReceiveAck(old(Value()), m)
    {
      ReadHeader(m);
      if m.src !in epochs {
        return;
      }
      if m.src in view.masters && ServesSlots(view, m.src) && m.currentEpoch >= authEpoch {
        authCount := authCount + 1;
      }
    }

    /** A request is answered with a vote exactly when every check passes; the slot loop
        stops at the first slot held with a newer configuration. */
    method ProcessAuthRequest(req: Msg, calm: bool) returns (granted: bool)
      requires Valid() && req.body.AuthRequest?
      modifies this
      ensures Valid()
      ensures var h := ProcessHeader(old(Value()), req);
              && granted == GrantsVote(h, req, calm)
              && Value() == if granted then CastVote(h) else h
    {
      granted := false;
      ReadHeader(req);
      if req.src !in epochs {
        return;
      }
      if IsSlave(Value()) || !ServesSlots(view, me) {
        return;
      }
      if req.currentEpoch < currentEpoch {
        return;
      }
      if lastVoteEpoch == currentEpoch {
        return;
      }
      if req.src in view.masters || req.src !in view.slaveof
         || (view.slaveof[req.src] !in view.failed && !req.body.force) {
        return;
      }
      if !calm {
        return;
      }
      for j := 0 to CLUSTER_SLOTS
        invariant forall k :: k in req.slots && 0 <= k < j && k in view.owner ==>
                    ConfigEpoch(Value(), view.owner[k]) <= req.configEpoch
      {
        if j in req.slots && j in view.owner && ConfigEpoch(Value(), view.owner[j]) > req.configEpoch {
          return;
        }
      }
      lastVoteEpoch := currentEpoch;
      savedEpoch := currentEpoch;
      granted := true;
    }

    /** Lines 3019-3034: the vote count is reset before the epoch changes. */
    method SetupAttempt(t: Timing)
      modifies this`authTime, this`authCount, this`authSent, this`authRank
      ensures Value() == ScheduleElection(old(Value()))
      ensures authTime == if t.mfEnd then t.now else t.now + 500 + t.delay + 1000 * t.rank
      ensures authRank == if t.mfEnd then 0 else t.rank
    {
      authTime := t.now + 500 + t.delay;
      authCount := 0;
      authSent := false;
      authRank := t.rank;
      authTime := authTime + authRank * 1000;
      if t.mfEnd {
        authTime := t.now;
        authRank := 0;
      }
    }

    /** Lines 3101-3110: take the epoch of the election and the slots of the master. */
    method Failover()
      requires Valid() && me in view.slaveof
      modifies this`epochs, this`view, this`savedEpoch
      ensures Valid() && Value() == ClaimVictory(old(Value()))
    {
      if epochs[me] < authEpoch {
        epochs := epochs[me := authEpoch];
      }
      view := TakeOver(view, me, view.slaveof[me]);
      savedEpoch := currentEpoch;
    }

    /** A replica whose rank got worse waits longer. */
    method UpdateRank(t: Timing)
      modifies this`authTime, this`authRank
      ensures authTime == old(authTime) + AddedDelay(old(authSent), old(authRank), t)
      ensures authRank == if !authSent && !t.mfEnd && t.rank > old(authRank) then t.rank else old(authRank)
    {
      if !authSent && !t.mfEnd && t.rank > authRank {
        authTime := authTime + (t.rank - authRank) * 1000;
        authRank := t.rank;
      }
    }

    /** Lines 3082-3114: ask for votes, or count them. */
    method RunAttempt() returns (step: FailoverStep)
      requires Valid() && me in view.slaveof && me !in view.masters
      modifies this
      ensures Valid() && authTime == old(authTime) && authRank == old(authRank)
      ensures step == if !old(authSent) then Started else if HasQuorum(old(Value())) then Won else Idle
      ensures Value() == match step
                         case Started => StartElection(old(Value()))
                         case Won => ClaimVictory(old(Value()))
                         case _ => old(Value())
    {
      if !authSent {
        currentEpoch := currentEpoch + 1;
        authEpoch := currentEpoch;
        authSent := true;
        savedEpoch := currentEpoch;
        return Started;
      }
      if authCount >= size / 2 + 1 {
        Failover();
        return Won;
      }
      return Idle;
    }

    /** One call makes at most one step of an election, and only for a replica that may fail
        over. An attempt is scheduled exactly when the last one is long over, started exactly
        when its time has come and is not over, and won exactly when it has a quorum in time.
        However often the rank gets worse, an attempt is delayed by a second for each rank. */
    method HandleSlaveFailover(t: Timing) returns (step: FailoverStep)
      requires Valid()
      modifies this
      ensures Valid()
      ensures var l, age := old(Value()), t.now - old(authTime);
              var delay := AddedDelay(l.authSent, old(authRank), t);
              && (step.Scheduled? <==> Eligible(l, t) && age > 2 * AuthTimeout(t))
              && (step.Started? <==> Eligible(l, t) && !l.authSent && delay <= age <= AuthTimeout(t))
              && (step.Won? <==> Eligible(l, t) && HasQuorum(l) && 0 <= age <= AuthTimeout(t))
      ensures Value() == match step
                         case Idle => old(Value())
                         case Scheduled => ScheduleElection(old(Value()))
                         case Started => StartElection(old(Value()))
                         case Won => ClaimVictory(old(Value()))
      ensures || me in old(view.masters) || me !in old(view.slaveof)
              || (!t.manual && (t.tooOld || t.noFailover || old(view.slaveof[me] !in view.failed))) ==>
                step.Idle? && unchanged(this)
      ensures step.Scheduled? ==> authTime - 1000 * authRank == if t.mfEnd then t.now else t.now + 500 + t.delay
      ensures !step.Scheduled? ==>
                && authTime - 1000 * authRank == old(authTime - 1000 * authRank)
                && (Eligible(old(Value()), t) && !old(authSent) && !t.mfEnd ==> authRank >= t.rank)
                && (authRank == old(authRank) || authRank == t.rank > old(authRank))
    {
      step := Idle;
      var authAge := t.now - authTime;
      var authTimeout := 2 * t.nodeTimeout;
      if authTimeout < 2000 {
        authTimeout := 2000;
      }
      if me in view.masters || me !in view.slaveof
         || (view.slaveof[me] !in view.failed && !t.manual)
         || (t.noFailover && !t.manual)
         || !ServesSlots(view, view.slaveof[me]) {
        return;
      }
      if t.tooOld && !t.manual {
        return;
      }
      if authAge > 2 * authTimeout {
        SetupAttempt(t);
        return Scheduled;
      }
      UpdateRank(t);
      if t.now < authTime {
        return;
      }
      if authAge > authTimeout {
        return;
      }
      step := RunAttempt();
    }

    /** clusterUpdateState: count the masters that serve a slot. */
    method RecomputeSize()
      modifies this`size
      ensures Value() == UpdateState(old(Value()))
    {
      size := 0;
      var rest := view.masters;
      while rest != {}
        invariant rest <= view.masters
        invariant size == |set n | n in view.masters && ServesSlots(view, n) && n !in rest|
        decreases |rest|
      {
        var n :| n in rest;
        var done := set n | n in view.masters && ServesSlots(view, n) && n !in rest;
        rest := rest - {n};
        if ServesSlots(view, n) {
          size := size + 1;
          assert (set k | k in view.masters && ServesSlots(view, k) && k !in rest) == done + {n};
        } else {
          assert (set k | k in view.masters && ServesSlots(view, k) && k !in rest) == done;
        }
      }
      assert (set n | n in view.masters && ServesSlots(view, n) && n !in rest) == ServingMasters(view);
    }
  }
}
