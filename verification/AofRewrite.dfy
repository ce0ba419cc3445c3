/**
 The background rewrite of the append only file as a protocol between the server and its
 child, together with the switches between AOF_OFF, AOF_WAIT_REWRITE and AOF_ON. The history
 variables (`History`) say what the bytes stand for; no step reads them.
*/
module AofRewrite {
  import opened AofLoad
  import opened AofProtocol
  import opened AofRecovery
  import opened AofWriter
  import opened Hiding
  import opened LogReplay
  import opened LogScan
  import opened Options
  import opened Sequences

  // ---- what a log means ----

  /** What commands do to a dataset, which commands exist, and what a rewrite of a dataset may
      write (the order of a dictionary is not fixed). */
  datatype World<!S> = World(
    init: S,
    apply: (S, Issued) -> S,
    known: Command -> bool,
    rewrites: (S, seq<Command>) -> bool
  )

  ghost predicate Good(w: World, cmds: seq<Command>) {
    AllSized(cmds) && AllPlain(cmds) && AllKnown(cmds, w.known)
  }

  function Fold<S>(w: World<S>, s: S, issued: seq<Issued>): S
    decreases |issued|
  {
    if issued == [] then s else Fold(w, w.apply(s, issued[0]), issued[1..])
  }

  /** The dataset that replaying `cmds` into an empty server gives. */
  function Meaning<S>(w: World<S>, cmds: seq<Command>): S {
    Fold(w, w.init, Executed(0, cmds))
  }

  /** A rewrite of a dataset is a log of that dataset. */
  ghost predicate Sound<S(!new)>(w: World<S>) {
    forall s, cmds :: w.rewrites(s, cmds) ==> Good(w, cmds) && Meaning(w, cmds) == s
  }

  function DbAfter(db: nat, cmds: seq<Command>): nat
    decreases |cmds|
  {
    if cmds == [] then db
    else DbAfter(if IsSelect(cmds[0]) then Digits(0, cmds[0][1]) else db, cmds[1..])
  }

  lemma {:induction false} ExecutedSplit(db: nat, a: seq<Command>, b: seq<Command>)
    ensures Executed(db, a + b) == Executed(db, a) + Executed(DbAfter(db, a), b)
    ensures DbAfter(db, a + b) == DbAfter(DbAfter(db, a), b)
    decreases |a|
  {
    if a == [] {
      assert a + b == b;
    } else {
      assert (a + b)[0] == a[0] && (a + b)[1..] == a[1..] + b;
      ExecutedSplit(if IsSelect(a[0]) then Digits(0, a[0][1]) else db, a[1..], b);
    }
  }

  lemma {:induction false} FoldSplit<S>(w: World<S>, s: S, a: seq<Issued>, b: seq<Issued>)
    ensures Fold(w, s, a + b) == Fold(w, Fold(w, s, a), b)
    decreases |a|
  {
    if a == [] {
      assert a + b == b;
    } else {
      assert (a + b)[0] == a[0] && (a + b)[1..] == a[1..] + b;
      FoldSplit(w, w.apply(s, a[0]), a[1..], b);
    }
  }

  lemma MeaningSplit<S>(w: World<S>, a: seq<Command>, b: seq<Command>)
    ensures Meaning(w, a + b) == Fold(w, Meaning(w, a), Executed(DbAfter(0, a), b))
  {
    ExecutedSplit(0, a, b);
    FoldSplit(w, w.init, Executed(0, a), Executed(DbAfter(0, a), b));
  }

  // ---- logs that follow the dataset ----

  /** `ends` are the lengths of the log after the last rewrite and after each command logged
      since; the datasets then are the last ones of `past`. */
  function DatasetAt<S>(past: seq<S>, ends: seq<nat>, j: nat): S
    requires |ends| <= |past| && j < |ends|
  {
    past[|past| - |ends| + j]
  }

  /** `k` commands of the log reach the end of command `j`, and not that of the next one. */
  predicate Reaches(ends: seq<nat>, k: nat, j: nat) {
    j < |ends| && ends[j] <= k && (j + 1 < |ends| ==> k < ends[j + 1])
  }

  /** Every cut of the log after the last rewrite stands for the dataset that the server had
      after the last whole command in it. */
  ghost predicate Honest<S>(w: World<S>, log: seq<Command>, ends: seq<nat>, past: seq<S>) {
    && 0 < |ends| <= |past| && ends[|ends| - 1] == |log|
    && (forall i, j :: 0 <= i < j < |ends| ==> ends[i] < ends[j])
    && (forall j: nat, k: nat :: Reaches(ends, k, j) && k <= |log| ==> Meaning(w, log[..k]) == DatasetAt(past, ends, j))
  }

  /** The log stands for the dataset, and aof_selected_db is the database its reader ends in. */
  ghost predicate Follows<S>(w: World<S>, log: seq<Command>, ends: seq<nat>, selected: int, dataset: S, past: seq<S>) {
    forall u: nat :: Unfold(Logs, u) ==>
      && Good(w, log) && Honest(w, log, ends, past)
      && (selected == -1 || selected == DbAfter(0, log))
      && Meaning(w, log) == dataset
  }

  lemma LoggedStep<S>(w: World<S>, log: seq<Command>, selected: int, i: Issued)
    requires selected == -1 || selected == DbAfter(0, log)
    requires !IsSelect(i.cmd)
    ensures var more := log + Logged(selected, i.db, i.cmd);
            Meaning(w, more) == w.apply(Meaning(w, log), i) && DbAfter(0, more) == i.db
  {
    var at := DbAfter(0, log);
    var step := Logged(selected, i.db, i.cmd);
    assert step + [] == step;
    ExecuteLogged(at, selected, i, []);
    assert [i] + [] == [i];
    MeaningSplit(w, log, step);
    assert Fold(w, Meaning(w, log), [i]) == w.apply(Meaning(w, log), i);
    ExecutedSplit(0, log, step);
    DbAfterLogged(at, selected, i);
  }

  lemma DbAfterLogged(at: nat, selected: int, i: Issued)
    requires !IsSelect(i.cmd) && (selected == -1 || selected == at)
    ensures DbAfter(at, Logged(selected, i.db, i.cmd)) == i.db
  {
    DigitsOfDec(i.db);
    assert [Select(i.db), i.cmd][1..] == [i.cmd] && [i.cmd][1..] == [];
    assert DbAfter(i.db, [i.cmd]) == DbAfter(i.db, []);
  }

  lemma SelectMeansNothing<S>(w: World<S>, log: seq<Command>, db: nat)
    ensures Meaning(w, log + [Select(db)]) == Meaning(w, log)
  {
    MeaningSplit(w, log, [Select(db)]);
    assert [Select(db)][1..] == [];
  }

  lemma HonestStep<S>(w: World<S>, log: seq<Command>, step: seq<Command>, ends: seq<nat>, past: seq<S>, now: S)
    requires Honest(w, log, ends, past)
    requires |step| == 1 || (|step| == 2 && Meaning(w, log + step[..1]) == Meaning(w, log))
    requires Meaning(w, log + step) == now
    ensures Honest(w, log + step, ends + [|log + step|], past + [now])
  {
    var more, ends', past' := log + step, ends + [|log + step|], past + [now];
    assert log[..|log|] == log && Reaches(ends, |log|, |ends| - 1);
    forall j: nat, k: nat | Reaches(ends', k, j) && k <= |more|
      ensures Meaning(w, more[..k]) == DatasetAt(past', ends', j)
    {
      if k == |more| {
        assert more[..k] == more && j == |ends|;
      } else if k <= |log| {
        assert more[..k] == log[..k] && Reaches(ends, k, j);
      } else {
        assert more[..k] == log + step[..1] && j == |ends| - 1;
      }
    }
  }

  /** Logging a command, with the SELECT it needs, keeps a log that follows the dataset so. */
  lemma FeedFollows<S>(w: World<S>, log: seq<Command>, ends: seq<nat>, selected: int, dataset: S, past: seq<S>,
                       i: Issued)
    requires Follows(w, log, ends, selected, dataset, past) && Loggable(i, w.known)
    ensures var more := log + Logged(selected, i.db, i.cmd);
            Follows(w, more, ends + [|more|], i.db, w.apply(dataset, i), past + [w.apply(dataset, i)])
  {
    assert Unfold(Logs, 0);
    var step := Logged(selected, i.db, i.cmd);
    LoggedStep(w, log, selected, i);
    SelectMeansNothing(w, log, i.db);
    assert step != [i.cmd] ==> step[..1] == [Select(i.db)];
    HonestStep(w, log, step, ends, past, w.apply(dataset, i));
    SelectIsPlain(i.db);
    assert Good(w, step);
    JoinLogs(log, step, w.known);
  }

  /** A rewrite of the dataset follows it from wherever the next command is logged. */
  lemma SnapshotFollows<S(!new)>(w: World<S>, cmds: seq<Command>, dataset: S, past: seq<S>)
    requires Sound(w) && w.rewrites(dataset, cmds) && past != [] && past[|past| - 1] == dataset
    ensures Follows(w, cmds, [|cmds|], -1, dataset, past)
  {
    assert cmds[..|cmds|] == cmds;
  }

  lemma FollowsUnselected<S>(w: World<S>, log: seq<Command>, ends: seq<nat>, selected: int, dataset: S, past: seq<S>)
    requires Follows(w, log, ends, selected, dataset, past)
    ensures Follows(w, log, ends, -1, dataset, past)
  {
    assert Unfold(Logs, 0);
  }

  /** What a log that follows the dataset is. */
  lemma FollowsIs<S>(w: World<S>, log: seq<Command>, ends: seq<nat>, selected: int, dataset: S, past: seq<S>)
    requires Follows(w, log, ends, selected, dataset, past)
    ensures Good(w, log) && Honest(w, log, ends, past) && Meaning(w, log) == dataset
  {
    assert Unfold(Logs, 0);
  }

  // ---- the protocol ----

  datatype Mode = Off | Wait | On

  datatype Phase = Rewriting | Saved | Asked | Acked | ChildExit(ok: bool)

  /** A rewrite in progress: the child, the three pipes and the parent's rewrite buffer. */
  datatype Rewrite = Rewrite(
    phase: Phase,
    tmp: Bytes,      // the temporary file
    diff: Bytes,     // aof_child_diff
    pipe: Bytes,     // parent to child data
    ask: bool,       // "!" on its way to the parent
    ack: bool,       // "!" on its way to the child
    stop: bool,      // aof_stop_sending_diff
    buffer: Bytes    // aof_rewrite_buf_blocks
  )

  datatype Node<S> = Node(
    mode: Mode,
    rdbChild: bool,
    selected: int,   // aof_selected_db
    buf: Bytes,      // aof_buf
    file: Bytes,     // the append only file
    dataset: S,
    rewrite: Option<Rewrite>
  )

  datatype History<S> = History(
    log: seq<Command>,      // what file + buf encode while the AOF is on
    ends: seq<nat>,         // its length after the last rewrite and after each command since
    snapshot: seq<Command>, // what the current child writes
    shadow: seq<Command>,   // the log that the current rewrite would end in
    shadowEnds: seq<nat>,
    past: seq<S>            // the datasets so far
  )

  datatype State<S> = State(node: Node<S>, history: History<S>)

  datatype Event =
    | Execute(i: Issued)
    | Flush(n: nat)
    | StartRdb
    | EndRdb
    | Fork(cmds: seq<Command>)
    | ParentSends(n: nat)
    | ChildSaves
    | ChildReads(n: nat)
    | ChildAsks
    | ParentAnswers(delivered: bool)
    | ChildGetsAck
    | ChildFinishes
    | ChildFails
    | ParentReaps(appended: bool, renamed: bool)
    | StopAppendOnly(flushed: nat)
    | StartAppendOnly(cmds: seq<Command>, forked: bool)

  ghost predicate Enabled<S>(w: World<S>, s: State<S>, e: Event) {
    var n := s.node;
    match e
    case Execute(i) => Loggable(i, w.known)
    case Flush(k) => !n.mode.Off? && k <= |n.buf|
    case StartRdb => !n.rdbChild && n.rewrite.None?
    case EndRdb => n.rdbChild
    case Fork(cmds) => !n.rdbChild && n.rewrite.None? && w.rewrites(n.dataset, cmds)
    case ParentSends(k) => n.rewrite.Some? && !n.rewrite.value.stop && k <= |n.rewrite.value.buffer|
    case ChildSaves => n.rewrite.Some? && n.rewrite.value.phase.Rewriting?
    case ChildReads(k) =>
      && n.rewrite.Some? && k <= |n.rewrite.value.pipe|
      && !n.rewrite.value.phase.Asked? && !n.rewrite.value.phase.ChildExit?
    case ChildAsks => n.rewrite.Some? && n.rewrite.value.phase.Saved?
    case ParentAnswers(delivered) => n.rewrite.Some? && n.rewrite.value.ask
    case ChildGetsAck => n.rewrite.Some? && n.rewrite.value.phase.Asked? && n.rewrite.value.ack
    case ChildFinishes => n.rewrite.Some? && n.rewrite.value.phase.Acked? && n.rewrite.value.pipe == []
    case ChildFails => n.rewrite.Some? && !n.rewrite.value.phase.ChildExit?
    case ParentReaps(appended, renamed) => n.rewrite.Some? && n.rewrite.value.phase.ChildExit?
    case StopAppendOnly(flushed) => !n.mode.Off? && flushed <= |n.buf|
    case StartAppendOnly(cmds, forked) => n.mode.Off? && (!n.rdbChild && forked ==> w.rewrites(n.dataset, cmds))
  }

  const NEW_CHILD: Rewrite := Rewrite(Rewriting, [], [], [], false, false, false, [])

  /** A command runs. Off, nothing is logged; otherwise the AOF buffer gets it when the AOF is
      on, and the rewrite buffer when there is a child. */
  function DoExecute<S>(w: World<S>, s: State<S>, i: Issued): State<S> {
    var n, h := s.node, s.history;
    var now := w.apply(n.dataset, i);
    if n.mode.Off? then State(n.(dataset := now), h.(past := h.past + [now]))
    else
      var step := Logged(n.selected, i.db, i.cmd);
      State(
        n.(dataset := now, selected := i.db,
           buf := if n.mode.On? then n.buf + EncodeAll(step) else n.buf,
           rewrite := if n.rewrite.None? then None
                      else Some(n.rewrite.value.(buffer := n.rewrite.value.buffer + EncodeAll(step)))),
        h.(past := h.past + [now], log := h.log + step, ends := h.ends + [|h.log + step|],
           shadow := h.shadow + step, shadowEnds := h.shadowEnds + [|h.shadow + step|]))
  }

  function DoFork<S>(s: State<S>, cmds: seq<Command>): State<S> {
    State(s.node.(rewrite := Some(NEW_CHILD), selected := -1),
          s.history.(snapshot := cmds, shadow := cmds, shadowEnds := [|cmds|]))
  }

  /** A step of the child, of the pipes, or of the parent's side of them. */
  function RewriteStep(r: Rewrite, snapshot: seq<Command>, e: Event): Rewrite {
    match e
    case ParentSends(k) => if k <= |r.buffer| then r.(pipe := r.pipe + r.buffer[..k], buffer := r.buffer[k..]) else r
    case ChildSaves => r.(phase := Saved, tmp := EncodeAll(snapshot))
    case ChildReads(k) => if k <= |r.pipe| then r.(diff := r.diff + r.pipe[..k], pipe := r.pipe[k..]) else r
    case ChildAsks => r.(phase := Asked, ask := true)
    case ParentAnswers(delivered) => r.(ask := false, stop := true, ack := delivered)
    case ChildGetsAck => r.(phase := Acked, ack := false)
    case ChildFinishes => r.(phase := ChildExit(true), tmp := r.tmp + r.diff)
    case ChildFails => r.(phase := ChildExit(false))
    case _ => r
  }

  /** backgroundRewriteDoneHandler. */
  function DoReap<S>(s: State<S>, r: Rewrite, appended: bool, renamed: bool): State<S> {
    var n, h := s.node, s.history;
    if r.phase == ChildExit(true) && appended && renamed then
      if n.mode.Off? then State(n.(file := r.tmp + r.buffer, rewrite := None), h)
      else State(n.(mode := On, file := r.tmp + r.buffer, selected := -1, buf := [], rewrite := None),
                 h.(log := h.shadow, ends := h.shadowEnds))
    else State(n.(rewrite := None), h)
  }

  function Apply<S>(w: World<S>, s: State<S>, e: Event): State<S> {
    var n := s.node;
    match e
    case Execute(i) => DoExecute(w, s, i)
    case Flush(k) =>
      if k <= |n.buf| then s.(node := n.(file := n.file + n.buf[..k], buf := n.buf[k..])) else s
    case StartRdb => s.(node := n.(rdbChild := true))
    case EndRdb => s.(node := n.(rdbChild := false))
    case Fork(cmds) => DoFork(s, cmds)
    case ParentReaps(appended, renamed) =>
      if n.rewrite.Some? then DoReap(s, n.rewrite.value, appended, renamed) else s
    case StopAppendOnly(k) =>
      if k <= |n.buf| then
        s.(node := n.(file := n.file + n.buf[..k], buf := n.buf[k..], mode := Off, selected := -1, rewrite := None))
      else s
    case StartAppendOnly(cmds, forked) =>
      if n.rdbChild then s.(node := n.(mode := Wait))
      else if forked then
        var t := DoFork(s, cmds);
        t.(node := t.node.(mode := Wait))
      else s.(node := n.(rewrite := None))
    case _ =>
      if n.rewrite.None? then s
      else s.(node := n.(rewrite := Some(RewriteStep(n.rewrite.value, s.history.snapshot, e))))
  }

  function Init<S>(w: World<S>): State<S> {
    State(Node(On, false, -1, [], [], w.init, None), History([], [0], [], [], [0], [w.init]))
  }

  ghost predicate Next<S(!new)>(w: World<S>, s: State<S>, t: State<S>) {
    exists e :: Enabled(w, s, e) && t == Apply(w, s, e)
  }

  ghost predicate IsRun<S(!new)>(w: World<S>, run: seq<State<S>>) {
    run != [] && run[0] == Init(w) && forall i :: 0 <= i < |run| - 1 ==> Next(w, run[i], run[i + 1])
  }

  // ---- what every step keeps ----

  /** The child's diff, the pipe and the parent's buffer are, in this order, everything fed
      since the fork; nobody sends after the acknowledgement. */
  ghost predicate Conserved(r: Rewrite, fed: Bytes, snapshot: seq<Command>) {
    forall u: nat :: Unfold(Pipes, u) ==>
      && r.diff + (r.pipe + r.buffer) == fed
      && (r.ack || r.phase.Acked? || r.phase == ChildExit(true) ==> r.stop)
      && (r.phase.Saved? || r.phase.Asked? || r.phase.Acked? ==> r.tmp == EncodeAll(snapshot))
      && (r.phase == ChildExit(true) ==> r.tmp == EncodeAll(snapshot) + r.diff && r.pipe == [])
  }

  /** The bytes fed since the fork: none while the AOF is off. */
  function FedSince(mode: Mode, snapshot: seq<Command>, shadow: seq<Command>): Bytes {
    if mode.Off? || |shadow| < |snapshot| then [] else EncodeAll(shadow[|snapshot|..])
  }

  lemma NothingFed(mode: Mode, cmds: seq<Command>)
    ensures FedSince(mode, cmds, cmds) == [] && Conserved(NEW_CHILD, [], cmds)
  {
    assert cmds[|cmds|..] == [];
  }

  ghost predicate LogInv<S>(w: World<S>, s: State<S>) {
    var n, h := s.node, s.history;
    n.mode.On? ==>
      && Follows(w, h.log, h.ends, n.selected, n.dataset, h.past)
      && n.file + n.buf == EncodeAll(h.log)
      && h.ends != [] && h.ends[0] <= |h.log| && |EncodeAll(h.log[..h.ends[0]])| <= |n.file|
  }

  ghost predicate ShadowInv<S>(w: World<S>, s: State<S>) {
    var n, h := s.node, s.history;
    n.rewrite.Some? ==>
      && !n.rdbChild
      && h.snapshot <= h.shadow
      && Conserved(n.rewrite.value, FedSince(n.mode, h.snapshot, h.shadow), h.snapshot)
      && (!n.mode.Off? ==>
            && Follows(w, h.shadow, h.shadowEnds, n.selected, n.dataset, h.past)
            && h.shadowEnds != [] && h.shadowEnds[0] == |h.snapshot|)
  }

  ghost predicate Inv<S>(w: World<S>, s: State<S>) {
    && s.history.past != [] && s.history.past[|s.history.past| - 1] == s.node.dataset
    && LogInv(w, s) && ShadowInv(w, s)
  }

  lemma InitInv<S>(w: World<S>)
    ensures Inv(w, Init(w))
  {
    var h := Init(w).history;
    assert h.log[..0] == [] && Meaning(w, []) == w.init;
  }

  lemma EncodeMore(log: seq<Command>, step: seq<Command>, before: Bytes)
    requires before == EncodeAll(log)
    ensures before + EncodeAll(step) == EncodeAll(log + step)
  {
    JoinedTogether(log, step, Encode);
  }

  lemma ExecuteKeepsLog<S(!new)>(w: World<S>, s: State<S>, i: Issued)
    requires Inv(w, s) && Loggable(i, w.known)
    ensures LogInv(w, DoExecute(w, s, i))
  {
    var n, h := s.node, s.history;
    if n.mode.On? {
      var step := Logged(n.selected, i.db, i.cmd);
      FeedFollows(w, h.log, h.ends, n.selected, n.dataset, h.past, i);
      EncodeMore(h.log, step, n.file + n.buf);
      assert n.file + (n.buf + EncodeAll(step)) == EncodeAll(h.log + step);
      assert (h.log + step)[..h.ends[0]] == h.log[..h.ends[0]];
    }
  }

  lemma FeedConserves(r: Rewrite, fed: Bytes, more: Bytes, snapshot: seq<Command>)
    requires Conserved(r, fed, snapshot)
    ensures Conserved(r.(buffer := r.buffer + more), fed + more, snapshot)
  {
    assert Unfold(Pipes, 0);
    assert r.diff + (r.pipe + (r.buffer + more)) == r.diff + (r.pipe + r.buffer) + more;
  }

  lemma ShadowGrows(shadow: seq<Command>, step: seq<Command>, k: nat)
    requires k <= |shadow|
    ensures EncodeAll((shadow + step)[k..]) == EncodeAll(shadow[k..]) + EncodeAll(step)
  {
    assert (shadow + step)[k..] == shadow[k..] + step;
    JoinedTogether(shadow[k..], step, Encode);
  }

  lemma ExecuteKeepsShadow<S(!new)>(w: World<S>, s: State<S>, i: Issued)
    requires Inv(w, s) && Loggable(i, w.known)
    ensures ShadowInv(w, DoExecute(w, s, i))
  {
    var n, h := s.node, s.history;
    if n.rewrite.Some? && !n.mode.Off? {
      var step := Logged(n.selected, i.db, i.cmd);
      var k := |h.snapshot|;
      FeedFollows(w, h.shadow, h.shadowEnds, n.selected, n.dataset, h.past, i);
      ShadowGrows(h.shadow, step, k);
      FeedConserves(n.rewrite.value, FedSince(n.mode, h.snapshot, h.shadow), EncodeAll(step), h.snapshot);
    }
  }

  lemma ForkKeeps<S(!new)>(w: World<S>, s: State<S>, cmds: seq<Command>)
    requires Sound(w) && Inv(w, s) && !s.node.rdbChild && w.rewrites(s.node.dataset, cmds)
    ensures Inv(w, DoFork(s, cmds))
    ensures var t := DoFork(s, cmds);
            s.node.mode.Off? ==> Inv(w, t.(node := t.node.(mode := Wait)))
  {
    var n, h := s.node, s.history;
    SnapshotFollows(w, cmds, n.dataset, h.past);
    NothingFed(Off, cmds);
    NothingFed(On, cmds);
    if n.mode.On? {
      FollowsUnselected(w, h.log, h.ends, n.selected, n.dataset, h.past);
    }
  }

  /** No step of the child or of the pipes loses, repeats or reorders a byte. */
  lemma StepConserves(r: Rewrite, snapshot: seq<Command>, fed: Bytes, e: Event)
    requires Conserved(r, fed, snapshot)
    requires e.ParentSends? ==> !r.stop && e.n <= |r.buffer|
    requires e.ChildReads? ==> e.n <= |r.pipe| && !r.phase.Asked? && !r.phase.ChildExit?
    requires e.ChildSaves? ==> r.phase.Rewriting?
    requires e.ChildAsks? ==> r.phase.Saved?
    requires e.ChildGetsAck? ==> r.phase.Asked? && r.ack
    requires e.ChildFinishes? ==> r.phase.Acked? && r.pipe == []
    ensures Conserved(RewriteStep(r, snapshot, e), fed, snapshot)
  {
    assert Unfold(Pipes, 0);
    if e.ParentSends? {
      assert r.pipe + r.buffer[..e.n] + r.buffer[e.n..] == r.pipe + r.buffer;
    } else if e.ChildReads? {
      assert r.diff + r.pipe[..e.n] + (r.pipe[e.n..] + r.buffer) == r.diff + (r.pipe + r.buffer);
    }
  }

  lemma JoinExit(r: Rewrite, fed: Bytes, snapshot: seq<Command>)
    requires Conserved(r, fed, snapshot) && r.phase == ChildExit(true)
    ensures r.tmp + r.buffer == EncodeAll(snapshot) + fed
    ensures |EncodeAll(snapshot)| <= |r.tmp|
  {
    assert Unfold(Pipes, 0);
    JoinBytes(EncodeAll(snapshot), r.diff, r.pipe, r.buffer);
  }

  lemma JoinBytes(text: Bytes, diff: Bytes, pipe: Bytes, buffer: Bytes)
    requires pipe == []
    ensures (text + diff) + buffer == text + (diff + (pipe + buffer)) && |text| <= |text + diff|
  {
  }

  /** When the child has exited with success, its file and the parent's buffer are together
      the snapshot followed by everything logged since the fork, with no gap and no overlap. */
  lemma RewriteIsComplete<S>(w: World<S>, s: State<S>)
    requires ShadowInv(w, s) && s.node.rewrite.Some? && s.node.rewrite.value.phase == ChildExit(true)
    ensures var r, h := s.node.rewrite.value, s.history;
            r.tmp + r.buffer == EncodeAll(if s.node.mode.Off? then h.snapshot else h.shadow)
    ensures |EncodeAll(s.history.snapshot)| <= |s.node.rewrite.value.tmp|
  {
    var r, h := s.node.rewrite.value, s.history;
    SnapshotThenFed(s.node.mode, h.snapshot, h.shadow);
    JoinExit(r, FedSince(s.node.mode, h.snapshot, h.shadow), h.snapshot);
  }

  lemma SnapshotThenFed(mode: Mode, snapshot: seq<Command>, shadow: seq<Command>)
    requires snapshot <= shadow
    ensures EncodeAll(snapshot) + FedSince(mode, snapshot, shadow) == EncodeAll(if mode.Off? then snapshot else shadow)
  {
    var k := |snapshot|;
    JoinedTogether(snapshot, shadow[k..], Encode);
    assert snapshot + shadow[k..] == shadow;
  }

  lemma ReapKeeps<S(!new)>(w: World<S>, s: State<S>, appended: bool, renamed: bool)
    requires Inv(w, s) && s.node.rewrite.Some? && s.node.rewrite.value.phase.ChildExit?
    ensures Inv(w, DoReap(s, s.node.rewrite.value, appended, renamed))
  {
    var n, h := s.node, s.history;
    var r := n.rewrite.value;
    if r.phase == ChildExit(true) && appended && renamed && !n.mode.Off? {
      RewriteIsComplete(w, s);
      FollowsUnselected(w, h.shadow, h.shadowEnds, n.selected, n.dataset, h.past);
      assert h.shadow[..|h.snapshot|] == h.snapshot;
      var file := r.tmp + r.buffer;
      assert file + [] == file;
    }
  }

  ghost predicate OfRewrite(e: Event) {
    || e.ParentSends? || e.ChildSaves? || e.ChildReads? || e.ChildAsks? || e.ParentAnswers?
    || e.ChildGetsAck? || e.ChildFinishes? || e.ChildFails?
  }

  lemma RewriteStepKeeps<S(!new)>(w: World<S>, s: State<S>, e: Event)
    requires Inv(w, s) && Enabled(w, s, e) && OfRewrite(e)
    ensures Inv(w, Apply(w, s, e))
  {
    var n, h := s.node, s.history;
    StepConserves(n.rewrite.value, h.snapshot, FedSince(n.mode, h.snapshot, h.shadow), e);
  }

  lemma FlushKeeps<S(!new)>(w: World<S>, s: State<S>, k: nat)
    requires Inv(w, s) && k <= |s.node.buf|
    ensures Inv(w, Apply(w, s, Flush(k)))
  {
    var n := s.node;
    assert n.file + n.buf[..k] + n.buf[k..] == n.file + n.buf;
  }

  lemma ApplyKeeps<S(!new)>(w: World<S>, s: State<S>, e: Event)
    requires Sound(w) && Inv(w, s) && Enabled(w, s, e)
    ensures Inv(w, Apply(w, s, e))
  {
    if OfRewrite(e) {
      RewriteStepKeeps(w, s, e);
    } else if e.Execute? {
      ExecuteKeepsLog(w, s, e.i);
      ExecuteKeepsShadow(w, s, e.i);
    } else if e.Flush? {
      FlushKeeps(w, s, e.n);
    } else if e.Fork? {
      ForkKeeps(w, s, e.cmds);
    } else if e.ParentReaps? {
      ReapKeeps(w, s, e.appended, e.renamed);
    } else if e.StartAppendOnly? && !s.node.rdbChild && e.forked {
      ForkKeeps(w, s, e.cmds);
    }
  }

  lemma {:induction false} RunKeeps<S(!new)>(w: World<S>, run: seq<State<S>>, i: nat)
    requires Sound(w) && IsRun(w, run) && i < |run|
    ensures Inv(w, run[i])
  {
    if i == 0 {
      InitInv(w);
    } else {
      RunKeeps(w, run, i - 1);
      assert Next(w, run[i - 1], run[i - 1 + 1]);
      var e :| Enabled(w, run[i - 1], e) && run[i] == Apply(w, run[i - 1], e);
      ApplyKeeps(w, run[i - 1], e);
    }
  }

  // ---- the theorems ----

  /** The commands that loading a file executes. */
  function Recovered(w: World, file: Bytes): seq<Command> {
    if file == [] then [] else LoadFile(file, true, w.known).executed
  }

  /** In every state of every run with the AOF on, whatever rewrites were started, finished,
      failed or killed, the file and the buffer load to exactly the current dataset. */
  lemma LogIsDataset<S(!new)>(w: World<S>, run: seq<State<S>>, i: nat)
    requires Sound(w) && IsRun(w, run) && i < |run| && run[i].node.mode.On?
    ensures var n := run[i].node;
            Meaning(w, Recovered(w, n.file + n.buf)) == n.dataset
  {
    RunKeeps(w, run, i);
    var n, h := run[i].node, run[i].history;
    FollowsIs(w, h.log, h.ends, n.selected, n.dataset, h.past);
    if n.file + n.buf != [] {
      assert h.log != [];
      LogRoundTrip(h.log, true, w.known);
    } else {
      EncodeNothing(h.log);
    }
  }

  lemma EncodeNothing(log: seq<Command>)
    requires EncodeAll(log) == []
    ensures log == []
  {
  }

  /** The bytes of the log up to the end of command `j` are in a file of `size` bytes, and those
      of the next command are not all in it. */
  ghost predicate LastWhole(log: seq<Command>, ends: seq<nat>, size: nat, j: nat) {
    && j < |ends| && ends[j] <= |log| && |EncodeAll(log[..ends[j]])| <= size
    && (j + 1 < |ends| ==> ends[j + 1] <= |log| && size < |EncodeAll(log[..ends[j + 1]])|)
  }

  /** Loading a file that holds the first `size` bytes of a log recovers its last whole command. */
  lemma RecoversLast<S(!new)>(w: World<S>, log: seq<Command>, ends: seq<nat>, past: seq<S>, size: nat) returns (j: nat)
    requires Good(w, log) && Honest(w, log, ends, past) && size <= |EncodeAll(log)|
    requires ends[0] <= |log| && |EncodeAll(log[..ends[0]])| <= size
    ensures LastWhole(log, ends, size, j)
    ensures var file := EncodeAll(log)[..size];
            && Meaning(w, Recovered(w, file)) == DatasetAt(past, ends, j)
            && (file != [] ==> !LoadFile(file, true, w.known).end.Exited?)
  {
    var k := Whole(log, size, Encode);
    WholeHoldsBase(log, ends[0], size);
    j := LastReached(ends, k);
    ReachedIsWhole(log, ends, size, j);
    if size > 0 {
      TruncatedLogRecovery(log, size, w.known);
    } else {
      NothingWhole(log);
      assert log[..0] == [];
    }
    assert Recovered(w, EncodeAll(log)[..size]) == log[..k];
  }

  /** A crash at any point of any run leaves a file that loads, and loading it gives exactly the
      dataset that the server had after the last command whose bytes are all in the file, or
      that of the last rewrite if there is no such command. */
  lemma CrashSafety<S(!new)>(w: World<S>, run: seq<State<S>>, i: nat)
    requires Sound(w) && IsRun(w, run) && i < |run| && run[i].node.mode.On?
    ensures var n, h := run[i].node, run[i].history;
            && |h.ends| <= |h.past|
            && (exists j: nat :: LastWhole(h.log, h.ends, |n.file|, j) &&
                                 Meaning(w, Recovered(w, n.file)) == DatasetAt(h.past, h.ends, j))
            && n.file + n.buf == EncodeAll(h.log)
            && (n.file != [] ==> !LoadFile(n.file, true, w.known).end.Exited?)
            && (n.buf == [] ==> Meaning(w, Recovered(w, n.file)) == n.dataset)
  {
    RunKeeps(w, run, i);
    var n, h := run[i].node, run[i].history;
    FollowsIs(w, h.log, h.ends, n.selected, n.dataset, h.past);
    assert n.file == EncodeAll(h.log)[..|n.file|];
    var j := RecoversLast(w, h.log, h.ends, h.past, |n.file|);
    if n.buf == [] {
      assert n.file + n.buf == n.file;
      LogIsDataset(w, run, i);
    }
  }

  lemma NothingWhole(log: seq<Command>)
    ensures Whole(log, 0, Encode) == 0
  {
  }

  /** The last command that the first `k` commands reach. */
  lemma {:induction false} LastReached(ends: seq<nat>, k: nat) returns (j: nat)
    requires ends != [] && ends[0] <= k
    ensures Reaches(ends, k, j)
  {
    j := 0;
    while j + 1 < |ends| && ends[j + 1] <= k
      invariant j < |ends| && ends[j] <= k
    {
      j := j + 1;
    }
  }

  lemma ReachedIsWhole(log: seq<Command>, ends: seq<nat>, size: nat, j: nat)
    requires size <= |EncodeAll(log)| && Reaches(ends, Whole(log, size, Encode), j)
    requires ends[j] <= |log| && (j + 1 < |ends| ==> ends[j + 1] <= |log|)
    ensures LastWhole(log, ends, size, j)
  {
    var k := Whole(log, size, Encode);
    WholeIsLongest(log, size, Encode);
    PrefixIsShorter(log, ends[j], k);
    if j + 1 < |ends| {
      PrefixIsShorter(log, k + 1, ends[j + 1]);
    }
  }

  lemma PrefixIsShorter(log: seq<Command>, a: nat, b: nat)
    requires a <= b <= |log|
    ensures |EncodeAll(log[..a])| <= |EncodeAll(log[..b])|
  {
    assert log[..a] + log[a..b] == log[..b];
    JoinedTogether(log[..a], log[a..b], Encode);
  }

  /** What is on disk always contains the whole of the last rewrite. */
  lemma WholeHoldsBase(log: seq<Command>, base: nat, n: nat)
    requires base <= |log| && |EncodeAll(log[..base])| <= n <= |EncodeAll(log)|
    ensures base <= Whole(log, n, Encode) <= |log|
  {
    var k := Whole(log, n, Encode);
    WholeIsLongest(log, n, Encode);
    if k < base {
      PrefixIsShorter(log, k + 1, base);
    }
  }
}
