/**
 What a background rewrite ends in. However the steps of the server, the child and the pipes
 interleave, a rewrite that succeeds leaves a file with the snapshot and every command run since
 the fork; one that fails leaves the old file. And a rewrite that is started can always succeed.
*/
module RewriteOutcome {
  import opened AofLoad
  import opened AofProtocol
  import opened AofRewrite
  import opened AofWriter
  import opened LogReplay
  import opened LogScan
  import opened Options
  import opened Sequences

  // ---- the end of a rewrite ----

  /** A child that succeeded is installed: the file is the new log, the buffer is empty because its
      bytes are in it, and an AOF that waited for this is on. */
  lemma ReapInstalls<S>(w: World<S>, s: State<S>)
    requires Inv(w, s) && s.node.rewrite.Some? && s.node.rewrite.value.phase == ChildExit(true)
    ensures var n, h, t := s.node, s.history, Apply(w, s, ParentReaps(true, true)).node;
            && t.file == EncodeAll(if n.mode.Off? then h.snapshot else h.shadow)
            && t.mode == (if n.mode.Off? then Off else On)
            && (if n.mode.Off? then t.buf == n.buf else t.buf == [])
            && t.rewrite == None && t.dataset == n.dataset && t.rdbChild == n.rdbChild
  {
    RewriteIsComplete(w, s);
  }

  /** Otherwise the child is gone and nothing else has changed. */
  lemma ReapFails<S>(w: World<S>, s: State<S>, appended: bool, renamed: bool)
    requires s.node.rewrite.Some? && s.node.rewrite.value.phase.ChildExit?
    requires !(s.node.rewrite.value.phase.ok && appended && renamed)
    ensures Apply(w, s, ParentReaps(appended, renamed)) == s.(node := s.node.(rewrite := None))
  {
  }

  // ---- paths ----

  function After<S>(w: World<S>, s: State<S>, es: seq<Event>): State<S>
    decreases |es|
  {
    if es == [] then s else After(w, Apply(w, s, es[0]), es[1..])
  }

  ghost predicate Possible<S>(w: World<S>, s: State<S>, es: seq<Event>)
    decreases |es|
  {
    es == [] || (Enabled(w, s, es[0]) && Possible(w, Apply(w, s, es[0]), es[1..]))
  }

  lemma {:induction false} PossibleThen<S>(w: World<S>, s: State<S>, a: seq<Event>, b: seq<Event>)
    requires Possible(w, s, a) && Possible(w, After(w, s, a), b)
    ensures Possible(w, s, a + b) && After(w, s, a + b) == After(w, After(w, s, a), b)
    decreases |a|
  {
    if a == [] {
      assert a + b == b;
    } else {
      FirstOfBoth(a, b);
      PossibleThen(w, Apply(w, s, a[0]), a[1..], b);
    }
  }

  lemma OneStep<S>(w: World<S>, s: State<S>, e: Event)
    requires Enabled(w, s, e)
    ensures Possible(w, s, [e]) && After(w, s, [e]) == Apply(w, s, e)
  {
    assert [e][1..] == [];
  }

  lemma LongerRun<S(!new)>(w: World<S>, run: seq<State<S>>, e: Event)
    requires IsRun(w, run) && Enabled(w, run[|run| - 1], e)
    ensures IsRun(w, run + [Apply(w, run[|run| - 1], e)])
  {
    var next := Apply(w, run[|run| - 1], e);
    var more := run + [next];
    forall i | 0 <= i < |more| - 1 ensures Next(w, more[i], more[i + 1]) {
      if i < |run| - 1 {
        assert Next(w, run[i], run[i + 1]);
      } else {
        assert Enabled(w, more[i], e) && more[i + 1] == Apply(w, more[i], e);
      }
    }
  }

  lemma PrefixOfMore<T>(s: seq<T>, x: T, t: seq<T>, u: seq<T>)
    requires s + [x] <= t <= u
    ensures s <= u
  {
  }

  lemma FirstOfBoth<T>(a: seq<T>, b: seq<T>)
    requires a != []
    ensures (a + b)[0] == a[0] && (a + b)[1..] == a[1..] + b
  {
  }

  /** A possible path from the last state of a run continues the run. */
  lemma {:induction false} PathContinues<S(!new)>(w: World<S>, run: seq<State<S>>, es: seq<Event>)
    returns (more: seq<State<S>>)
    requires IsRun(w, run) && Possible(w, run[|run| - 1], es)
    ensures IsRun(w, more) && run <= more && more[|more| - 1] == After(w, run[|run| - 1], es)
    decreases |es|
  {
    if es == [] {
      more := run;
    } else {
      var next := Apply(w, run[|run| - 1], es[0]);
      LongerRun(w, run, es[0]);
      more := PathContinues(w, run + [next], es[1..]);
      PrefixOfMore(run, next, more, more);
    }
  }

  // ---- every interleaving ----

  /** The events that neither start nor end a rewrite, nor switch the AOF. */
  predicate Within(e: Event) {
    !(e.Fork? || e.ParentReaps? || e.StopAppendOnly? || e.StartAppendOnly?)
  }

  predicate AllWithin(es: seq<Event>) {
    forall k :: 0 <= k < |es| ==> Within(es[k])
  }

  /** The commands executed by these events. */
  function Issues(es: seq<Event>): seq<Issued>
    decreases |es|
  {
    if es == [] then []
    else (if es[0].Execute? then [es[0].i] else []) + Issues(es[1..])
  }

  /** `t` is `s` after the commands `issued`, with the rewrite still going on. */
  ghost predicate Since<S>(w: World<S>, s: State<S>, t: State<S>, issued: seq<Issued>) {
    && t.node.rewrite.Some? && t.node.mode == s.node.mode
    && t.node.dataset == Fold(w, s.node.dataset, issued)
    && t.history.snapshot == s.history.snapshot
    && t.history.shadow == s.history.shadow + (if s.node.mode.Off? then [] else LoggedAll(s.node.selected, issued))
  }

  lemma StepWithin<S>(w: World<S>, s: State<S>, e: Event)
    requires s.node.rewrite.Some? && Enabled(w, s, e) && Within(e)
    ensures var t := Apply(w, s, e);
            && t.node.rewrite.Some? && t.node.mode == s.node.mode && t.history.snapshot == s.history.snapshot
            && (if e.Execute? then t == DoExecute(w, s, e.i)
                else t.node.dataset == s.node.dataset && t.node.selected == s.node.selected && t.history == s.history)
  {
  }

  lemma {:induction false} ShadowSince<S>(w: World<S>, s: State<S>, es: seq<Event>)
    requires s.node.rewrite.Some? && Possible(w, s, es) && AllWithin(es)
    ensures Since(w, s, After(w, s, es), Issues(es))
    decreases |es|
  {
    if es == [] {
      assert s.history.shadow + [] == s.history.shadow;
    } else {
      var e, t := es[0], Apply(w, s, es[0]);
      StepWithin(w, s, e);
      ShadowSince(w, t, es[1..]);
      FirstIssue(w, s, t, After(w, t, es[1..]), e, Issues(es[1..]));
    }
  }

  lemma FirstIssue<S>(w: World<S>, s: State<S>, t: State<S>, u: State<S>, e: Event, more: seq<Issued>)
    requires t.node.mode == s.node.mode && t.history.snapshot == s.history.snapshot && Since(w, t, u, more)
    requires if e.Execute? then t == DoExecute(w, s, e.i)
             else t.node.dataset == s.node.dataset && t.node.selected == s.node.selected && t.history == s.history
    ensures Since(w, s, u, (if e.Execute? then [e.i] else []) + more)
  {
    if e.Execute? {
      var issued := [e.i] + more;
      assert issued[0] == e.i && issued[1..] == more;
      if s.node.mode.Off? {
        assert u.history.shadow == s.history.shadow + [];
      } else {
        AppendTwice(s.history.shadow, Logged(s.node.selected, e.i.db, e.i.cmd), LoggedAll(e.i.db, more));
      }
    } else {
      assert [] + more == more;
    }
  }

  lemma AppendTwice<T>(a: seq<T>, b: seq<T>, c: seq<T>)
    ensures a + b + c == a + (b + c)
  {
  }

  /** What a rewrite starts with: BGREWRITEAOF, or `CONFIG SET appendonly yes`. */
  ghost predicate Starts<S>(w: World<S>, s: State<S>, e: Event, cmds: seq<Command>) {
    && Enabled(w, s, e) && !s.node.rdbChild
    && (e == Fork(cmds) || e == StartAppendOnly(cmds, true))
  }

  lemma StartedWith<S>(w: World<S>, s: State<S>, e: Event, cmds: seq<Command>)
    requires Starts(w, s, e, cmds)
    ensures var t := Apply(w, s, e);
            && t.node == s.node.(rewrite := Some(NEW_CHILD), selected := -1,
                                 mode := if e.Fork? then s.node.mode else Wait)
            && t.history.snapshot == cmds && t.history.shadow == cmds
  {
  }

  /** The commands in the file after a rewrite with `issued` executed since its start. */
  function NewLog(off: bool, cmds: seq<Command>, issued: seq<Issued>): seq<Command> {
    if off then cmds else cmds + LoggedAll(-1, issued)
  }

  /** The rewrite ended well: the file holds the snapshot and then the commands since. */
  ghost predicate Rewritten<S>(w: World<S>, s: State<S>, t: State<S>, off: bool, cmds: seq<Command>,
                               issued: seq<Issued>) {
    && t.node.file == EncodeAll(NewLog(off, cmds, issued))
    && t.node.mode == (if off then Off else On) && (!off ==> t.node.buf == []) && t.node.rewrite == None
    && t.node.dataset == Fold(w, s.node.dataset, issued)
  }

  /** In every run, whatever happens between the start of a rewrite and its successful end, the
      file then is the snapshot followed by the commands executed in between. */
  lemma RewriteResult<S(!new)>(w: World<S>, run: seq<State<S>>, start: Event, cmds: seq<Command>, es: seq<Event>)
    requires Sound(w) && IsRun(w, run) && Starts(w, run[|run| - 1], start, cmds)
    requires var s := Apply(w, run[|run| - 1], start);
             && Possible(w, s, es) && AllWithin(es)
             && var r := After(w, s, es).node.rewrite; r.Some? && r.value.phase == ChildExit(true)
    ensures var s := run[|run| - 1];
            var t := Apply(w, After(w, Apply(w, s, start), es), ParentReaps(true, true));
            Rewritten(w, s, t, start.Fork? && s.node.mode.Off?, cmds, Issues(es))
  {
    var s := run[|run| - 1];
    var a := Apply(w, s, start);
    var b := After(w, a, es);
    StartedWith(w, s, start, cmds);
    ShadowSince(w, a, es);
    LongerRun(w, run, start);
    var more := PathContinues(w, run + [a], es);
    RunKeeps(w, more, |more| - 1);
    ReapInstalls(w, b);
  }

  // ---- a rewrite can succeed ----

  function Executes(issued: seq<Issued>): seq<Event> {
    seq(|issued|, k requires 0 <= k < |issued| => Execute(issued[k]))
  }

  function Fed<S>(s: State<S>, issued: seq<Issued>): Bytes {
    if s.node.mode.Off? then [] else EncodeAll(LoggedAll(s.node.selected, issued))
  }

  /** `t` is `s` with a rewrite in state `r`. */
  ghost predicate Same<S>(s: State<S>, t: State<S>, r: Rewrite) {
    t.node.mode == s.node.mode && t.node.rewrite == Some(r)
  }

  lemma {:induction false} ExecuteAll<S>(w: World<S>, s: State<S>, issued: seq<Issued>)
    requires s.node.rewrite.Some? && AllLoggable(issued, w.known)
    ensures Possible(w, s, Executes(issued))
    ensures var r := s.node.rewrite.value;
            Same(s, After(w, s, Executes(issued)), r.(buffer := r.buffer + Fed(s, issued)))
    decreases |issued|
  {
    var r := s.node.rewrite.value;
    if issued == [] {
      assert r.buffer + [] == r.buffer;
    } else {
      var es, t := Executes(issued), DoExecute(w, s, issued[0]);
      assert es[0] == Execute(issued[0]) && es[1..] == Executes(issued[1..]);
      ExecuteAll(w, t, issued[1..]);
      var step := Logged(s.node.selected, issued[0].db, issued[0].cmd);
      JoinedTogether(step, LoggedAll(issued[0].db, issued[1..]), Encode);
      if s.node.mode.Off? {
        assert r.buffer + [] == r.buffer;
      } else {
        AppendTwice(r.buffer, EncodeAll(step), Fed(t, issued[1..]));
      }
    }
  }

  /** The events lead to a rewrite in state `r`. */
  ghost predicate Leads<S>(w: World<S>, s: State<S>, es: seq<Event>, r: Rewrite) {
    && Possible(w, s, es) && AllWithin(es) && Same(s, After(w, s, es), r)
    && After(w, s, es).history.snapshot == s.history.snapshot
  }

  lemma StaysPut<S>(w: World<S>, s: State<S>)
    requires s.node.rewrite.Some?
    ensures Leads(w, s, [], s.node.rewrite.value) && Issues([]) == []
  {
  }

  /** One more event of the child, the pipes or the parent's side of them. */
  lemma ThenStep<S>(w: World<S>, s: State<S>, es: seq<Event>, r: Rewrite, e: Event)
    requires Leads(w, s, es, r) && OfRewrite(e) && Enabled(w, After(w, s, es), e)
    ensures Leads(w, s, es + [e], RewriteStep(r, s.history.snapshot, e))
  {
    OneStep(w, After(w, s, es), e);
    PossibleThen(w, s, es, [e]);
  }

  /** More commands. */
  lemma ThenExecute<S>(w: World<S>, s: State<S>, es: seq<Event>, r: Rewrite, issued: seq<Issued>)
    requires Leads(w, s, es, r) && AllLoggable(issued, w.known)
    ensures Leads(w, s, es + Executes(issued), r.(buffer := r.buffer + Fed(After(w, s, es), issued)))
  {
    var t := After(w, s, es);
    ExecuteAll(w, t, issued);
    PossibleThen(w, s, es, Executes(issued));
    ShadowSince(w, t, Executes(issued));
  }

  /** The child writes the snapshot while `a` run, gets them through the pipe and asks the parent
      to stop. */
  function FirstHalf(a: seq<Issued>, k: nat): seq<Event> {
    Executes(a) + [ChildSaves] + [ParentSends(k)] + [ChildReads(k)] + [ChildAsks]
  }

  /** Commands run before the parent answers, before the child finishes and before it is reaped. */
  function SecondHalf(first: seq<Event>, b: seq<Issued>, c: seq<Issued>, d: seq<Issued>): seq<Event> {
    first + Executes(b) + [ParentAnswers(true)] + [ChildGetsAck] + Executes(c) + [ChildFinishes] + Executes(d)
  }

  lemma NothingBefore<T>(s: seq<T>)
    ensures [] + s == s
  {
  }

  lemma ChildHasStarted<S>(w: World<S>, s: State<S>, a: seq<Issued>)
    requires s.node.rewrite == Some(NEW_CHILD) && AllLoggable(a, w.known)
    ensures Leads(w, s, Executes(a), NEW_CHILD.(buffer := Fed(s, a)))
  {
    StaysPut(w, s);
    ThenExecute(w, s, [], NEW_CHILD, a);
    NothingBefore(Executes(a));
    NothingBefore(Fed(s, a));
  }

  lemma ChildHasSaved<S>(w: World<S>, s: State<S>, a: seq<Issued>)
    requires s.node.rewrite == Some(NEW_CHILD) && AllLoggable(a, w.known)
    ensures Leads(w, s, Executes(a) + [ChildSaves],
                  Rewrite(Saved, EncodeAll(s.history.snapshot), [], [], false, false, false, Fed(s, a)))
  {
    ChildHasStarted(w, s, a);
    ThenStep(w, s, Executes(a), NEW_CHILD.(buffer := Fed(s, a)), ChildSaves);
  }

  lemma SentAndRead<S>(w: World<S>, s: State<S>, es: seq<Event>, r: Rewrite)
    requires Leads(w, s, es, r) && r.phase.Saved? && !r.stop && r.pipe == [] && r.diff == []
    ensures Leads(w, s, es + [ParentSends(|r.buffer|)] + [ChildReads(|r.buffer|)], r.(diff := r.buffer, buffer := []))
  {
    var k := |r.buffer|;
    ThenStep(w, s, es, r, ParentSends(k));
    assert [] + r.buffer[..k] == r.buffer && r.buffer[k..] == [];
    ThenStep(w, s, es + [ParentSends(k)], r.(pipe := r.buffer, buffer := []), ChildReads(k));
  }

  lemma ChildAsksToStop<S>(w: World<S>, s: State<S>, a: seq<Issued>)
    requires s.node.rewrite == Some(NEW_CHILD) && AllLoggable(a, w.known)
    ensures var diff := Fed(s, a);
            Leads(w, s, FirstHalf(a, |diff|),
                  Rewrite(Asked, EncodeAll(s.history.snapshot), diff, [], true, false, false, []))
  {
    var diff, es := Fed(s, a), Executes(a) + [ChildSaves];
    var r := Rewrite(Saved, EncodeAll(s.history.snapshot), [], [], false, false, false, diff);
    ChildHasSaved(w, s, a);
    SentAndRead(w, s, es, r);
    ThenStep(w, s, es + [ParentSends(|diff|)] + [ChildReads(|diff|)], r.(diff := diff, buffer := []), ChildAsks);
  }

  lemma ChildIsDone<S>(w: World<S>, s: State<S>, first: seq<Event>, diff: Bytes, b: seq<Issued>, c: seq<Issued>,
                       d: seq<Issued>)
    requires AllLoggable(b, w.known) && AllLoggable(c, w.known) && AllLoggable(d, w.known)
    requires Leads(w, s, first, Rewrite(Asked, EncodeAll(s.history.snapshot), diff, [], true, false, false, []))
    ensures exists buffer ::
              Leads(w, s, SecondHalf(first, b, c, d),
                    Rewrite(ChildExit(true), EncodeAll(s.history.snapshot) + diff, diff, [], false, false, true,
                            buffer))
  {
    var r := Rewrite(Asked, EncodeAll(s.history.snapshot), diff, [], true, false, false, []);
    ThenExecute(w, s, first, r, b);
    r := r.(buffer := r.buffer + Fed(After(w, s, first), b));
    var es := first + Executes(b);
    ThenStep(w, s, es, r, ParentAnswers(true));
    r := r.(ask := false, stop := true, ack := true);
    es := es + [ParentAnswers(true)];
    ThenStep(w, s, es, r, ChildGetsAck);
    r := r.(phase := Acked, ack := false);
    es := es + [ChildGetsAck];
    ThenExecute(w, s, es, r, c);
    r := r.(buffer := r.buffer + Fed(After(w, s, es), c));
    es := es + Executes(c);
    ThenStep(w, s, es, r, ChildFinishes);
    r := r.(phase := ChildExit(true), tmp := r.tmp + diff);
    es := es + [ChildFinishes];
    ThenExecute(w, s, es, r, d);
    assert es + Executes(d) == SecondHalf(first, b, c, d);
  }

  lemma {:induction false} IssuesOf(a: seq<Event>, b: seq<Event>)
    ensures Issues(a + b) == Issues(a) + Issues(b)
    decreases |a|
  {
    if a == [] {
      assert a + b == b;
    } else {
      FirstOfBoth(a, b);
      IssuesOf(a[1..], b);
      AppendTwice(if a[0].Execute? then [a[0].i] else [], Issues(a[1..]), Issues(b));
    }
  }

  lemma {:induction false} IssuesOfExecutes(issued: seq<Issued>)
    ensures Issues(Executes(issued)) == issued
    decreases |issued|
  {
    if issued != [] {
      assert Executes(issued)[1..] == Executes(issued[1..]);
      IssuesOfExecutes(issued[1..]);
    }
  }

  lemma NoIssue(es: seq<Event>, e: Event)
    requires !e.Execute?
    ensures Issues(es + [e]) == Issues(es)
  {
    IssuesOf(es, [e]);
    assert [e][1..] == [] && Issues([e]) == [];
  }

  lemma MoreIssues(es: seq<Event>, issued: seq<Issued>)
    ensures Issues(es + Executes(issued)) == Issues(es) + issued
  {
    IssuesOf(es, Executes(issued));
    IssuesOfExecutes(issued);
  }

  lemma IssuesOfFirst(a: seq<Issued>, k: nat)
    ensures Issues(FirstHalf(a, k)) == a
  {
    IssuesOfExecutes(a);
    var es := Executes(a);
    NoIssue(es, ChildSaves);
    NoIssue(es + [ChildSaves], ParentSends(k));
    NoIssue(es + [ChildSaves] + [ParentSends(k)], ChildReads(k));
    NoIssue(es + [ChildSaves] + [ParentSends(k)] + [ChildReads(k)], ChildAsks);
  }

  lemma IssuesOfSecond(first: seq<Event>, b: seq<Issued>, c: seq<Issued>, d: seq<Issued>)
    ensures Issues(SecondHalf(first, b, c, d)) == Issues(first) + b + c + d
  {
    MoreIssues(first, b);
    var es := first + Executes(b);
    NoIssue(es, ParentAnswers(true));
    NoIssue(es + [ParentAnswers(true)], ChildGetsAck);
    es := es + [ParentAnswers(true)] + [ChildGetsAck];
    MoreIssues(es, c);
    NoIssue(es + Executes(c), ChildFinishes);
    MoreIssues(es + Executes(c) + [ChildFinishes], d);
  }

  /** The child of a rewrite that has just begun can succeed. */
  lemma ChildCanSucceed<S>(w: World<S>, s: State<S>, a: seq<Issued>, b: seq<Issued>, c: seq<Issued>, d: seq<Issued>)
    returns (es: seq<Event>)
    requires s.node.rewrite == Some(NEW_CHILD)
    requires AllLoggable(a, w.known) && AllLoggable(b, w.known) && AllLoggable(c, w.known) && AllLoggable(d, w.known)
    ensures Possible(w, s, es) && AllWithin(es) && Issues(es) == a + b + c + d
    ensures var r := After(w, s, es).node.rewrite;
            && r.Some? && r.value.phase == ChildExit(true)
            && r.value.tmp == EncodeAll(s.history.snapshot) + Fed(s, a)
  {
    var diff := Fed(s, a);
    var first := FirstHalf(a, |diff|);
    es := SecondHalf(first, b, c, d);
    ChildAsksToStop(w, s, a);
    ChildIsDone(w, s, first, diff, b, c, d);
    IssuesOfFirst(a, |diff|);
    IssuesOfSecond(first, b, c, d);
  }

  lemma ReapedRun<S(!new)>(w: World<S>, run: seq<State<S>>, start: Event, es: seq<Event>) returns (more: seq<State<S>>)
    requires IsRun(w, run) && Enabled(w, run[|run| - 1], start)
    requires var t := Apply(w, run[|run| - 1], start);
             Possible(w, t, es) && Enabled(w, After(w, t, es), ParentReaps(true, true))
    ensures IsRun(w, more) && run <= more && |more| > |run| + 1
    ensures var t := After(w, Apply(w, run[|run| - 1], start), es);
            more[|more| - 2] == t && more[|more| - 1] == Apply(w, t, ParentReaps(true, true))
  {
    var t := Apply(w, run[|run| - 1], start);
    LongerRun(w, run, start);
    var path := PathContinues(w, run + [t], es);
    LongerRun(w, path, ParentReaps(true, true));
    more := path + [Apply(w, path[|path| - 1], ParentReaps(true, true))];
    PrefixOfMore(run, t, path, more);
  }

  lemma WrittenByChild(off: bool, cmds: seq<Command>, a: seq<Issued>)
    ensures EncodeAll(NewLog(off, cmds, a)) == EncodeAll(cmds) + (if off then [] else EncodeAll(LoggedAll(-1, a)))
  {
    JoinedTogether(cmds, LoggedAll(-1, a), Encode);
    assert EncodeAll(cmds) + [] == EncodeAll(cmds);
  }

  /** From every state of every run in which a rewrite can be started there is a run in which it
      succeeds, with any commands executed while the child writes the snapshot, before the parent
      answers, before the child finishes and before it is reaped. The first of them reach the file
      through the pipe and the child, the others from the parent's buffer. */
  lemma RewriteCanSucceed<S(!new)>(w: World<S>, run: seq<State<S>>, start: Event, cmds: seq<Command>,
                                   a: seq<Issued>, b: seq<Issued>, c: seq<Issued>, d: seq<Issued>)
    returns (more: seq<State<S>>)
    requires Sound(w) && IsRun(w, run) && Starts(w, run[|run| - 1], start, cmds)
    requires AllLoggable(a, w.known) && AllLoggable(b, w.known) && AllLoggable(c, w.known) && AllLoggable(d, w.known)
    ensures IsRun(w, more) && run <= more && |more| > |run| + 1
    ensures var s, off := run[|run| - 1], start.Fork? && run[|run| - 1].node.mode.Off?;
            && Rewritten(w, s, more[|more| - 1], off, cmds, a + b + c + d)
            && var r := more[|more| - 2].node.rewrite;
               r.Some? && r.value.tmp == EncodeAll(NewLog(off, cmds, a))
  {
    var s := run[|run| - 1];
    StartedWith(w, s, start, cmds);
    var es := ChildCanSucceed(w, Apply(w, s, start), a, b, c, d);
    RewriteResult(w, run, start, cmds, es);
    more := ReapedRun(w, run, start, es);
    WrittenByChild(start.Fork? && s.node.mode.Off?, cmds, a);
  }

  // ---- switching the AOF on and off ----

  /** While the AOF waits for its first rewrite nothing is added to the old file. */
  lemma {:induction false} WaitingLogsNothing<S>(w: World<S>, s: State<S>, es: seq<Event>)
    requires s.node.mode.Wait? && Possible(w, s, es) && AllWithin(es)
    ensures var t := After(w, s, es).node;
            t.mode == Wait && t.file + t.buf == s.node.file + s.node.buf
    decreases |es|
  {
    if es != [] {
      if es[0].Flush? {
        var n, k := s.node, es[0].n;
        AppendTwice(n.file, n.buf[..k], n.buf[k..]);
        assert n.buf[..k] + n.buf[k..] == n.buf;
      }
      WaitingLogsNothing(w, Apply(w, s, es[0]), es[1..]);
    }
  }

  /** A log that is flushed when it is switched off is a log of the dataset. */
  lemma StoppedLogIsDataset<S(!new)>(w: World<S>, run: seq<State<S>>, i: nat)
    requires Sound(w) && IsRun(w, run) && i < |run| && run[i].node.mode.On?
    ensures var n := run[i].node;
            var t := Apply(w, run[i], StopAppendOnly(|n.buf|)).node;
            && t.mode == Off && t.rewrite == None && t.dataset == n.dataset
            && Meaning(w, Recovered(w, t.file)) == n.dataset
  {
    var n := run[i].node;
    LogIsDataset(w, run, i);
    assert n.buf[..|n.buf|] == n.buf;
  }
}
