/**
 The effect of the commands of a log on the loader, for any classification of commands and
 any printer. Entries are single commands and MULTI/EXEC blocks.
*/
module LogReplay {
  import opened LogScan
  import opened Sequences

  /** A command is its argument vector; arguments are arbitrary bytes. */
  type Command = seq<Bytes>

  datatype Kind = Multi | Exec | Plain

  /** What has been executed, the commands queued by an open MULTI, and the offsets
      valid_up_to and valid_before_multi. */
  datatype Replay = Replay(executed: seq<Command>, open: bool, queued: seq<Command>, validUpTo: nat, beforeMulti: nat)

  const START: Replay := Replay([], false, [], 0, 0)

  /** Lines 787-810 for a command of kind `k` that ends at offset `next`. */
  function StepOf(k: Kind, r: Replay, cmd: Command, next: nat): Replay {
    var m := if k.Multi? then r.(beforeMulti := r.validUpTo) else r;
    var x :=
      if m.open && !k.Exec? then m.(queued := m.queued + [cmd])
      else match k
           case Multi => m.(open := true, queued := [])
           case Exec => m.(executed := m.executed + m.queued, open := false, queued := [])
           case Plain => m.(executed := m.executed + [cmd]);
    x.(validUpTo := next)
  }

  type Stepper = (Replay, Command, nat) -> Replay

  datatype Entry = One(cmd: Command) | Block(multi: Command, body: seq<Command>, exec: Command) {
    function Commands(): seq<Command> {
      match this
      case One(cmd) => [cmd]
      case Block(multi, body, exec) => [multi] + body + [exec]
    }

    /** What executing the entry executes. */
    function Effect(): seq<Command> {
      if One? then [cmd] else body
    }
  }

  function CommandsOf(): Entry -> seq<Command> {
    (e: Entry) => e.Commands()
  }

  function EffectOf(): Entry -> seq<Command> {
    (e: Entry) => e.Effect()
  }

  function Flat(entries: seq<Entry>): seq<Command> {
    Joined(entries, CommandsOf())
  }

  function Effects(entries: seq<Entry>): seq<Command> {
    Joined(entries, EffectOf())
  }

  /** Where the first `k` commands of a log end: after so many entries and a part of the next. */
  function PlaceOf(entries: seq<Entry>, k: nat): (p: Place)
    ensures p.whole <= |entries|
    ensures p.part > 0 ==> p.whole < |entries| && p.part < |entries[p.whole].Commands()|
  {
    Locate(entries, k, CommandsOf())
  }

  /** The index of the first block, or the number of entries. */
  function FirstBlock(entries: seq<Entry>): (b: nat)
    ensures b <= |entries| && (b < |entries| ==> entries[b].Block?)
    ensures forall j :: 0 <= j < b ==> entries[j].One?
  {
    if entries == [] || entries[0].Block? then 0
    else
      var b := FirstBlock(entries[1..]);
      assert forall j :: 1 <= j < 1 + b ==> entries[j] == entries[1..][j - 1];
      1 + b
  }

  /** What is executed when entries follow a MULTI that was never closed, behind which `queued`
      waits: nothing without a block among them. Otherwise the EXEC of the first block runs all
      that was queued until then, the MULTI of that block included, and the rest is as usual. (A
      MULTI that runs inside a transaction does nothing.) */
  function Resumed(queued: seq<Command>, entries: seq<Entry>): seq<Command> {
    var b := FirstBlock(entries);
    if b == |entries| then []
    else queued + Flat(entries[..b]) + ([entries[b].multi] + entries[b].body) + Effects(entries[b + 1..])
  }

  /** What the loader in state `r` executes when the entries follow. */
  function After(r: Replay, entries: seq<Entry>): seq<Command> {
    if r.open then Resumed(r.queued, entries) else Effects(entries)
  }

  lemma Regroup(a: seq<Command>, q: seq<Command>, x: seq<Command>, y: seq<Command>, z: seq<Command>)
    ensures a + ((q + x) + y) + z == a + (q + x + y + z)
  {
  }

  lemma ResumedIs(executed: seq<Command>, queued: seq<Command>, entries: seq<Entry>, b: nat)
    returns (total: seq<Command>)
    requires b == FirstBlock(entries) < |entries|
    ensures total == executed + Resumed(queued, entries)
    ensures total == executed + ((queued + Flat(entries[..b])) + ([entries[b].multi] + entries[b].body))
                     + Effects(entries[b + 1..])
  {
    var x, y, z := Flat(entries[..b]), [entries[b].multi] + entries[b].body, Effects(entries[b + 1..]);
    total := executed + Resumed(queued, entries);
    Regroup(executed, queued, x, y, z);
  }

  lemma NothingResumed(executed: seq<Command>, queued: seq<Command>, entries: seq<Entry>)
    ensures FirstBlock(entries) == |entries| ==> executed + Resumed(queued, entries) == executed
  {
  }

  lemma {:induction false} OnesAreFlat(entries: seq<Entry>)
    requires forall j :: 0 <= j < |entries| ==> entries[j].One?
    ensures Flat(entries) == Effects(entries) && |Flat(entries)| == |entries|
  {
    if entries != [] {
      OnesAreFlat(entries[1..]);
    }
  }

  lemma EffectsAround(entries: seq<Entry>, b: nat)
    requires b < |entries|
    ensures Effects(entries) == Effects(entries[..b]) + (entries[b].Effect() + Effects(entries[b + 1..]))
  {
    JoinedSplit(entries, b, EffectOf());
  }

  /** That is never what the entries do on their own. */
  lemma ResumedDiffers(queued: seq<Command>, entries: seq<Entry>)
    requires entries != []
    ensures |Resumed(queued, entries)| != |Effects(entries)|
  {
    var b := FirstBlock(entries);
    OnesAreFlat(entries[..b]);
    if b == |entries| {
      assert entries[..b] == entries;
    } else {
      EffectsAround(entries, b);
    }
  }

  /** Inside a block that began at offset `start`. */
  ghost predicate OpenAt(r: Replay, executed: seq<Command>, start: nat, pos: nat) {
    r.open && r.executed == executed && r.beforeMulti == start && r.validUpTo == pos
  }

  /** Outside any block, with all of the file so far valid. */
  ghost predicate ClosedAt(r: Replay, executed: seq<Command>, pos: nat) {
    !r.open && r.executed == executed && r.validUpTo == pos
  }

  datatype Log = Log(kind: Command -> Kind, enc: Command -> Bytes) {

    function Step(): Stepper {
      (r: Replay, cmd: Command, next: nat) => StepOf(kind(cmd), r, cmd, next)
    }

    function Run(r: Replay, cmds: seq<Command>, pos: nat): Replay {
      RunAll(r, cmds, pos, enc, Step())
    }

    function Size(cmds: seq<Command>): nat {
      |Joined(cmds, enc)|
    }

    ghost predicate AllPlain(cmds: seq<Command>) {
      forall i :: 0 <= i < |cmds| ==> kind(cmds[i]).Plain?
    }

    ghost predicate ValidEntry(e: Entry) {
      match e
      case One(cmd) => kind(cmd).Plain?
      case Block(multi, body, exec) => kind(multi).Multi? && AllPlain(body) && kind(exec).Exec?
    }

    ghost predicate AllValid(entries: seq<Entry>) {
      forall i :: 0 <= i < |entries| ==> ValidEntry(entries[i])
    }

    lemma RunThen(r: Replay, cmds: seq<Command>, more: seq<Command>, pos: nat)
      ensures Run(r, cmds + more, pos) == Run(Run(r, cmds, pos), more, pos + Size(cmds))
      ensures Size(cmds + more) == Size(cmds) + Size(more)
    {
      RunAllSplit(r, cmds, more, pos, enc, Step());
      JoinedTogether(cmds, more, enc);
    }

    lemma RunOne(r: Replay, cmd: Command, pos: nat)
      ensures Run(r, [cmd], pos) == StepOf(kind(cmd), r, cmd, pos + |enc(cmd)|)
      ensures Size([cmd]) == |enc(cmd)|
    {
      assert [cmd][1..] == [] && [cmd][0] == cmd;
      assert Run(r, [cmd], pos) == RunAll(Step()(r, cmd, pos + |enc(cmd)|), [], pos + |enc(cmd)|, enc, Step());
      assert Joined([cmd], enc) == enc(cmd) + Joined([], enc);
    }

    lemma RunNone(r: Replay, pos: nat)
      ensures Run(r, [], pos) == r && Size([]) == 0
    {
    }

    lemma {:induction false} RunPlain(r: Replay, cmds: seq<Command>, pos: nat)
      requires AllPlain(cmds) && r.validUpTo == pos
      ensures Run(r, cmds, pos) ==
                if r.open then r.(queued := r.queued + cmds, validUpTo := pos + Size(cmds))
                else r.(executed := r.executed + cmds, validUpTo := pos + Size(cmds))
      decreases |cmds|
    {
      if cmds == [] {
        RunNone(r, pos);
        assert r.executed + [] == r.executed && r.queued + [] == r.queued;
      } else {
        var c, rest := cmds[0], cmds[1..];
        assert [c] + rest == cmds;
        RunOne(r, c, pos);
        RunThen(r, [c], rest, pos);
        RunPlain(Run(r, [c], pos), rest, pos + |enc(c)|);
        assert r.executed + [c] + rest == r.executed + cmds && r.queued + [c] + rest == r.queued + cmds;
      }
    }

    lemma RunPlainFromStart(cmds: seq<Command>)
      requires AllPlain(cmds)
      ensures Run(START, cmds, 0) == Replay(cmds, false, [], Size(cmds), 0)
    {
      RunPlain(START, cmds, 0);
      assert START.executed + cmds == cmds;
    }

    /** After the MULTI and some commands of a block. */
    lemma RunIntoBlock(r: Replay, multi: Command, cmds: seq<Command>, pos: nat)
      requires kind(multi).Multi? && AllPlain(cmds) && !r.open && r.validUpTo == pos
      ensures var r' := Run(r, [multi] + cmds, pos);
              OpenAt(r', r.executed, pos, pos + Size([multi] + cmds)) && r'.queued == cmds
    {
      RunOne(r, multi, pos);
      RunThen(r, [multi], cmds, pos);
      RunPlain(Run(r, [multi], pos), cmds, pos + |enc(multi)|);
      assert [] + cmds == cmds;
    }

    lemma RunEntry(r: Replay, e: Entry, pos: nat)
      requires ValidEntry(e) && !r.open && r.validUpTo == pos
      ensures ClosedAt(Run(r, e.Commands(), pos), r.executed + e.Effect(), pos + Size(e.Commands()))
    {
      match e {
        case One(cmd) => RunOne(r, cmd, pos);
        case Block(multi, body, exec) =>
          var head := [multi] + body;
          RunIntoBlock(r, multi, body, pos);
          RunThen(r, head, [exec], pos);
          RunOne(Run(r, head, pos), exec, pos + Size(head));
      }
    }

    lemma ClosedThen(r: Replay, cmds: seq<Command>, more: seq<Command>, pos: nat, executed: seq<Command>)
      requires ClosedAt(Run(Run(r, cmds, pos), more, pos + Size(cmds)), executed, pos + Size(cmds) + Size(more))
      ensures ClosedAt(Run(r, cmds + more, pos), executed, pos + Size(cmds + more))
    {
      RunThen(r, cmds, more, pos);
    }

    lemma {:induction false} RunEntries(r: Replay, entries: seq<Entry>, pos: nat)
      requires AllValid(entries) && !r.open && r.validUpTo == pos
      ensures ClosedAt(Run(r, Flat(entries), pos), r.executed + Effects(entries), pos + Size(Flat(entries)))
      decreases |entries|
    {
      if entries == [] {
        RunNone(r, pos);
        assert r.executed + Effects(entries) == r.executed;
      } else {
        var cmds, rest := entries[0].Commands(), entries[1..];
        RunEntry(r, entries[0], pos);
        RunEntries(Run(r, cmds, pos), rest, pos + Size(cmds));
        ClosedThen(r, cmds, Flat(rest), pos, r.executed + entries[0].Effect() + Effects(rest));
        Associate(r.executed, entries[0].Effect(), Effects(rest));
      }
    }

    /** A block read inside an open one: its EXEC runs all that is queued, its own MULTI too. */
    lemma RunBlockInside(r: Replay, e: Entry, pos: nat)
      requires ValidEntry(e) && e.Block? && r.open && r.validUpTo == pos
      ensures var run := r.queued + ([e.multi] + e.body);
              ClosedAt(Run(r, e.Commands(), pos), r.executed + run, pos + Size(e.Commands()))
    {
      var head := [e.multi] + e.body;
      RunOne(r, e.multi, pos);
      RunThen(r, [e.multi], e.body, pos);
      RunPlain(Run(r, [e.multi], pos), e.body, pos + |enc(e.multi)|);
      Associate(r.queued, [e.multi], e.body);
      RunThen(r, head, [e.exec], pos);
      RunOne(Run(r, head, pos), e.exec, pos + Size(head));
    }

    lemma OnesArePlain(entries: seq<Entry>)
      requires AllValid(entries) && forall j :: 0 <= j < |entries| ==> entries[j].One?
      ensures AllPlain(Flat(entries))
      decreases |entries|
    {
      if entries != [] {
        OnesArePlain(entries[1..]);
      }
    }

    /** Single commands inside an open block are queued. */
    lemma RunOnesInside(r: Replay, entries: seq<Entry>, pos: nat)
      requires AllValid(entries) && (forall j :: 0 <= j < |entries| ==> entries[j].One?)
      requires r.open && r.validUpTo == pos
      ensures Run(r, Flat(entries), pos) ==
                r.(queued := r.queued + Flat(entries), validUpTo := pos + Size(Flat(entries)))
    {
      OnesArePlain(entries);
      RunPlain(r, Flat(entries), pos);
    }

    /** From the first block on. */
    lemma RunFromBlock(r: Replay, e: Entry, rest: seq<Entry>, pos: nat)
      requires ValidEntry(e) && e.Block? && AllValid(rest) && r.open && r.validUpTo == pos
      ensures var cmds := e.Commands() + Flat(rest);
              var run := r.queued + ([e.multi] + e.body);
              ClosedAt(Run(r, cmds, pos), r.executed + run + Effects(rest), pos + Size(cmds))
    {
      RunBlockInside(r, e, pos);
      RunEntries(Run(r, e.Commands(), pos), rest, pos + Size(e.Commands()));
      ClosedThen(r, e.Commands(), Flat(rest), pos, r.executed + (r.queued + ([e.multi] + e.body)) + Effects(rest));
    }

    /** Single commands and then a block. */
    lemma RunToBlock(r: Replay, ones: seq<Entry>, e: Entry, rest: seq<Entry>, pos: nat, total: seq<Command>)
      requires AllValid(ones) && (forall j :: 0 <= j < |ones| ==> ones[j].One?)
      requires ValidEntry(e) && e.Block? && AllValid(rest) && r.open && r.validUpTo == pos
      requires total == r.executed + ((r.queued + Flat(ones)) + ([e.multi] + e.body)) + Effects(rest)
      ensures var cmds := Flat(ones) + (e.Commands() + Flat(rest)); ClosedAt(Run(r, cmds, pos), total, pos + Size(cmds))
    {
      RunOnesInside(r, ones, pos);
      RunFromBlock(Run(r, Flat(ones), pos), e, rest, pos + Size(Flat(ones)));
      ClosedThen(r, Flat(ones), e.Commands() + Flat(rest), pos, total);
    }

    /** Entries inside an open block. Without a block among them it stays open, and nothing is
        executed. */
    lemma RunInside(r: Replay, entries: seq<Entry>, pos: nat)
      requires AllValid(entries) && r.open && r.validUpTo == pos
      ensures FirstBlock(entries) == |entries| ==>
                OpenAt(Run(r, Flat(entries), pos), r.executed, r.beforeMulti, pos + Size(Flat(entries)))
      ensures FirstBlock(entries) < |entries| ==>
                ClosedAt(Run(r, Flat(entries), pos), r.executed + Resumed(r.queued, entries), pos + Size(Flat(entries)))
    {
      var b := FirstBlock(entries);
      if b == |entries| {
        RunOnesInside(r, entries, pos);
      } else {
        var total := ResumedIs(r.executed, r.queued, entries, b);
        JoinedSplit(entries, b, CommandsOf());
        RunToBlock(r, entries[..b], entries[b], entries[b + 1..], pos, total);
      }
    }

    /** What `added` does to the loader in state `r`, when `total` is all that is executed then. */
    ghost predicate Ends(r: Replay, r': Replay, added: seq<Entry>, total: seq<Command>) {
      && r'.executed == total
      && r'.open == (r.open && FirstBlock(added) == |added|)
      && (r'.open ==> r'.beforeMulti == r.beforeMulti)
    }

    lemma RunOn(r: Replay, added: seq<Entry>, pos: nat, total: seq<Command>)
      requires AllValid(added) && r.validUpTo == pos && total == r.executed + After(r, added)
      ensures Ends(r, Run(r, Flat(added), pos), added, total)
    {
      if !r.open {
        RunEntries(r, added, pos);
      } else if FirstBlock(added) == |added| {
        NothingResumed(r.executed, r.queued, added);
        RunInside(r, added, pos);
      } else {
        RunInside(r, added, pos);
      }
    }

    /** The state after the entries `added` behind the commands `kept`. */
    lemma RunMore(kept: seq<Command>, added: seq<Entry>, total: seq<Command>)
      requires AllValid(added) && Run(START, kept, 0).validUpTo == Size(kept)
      requires total == Run(START, kept, 0).executed + After(Run(START, kept, 0), added)
      ensures Ends(Run(START, kept, 0), Run(START, kept + Flat(added), 0), added, total)
    {
      RunOn(Run(START, kept, 0), added, Size(kept), total);
      RunThen(START, kept, Flat(added), 0);
    }

    /** The state of the loader after the first `k` commands: inside a block exactly when part
        of an entry was read. */
    lemma RunToPlace(entries: seq<Entry>, k: nat)
      requires AllValid(entries) && k <= |Flat(entries)| && forall c :: enc(c) != []
      ensures var p := PlaceOf(entries, k);
              var cmds := Flat(entries)[..k];
              var closed := Size(Flat(entries[..p.whole]));
              if p.part > 0
              then && OpenAt(Run(START, cmds, 0), Effects(entries[..p.whole]), closed, Size(cmds))
                   && closed < Size(cmds) && Run(START, cmds, 0).queued == entries[p.whole].Commands()[1..p.part]
              else ClosedAt(Run(START, cmds, 0), Effects(entries[..p.whole]), Size(cmds)) && closed == Size(cmds)
    {
      var p := PlaceOf(entries, k);
      LocateSplits(entries, k, CommandsOf());
      RunEntries(START, entries[..p.whole], 0);
      assert START.executed + Effects(entries[..p.whole]) == Effects(entries[..p.whole]);
      if p.part > 0 {
        RunPart(Flat(entries[..p.whole]), entries[p.whole], p.part);
      } else {
        assert Flat(entries)[..k] == Flat(entries[..p.whole]);
      }
    }

    /** A cut inside command `j` of entry `i`, for any way to cut a log into entries. */
    lemma CutAt<E>(entries: seq<E>, i: nat, j: nat, m: nat, chunk: E -> seq<Command>)
      requires i < |entries| && j < |chunk(entries[i])| && 0 < m < |enc(chunk(entries[i])[j])|
      ensures var done, all := Joined(entries[..i], chunk) + chunk(entries[i])[..j], Joined(entries, chunk);
              && Whole(all, Size(done) + m, enc) == |done| && all[..|done|] == done && Size(done) + m <= Size(all)
              && Locate(entries, |done|, chunk) == Place(i, j)
    {
      var c := chunk(entries[i]);
      JoinedAround(entries, i, j, chunk);
      CutInItem(Joined(entries[..i], chunk) + c[..j], c[j], c[j + 1..] + Joined(entries[i + 1..], chunk), m, enc);
      LocateAt(entries, i, j, chunk);
    }

    lemma RunPart(done: seq<Command>, e: Entry, j: nat)
      requires !Run(START, done, 0).open && Run(START, done, 0).validUpTo == Size(done)
      requires ValidEntry(e) && 0 < j < |e.Commands()| && forall c :: enc(c) != []
      ensures var cmds := done + e.Commands()[..j];
              && OpenAt(Run(START, cmds, 0), Run(START, done, 0).executed, Size(done), Size(cmds))
              && Size(done) < Size(cmds) && Run(START, cmds, 0).queued == e.Commands()[1..j]
    {
      var head, body := [e.multi], e.body[..j - 1];
      assert e.Commands()[..j] == head + body && e.Commands()[1..j] == body;
      RunIntoBlock(Run(START, done, 0), e.multi, body, Size(done));
      RunThen(START, done, head + body, 0);
      RunThen(START, head, body, 0);
      RunOne(START, e.multi, 0);
    }
  }
}
