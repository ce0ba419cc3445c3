/**
 Recovery of a cut log that holds MULTI/EXEC blocks.

 A cut between two commands of a block drops the whole block from the file. A cut inside a
 command of a block keeps the block's whole commands in the file, behind a MULTI without an
 EXEC. What is appended later is read inside that open block: single commands are queued, and
 are lost if nothing closes it; the EXEC of the first block that is appended runs them, together
 with the half block that the recovery had not executed.
*/
module AofTransactions {
  import opened AofLoad
  import opened AofProtocol
  import opened AofRecovery
  import opened LogReplay
  import opened LogScan
  import opened Sequences

  /** The cut falls inside a command of a block whose MULTI was read. */
  predicate CutInsideBlock(entries: seq<Entry>, n: nat) {
    var whole := WholeCommands(Flat(entries), n);
    PlaceOf(entries, |whole|).part > 0 && n != |EncodeAll(whole)|
  }

  /** The entries read in full. */
  function WholeEntries(entries: seq<Entry>, n: nat): seq<Entry> {
    entries[..PlaceOf(entries, |WholeCommands(Flat(entries), n)|).whole]
  }

  /** The commands left in the file. */
  function KeptCommands(entries: seq<Entry>, n: nat): seq<Command> {
    var whole := WholeCommands(Flat(entries), n);
    if n == |EncodeAll(whole)| then Flat(WholeEntries(entries, n)) else whole
  }

  /** The commands read of the entry that was cut, after its MULTI. */
  function HalfBlock(entries: seq<Entry>, n: nat): seq<Command> {
    var p := PlaceOf(entries, |WholeCommands(Flat(entries), n)|);
    if p.part > 0 then entries[p.whole].Commands()[1..p.part] else []
  }

  lemma PrefixEncoding(cmds: seq<Command>, j: nat)
    requires j <= |cmds|
    ensures EncodeAll(cmds[..j]) <= EncodeAll(cmds)
  {
    JoinedTogether(cmds[..j], cmds[j..], Encode);
    assert cmds[..j] + cmds[j..] == cmds;
  }

  lemma EncodeNotEmpty()
    ensures forall c: Command :: Encode(c) != []
  {
  }

  /** The state of the loader at the cut. */
  lemma StateAtCut(entries: seq<Entry>, n: nat)
    requires AOF.AllValid(entries)
    ensures var whole := WholeCommands(Flat(entries), n);
            var r := Replayed(START, whole, 0);
            var done := WholeEntries(entries, n);
            && r.executed == Effects(done) && r.validUpTo == |EncodeAll(whole)|
            && r.open == (PlaceOf(entries, |whole|).part > 0)
            && (r.open ==> r.beforeMulti == |EncodeAll(Flat(done))| < |EncodeAll(whole)|)
            && (r.open ==> r.queued == HalfBlock(entries, n))
            && (!r.open ==> Flat(done) == whole)
            && Flat(done) <= whole
  {
    var k := Whole(Flat(entries), n, Encode);
    EncodeNotEmpty();
    AOF.RunToPlace(entries, k);
    LocateSplits(entries, k, CommandsOf());
  }

  /** Only whole entries take effect. The file is cut back to the last of them, except when
      the cut is inside a command of a block: then the block's whole commands stay. */
  lemma TransactionRecovery(entries: seq<Entry>, n: nat, known: Command -> bool)
    requires AOF.AllValid(entries) && AllSized(Flat(entries)) && AllKnown(Flat(entries), known)
    requires 0 < n <= |EncodeAll(Flat(entries))|
    ensures var o := LoadFile(EncodeAll(Flat(entries))[..n], true, known);
            && o.executed == Effects(WholeEntries(entries, n))
            && o.kept == |EncodeAll(KeptCommands(entries, n))|
            && (o.kept == |EncodeAll(Flat(WholeEntries(entries, n)))| <==> !CutInsideBlock(entries, n))
  {
    LoadFilePrefix(Flat(entries), n, true, known);
    StateAtCut(entries, n);
  }

  lemma KeptBytes(entries: seq<Entry>, n: nat)
    requires AOF.AllValid(entries) && n <= |EncodeAll(Flat(entries))|
    ensures var kept := KeptCommands(entries, n);
            && kept <= Flat(entries)
            && |EncodeAll(kept)| <= n && EncodeAll(Flat(entries))[..n][..|EncodeAll(kept)|] == EncodeAll(kept)
  {
    var whole, done := WholeCommands(Flat(entries), n), WholeEntries(entries, n);
    StateAtCut(entries, n);
    KeptIsEncoding(Flat(entries), n);
    PrefixEncoding(whole, |Flat(done)|);
    assert whole[..|Flat(done)|] == Flat(done);
  }

  /** The kept commands, as bytes and as a state of the loader. */
  lemma KeptState(entries: seq<Entry>, n: nat)
    requires AOF.AllValid(entries) && n <= |EncodeAll(Flat(entries))|
    ensures var kept := KeptCommands(entries, n);
            var r := Replayed(START, kept, 0);
            && r.executed == Effects(WholeEntries(entries, n))
            && r.validUpTo == |EncodeAll(kept)|
            && r.open == CutInsideBlock(entries, n)
            && (r.open ==> r.queued == HalfBlock(entries, n))
            && (r.open ==> r.beforeMulti == |EncodeAll(Flat(WholeEntries(entries, n)))|)
            && kept <= Flat(entries)
            && |EncodeAll(kept)| <= n && EncodeAll(Flat(entries))[..n][..|EncodeAll(kept)|] == EncodeAll(kept)
  {
    var done := WholeEntries(entries, n);
    KeptBytes(entries, n);
    StateAtCut(entries, n);
    AOF.RunEntries(START, done, 0);
    assert START.executed + Effects(done) == Effects(done);
  }

  lemma ReloadAll(cmds: seq<Command>, known: Command -> bool)
    requires AllSized(cmds) && AllKnown(cmds, known)
    ensures LoadFile(EncodeAll(cmds), true, known).executed == Replayed(START, cmds, 0).executed
    ensures cmds != [] ==>
              LoadFile(EncodeAll(cmds), true, known) == AtEof(Replayed(START, cmds, 0), true, |EncodeAll(cmds)|)
  {
    var n := |EncodeAll(cmds)|;
    if cmds == [] {
      AOF.RunNone(START, 0);
    } else {
      WholeOfAll(cmds, Encode);
      assert EncodeAll(cmds)[..n] == EncodeAll(cmds) && WholeCommands(cmds, n) == cmds;
      assert EncodeAll(cmds) == Encode(cmds[0]) + Joined(cmds[1..], Encode);
      LoadFilePrefix(cmds, n, true, known);
    }
  }

  /** Loading the bytes of `kept` with those of `more` behind them. */
  lemma ReloadWithMore(kept: seq<Command>, more: seq<Command>, known: Command -> bool)
    requires AllSized(kept + more) && AllKnown(kept + more, known)
    ensures var r := Replayed(START, kept + more, 0);
            var o := LoadFile(EncodeAll(kept) + EncodeAll(more), true, known);
            o.executed == r.executed && (r.open ==> o.kept == r.beforeMulti)
  {
    JoinedTogether(kept, more, Encode);
    ReloadAll(kept + more, known);
    if kept + more == [] {
      AOF.RunNone(START, 0);
    }
  }

  /** What the load after a recovery executes of the log behind the recovered part, if the server
      has appended the entries `added`. */
  function ExecutedOf(entries: seq<Entry>, n: nat, added: seq<Entry>): seq<Command> {
    if CutInsideBlock(entries, n) then Resumed(HalfBlock(entries, n), added) else Effects(added)
  }

  /** What the server appends after a recovery, single commands and blocks, does by the next load
      what it did the first time if and only if the log was not cut inside a command of a block.
      Otherwise it is lost, or runs together with the half block. */
  lemma AppendsSurviveRecovery(entries: seq<Entry>, n: nat, added: seq<Entry>, known: Command -> bool)
    requires AOF.AllValid(entries) && AllSized(Flat(entries)) && AllKnown(Flat(entries), known)
    requires 0 < n <= |EncodeAll(Flat(entries))|
    requires AOF.AllValid(added) && AllSized(Flat(added)) && AllKnown(Flat(added), known)
    ensures var file := EncodeAll(Flat(entries))[..n];
            var o := LoadFile(file, true, known);
            && o.kept <= n
            && var next := LoadFile(file[..o.kept] + EncodeAll(Flat(added)), true, known);
            && next.executed == o.executed + ExecutedOf(entries, n, added)
            && (next.executed == o.executed + Effects(added) <==> added == [] || !CutInsideBlock(entries, n))
            && (CutInsideBlock(entries, n) && FirstBlock(added) == |added| ==>
                  next.kept == |EncodeAll(Flat(WholeEntries(entries, n)))|)
  {
    var kept := KeptCommands(entries, n);
    TransactionRecovery(entries, n, known);
    KeptState(entries, n);
    KeptAreGood(entries, kept, Flat(added), known);
    AOF.RunMore(kept, added, Effects(WholeEntries(entries, n)) + ExecutedOf(entries, n, added));
    ReloadWithMore(kept, Flat(added), known);
    DiffersIfOpen(Effects(WholeEntries(entries, n)), entries, n, added);
  }

  lemma DiffersIfOpen(executed: seq<Command>, entries: seq<Entry>, n: nat, added: seq<Entry>)
    ensures executed + ExecutedOf(entries, n, added) == executed + Effects(added) <==>
              added == [] || !CutInsideBlock(entries, n)
  {
    if added != [] {
      ResumedDiffers(HalfBlock(entries, n), added);
    }
  }

  lemma KeptAreGood(entries: seq<Entry>, kept: seq<Command>, more: seq<Command>, known: Command -> bool)
    requires AllSized(Flat(entries)) && AllKnown(Flat(entries), known) && kept <= Flat(entries)
    requires AllSized(more) && AllKnown(more, known)
    ensures AllSized(kept + more) && AllKnown(kept + more, known)
  {
    assert forall i :: 0 <= i < |kept| ==> kept[i] == Flat(entries)[i];
  }

  // ---- such cuts exist ----

  /** The whole commands before a cut inside command `j` of entry `i`. */
  function BeforeCut(entries: seq<Entry>, i: nat, j: nat): seq<Command>
    requires i < |entries| && j <= |entries[i].Commands()|
  {
    Flat(entries[..i]) + entries[i].Commands()[..j]
  }

  /** Every cut inside a command after the MULTI of any block, in any log, is such a cut. */
  lemma CutsInside(entries: seq<Entry>, i: nat, j: nat, m: nat)
    requires i < |entries| && 0 < j < |entries[i].Commands()| && 0 < m < |Encode(entries[i].Commands()[j])|
    ensures var n := |EncodeAll(BeforeCut(entries, i, j))| + m;
            && n <= |EncodeAll(Flat(entries))| && CutInsideBlock(entries, n)
            && WholeEntries(entries, n) == entries[..i] && KeptCommands(entries, n) == BeforeCut(entries, i, j)
            && HalfBlock(entries, n) == entries[i].Commands()[1..j]
  {
    var done := BeforeCut(entries, i, j);
    AOF.CutAt(entries, i, j, m, CommandsOf());
    assert WholeCommands(Flat(entries), |EncodeAll(done)| + m) == done;
  }

  /** A cut inside command `j` of block `i` of any log, and then any appended entries. Without a
      block among them nothing of them is executed, and the next load cuts them off the file.
      With one, the commands of the cut block, which the recovery did not execute, run with them. */
  lemma AppendsAfterCut(entries: seq<Entry>, i: nat, j: nat, m: nat, n: nat, added: seq<Entry>, known: Command -> bool)
    requires AOF.AllValid(entries) && AllSized(Flat(entries)) && AllKnown(Flat(entries), known)
    requires i < |entries| && 0 < j < |entries[i].Commands()| && 0 < m < |Encode(entries[i].Commands()[j])|
    requires n == |EncodeAll(BeforeCut(entries, i, j))| + m
    requires AOF.AllValid(added) && AllSized(Flat(added)) && AllKnown(Flat(added), known)
    ensures n <= |EncodeAll(Flat(entries))|
    ensures var file := EncodeAll(Flat(entries))[..n];
            var o := LoadFile(file, true, known);
            && o.kept == |EncodeAll(BeforeCut(entries, i, j))| <= n
            && o.executed == Effects(entries[..i])
            && var next := LoadFile(file[..o.kept] + EncodeAll(Flat(added)), true, known);
            && next.executed == Effects(entries[..i]) + Resumed(entries[i].Commands()[1..j], added)
            && (FirstBlock(added) == |added| ==>
                  next.executed == Effects(entries[..i]) && next.kept == |EncodeAll(Flat(entries[..i]))|)
  {
    CutsInside(entries, i, j, m);
    TransactionRecovery(entries, n, known);
    AppendsSurviveRecovery(entries, n, added, known);
    NothingResumed(Effects(entries[..i]), entries[i].Commands()[1..j], added);
  }

  const INCR: Command := [[73, 78, 67, 82], [107]]

  /** MULTI, INCR k, EXEC. */
  const ONE_BLOCK: Entry := Block([MULTI], [INCR], [EXEC])

  lemma OneBlockIsValid(known: Command -> bool)
    requires known([MULTI]) && known(INCR) && known([EXEC])
    ensures ONE_BLOCK.Commands() == [[MULTI], INCR, [EXEC]] == Flat([ONE_BLOCK])
    ensures AOF.AllValid([ONE_BLOCK]) && AllSized(Flat([ONE_BLOCK])) && AllKnown(Flat([ONE_BLOCK]), known)
    ensures AOF.AllValid([One(INCR)]) && AllSized([INCR]) && AllKnown([INCR], known)
    ensures BeforeCut([ONE_BLOCK], 0, 1) == [[MULTI]] && BeforeCut([ONE_BLOCK], 0, 2) == [[MULTI], INCR]
    ensures Effects([ONE_BLOCK][..0]) == [] && Flat([One(INCR)]) == [INCR]
  {
    KindsOfOneBlock();
    FlatOne(ONE_BLOCK);
    FlatOne(One(INCR));
    assert [ONE_BLOCK][..0] == [];
  }

  lemma KindsOfOneBlock()
    ensures KindOf([MULTI]).Multi? && KindOf([EXEC]).Exec? && KindOf(INCR).Plain?
  {
    assert Lower([MULTI][0]) == MULTI && Lower([EXEC][0]) == EXEC;
    assert Lower(INCR[0])[0] == 105;
  }

  lemma FlatOne(e: Entry)
    ensures Flat([e]) == e.Commands()
  {
    assert [e][1..] == [] && Flat([e]) == e.Commands() + Flat([]);
  }

  /** A log of that block is cut one byte into the INCR. The file is truncated to the MULTI, and
      the INCR k that the server logs next is not executed by the load after that, which removes
      it from the file. */
  lemma AppendIsLost(n: nat, known: Command -> bool)
    requires n == |EncodeAll([[MULTI]])| + 1 && known([MULTI]) && known(INCR) && known([EXEC])
    ensures n <= |EncodeAll(Flat([ONE_BLOCK]))|
    ensures var file := EncodeAll(Flat([ONE_BLOCK]))[..n];
            var o := LoadFile(file, true, known);
            && o.executed == [] && o.kept == |EncodeAll([[MULTI]])| <= n
            && var next := LoadFile(file[..o.kept] + EncodeAll([INCR]), true, known);
            next.executed == [] && next.kept == 0
  {
    OneBlockIsValid(known);
    AppendsAfterCut([ONE_BLOCK], 0, 1, 1, n, [One(INCR)], known);
  }

  /** The same log is cut one byte into the EXEC, so that the recovery does not execute the INCR.
      Then the server logs the same block again. The next load runs both, and the MULTI between. */
  lemma HalfBlockRuns(n: nat, known: Command -> bool)
    requires n == |EncodeAll([[MULTI], INCR])| + 1 && known([MULTI]) && known(INCR) && known([EXEC])
    ensures n <= |EncodeAll(Flat([ONE_BLOCK]))|
    ensures var file := EncodeAll(Flat([ONE_BLOCK]))[..n];
            var o := LoadFile(file, true, known);
            && o.executed == [] && o.kept == |EncodeAll([[MULTI], INCR])| <= n
            && LoadFile(file[..o.kept] + EncodeAll(Flat([ONE_BLOCK])), true, known).executed == [INCR, [MULTI], INCR]
  {
    OneBlockIsValid(known);
    AppendsAfterCut([ONE_BLOCK], 0, 2, 1, n, [ONE_BLOCK], known);
    assert ONE_BLOCK.Commands()[1..2] == [INCR] && [ONE_BLOCK][1..] == [];
  }
}
