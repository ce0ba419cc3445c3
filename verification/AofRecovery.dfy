/**
 What loading a log that was cut anywhere recovers, and the round trip of a whole log.
*/
module AofRecovery {
  import opened AofProtocol
  import opened AofLoad
  import opened LogReplay
  import opened LogScan
  import opened Sequences

  /** The whole commands in the first `n` bytes of a log. */
  function WholeCommands(cmds: seq<Command>, n: nat): seq<Command> {
    cmds[..Whole(cmds, n, Encode)]
  }

  /** The state of the loader after the commands `cmds`. */
  function Replayed(r: Replay, cmds: seq<Command>, pos: nat): Replay {
    AOF.Run(r, cmds, pos)
  }

  ghost predicate AllKnown(cmds: seq<Command>, known: Command -> bool) {
    forall i :: 0 <= i < |cmds| ==> known(cmds[i])
  }

  lemma ParseCommandReads(cmds: seq<Command>)
    requires AllSized(cmds)
    ensures Reads(cmds, Encode, ParseCommand)
  {
    forall i, rest: Bytes | 0 <= i < |cmds|
      ensures ParseCommand(Encode(cmds[i]) + rest) == Ok(cmds[i], |Encode(cmds[i])|)
    {
      WholeCommand(cmds[i], rest);
    }
    forall i, m: nat | 0 <= i < |cmds| && 0 < m < |Encode(cmds[i])|
      ensures ParseCommand(Encode(cmds[i])[..m]) == Short
    {
      CutCommand(cmds[i], m);
    }
  }

  lemma EncodeStartsWithStar(cmds: seq<Command>, n: nat)
    requires 0 < n <= |EncodeAll(cmds)|
    ensures EncodeAll(cmds)[..n][0] == STAR
  {
  }

  lemma LoadWithPrefix(cmds: seq<Command>, n: nat, lenient: bool, known: Command -> bool,
                       enc: Command -> Bytes, parse: Parser<Command>, step: Stepper)
    requires n <= |Joined(cmds, enc)| && Reads(cmds, enc, parse)
    requires forall i :: 0 <= i < |cmds| ==> known(cmds[i]) && enc(cmds[i]) != []
    ensures var whole := cmds[..Whole(cmds, n, enc)];
            var r := RunAll(START, whole, 0, enc, step);
            LoadWith(Joined(cmds, enc)[..n], lenient, known, parse, step) ==
              if n == |Joined(whole, enc)| then AtEof(r, lenient, n) else Unexpected(r, lenient, n)
  {
    ScanPrefix(cmds, n, 0, START, known, enc, parse, step);
  }

  lemma NoPreamble(s: Bytes)
    requires s != [] && s[0] == STAR
    ensures !(REDIS <= s)
  {
  }

  /** Loading a prefix of any log runs the whole commands in it and stops, cleanly if nothing
      is left. */
  lemma LoadFilePrefix(cmds: seq<Command>, n: nat, lenient: bool, known: Command -> bool)
    requires AllSized(cmds) && AllKnown(cmds, known) && 0 < n <= |EncodeAll(cmds)|
    ensures var whole := WholeCommands(cmds, n);
            var r := Replayed(START, whole, 0);
            LoadFile(EncodeAll(cmds)[..n], lenient, known) ==
              if n == |EncodeAll(whole)| then AtEof(r, lenient, n) else Unexpected(r, lenient, n)
  {
    EncodeStartsWithStar(cmds, n);
    NoPreamble(EncodeAll(cmds)[..n]);
    ParseCommandReads(cmds);
    LoadWithPrefix(cmds, n, lenient, known, Encode, ParseCommand, AOF.Step());
  }

  // ---- logs of plain commands ----

  ghost predicate AllPlain(cmds: seq<Command>) {
    AOF.AllPlain(cmds)
  }

  /** Every non-empty prefix of a log of plain commands loads with aof-load-truncated: exactly
      the longest prefix of whole commands is executed and kept, and a format error is never
      reported. */
  lemma TruncatedLogRecovery(cmds: seq<Command>, n: nat, known: Command -> bool)
    requires AllSized(cmds) && AllKnown(cmds, known) && AllPlain(cmds) && 0 < n <= |EncodeAll(cmds)|
    ensures var whole := WholeCommands(cmds, n);
            var size := |EncodeAll(whole)|;
            && LoadFile(EncodeAll(cmds)[..n], true, known) ==
                Outcome(if size == n then Loaded else Truncated, whole, size)
            && size <= n && (|whole| < |cmds| ==> n < |EncodeAll(cmds[..|whole| + 1])|)
  {
    LoadFilePrefix(cmds, n, true, known);
    WholeIsPlain(cmds, n);
    LongestWhole(cmds, n);
  }

  lemma WholeIsPlain(cmds: seq<Command>, n: nat)
    requires AllPlain(cmds)
    ensures var whole := WholeCommands(cmds, n);
            Replayed(START, whole, 0) == Replay(whole, false, [], |EncodeAll(whole)|, 0)
  {
    AOF.RunPlainFromStart(WholeCommands(cmds, n));
  }

  lemma LongestWhole(cmds: seq<Command>, n: nat)
    ensures var whole := WholeCommands(cmds, n);
            |EncodeAll(whole)| <= n && (|whole| < |cmds| ==> n < |EncodeAll(cmds[..|whole| + 1])|)
  {
    WholeIsLongest(cmds, n, Encode);
  }

  /** Parsing the encodings of any sequence of commands gives the same sequence. */
  lemma LogRoundTrip(cmds: seq<Command>, lenient: bool, known: Command -> bool)
    requires AllSized(cmds) && AllKnown(cmds, known) && AllPlain(cmds) && cmds != []
    ensures LoadFile(EncodeAll(cmds), lenient, known) == Outcome(Loaded, cmds, |EncodeAll(cmds)|)
  {
    var n := |EncodeAll(cmds)|;
    WholeOfAll(cmds, Encode);
    assert EncodeAll(cmds)[..n] == EncodeAll(cmds) && WholeCommands(cmds, n) == cmds;
    LoadFilePrefix(cmds, n, lenient, known);
    AOF.RunPlainFromStart(cmds);
  }

  /** What is kept of a cut log is the encoding of the executed commands, and loads again
      without loss. */
  lemma RecoveredLogLoads(cmds: seq<Command>, n: nat, lenient: bool, known: Command -> bool)
    requires AllSized(cmds) && AllKnown(cmds, known) && AllPlain(cmds) && 0 < n <= |EncodeAll(cmds)|
    ensures var o := LoadFile(EncodeAll(cmds)[..n], true, known);
            && o.kept <= n
            && EncodeAll(cmds)[..n][..o.kept] == EncodeAll(o.executed)
            && (o.executed != [] ==>
                  LoadFile(EncodeAll(o.executed), lenient, known) == Outcome(Loaded, o.executed, o.kept))
  {
    var whole := WholeCommands(cmds, n);
    TruncatedLogRecovery(cmds, n, known);
    KeptIsEncoding(cmds, n);
    if whole != [] {
      LogRoundTrip(whole, lenient, known);
    }
  }

  lemma KeptIsEncoding(cmds: seq<Command>, n: nat)
    requires n <= |EncodeAll(cmds)|
    ensures var whole := WholeCommands(cmds, n);
            |EncodeAll(whole)| <= n && EncodeAll(cmds)[..n][..|EncodeAll(whole)|] == EncodeAll(whole)
  {
    KeptIsPrefix(cmds, n, Encode);
  }
}
