/**
 Loading a file that is not a cut log: what ends in a format error or at an unknown command,
 and that such a file is never shortened, even where a cut log would be.
*/
module AofErrors {
  import opened AofLoad
  import opened AofProtocol
  import opened AofRecovery
  import opened Hiding
  import opened LogReplay
  import opened LogScan
  import opened Sequences

  // ---- a log followed by something else ----

  /** Every item is read as such whatever follows it, and is known. */
  ghost predicate ReadsKnown<T(!new)>(items: seq<T>, enc: T -> Bytes, parse: Parser<T>, known: T -> bool) {
    forall i, rest: Bytes :: 0 <= i < |items| ==>
      parse(enc(items[i]) + rest) == Ok(items[i], |enc(items[i])|) && known(items[i])
  }

  lemma ReadsKnownRest<T(!new)>(items: seq<T>, enc: T -> Bytes, parse: Parser<T>, known: T -> bool)
    requires items != [] && ReadsKnown(items, enc, parse, known)
    ensures ReadsKnown(items[1..], enc, parse, known)
  {
    forall i, rest: Bytes | 0 <= i < |items[1..]|
      ensures parse(enc(items[1..][i]) + rest) == Ok(items[1..][i], |enc(items[1..][i])|) && known(items[1..][i])
    {
      assert items[1..][i] == items[i + 1];
    }
  }

  lemma AppendTwice(a: Bytes, b: Bytes, c: Bytes)
    ensures a + b + c == a + (b + c)
  {
  }

  /** The items of a log are run, and what follows is looked at next. */
  lemma {:induction false} ScanThen<T(!new), R>(items: seq<T>, rest: Bytes, pos: nat, r: R, known: T -> bool,
                                                enc: T -> Bytes, parse: Parser<T>, step: (R, T, nat) -> R)
    requires ReadsKnown(items, enc, parse, known)
    ensures Scan(Joined(items, enc) + rest, pos, r, known, parse, step) ==
              Scan(rest, pos + |Joined(items, enc)|, RunAll(r, items, pos, enc, step), known, parse, step)
    decreases |items|
  {
    if items == [] {
      assert Joined(items, enc) + rest == rest;
    } else {
      var e, tail := enc(items[0]), Joined(items[1..], enc) + rest;
      AppendTwice(e, Joined(items[1..], enc), rest);
      assert parse(e + tail) == Ok(items[0], |e|);
      ScanOne(e, tail, items[0], pos, r, known, parse, step);
      ReadsKnownRest(items, enc, parse, known);
      ScanThen(items[1..], rest, pos + |e|, step(r, items[0], pos + |e|), known, enc, parse, step);
    }
  }

  lemma ScanStops<T(!new), R>(s: Bytes, pos: nat, r: R, known: T -> bool, parse: Parser<T>, step: (R, T, nat) -> R)
    requires parse(s).Ok? ==> !known(parse(s).value)
    ensures Scan(s, pos, r, known, parse, step) == (r, parse(s))
  {
  }

  lemma CommandsAreRead(cmds: seq<Command>, known: Command -> bool)
    requires AllSized(cmds) && AllKnown(cmds, known)
    ensures ReadsKnown(cmds, Encode, ParseCommand, known)
  {
    forall i, rest: Bytes | 0 <= i < |cmds|
      ensures ParseCommand(Encode(cmds[i]) + rest) == Ok(cmds[i], |Encode(cmds[i])|) && known(cmds[i])
    {
      WholeCommand(cmds[i], rest);
    }
  }

  /** The bytes that follow are not taken for an RDB preamble. */
  ghost predicate NotPreamble(cmds: seq<Command>, junk: Bytes) {
    cmds == [] ==> !(REDIS <= junk)
  }

  lemma StartIsLog(cmds: seq<Command>, junk: Bytes)
    requires junk != [] && NotPreamble(cmds, junk)
    ensures EncodeAll(cmds) + junk != [] && !(REDIS <= EncodeAll(cmds) + junk)
  {
    var file := EncodeAll(cmds) + junk;
    if cmds == [] {
      assert file == junk;
    } else {
      assert EncodeAll(cmds) == Encode(cmds[0]) + EncodeAll(cmds[1..]);
      assert file[0] == STAR;
      NoPreamble(file);
    }
  }

  /** The commands of the log are executed, and the file ends as the rest of it says. */
  ghost predicate EndsAs(file: Bytes, cmds: seq<Command>, lenient: bool, known: Command -> bool, why: Failure) {
    LoadFile(file, lenient, known) == Outcome(Exited(why), Replayed(START, cmds, 0).executed, |file|)
  }

  /** The reason for which `p` ends the load. */
  ghost predicate Ends(p: Parse<Command>, known: Command -> bool, why: Failure) {
    || (p.Bad? && why == FormatError)
    || (p.Fatal? && why == Unrecoverable)
    || (p.Ok? && !known(p.value) && why == UnknownCommand)
  }

  lemma LoadWithRest(cmds: seq<Command>, junk: Bytes, lenient: bool, known: Command -> bool,
                     enc: Command -> Bytes, parse: Parser<Command>, step: Stepper, why: Failure)
    requires ReadsKnown(cmds, enc, parse, known) && Ends(parse(junk), known, why)
    ensures LoadWith(Joined(cmds, enc) + junk, lenient, known, parse, step) ==
              Outcome(Exited(why), RunAll(START, cmds, 0, enc, step).executed, |Joined(cmds, enc) + junk|)
  {
    ScanThen(cmds, junk, 0, START, known, enc, parse, step);
    ScanStops(junk, |Joined(cmds, enc)|, RunAll(START, cmds, 0, enc, step), known, parse, step);
  }

  lemma LoadIs(file: Bytes, lenient: bool, known: Command -> bool, parse: Parser<Command>, step: Stepper)
    requires file != [] && !(REDIS <= file) && parse == ParseCommand && step == AOF.Step()
    ensures LoadFile(file, lenient, known) == LoadWith(file, lenient, known, parse, step)
  {
  }

  lemma LoadRest(cmds: seq<Command>, junk: Bytes, lenient: bool, known: Command -> bool, why: Failure)
    requires AllSized(cmds) && AllKnown(cmds, known) && junk != [] && NotPreamble(cmds, junk)
    requires Ends(ParseCommand(junk), known, why)
    ensures EndsAs(EncodeAll(cmds) + junk, cmds, lenient, known, why)
  {
    StartIsLog(cmds, junk);
    CommandsAreRead(cmds, known);
    LoadIs(EncodeAll(cmds) + junk, lenient, known, ParseCommand, AOF.Step());
    LoadWithRest(cmds, junk, lenient, known, Encode, ParseCommand, AOF.Step(), why);
  }

  // ---- what is a format error ----

  lemma JunkIsBad(junk: Bytes)
    requires junk != [] && junk[0] != STAR
    ensures ParseCommand(junk) == Bad
  {
  }

  lemma NoCountIsBad(rest: Bytes)
    ensures ParseCommand(Header(STAR, 0) + rest) == Bad
  {
    HeaderLine(STAR, 0, rest);
    DecIsDigits(0);
    AtoiOfDec(0);
  }

  lemma FirstArg(args: seq<Bytes>, rest: Bytes)
    requires args != []
    ensures EncodeArgs(args) + rest == EncodeArg(args[0]) + (EncodeArgs(args[1..]) + rest)
  {
    AppendTwice(EncodeArg(args[0]), EncodeArgs(args[1..]), rest);
  }

  /** Reading `n` arguments from `s` ends in `p`. */
  ghost predicate FailsAs(s: Bytes, n: nat, p: Parse<seq<Bytes>>) {
    forall u: nat :: Unfold(Arguments, u) ==> (p.Bad? || p.Fatal?) && ParseArgs(s, n) == p
  }

  lemma ArgThenFailure(arg: Bytes, tail: Bytes, n: nat, text: Bytes, p: Parse<seq<Bytes>>)
    requires |arg| < 0x8000_0000_0000_0000 && n > 0 && FailsAs(tail, n - 1, p) && text == EncodeArg(arg) + tail
    ensures FailsAs(text, n, p)
  {
    assert Unfold(Arguments, 0);
    WholeArg(arg, tail);
    NextArgFails(EncodeArg(arg), tail, arg, n - 1, p);
  }

  lemma NextArgFails(e: Bytes, tail: Bytes, arg: Bytes, n: nat, p: Parse<seq<Bytes>>)
    requires ParseArg(e + tail) == Ok(arg, |e|) && ParseArgs(tail, n) == p && (p.Bad? || p.Fatal?)
    ensures ParseArgs(e + tail, n + 1) == p
  {
    assert (e + tail)[|e|..] == tail;
  }

  lemma NoArg(junk: Bytes, n: nat)
    requires n > 0 && junk != [] && junk[0] != DOLLAR
    ensures FailsAs(junk, n, Bad)
  {
    assert Line(junk, LINE_MAX)[0] == junk[0];
  }

  /** The line of an argument with a negative length. */
  function Negative(len: nat): Bytes {
    [DOLLAR, 45] + Dec(len) + CRLF
  }

  lemma NegativeLine(len: nat, rest: Bytes)
    requires 0 < len < 0x8000_0000_0000_0000
    ensures Line(Negative(len) + rest, LINE_MAX) == Negative(len)
    ensures Atoi(Negative(len)[1..]) + len == 0
  {
    var body := [DOLLAR, 45] + Dec(len) + [CR];
    HeaderLength(DOLLAR, len);
    DecIsDigits(len);
    LineOf(body, rest, LINE_MAX);
    assert Negative(len) == body + [LF];
    assert Negative(len) + rest == body + [LF] + rest;
    assert Negative(len)[1..] == [45] + (Dec(len) + CRLF);
    assert Negative(len)[1..][1..] == Dec(len) + CRLF;
    AtoiOfDec(len);
  }

  lemma NegativeArg(len: nat, rest: Bytes, n: nat)
    requires n > 0 && 0 < len < 0x8000_0000_0000_0000
    ensures FailsAs(Negative(len) + rest, n, Fatal)
  {
    NegativeLine(len, rest);
    assert ParseArg(Negative(len) + rest) == Fatal;
  }

  /** Arguments that are in order come first. */
  lemma {:induction false} ArgsThenFailure(args: seq<Bytes>, junk: Bytes, n: nat, text: Bytes, p: Parse<seq<Bytes>>)
    requires forall i :: 0 <= i < |args| ==> |args[i]| < 0x8000_0000_0000_0000
    requires |args| <= n && FailsAs(junk, n - |args|, p) && text == EncodeArgs(args) + junk
    ensures FailsAs(text, n, p)
    decreases |args|
  {
    if args == [] {
      assert text == junk;
    } else {
      var tail := EncodeArgs(args[1..]) + junk;
      FirstArg(args, junk);
      ArgsThenFailure(args[1..], junk, n - 1, tail, p);
      ArgThenFailure(args[0], tail, n, text, p);
    }
  }

  lemma CommandFails(args: seq<Bytes>, junk: Bytes, n: nat, p: Parse<seq<Bytes>>)
    requires forall i :: 0 <= i < |args| ==> |args[i]| < 0x8000_0000_0000_0000
    requires |args| < n < 0x8000_0000 && FailsAs(junk, n - |args|, p)
    ensures ParseCommand(Header(STAR, n) + (EncodeArgs(args) + junk)) == if p.Bad? then Bad else Fatal
  {
    var h, tail := Header(STAR, n), EncodeArgs(args) + junk;
    HeaderLine(STAR, n, tail);
    DecIsDigits(n);
    AtoiOfDec(n);
    assert ParseCount(h + tail) == Ok(n, |h|);
    assert (h + tail)[|h|..] == tail;
    ArgsThenFailure(args, junk, n, tail, p);
    assert Unfold(Arguments, 0);
  }

  lemma NulCountIsFatal(rest: Bytes)
    ensures ParseCommand([STAR, 0] + [LF] + rest) == Fatal
  {
    LineOf([STAR, 0], rest, LINE_MAX);
  }

  // ---- the outcomes ----

  /** Bytes that do not begin a command are a format error and the file is left as it is, with
      aof-load-truncated or without. */
  lemma JunkIsFormatError(cmds: seq<Command>, junk: Bytes, lenient: bool, known: Command -> bool)
    requires AllSized(cmds) && AllKnown(cmds, known) && AllPlain(cmds)
    requires junk != [] && junk[0] != STAR && NotPreamble(cmds, junk)
    ensures var file := EncodeAll(cmds) + junk;
            LoadFile(file, lenient, known) == Outcome(Exited(FormatError), cmds, |file|)
  {
    JunkIsBad(junk);
    LoadRest(cmds, junk, lenient, known, FormatError);
    AOF.RunPlainFromStart(cmds);
  }

  /** So is a command without arguments. */
  lemma NoArgsIsFormatError(cmds: seq<Command>, rest: Bytes, lenient: bool, known: Command -> bool)
    requires AllSized(cmds) && AllKnown(cmds, known) && AllPlain(cmds)
    ensures var file := EncodeAll(cmds) + (Header(STAR, 0) + rest);
            LoadFile(file, lenient, known) == Outcome(Exited(FormatError), cmds, |file|)
  {
    NoCountIsBad(rest);
    NoPreamble(Header(STAR, 0) + rest);
    LoadRest(cmds, Header(STAR, 0) + rest, lenient, known, FormatError);
    AOF.RunPlainFromStart(cmds);
  }

  /** So is a command with fewer arguments than it says, followed by anything but another. */
  lemma JunkArgIsFormatError(cmds: seq<Command>, args: seq<Bytes>, n: nat, junk: Bytes, lenient: bool,
                             known: Command -> bool)
    requires AllSized(cmds) && AllKnown(cmds, known) && AllPlain(cmds)
    requires forall i :: 0 <= i < |args| ==> |args[i]| < 0x8000_0000_0000_0000
    requires |args| < n < 0x8000_0000 && junk != [] && junk[0] != DOLLAR
    ensures var file := EncodeAll(cmds) + (Header(STAR, n) + (EncodeArgs(args) + junk));
            LoadFile(file, lenient, known) == Outcome(Exited(FormatError), cmds, |file|)
  {
    var bad := Header(STAR, n) + (EncodeArgs(args) + junk);
    NoArg(junk, n - |args|);
    CommandFails(args, junk, n, Bad);
    NoPreamble(bad);
    LoadRest(cmds, bad, lenient, known, FormatError);
    AOF.RunPlainFromStart(cmds);
  }

  /** An argument of negative length, which asks for more memory than there is, ends the process. */
  lemma NegativeLengthIsFatal(cmds: seq<Command>, args: seq<Bytes>, n: nat, len: nat, rest: Bytes, lenient: bool,
                              known: Command -> bool)
    requires AllSized(cmds) && AllKnown(cmds, known) && AllPlain(cmds)
    requires forall i :: 0 <= i < |args| ==> |args[i]| < 0x8000_0000_0000_0000
    requires |args| < n < 0x8000_0000 && 0 < len < 0x8000_0000_0000_0000
    ensures var file := EncodeAll(cmds) + (Header(STAR, n) + (EncodeArgs(args) + (Negative(len) + rest)));
            LoadFile(file, lenient, known) == Outcome(Exited(Unrecoverable), cmds, |file|)
  {
    var junk := Negative(len) + rest;
    var bad := Header(STAR, n) + (EncodeArgs(args) + junk);
    NegativeArg(len, rest, n - |args|);
    CommandFails(args, junk, n, Fatal);
    NoPreamble(bad);
    LoadRest(cmds, bad, lenient, known, Unrecoverable);
    AOF.RunPlainFromStart(cmds);
  }

  /** So does a count that begins with a zero byte and is not the end of the file. */
  lemma NulCountEnds(cmds: seq<Command>, rest: Bytes, lenient: bool, known: Command -> bool)
    requires AllSized(cmds) && AllKnown(cmds, known) && AllPlain(cmds)
    ensures var file := EncodeAll(cmds) + ([STAR, 0] + [LF] + rest);
            LoadFile(file, lenient, known) == Outcome(Exited(Unrecoverable), cmds, |file|)
  {
    NulCountIsFatal(rest);
    NoPreamble([STAR, 0] + [LF] + rest);
    LoadRest(cmds, [STAR, 0] + [LF] + rest, lenient, known, Unrecoverable);
    AOF.RunPlainFromStart(cmds);
  }

  /** A command that does not exist ends the load, whatever follows it. */
  lemma UnknownCommandExits(cmds: seq<Command>, cmd: Command, rest: Bytes, lenient: bool, known: Command -> bool)
    requires AllSized(cmds) && AllKnown(cmds, known) && AllPlain(cmds) && Sized(cmd) && !known(cmd)
    ensures var file := EncodeAll(cmds) + (Encode(cmd) + rest);
            LoadFile(file, lenient, known) == Outcome(Exited(UnknownCommand), cmds, |file|)
  {
    WholeCommand(cmd, rest);
    NoPreamble(Encode(cmd) + rest);
    LoadRest(cmds, Encode(cmd) + rest, lenient, known, UnknownCommand);
    AOF.RunPlainFromStart(cmds);
  }

  // ---- every file ----

  /** The offsets in the loader's state lie in the bytes it has read. */
  ghost predicate Within(r: Replay, pos: nat) {
    r.validUpTo <= pos && r.beforeMulti <= pos
  }

  ghost predicate StepsWithin(step: Stepper) {
    forall r, cmd, next: nat :: Within(r, next) ==> Within(step(r, cmd, next), next)
  }

  lemma LogStepsWithin(step: Stepper)
    requires step == AOF.Step()
    ensures StepsWithin(step)
  {
    forall r, cmd, next: nat | Within(r, next) ensures Within(step(r, cmd, next), next) {
      assert step(r, cmd, next) == StepOf(KindOf(cmd), r, cmd, next);
    }
  }

  lemma {:induction false} ScanStaysWithin(s: Bytes, pos: nat, r: Replay, known: Command -> bool,
                                           parse: Parser<Command>, step: Stepper)
    requires Within(r, pos)
    requires StepsWithin(step)
    ensures Within(Scan(s, pos, r, known, parse, step).0, pos + |s|)
    decreases |s|
  {
    var p := parse(s);
    assert Advances(parse);
    if p.Ok? && known(p.value) {
      var next := pos + p.used;
      assert Within(r, next);
      ScanStaysWithin(s[p.used..], next, step(r, p.value, next), known, parse, step);
    }
  }

  lemma LoadWithKeeps(file: Bytes, lenient: bool, known: Command -> bool, parse: Parser<Command>, step: Stepper)
    requires StepsWithin(step)
    ensures var o := LoadWith(file, lenient, known, parse, step);
            && o.kept <= |file| && (o.end == Truncated ==> lenient) && (o.end != Truncated ==> o.kept == |file|)
            && (lenient ==> o.end != Exited(UnexpectedEof))
  {
    ScanStaysWithin(file, 0, START, known, parse, step);
  }

  /** Any file whatsoever is shortened only with aof-load-truncated, never grows, and is left as it
      is whenever the load does not end in a truncation. */
  lemma OnlyTruncationShortens(file: Bytes, lenient: bool, known: Command -> bool)
    ensures var o := LoadFile(file, lenient, known);
            && o.kept <= |file|
            && (!lenient ==> o.end != Truncated && o.kept == |file|)
            && (o.end != Truncated ==> o.kept == |file|)
            && (lenient ==> o.end != Exited(UnexpectedEof))
  {
    if file != [] && !(REDIS <= file) {
      var step := AOF.Step();
      LogStepsWithin(step);
      LoadIs(file, lenient, known, ParseCommand, step);
      LoadWithKeeps(file, lenient, known, ParseCommand, step);
    }
  }
}
