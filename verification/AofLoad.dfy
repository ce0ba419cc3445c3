/**
 Loading an append only file. The parser turns the bytes not yet read into the next
 command or the reason there is none; `LoadAppendOnlyFile` is the loop of aof.c around it.

 A read error other than the end of the file is not modelled.
*/
module AofLoad {
  import opened AofProtocol
  import opened Hiding
  import opened LogReplay
  import opened LogScan

  /** Lines 756-775. A negative length, which the C code turns into an impossible
      allocation, is `Fatal`. The two bytes after the data are skipped unread. */
  function ParseArg(s: Bytes): (p: Parse<Bytes>)
    ensures p.Ok? ==> 0 < p.used <= |s|
  {
    if s == [] then Short
    else
      var line := Line(s, LINE_MAX);
      if line[0] != DOLLAR then Bad
      else
        var len := Atoi(line[1..]);
        var at := |line|;
        if len < 0 then Fatal
        else if len > 0 && at + len > |s| then Short
        else if at + len + 2 > |s| then Short
        else Ok(s[at..at + len], at + len + 2)
  }

  function ParseArgs(s: Bytes, n: nat): (p: Parse<seq<Bytes>>)
    ensures p.Ok? ==> p.used <= |s| && |p.value| == n
    decreases n
  {
    if n == 0 then Ok([], 0)
    else
      match ParseArg(s)
      case Ok(arg, used) =>
        (match ParseArgs(s[used..], n - 1)
         case Ok(args, more) => Ok([arg] + args, used + more)
         case Eof => Eof
         case Short => Short
         case Bad => Bad
         case Fatal => Fatal)
      case Eof => Eof
      case Short => Short
      case Bad => Bad
      case Fatal => Fatal
  }

  /** The line of a command header: its argument count, and the bytes it takes. */
  function ParseCount(s: Bytes): (p: Parse<nat>)
    ensures p.Ok? ==> 0 < p.used <= |s| && p.value >= 1
  {
    if s == [] then Eof
    else
      var line := Line(s, LINE_MAX);
      var hitEof := LF !in line && |line| < LINE_MAX;
      if line[0] != STAR then Bad
      else if |line| == 1 || line[1] == 0 then (if hitEof then Short else Fatal)
      else if Atoi(line[1..]) < 1 then Bad
      else Ok(Atoi(line[1..]), |line|)
  }

  function ParseCommand(s: Bytes): (p: Parse<Command>)
    ensures p.Ok? ==> 0 < p.used <= |s|
  {
    match ParseCount(s)
    case Ok(argc, used) =>
      (match ParseArgs(s[used..], argc)
       case Ok(args, more) => Ok(args, used + more)
       case Eof => Eof
       case Short => Short
       case Bad => Bad
       case Fatal => Fatal)
    case Eof => Eof
    case Short => Short
    case Bad => Bad
    case Fatal => Fatal
  }

  // ---- one argument ----

  lemma WholeArg(arg: Bytes, rest: Bytes)
    requires |arg| < 0x8000_0000_0000_0000
    ensures ParseArg(EncodeArg(arg) + rest) == Ok(arg, |EncodeArg(arg)|)
  {
    var h := Header(DOLLAR, |arg|);
    var s := EncodeArg(arg) + rest;
    assert s == h + (arg + CRLF + rest);
    HeaderLine(DOLLAR, |arg|, arg + CRLF + rest);
    AtoiOfDec(|arg|);
    assert s[|h|..|h| + |arg|] == arg;
  }

  lemma CutArg(arg: Bytes, m: nat)
    requires |arg| < 0x8000_0000_0000_0000 && m < |EncodeArg(arg)|
    ensures ParseArg(EncodeArg(arg)[..m]) == Short
  {
    var h := Header(DOLLAR, |arg|);
    var s := EncodeArg(arg)[..m];
    if 0 < m < |h| {
      assert s == h[..m];
      HeaderCut(DOLLAR, |arg|, m);
      AtoiOfCut(|arg|, m - 1);
    } else if m >= |h| {
      assert s == h + s[|h|..];
      HeaderLine(DOLLAR, |arg|, s[|h|..]);
      AtoiOfDec(|arg|);
    }
  }

  // ---- the arguments of a command ----

  lemma ArgThenArgs(e: Bytes, tail: Bytes, arg: Bytes, n: nat)
    requires ParseArg(e + tail) == Ok(arg, |e|)
    ensures ParseArgs(tail, n).Ok? ==>
              ParseArgs(e + tail, n + 1) == Ok([arg] + ParseArgs(tail, n).value, |e| + ParseArgs(tail, n).used)
    ensures ParseArgs(tail, n).Short? ==> ParseArgs(e + tail, n + 1).Short?
  {
    assert (e + tail)[|e|..] == tail;
  }

  lemma {:induction false} WholeArgs(args: seq<Bytes>, rest: Bytes)
    requires forall i :: 0 <= i < |args| ==> |args[i]| < 0x8000_0000_0000_0000
    ensures ParseArgs(EncodeArgs(args) + rest, |args|) == Ok(args, |EncodeArgs(args)|)
    decreases |args|
  {
    if args != [] {
      var e, tail := EncodeArg(args[0]), EncodeArgs(args[1..]) + rest;
      assert EncodeArgs(args) + rest == e + tail;
      WholeArg(args[0], tail);
      WholeArgs(args[1..], rest);
      ArgThenArgs(e, tail, args[0], |args| - 1);
      assert [args[0]] + args[1..] == args;
    }
  }

  lemma CutBeyond(e: Bytes, more: Bytes, m: nat)
    requires |e| <= m <= |e| + |more|
    ensures (e + more)[..m] == e + more[..m - |e|]
  {
  }

  lemma {:induction false} CutArgs(args: seq<Bytes>, m: nat)
    requires forall i :: 0 <= i < |args| ==> |args[i]| < 0x8000_0000_0000_0000
    requires m < |EncodeArgs(args)|
    ensures ParseArgs(EncodeArgs(args)[..m], |args|) == Short
    decreases |args|
  {
    var e := EncodeArg(args[0]);
    var s := EncodeArgs(args)[..m];
    if m < |e| {
      assert s == e[..m];
      CutArg(args[0], m);
    } else {
      var tail := EncodeArgs(args[1..])[..m - |e|];
      CutBeyond(e, EncodeArgs(args[1..]), m);
      WholeArg(args[0], tail);
      CutArgs(args[1..], m - |e|);
      ArgThenArgs(e, tail, args[0], |args| - 1);
    }
  }

  // ---- one command ----

  lemma WholeCommand(cmd: Command, rest: Bytes)
    requires Sized(cmd)
    ensures ParseCommand(Encode(cmd) + rest) == Ok(cmd, |Encode(cmd)|)
  {
    var h := Header(STAR, |cmd|);
    var tail := EncodeArgs(cmd) + rest;
    var s := Encode(cmd) + rest;
    assert s == h + tail;
    HeaderLine(STAR, |cmd|, tail);
    DecIsDigits(|cmd|);
    AtoiOfDec(|cmd|);
    assert ParseCount(s) == Ok(|cmd|, |h|);
    assert s[|h|..] == tail;
    WholeArgs(cmd, rest);
  }

  /** A command cut anywhere is a short read, never a format error. */
  lemma CutCommand(cmd: Command, m: nat)
    requires Sized(cmd) && 0 < m < |Encode(cmd)|
    ensures ParseCommand(Encode(cmd)[..m]) == Short
  {
    var h := Header(STAR, |cmd|);
    var s := Encode(cmd)[..m];
    if m < |h| {
      assert s == h[..m];
      HeaderCut(STAR, |cmd|, m);
      DecIsDigits(|cmd|);
      CutCount(cmd, m);
    } else {
      assert s == h + EncodeArgs(cmd)[..m - |h|];
      HeaderLine(STAR, |cmd|, s[|h|..]);
      DecIsDigits(|cmd|);
      AtoiOfDec(|cmd|);
      assert ParseCount(s) == Ok(|cmd|, |h|);
      assert s[|h|..] == EncodeArgs(cmd)[..m - |h|];
      CutArgs(cmd, m - |h|);
    }
  }

  lemma CutCount(cmd: Command, m: nat)
    requires Sized(cmd) && 0 < m < |Header(STAR, |cmd|)|
    ensures var s := Header(STAR, |cmd|)[..m];
            ParseCount(s) == Short || (ParseCount(s).Ok? && ParseCount(s).used == m)
  {
    HeaderCut(STAR, |cmd|, m);
    HeaderLength(STAR, |cmd|);
    DecIsDigits(|cmd|);
    if m > 1 {
      AtoiOfCut(|cmd|, m - 1);
      assert Header(STAR, |cmd|)[..m][1] == Dec(|cmd|)[0];
    }
  }

  // ---- running the commands ----

  function Lower(s: Bytes): Bytes {
    seq(|s|, i requires 0 <= i < |s| => if 65 <= s[i] <= 90 then s[i] + 32 else s[i])
  }

  const MULTI: Bytes := [109, 117, 108, 116, 105]
  const EXEC: Bytes := [101, 120, 101, 99]

  function KindOf(cmd: Command): Kind {
    if cmd == [] then Plain
    else if Lower(cmd[0]) == MULTI then Multi
    else if Lower(cmd[0]) == EXEC then Exec
    else Plain
  }

  /** The append only file as a log. */
  const AOF: Log := Log(KindOf, Encode)

  datatype End = Empty | RdbPreamble | Loaded | Truncated | Exited(why: Failure)
  datatype Failure = UnexpectedEof | FormatError | Unrecoverable | UnknownCommand

  /** How loading ended, what was executed and how many bytes of the file are kept. */
  datatype Outcome = Outcome(end: End, executed: seq<Command>, kept: nat)

  /** Lines 840-867: the file is cut at valid_up_to if aof-load-truncated is on. */
  function Unexpected(r: Replay, lenient: bool, size: nat): Outcome {
    if lenient then Outcome(Truncated, r.executed, r.validUpTo)
    else Outcome(Exited(UnexpectedEof), r.executed, size)
  }

  /** Lines 817-822 at the clean end of the file. */
  function AtEof(r: Replay, lenient: bool, size: nat): Outcome {
    if r.open then Unexpected(r.(validUpTo := r.beforeMulti), lenient, size)
    else Outcome(Loaded, r.executed, size)
  }

  /** What the outcome is when the next command does not run. */
  function Stop(r: Replay, p: Parse<Command>, lenient: bool, size: nat): Outcome {
    match p
    case Ok(_, _) => Outcome(Exited(UnknownCommand), r.executed, size)
    case Eof => AtEof(r, lenient, size)
    case Short => Unexpected(r, lenient, size)
    case Bad => Outcome(Exited(FormatError), r.executed, size)
    case Fatal => Outcome(Exited(Unrecoverable), r.executed, size)
  }

  const REDIS: Bytes := [82, 69, 68, 73, 83]

  /** The loop of lines 726-811 is a scan of the file. */
  function LoadWith(file: Bytes, lenient: bool, known: Command -> bool, parse: Parser<Command>,
                    step: Stepper): Outcome {
    var (r, p) := Scan(file, 0, START, known, parse, step);
    Stop(r, p, lenient, |file|)
  }

  function LoadFile(file: Bytes, lenient: bool, known: Command -> bool): Outcome {
    if file == [] then Outcome(Empty, [], 0)
    else if REDIS <= file then Outcome(RdbPreamble, [], |file|)
    else LoadWith(file, lenient, known, ParseCommand, AOF.Step())
  }

  /** `args` have been read before the arguments parsed by `p`. */
  function Before(args: seq<Bytes>, used: nat, p: Parse<seq<Bytes>>): Parse<seq<Bytes>> {
    if p.Ok? then Ok(args + p.value, used + p.used) else p
  }

  /** `args`, read up to offset `at`, are the first of the `argc` arguments that start at
      `pos`; `goal` is the result of reading them all. */
  ghost predicate ArgsRead(goal: Parse<seq<Bytes>>, file: Bytes, pos: nat, argc: nat, at: nat, args: seq<Bytes>) {
    && pos <= at <= |file| && |args| <= argc
    && forall u: nat :: Unfold(Arguments, u) ==>
         Leads(goal, args, at - pos, file[at..], argc - |args|)
  }

  lemma NoArgsRead(file: Bytes, pos: nat, argc: nat)
    requires pos <= |file|
    ensures ArgsRead(ParseArgs(file[pos..], argc), file, pos, argc, pos, [])
  {
    var p := ParseArgs(file[pos..], argc);
    assert p.Ok? ==> [] + p.value == p.value;
  }

  lemma BeforeStep(args: seq<Bytes>, used: nat, s: Bytes, n: nat)
    requires n > 0 && ParseArg(s).Ok?
    ensures var a := ParseArg(s);
            Before(args, used, ParseArgs(s, n)) ==
                Before(args + [a.value], used + a.used, ParseArgs(s[a.used..], n - 1))
  {
    var a := ParseArg(s);
    var rest := ParseArgs(s[a.used..], n - 1);
    if rest.Ok? {
      assert args + ([a.value] + rest.value) == args + [a.value] + rest.value;
    }
  }

  lemma BeforeFailure(args: seq<Bytes>, used: nat, s: Bytes, n: nat)
    requires n > 0 && !ParseArg(s).Ok?
    ensures !ParseArg(s).Eof? && Before(args, used, ParseArgs(s, n)) == Failed(ParseArg(s))
  {
  }

  lemma SkipUsed(file: Bytes, at: nat, used: nat)
    requires at + used <= |file|
    ensures file[at..][used..] == file[at + used..]
  {
  }

  /** `goal` is what reading `n` more arguments from `rest` ends in. */
  ghost predicate Leads(goal: Parse<seq<Bytes>>, args: seq<Bytes>, used: nat, rest: Bytes, n: nat) {
    goal == Before(args, used, ParseArgs(rest, n))
  }

  lemma LeadsOn(goal: Parse<seq<Bytes>>, args: seq<Bytes>, used: nat, s: Bytes, n: nat, a: Parse<Bytes>, rest: Bytes)
    requires Leads(goal, args, used, s, n) && n > 0 && a == ParseArg(s) && a.Ok? && rest == s[a.used..]
    ensures Leads(goal, args + [a.value], used + a.used, rest, n - 1)
  {
    BeforeStep(args, used, s, n);
  }

  lemma ArgRead(goal: Parse<seq<Bytes>>, file: Bytes, pos: nat, argc: nat, at: nat, args: seq<Bytes>, a: Parse<Bytes>)
    requires ArgsRead(goal, file, pos, argc, at, args) && |args| < argc && a.Ok? && a == ParseArg(file[at..])
    ensures ArgsRead(goal, file, pos, argc, at + a.used, args + [a.value])
  {
    assert Unfold(Arguments, 0);
    SkipUsed(file, at, a.used);
    LeadsOn(goal, args, at - pos, file[at..], argc - |args|, a, file[at + a.used..]);
    assert at + a.used - pos == at - pos + a.used && argc - |args + [a.value]| == argc - |args| - 1;
  }

  lemma ArgFailed(goal: Parse<seq<Bytes>>, file: Bytes, pos: nat, argc: nat, at: nat, args: seq<Bytes>, a: Parse<Bytes>)
    requires ArgsRead(goal, file, pos, argc, at, args) && |args| < argc && !a.Ok? && a == ParseArg(file[at..])
    ensures goal == Failed(a)
  {
    assert Unfold(Arguments, 0);
    BeforeFailure(args, at - pos, file[at..], argc - |args|);
  }

  lemma AllArgsRead(goal: Parse<seq<Bytes>>, file: Bytes, pos: nat, argc: nat, at: nat, args: seq<Bytes>)
    requires ArgsRead(goal, file, pos, argc, at, args) && |args| == argc
    ensures goal == Ok(args, at - pos)
  {
    assert Unfold(Arguments, 0) && args + [] == args;
  }

  function Failed<T, U>(p: Parse<T>): Parse<U>
    requires !p.Ok?
  {
    match p case Eof => Eof case Short => Short case Bad => Bad case Fatal => Fatal
  }

  /** The body of the loop of lines 755-776. */
  method ReadArg(file: Bytes, at: nat, ghost goal: Parse<seq<Bytes>>, ghost pos: nat, ghost argc: nat,
                 ghost args: seq<Bytes>)
    returns (a: Parse<Bytes>)
    requires ArgsRead(goal, file, pos, argc, at, args) && |args| < argc
    ensures a.Ok? ==> ArgsRead(goal, file, pos, argc, at + a.used, args + [a.value])
    ensures !a.Ok? ==> goal == Failed(a)
  {
    a := ParseArg(file[at..]);
    if a.Ok? {
      ArgRead(goal, file, pos, argc, at, args, a);
    } else {
      ArgFailed(goal, file, pos, argc, at, args, a);
    }
  }

  method ReadArgs(file: Bytes, pos: nat, argc: nat, ghost goal: Parse<seq<Bytes>>) returns (p: Parse<seq<Bytes>>)
    requires ArgsRead(goal, file, pos, argc, pos, [])
    ensures p == goal
  {
    var at: nat, args := pos, [];
    for j := 0 to argc
      invariant |args| == j && ArgsRead(goal, file, pos, argc, at, args)
    {
      var arg := ReadArg(file, at, goal, pos, argc, args);
      if !arg.Ok? {
        return Failed(arg);
      }
      args, at := args + [arg.value], at + arg.used;
    }
    AllArgsRead(goal, file, pos, argc, at, args);
    return Ok(args, at - pos);
  }

  method ReadCommand(file: Bytes, pos: nat) returns (p: Parse<Command>)
    requires pos <= |file|
    ensures p == ParseCommand(file[pos..])
  {
    var count := ParseCount(file[pos..]);
    if !count.Ok? {
      return Failed(count);
    }
    assert file[pos..][count.used..] == file[pos + count.used..];
    NoArgsRead(file, pos + count.used, count.value);
    p := ReadArgs(file, pos + count.used, count.value, ParseArgs(file[pos + count.used..], count.value));
    if p.Ok? {
      p := Ok(p.value, count.used + p.used);
    }
  }

  /** The loop sees the parser and the effect of a command as unknown functions. */
  ghost predicate IsParser(parse: Parser<Command>) {
    forall u: nat :: Unfold(Commands, u) ==> parse == ParseCommand
  }

  ghost predicate IsStep(step: Stepper) {
    forall u: nat :: Unfold(Steps, u) ==> step == AOF.Step()
  }

  method NextCommand(file: Bytes, pos: nat, ghost parse: Parser<Command>) returns (p: Parse<Command>)
    requires pos <= |file| && IsParser(parse)
    ensures p == parse(file[pos..])
  {
    p := ReadCommand(file, pos);
    assert Unfold(Commands, 0);
  }

  /** Lines 787-810. */
  method RunCommand(r: Replay, cmd: Command, next: nat, ghost step: Stepper) returns (r': Replay)
    requires IsStep(step)
    ensures r' == step(r, cmd, next)
  {
    var kind := KindOf(cmd);
    r' := r;
    if kind.Multi? {
      r' := r'.(beforeMulti := r'.validUpTo);
    }
    if r'.open && !kind.Exec? {
      r' := r'.(queued := r'.queued + [cmd]);
    } else if kind.Multi? {
      r' := r'.(open := true, queued := []);
    } else if kind.Exec? {
      r' := r'.(executed := r'.executed + r'.queued, open := false, queued := []);
    } else {
      r' := r'.(executed := r'.executed + [cmd]);
    }
    r' := r'.(validUpTo := next);
    assert Unfold(Steps, 0) && r' == StepOf(kind, r, cmd, next);
  }

  method LoadLoop(file: Bytes, known: Command -> bool, ghost parse: Parser<Command>, ghost step: Stepper)
    returns (r: Replay, p: Parse<Command>)
    requires IsParser(parse) && IsStep(step)
    ensures (r, p) == Scan(file, 0, START, known, parse, step)
  {
    var pos: nat := 0;
    r := START;
    assert file[0..] == file;
    while true
      invariant pos <= |file|
      invariant Scan(file, 0, START, known, parse, step) == Scan(file[pos..], pos, r, known, parse, step)
      decreases |file| - pos
    {
      p := NextCommand(file, pos, parse);
      assert Advances(parse);
      if !p.Ok? || !known(p.value) {
        return;
      }
      assert file[pos..][p.used..] == file[pos + p.used..];
      pos := pos + p.used;
      r := RunCommand(r, p.value, pos, step);
    }
  }

  method LoadAppendOnlyFile(file: Bytes, lenient: bool, known: Command -> bool) returns (o: Outcome)
    ensures o == LoadFile(file, lenient, known)
  {
    if file == [] {
      return Outcome(Empty, [], 0);
    }
    if REDIS <= file {
      return Outcome(RdbPreamble, [], |file|);
    }
    var r, p := LoadLoop(file, known, ParseCommand, AOF.Step());
    o := Stop(r, p, lenient, |file|);
  }
}
