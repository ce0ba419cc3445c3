/**
 Writing the append only file: printing commands, inserting SELECTs, and flushing the
 buffer to a disk that may write short, fail or be interrupted.
*/
module AofWriter {
  import opened AofLoad
  import opened AofProtocol
  import opened AofRecovery
  import opened LogReplay
  import opened LogScan
  import opened Sequences

  // ---- printing a command ----

  lemma {:induction false} EncodeArgsAppend(args: seq<Bytes>, arg: Bytes)
    ensures EncodeArgs(args + [arg]) == EncodeArgs(args) + EncodeArg(arg)
    decreases |args|
  {
    if args == [] {
      assert [arg][1..] == [];
    } else {
      assert (args + [arg])[1..] == args[1..] + [arg];
      EncodeArgsAppend(args[1..], arg);
    }
  }

  /** The three sdscat calls for one argument. */
  method CatArg(dst: Bytes, arg: Bytes) returns (r: Bytes)
    ensures r == dst + EncodeArg(arg)
  {
    r := dst + ([DOLLAR] + Dec(|arg|) + CRLF);
    r := r + arg;
    r := r + CRLF;
    assert r == dst + (Header(DOLLAR, |arg|) + (arg + CRLF));
  }

  lemma CatStep(head: Bytes, argv: Command, j: nat)
    requires j < |argv|
    ensures head + EncodeArgs(argv[..j]) + EncodeArg(argv[j]) == head + EncodeArgs(argv[..j + 1])
  {
    EncodeArgsAppend(argv[..j], argv[j]);
    assert argv[..j + 1] == argv[..j] + [argv[j]];
  }

  method CatAppendOnlyGenericCommand(dst: Bytes, argv: Command) returns (r: Bytes)
    ensures r == dst + Encode(argv)
  {
    r := dst + ([STAR] + Dec(|argv|) + CRLF);
    ghost var head := r;
    for j := 0 to |argv|
      invariant r == head + EncodeArgs(argv[..j])
    {
      CatStep(head, argv, j);
      r := CatArg(r, argv[j]);
    }
    assert argv[..|argv|] == argv;
  }

  // ---- SELECT ----

  const SELECT: Bytes := [83, 69, 76, 69, 67, 84]

  function Select(db: nat): Command {
    [SELECT, Dec(db)]
  }

  predicate IsSelect(cmd: Command) {
    |cmd| == 2 && Lower(cmd[0]) == Lower(SELECT)
  }

  /** The commands logged for one issued against `db` when `selected` is aof_selected_db. */
  function Logged(selected: int, db: nat, cmd: Command): seq<Command> {
    if db != selected then [Select(db), cmd] else [cmd]
  }

  /** A command together with the database it runs in. */
  datatype Issued = Issued(db: nat, cmd: Command)

  function LoggedAll(selected: int, issued: seq<Issued>): seq<Command>
    decreases |issued|
  {
    if issued == [] then []
    else Logged(selected, issued[0].db, issued[0].cmd) + LoggedAll(issued[0].db, issued[1..])
  }

  /** What executing `cmds` one after the other does, starting in database `db`. */
  function Executed(db: nat, cmds: seq<Command>): seq<Issued>
    decreases |cmds|
  {
    if cmds == [] then []
    else if IsSelect(cmds[0]) then Executed(Digits(0, cmds[0][1]), cmds[1..])
    else [Issued(db, cmds[0])] + Executed(db, cmds[1..])
  }

  lemma ExecuteLogged(at: nat, selected: int, i: Issued, rest: seq<Command>)
    requires !IsSelect(i.cmd) && (selected == -1 || selected == at)
    ensures Executed(at, Logged(selected, i.db, i.cmd) + rest) == [i] + Executed(i.db, rest)
  {
    var cmds := Logged(selected, i.db, i.cmd) + rest;
    if i.db != selected {
      DigitsOfDec(i.db);
      assert cmds[0] == Select(i.db) && cmds[1..] == [i.cmd] + rest;
      assert ([i.cmd] + rest)[1..] == rest;
    } else {
      assert cmds[1..] == rest;
    }
  }

  /** A log begun with no selected database replays every command in the database it was
      issued against, whatever database the reader starts in. */
  lemma {:induction false} SelectsAreRight(at: nat, selected: int, issued: seq<Issued>)
    requires forall i :: 0 <= i < |issued| ==> !IsSelect(issued[i].cmd)
    requires selected == -1 || selected == at
    ensures Executed(at, LoggedAll(selected, issued)) == issued
    decreases |issued|
  {
    if issued != [] {
      var i := issued[0];
      ExecuteLogged(at, selected, i, LoggedAll(i.db, issued[1..]));
      SelectsAreRight(i.db, i.db, issued[1..]);
    }
  }

  lemma SelectIsPlain(db: nat)
    requires db < 0x8000_0000
    ensures Sized(Select(db)) && KindOf(Select(db)).Plain?
  {
    Pow10Values();
    DecLength(db, 10);
    assert Lower(SELECT)[0] == 115;
  }

  /** Commands that clients can issue and that are logged as they are. */
  ghost predicate Loggable(i: Issued, known: Command -> bool) {
    && i.db < 0x8000_0000
    && Sized(i.cmd) && KindOf(i.cmd).Plain? && !IsSelect(i.cmd)
    && known(i.cmd) && known(Select(i.db))
  }

  ghost predicate AllLoggable(issued: seq<Issued>, known: Command -> bool) {
    forall i :: 0 <= i < |issued| ==> Loggable(issued[i], known)
  }

  lemma JoinLogs(a: seq<Command>, b: seq<Command>, known: Command -> bool)
    requires AllSized(a) && AllPlain(a) && AllKnown(a, known)
    requires AllSized(b) && AllPlain(b) && AllKnown(b, known)
    ensures AllSized(a + b) && AllPlain(a + b) && AllKnown(a + b, known)
  {
  }

  lemma {:induction false} LoggedIsPlain(selected: int, issued: seq<Issued>, known: Command -> bool)
    requires AllLoggable(issued, known)
    ensures AllSized(LoggedAll(selected, issued)) && AllPlain(LoggedAll(selected, issued))
    ensures AllKnown(LoggedAll(selected, issued), known)
    decreases |issued|
  {
    if issued != [] {
      var i := issued[0];
      SelectIsPlain(i.db);
      LoggedIsPlain(i.db, issued[1..], known);
      JoinLogs(Logged(selected, i.db, i.cmd), LoggedAll(i.db, issued[1..]), known);
    }
  }

  /** Logging any commands and loading the bytes back executes each one in its database. */
  lemma LogReplaysInPlace(issued: seq<Issued>, lenient: bool, known: Command -> bool)
    requires issued != [] && AllLoggable(issued, known)
    ensures var o := LoadFile(EncodeAll(LoggedAll(-1, issued)), lenient, known);
            o.end.Loaded? && Executed(0, o.executed) == issued
  {
    LoggedIsPlain(-1, issued, known);
    SelectsAreRight(0, -1, issued);
    LogRoundTrip(LoggedAll(-1, issued), lenient, known);
  }

  // ---- the writer ----

  datatype Policy = Always | EverySec | No

  /** What one write(2) does: write some bytes, be interrupted, or fail. */
  datatype WriteResult = Wrote(n: nat) | Interrupted | Failed

  datatype FlushEnv = FlushEnv(syncInProgress: bool, now: int, writes: seq<WriteResult>, truncateOk: bool)

  function Max0(n: int): nat {
    if n < 0 then 0 else n
  }

  function Min(a: nat, b: nat): nat {
    if a < b then a else b
  }

  /** How many bytes the calls of write(2) take before one fails. */
  function Capacity(writes: seq<WriteResult>): nat {
    if writes == [] || writes[0].Failed? then 0
    else (if writes[0].Wrote? then writes[0].n else 0) + Capacity(writes[1..])
  }

  /** An interrupted call is made again: it takes nothing from what the others write. */
  lemma {:induction false} InterruptedIsRetried(before: seq<WriteResult>, after: seq<WriteResult>)
    ensures Capacity(before + [Interrupted] + after) == Capacity(before + after)
    decreases |before|
  {
    var writes := before + [Interrupted] + after;
    if before == [] {
      assert writes[1..] == before + after;
    } else {
      assert writes[1..] == before[1..] + [Interrupted] + after && (before + after)[1..] == before[1..] + after;
      InterruptedIsRetried(before[1..], after);
    }
  }

  /** Short writes add up until one fails. */
  lemma {:induction false} WritesAddUp(before: seq<WriteResult>, after: seq<WriteResult>)
    requires Failed !in before
    ensures Capacity(before + after) == Capacity(before) + Capacity(after)
    ensures Capacity([Failed] + after) == 0
    ensures forall n: nat :: Capacity([Wrote(n)]) == n
    decreases |before|
  {
    if before == [] {
      assert before + after == after;
      assert forall n: nat :: [Wrote(n)][1..] == [];
    } else {
      assert (before + after)[1..] == before[1..] + after;
      WritesAddUp(before[1..], after);
    }
  }

  method PrintSelect(db: nat) returns (bytes: Bytes)
    ensures bytes == Encode(Select(db))
  {
    var seldb := Dec(db);
    var name := [DOLLAR, 54, CR, LF] + (SELECT + CRLF);
    bytes := [STAR, 50, CR, LF] + (name + ([DOLLAR] + Dec(|seldb|) + CRLF + (seldb + CRLF)));
    SelectText(db);
  }

  class Writer {
    var policy: Policy
    var on: bool            // aof_state is AOF_ON
    var selected: int       // aof_selected_db
    var buf: Bytes          // aof_buf
    var file: Bytes         // what the disk holds
    var currentSize: nat    // aof_current_size
    var postponed: int      // aof_flush_postponed_start
    var statusOk: bool      // aof_last_write_status
    var delayed: nat        // aof_delayed_fsync
    ghost var fed: Bytes    // the file at the start and all bytes fed since

    /** Nothing fed is lost, duplicated or reordered: it is on disk or in the buffer. */
    ghost predicate Valid()
      reads this
    {
      file + buf == fed && currentSize == |file|
    }

    /** Feed one command that needs no translation; the bytes also go to a rewrite child. */
    method Feed(db: nat, argv: Command) returns (bytes: Bytes)
      requires Valid()
      modifies this`selected, this`buf, this`fed
      ensures Valid() && selected == db
      ensures bytes == EncodeAll(Logged(old(selected), db, argv))
      ensures fed == if on then old(fed) + bytes else old(fed)
    {
      bytes := [];
      if db != selected {
        bytes := PrintSelect(db);
        selected := db;
      }
      ghost var before := bytes;
      bytes := CatAppendOnlyGenericCommand(bytes, argv);
      LoggedText(old(selected), db, argv, before);
      if on {
        Keep(bytes);
      }
    }

    method Keep(bytes: Bytes)
      requires Valid()
      modifies this`buf, this`fed
      ensures Valid() && fed == old(fed) + bytes
    {
      buf := buf + bytes;
      fed := fed + bytes;
      assert file + (old(buf) + bytes) == old(fed) + bytes;
    }

    /** aofWrite: retry short and interrupted writes until all is written or one fails. As much
        is written as the calls take. */
    method Write(writes: seq<WriteResult>) returns (n: int)
      requires Valid()
      modifies this`file
      ensures var taken := Min(|buf|, Capacity(writes));
              && file == old(file) + buf[..taken]
              && n == if taken == 0 && buf != [] then -1 else taken
    {
      var total, i := 0, 0;
      while total < |buf|
        invariant 0 <= total <= |buf| && i <= |writes|
        invariant file == old(file) + buf[..total]
        invariant Min(|buf|, total + Capacity(writes[i..])) == Min(|buf|, Capacity(writes))
        decreases |writes| - i
      {
        if i == |writes| || writes[i].Failed? {
          return if total > 0 then total else -1;
        }
        assert writes[i..][0] == writes[i] && writes[i..][1..] == writes[i + 1..];
        if writes[i].Wrote? {
          var k := if writes[i].n <= |buf| - total then writes[i].n else |buf| - total;
          file := file + buf[total..total + k];
          assert buf[..total] + buf[total..total + k] == buf[..total + k];
          total := total + k;
        }
        i := i + 1;
      }
      return total;
    }

    /** A background fsync is going on, and for less than two seconds. */
    predicate Postpones(force: bool, env: FlushEnv)
      reads this
    {
      && policy.EverySec? && !force && env.syncInProgress
      && (postponed == 0 || env.now - postponed < 2)
    }

    /** flushAppendOnlyFile. `exited` is the exit(1) of the policy "always". If the disk takes the
        whole buffer it is on disk. If it takes less, what it took is undone, or stays and leaves
        the buffer; the process exits or reports the error. Nothing fed is ever lost, unless the
        process exits. */
    method Flush(force: bool, env: FlushEnv) returns (exited: bool)
      requires Valid()
      modifies this
      ensures fed == old(fed) && policy == old(policy) && on == old(on) && selected == old(selected)
      ensures !exited ==> Valid()
      ensures old(buf == [] || Postpones(force, env)) ==>
                !exited && file == old(file) && buf == old(buf) && statusOk == old(statusOk)
      ensures !old(buf == [] || Postpones(force, env)) && Capacity(env.writes) >= |old(buf)| ==>
                !exited && file == fed && buf == [] && statusOk
      ensures !old(buf == [] || Postpones(force, env)) && Capacity(env.writes) < |old(buf)| ==>
                && exited == policy.Always?
                && file == old(file) + (if env.truncateOk then [] else old(buf)[..Capacity(env.writes)])
                && (!exited ==> !statusOk && buf != [])
      ensures postponed ==
                if old(buf) == [] then old(postponed)
                else if !old(Postpones(force, env)) then 0
                else if old(postponed) == 0 then env.now
                else old(postponed)
      ensures delayed ==
                if old(buf != [] && policy.EverySec? && !force && env.syncInProgress && !Postpones(force, env))
                then old(delayed) + 1 else old(delayed)
    {
      exited := false;
      if buf == [] {
        return;
      }
      var sync := policy.EverySec? && env.syncInProgress;
      if policy.EverySec? && !force {
        if sync {
          if postponed == 0 {
            postponed := env.now;
            return;
          } else if env.now - postponed < 2 {
            return;
          }
          delayed := delayed + 1;
        }
      }
      var n := Write(env.writes);
      postponed := 0;
      if n != |buf| {
        exited := ShortWrite(n, env.truncateOk, old(file));
        return;
      }
      assert buf[..n] == buf;
      statusOk := true;
      currentSize := currentSize + n;
      buf := [];
    }

    /** A flush that is postponed is carried out two seconds later at the latest, even if the fsync
        still goes on then. Times are those of a clock that started before. */
    method FlushTwice(first: FlushEnv, second: FlushEnv)
      requires Valid() && buf != [] && Postpones(false, first)
      requires 0 <= postponed <= first.now && 0 < first.now && first.now + 2 <= second.now
      requires Capacity(second.writes) >= |buf|
      modifies this
      ensures Valid() && fed == old(fed) && file == fed && buf == [] && statusOk && postponed == 0
    {
      var _ := Flush(false, first);
      var _ := Flush(false, second);
    }

    /** The handling of a write that failed or was short. */
    method ShortWrite(n: int, truncateOk: bool, ghost before: Bytes) returns (exited: bool)
      requires buf != [] && -1 <= n < |buf| && n != 0 && currentSize == |before|
      requires before + buf == fed && file == before + buf[..Max0(n)]
      modifies this`file, this`buf, this`currentSize, this`statusOk
      ensures exited == policy.Always?
      ensures file == before + (if truncateOk then [] else old(buf)[..Max0(n)])
      ensures !exited ==> Valid() && !statusOk && buf != []
    {
      var left := UndoShortWrite(n, truncateOk, before);
      if policy.Always? {
        return true;
      }
      statusOk := false;
      if left > 0 {
        assert before + buf[..left] + buf[left..] == before + buf;
        currentSize := currentSize + left;
        buf := buf[left..];
      }
      return false;
    }

    /** ftruncate takes a short write back, if it works. */
    method UndoShortWrite(n: int, truncateOk: bool, ghost before: Bytes) returns (left: int)
      requires -1 <= n < |buf| && n != 0 && currentSize == |before| && file == before + buf[..Max0(n)]
      modifies this`file
      ensures left == if truncateOk then -1 else n
      ensures file == before + buf[..Max0(left)]
    {
      left := n;
      if n != -1 {
        if truncateOk {
          file := file[..currentSize];
          left := -1;
        }
      }
    }
  }

  lemma SelectText(db: nat)
    ensures var name, text := [DOLLAR, 54, CR, LF] + (SELECT + CRLF), Dec(db);
            [STAR, 50, CR, LF] + (name + ([DOLLAR] + Dec(|text|) + CRLF + (text + CRLF))) == Encode(Select(db))
  {
    assert Dec(2) == [50] && Dec(6) == [54];
    assert Header(STAR, 2) == [STAR, 50, CR, LF];
    assert Header(DOLLAR, |SELECT|) == [DOLLAR, 54, CR, LF];
    EncodeTwoArgs(SELECT, Dec(db));
  }

  lemma EncodeTwoArgs(a: Bytes, b: Bytes)
    ensures EncodeArgs([a, b]) == EncodeArg(a) + EncodeArg(b)
  {
    assert [a, b] == [] + [a] + [b];
    EncodeArgsAppend([], a);
    EncodeArgsAppend([] + [a], b);
  }

  lemma LoggedText(selected: int, db: nat, argv: Command, before: Bytes)
    requires before == if db != selected then Encode(Select(db)) else []
    ensures before + Encode(argv) == EncodeAll(Logged(selected, db, argv))
  {
    assert [argv][1..] == [] && [Select(db), argv][1..] == [argv];
    assert Joined([argv], Encode) == Encode(argv) + [];
  }
}
