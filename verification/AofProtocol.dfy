/**
 The bytes of the append only file: the command printer of aof.c, and the pieces of its
 reader (fgets, atoi and strtol, fread) as functions of the bytes not yet read.
*/
module AofProtocol {
  import opened LogReplay
  import opened LogScan
  import opened Sequences

  /** Nothing below depends on the range of a byte, so no bound is imposed. */
  type byte = int

  const CR: byte := 13
  const LF: byte := 10
  const STAR: byte := 42
  const DOLLAR: byte := 36
  const ZERO: byte := 48
  const CRLF: Bytes := [CR, LF]

  // ---- printing ----

  /** ll2string for a non-negative number. */
  function Dec(n: nat): (s: Bytes)
    ensures |s| > 0
  {
    if n < 10 then [ZERO + n] else Dec(n / 10) + [ZERO + n % 10]
  }

  function Header(prefix: byte, n: nat): Bytes {
    [prefix] + Dec(n) + CRLF
  }

  function EncodeArg(arg: Bytes): Bytes {
    Header(DOLLAR, |arg|) + (arg + CRLF)
  }

  function EncodeArgs(args: seq<Bytes>): Bytes {
    if args == [] then [] else EncodeArg(args[0]) + EncodeArgs(args[1..])
  }

  function Encode(cmd: Command): Bytes {
    Header(STAR, |cmd|) + EncodeArgs(cmd)
  }

  function EncodeAll(cmds: seq<Command>): Bytes {
    Joined(cmds, Encode)
  }

  /** What the C types of argc (int) and sds lengths (below 2^63) guarantee; a command has
      at least its name. */
  ghost predicate Sized(cmd: Command) {
    && 1 <= |cmd| < 0x8000_0000
    && forall i :: 0 <= i < |cmd| ==> |cmd[i]| < 0x8000_0000_0000_0000
  }

  ghost predicate AllSized(cmds: seq<Command>) {
    forall i :: 0 <= i < |cmds| ==> Sized(cmds[i])
  }

  // ---- reading lines and numbers ----

  /** fgets with a buffer of 128 bytes: up to `max` bytes, through the first newline. */
  function Line(s: Bytes, max: nat): (line: Bytes)
    ensures |line| <= |s| && line == s[..|line|] && |line| <= max
    ensures s != [] && max > 0 ==> |line| > 0
  {
    if s == [] || max == 0 then []
    else if s[0] == LF then [LF]
    else [s[0]] + Line(s[1..], max - 1)
  }

  const LINE_MAX: nat := 127

  predicate IsDigit(b: byte) {
    ZERO <= b <= ZERO + 9
  }

  predicate IsSpace(b: byte) {
    b == 32 || 9 <= b <= 13
  }

  /** The digits at the start of `s`, read after `acc`. */
  function Digits(acc: nat, s: Bytes): (n: nat)
    ensures n >= acc
    decreases |s|
  {
    if s != [] && IsDigit(s[0]) then Digits(10 * acc + (s[0] - ZERO), s[1..]) else acc
  }

  /** atoi and strtol in base ten, without overflow. */
  function Atoi(s: Bytes): int {
    if s == [] then 0
    else if IsSpace(s[0]) then Atoi(s[1..])
    else if s[0] == 45 then 0 - Digits(0, s[1..])
    else if s[0] == 43 then Digits(0, s[1..])
    else Digits(0, s)
  }

  // ---- numbers round trip ----

  lemma {:induction false} DecIsDigits(n: nat)
    ensures forall i :: 0 <= i < |Dec(n)| ==> IsDigit(Dec(n)[i])
    ensures n > 0 ==> Dec(n)[0] > ZERO
  {
    if n >= 10 {
      DecIsDigits(n / 10);
    }
  }

  lemma {:induction false} DigitsAppend(acc: nat, s: Bytes, t: Bytes)
    requires forall i :: 0 <= i < |s| ==> IsDigit(s[i])
    ensures Digits(acc, s + t) == Digits(Digits(acc, s), t)
    decreases |s|
  {
    if s == [] {
      assert s + t == t;
    } else {
      assert (s + t)[1..] == s[1..] + t;
      DigitsAppend(10 * acc + (s[0] - ZERO), s[1..], t);
    }
  }

  lemma {:induction false} DigitsOfDec(n: nat)
    ensures Digits(0, Dec(n)) == n
  {
    DecIsDigits(n);
    if n >= 10 {
      DigitsOfDec(n / 10);
      DecIsDigits(n / 10);
      DigitsAppend(0, Dec(n / 10), [ZERO + n % 10]);
      assert Digits(n / 10, [ZERO + n % 10]) == Digits(n, []);
    }
  }

  lemma AtoiOfDec(n: nat)
    ensures Atoi(Dec(n) + CRLF) == n
  {
    DecIsDigits(n);
    DigitsOfDec(n);
    DigitsAppend(0, Dec(n), CRLF);
  }

  /** A number cut short anywhere still reads as non-negative, and as positive if any digit
      of a positive number is left. */
  lemma AtoiOfCut(n: nat, k: nat)
    requires k <= |Dec(n) + CRLF|
    ensures Atoi((Dec(n) + CRLF)[..k]) >= 0
    ensures n > 0 && k > 0 ==> Atoi((Dec(n) + CRLF)[..k]) >= 1
  {
    DecIsDigits(n);
    var s := (Dec(n) + CRLF)[..k];
    if k > 0 {
      assert s[0] == Dec(n)[0];
      assert Digits(0, s) >= s[0] - ZERO;
    }
  }

  ghost function Pow10(k: nat): nat {
    if k == 0 then 1 else 10 * Pow10(k - 1)
  }

  lemma {:induction false} DecLength(n: nat, k: nat)
    requires k > 0 && n < Pow10(k)
    ensures |Dec(n)| <= k
  {
    if n >= 10 {
      DecLength(n / 10, k - 1);
    }
  }

  lemma Pow10Values()
    ensures Pow10(10) == 10000000000 && Pow10(19) == 10000000000000000000
  {
    assert Pow10(5) == 100000;
    assert Pow10(10) == 10000000000;
    assert Pow10(15) == 1000000000000000;
  }

  /** The header of a line always fits the reader's buffer. */
  lemma HeaderLength(prefix: byte, n: nat)
    requires n < 0x8000_0000_0000_0000
    ensures |Header(prefix, n)| <= 22
  {
    Pow10Values();
    DecLength(n, 19);
  }

  // ---- lines round trip ----

  lemma {:induction false} LineOf(body: Bytes, rest: Bytes, max: nat)
    requires LF !in body && |body| < max
    ensures Line(body + [LF] + rest, max) == body + [LF]
    decreases |body|
  {
    if body == [] {
      assert body + [LF] + rest == [LF] + rest;
    } else {
      assert (body + [LF] + rest)[1..] == body[1..] + [LF] + rest;
      LineOf(body[1..], rest, max - 1);
    }
  }

  lemma {:induction false} LineCut(body: Bytes, max: nat)
    requires LF !in body && |body| <= max
    ensures Line(body, max) == body
    decreases |body|
  {
    if body != [] {
      LineCut(body[1..], max - 1);
    }
  }

  lemma NoNewlineInside(prefix: byte, n: nat)
    requires prefix != LF
    ensures LF !in [prefix] + Dec(n) + [CR]
  {
    DecIsDigits(n);
  }

  /** A whole header line is read as such, whatever follows. */
  lemma HeaderLine(prefix: byte, n: nat, rest: Bytes)
    requires n < 0x8000_0000_0000_0000 && prefix != LF
    ensures Line(Header(prefix, n) + rest, LINE_MAX) == Header(prefix, n)
    ensures Header(prefix, n)[1..] == Dec(n) + CRLF
  {
    HeaderLength(prefix, n);
    NoNewlineInside(prefix, n);
    var body := [prefix] + Dec(n) + [CR];
    LineOf(body, rest, LINE_MAX);
    assert Header(prefix, n) == body + [LF];
    assert Header(prefix, n) + rest == body + [LF] + rest;
  }

  /** A header cut before its end is read up to the end of the file. */
  lemma HeaderCut(prefix: byte, n: nat, m: nat)
    requires n < 0x8000_0000_0000_0000 && prefix != LF && 0 < m < |Header(prefix, n)|
    ensures Line(Header(prefix, n)[..m], LINE_MAX) == Header(prefix, n)[..m]
    ensures LF !in Header(prefix, n)[..m]
    ensures Header(prefix, n)[..m][1..] == (Dec(n) + CRLF)[..m - 1]
  {
    HeaderLength(prefix, n);
    NoNewlineInside(prefix, n);
    var body := [prefix] + Dec(n) + [CR];
    assert Header(prefix, n) == body + [LF];
    assert Header(prefix, n)[..m] == body[..m];
    LineCut(body[..m], LINE_MAX);
  }
}
