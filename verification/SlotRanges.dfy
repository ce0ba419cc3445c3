/** Slot ranges in nodes.conf: printed by clusterGenNodeDescription, read by clusterLoadConfig. */
module SlotRanges {
  import opened Hiding
  import opened SlotBitmap
  import opened SlotTable

  /** " start" or " start-stop" in the text. */
  datatype Token = Single(start: nat) | Range(start: nat, stop: nat) {
    function Last(): nat {
      if Single? then start else stop
    }
  }

  function Span(lo: nat, hi: nat): (r: set<nat>)
    ensures forall k :: k in r <==> lo <= k < hi
    decreases hi
  {
    if hi <= lo then {} else Span(lo, hi - 1) + {hi - 1}
  }

  function Slots(t: Token): set<nat> {
    Span(t.start, t.Last() + 1)
  }

  function Covered(tokens: seq<Token>): set<nat> {
    if tokens == [] then {} else Covered(tokens[..|tokens| - 1]) + Slots(tokens[|tokens| - 1])
  }

  lemma {:induction false} CoveredIff(tokens: seq<Token>, k: nat)
    ensures k in Covered(tokens) <==> exists i :: 0 <= i < |tokens| && k in Slots(tokens[i])
  {
    if tokens != [] {
      var n := |tokens| - 1;
      CoveredIff(tokens[..n], k);
      assert forall i :: 0 <= i < n ==> tokens[..n][i] == tokens[i];
    }
  }

  /** A printed token: a run of claimed slots that cannot be extended either way. */
  ghost predicate Maximal(t: Token, claim: set<nat>) {
    && t.start <= t.Last() < SLOTS
    && (t.Range? ==> t.start < t.stop)
    && (forall k :: t.start <= k <= t.Last() ==> k in claim)
    && (t.start > 0 ==> t.start - 1 !in claim)
    && t.Last() + 1 !in claim
  }

  ghost predicate Ascending(tokens: seq<Token>) {
    forall i, j :: 0 <= i < j < |tokens| ==> tokens[i].Last() + 1 < tokens[j].start
  }

  ghost predicate Canonical(tokens: seq<Token>, claim: set<nat>) {
    Ascending(tokens) && forall i :: 0 <= i < |tokens| ==> Maximal(tokens[i], claim)
  }

  lemma CoveredAppend(tokens: seq<Token>, t: Token)
    ensures Covered(tokens + [t]) == Covered(tokens) + Slots(t)
  {
    assert (tokens + [t])[..|tokens|] == tokens;
  }

  function UpTo(claim: set<nat>, j: nat): set<nat> {
    set k | k in claim && k < j
  }

  /** The token printed for the run from `start` to `j - 1`. */
  function RunToken(start: nat, j: nat): Token
    requires start < j
  {
    if start == j - 1 then Single(start) else Range(start, j - 1)
  }

  /** A run starts at `start` and all of it up to `j` is claimed. */
  ghost predicate Run(claim: set<nat>, start: nat, j: nat) {
    forall u: nat :: Unfold(Runs, u) ==>
      && start < j <= SLOTS
      && (start > 0 ==> start - 1 !in claim)
      && forall k :: start <= k < j ==> k in claim
  }

  lemma OpenRun(claim: set<nat>, j: nat)
    requires j < SLOTS && j in claim && (j > 0 ==> j - 1 !in claim)
    ensures Run(claim, j, j + 1)
  {
  }

  lemma ExtendRun(claim: set<nat>, start: nat, j: nat)
    requires Run(claim, start, j) && j < SLOTS
    ensures start < j
    ensures j in claim ==> Run(claim, start, j + 1)
  {
    assert Unfold(Runs, 0);
  }

  /** No slot beyond the last one is claimed. */
  ghost predicate Bounded(claim: set<nat>) {
    forall u: nat :: Unfold(Runs, u) ==> forall k :: k in claim ==> k < SLOTS
  }

  lemma NoneBeyond(claim: set<nat>)
    requires Bounded(claim)
    ensures SLOTS !in claim && SLOTS + 1 !in claim
  {
    assert Unfold(Runs, 0);
  }

  /** The tokens cover exactly the claimed slots below `j` (unfolded only with `Unfold`). */
  ghost predicate Printed(tokens: seq<Token>, claim: set<nat>, j: nat) {
    forall u: nat :: Unfold(Tokens, u) ==> Canonical(tokens, claim) && Covered(tokens) == UpTo(claim, j)
  }

  lemma TokensEndBefore(tokens: seq<Token>, claim: set<nat>, start: nat)
    requires Canonical(tokens, claim) && Covered(tokens) == UpTo(claim, start) && start in claim
    ensures forall i :: 0 <= i < |tokens| ==> tokens[i].Last() + 1 < start
  {
    forall i | 0 <= i < |tokens| ensures tokens[i].Last() + 1 < start {
      assert Maximal(tokens[i], claim);
      assert tokens[i].Last() in Slots(tokens[i]);
      CoveredIff(tokens, tokens[i].Last());
    }
  }

  lemma RunIsMaximal(claim: set<nat>, start: nat, j: nat)
    requires Run(claim, start, j) && j !in claim
    ensures start < j && start in claim && Maximal(RunToken(start, j), claim)
    ensures UpTo(claim, start) + Slots(RunToken(start, j)) == UpTo(claim, j)
  {
    assert Unfold(Runs, 0);
  }

  /** Closing a run extends the tokens to all claimed slots below `j`. */
  lemma CloseRun(tokens: seq<Token>, claim: set<nat>, start: nat, j: nat)
    requires Printed(tokens, claim, start) && Run(claim, start, j) && j !in claim
    ensures start < j && Printed(tokens + [RunToken(start, j)], claim, j)
  {
    assert Unfold(Tokens, 0);
    RunIsMaximal(claim, start, j);
    TokensEndBefore(tokens, claim, start);
    CoveredAppend(tokens, RunToken(start, j));
  }

  lemma SkipSlot(tokens: seq<Token>, claim: set<nat>, j: nat)
    requires Printed(tokens, claim, j) && j !in claim
    ensures Printed(tokens, claim, j + 1)
  {
    assert UpTo(claim, j + 1) == UpTo(claim, j);
  }

  lemma PrintNothing(claim: set<nat>)
    ensures Printed([], claim, 0)
  {
    assert UpTo(claim, 0) == {};
  }

  lemma PrintedAll(tokens: seq<Token>, claim: set<nat>, j: nat)
    requires Printed(tokens, claim, j) && forall k :: k in claim ==> k < j
    ensures Canonical(tokens, claim) && Covered(tokens) == claim
  {
    assert Unfold(Tokens, 0) && UpTo(claim, j) == claim;
  }

  ghost predicate Claims(b: Bitmap, claim: set<nat>) {
    8 * |b| == SLOTS && forall u: nat :: Unfold(Bits, u) ==> claim == Claimed(b)
  }

  method TestSlot(b: Bitmap, j: nat, ghost claim: set<nat>) returns (bit: bool)
    requires Claims(b, claim) && j < SLOTS
    ensures bit <==> j in claim
  {
    assert Unfold(Bits, 0);
    bit := TestBit(b, j);
  }

  method GenSlotTokens(b: Bitmap) returns (tokens: seq<Token>)
    requires 8 * |b| == SLOTS
    ensures Canonical(tokens, Claimed(b))
    ensures Covered(tokens) == Claimed(b)
  {
    tokens := PrintLoop(b, Claimed(b));
  }

  /** Lines 4016-4034. The loop steps its own index past the last slot when that slot is
      claimed, so that `j - 1` is the end of the run in both cases. */
  method PrintLoop(b: Bitmap, ghost claim: set<nat>) returns (tokens: seq<Token>)
    requires Claims(b, claim) && Bounded(claim)
    ensures Canonical(tokens, claim) && Covered(tokens) == claim
  {
    tokens := [];
    PrintNothing(claim);
    var start: int := -1;
    var j := 0;
    while j < SLOTS
      invariant j <= SLOTS + 1 && Scanned(tokens, claim, start, j)
      decreases SLOTS - j
    {
      tokens, start, j := PrintStep(b, claim, tokens, start, j);
    }
    ScannedAll(tokens, claim, start, j);
  }

  /** The state of the loop before slot `j`: no run is open, or one from `start` is. */
  ghost predicate Scanned(tokens: seq<Token>, claim: set<nat>, start: int, j: nat) {
    && -1 <= start && (j >= SLOTS ==> start == -1)
    && (start == -1 ==> Printed(tokens, claim, j) && (0 < j < SLOTS ==> j - 1 !in claim))
    && (start != -1 ==> Printed(tokens, claim, start) && Run(claim, start, j))
  }

  lemma ScannedAll(tokens: seq<Token>, claim: set<nat>, start: int, j: nat)
    requires Scanned(tokens, claim, start, j) && j >= SLOTS && Bounded(claim)
    ensures Canonical(tokens, claim) && Covered(tokens) == claim
  {
    assert Unfold(Runs, 0);
    PrintedAll(tokens, claim, j);
  }

  /** The two forms of sdscatprintf. */
  method PrintRun(tokens: seq<Token>, start: nat, j: nat) returns (tokens': seq<Token>)
    requires start < j
    ensures tokens' == tokens + [RunToken(start, j)]
  {
    if start == j - 1 {
      tokens' := tokens + [Single(start)];
    } else {
      tokens' := tokens + [Range(start, j - 1)];
    }
  }

  /** The body of the loop, with the step of its index. */
  method PrintStep(b: Bitmap, ghost claim: set<nat>, tokens: seq<Token>, start: int, j: nat)
    returns (tokens': seq<Token>, start': int, j': nat)
    requires Claims(b, claim) && Bounded(claim) && j < SLOTS && Scanned(tokens, claim, start, j)
    ensures j < j' <= SLOTS + 1 && Scanned(tokens', claim, start', j')
  {
    tokens', start', j' := tokens, start, j;
    var bit := TestSlot(b, j, claim);
    if bit && start' == -1 {
      start' := j;
      OpenRun(claim, j);
    } else if start' != -1 {
      ExtendRun(claim, start', j);
    }
    if start' != -1 && (!bit || j' == SLOTS - 1) {
      if bit && j' == SLOTS - 1 {
        NoneBeyond(claim);
        j' := j' + 1;
      }
      CloseRun(tokens, claim, start', j');
      tokens' := PrintRun(tokens', start', j');
      start' := -1;
    }
    if start' == -1 {
      SkipSlot(tokens', claim, j');
    }
    j' := j' + 1;
  }

  /** The loop of clusterAddSlot over one range; a slot that is bound already stays so. */
  method LoadRange(lo: nat, hi: nat, taken: set<nat>, slots: set<nat>) returns (r: set<nat>)
    ensures r == slots + (Span(lo, hi + 1) - taken)
  {
    r := slots;
    var start := lo;
    while start <= hi
      invariant lo <= start && (start <= hi + 1 || start == lo)
      invariant r == slots + (Span(lo, start) - taken)
    {
      assert Span(lo, start + 1) == Span(lo, start) + {start};
      if start !in taken && start !in r {
        r := r + {start};
      }
      start := start + 1;
    }
    assert Span(lo, start) == Span(lo, hi + 1);
  }

  ghost predicate InBounds(t: Token) {
    t.start < SLOTS && t.Last() < SLOTS
  }

  lemma LoadedMore(tokens: seq<Token>, i: nat, taken: set<nat>)
    requires i < |tokens|
    ensures Covered(tokens[..i]) - taken + (Slots(tokens[i]) - taken) == Covered(tokens[..i + 1]) - taken
  {
    CoveredAppend(tokens[..i], tokens[i]);
    assert tokens[..i + 1] == tokens[..i] + [tokens[i]];
  }

  /** Lines 262-271 for the tokens of one node: bounds are checked, then every slot of the
      range is added; `taken` are the slots bound to nodes read before, and `slots` is what
      clusterAddSlot has bound to this one. */
  method LoadTokens(tokens: seq<Token>, taken: set<nat>) returns (ok: bool, slots: set<nat>)
    ensures ok <==> forall i :: 0 <= i < |tokens| ==> InBounds(tokens[i])
    ensures ok ==> slots == Covered(tokens) - taken
  {
    ok, slots := true, {};
    for i := 0 to |tokens|
      invariant forall k :: 0 <= k < i ==> InBounds(tokens[k])
      invariant slots == Covered(tokens[..i]) - taken
    {
      var start, stop := tokens[i].start, tokens[i].Last();
      if start >= SLOTS || stop >= SLOTS {
        assert !InBounds(tokens[i]);
        return false, slots;
      }
      LoadedMore(tokens, i, taken);
      slots := LoadRange(start, stop, taken, slots);
    }
    assert tokens[..|tokens|] == tokens;
  }

  /** Writing the slots of a node and reading them back gives the same slots. */
  method SaveAndLoad(b: Bitmap, taken: set<nat>) returns (ok: bool, slots: set<nat>)
    requires 8 * |b| == SLOTS
    ensures ok && slots == Claimed(b) - taken
  {
    var tokens := GenSlotTokens(b);
    forall i | 0 <= i < |tokens| ensures InBounds(tokens[i]) {
      assert Maximal(tokens[i], Claimed(b));
    }
    ok, slots := LoadTokens(tokens, taken);
  }

  // ---- the printed form is the only one ----

  /** The token of `t` that holds slot `k`. */
  lemma Holder(t: seq<Token>, claim: set<nat>, k: nat) returns (i: nat)
    requires Canonical(t, claim) && k in Covered(t)
    ensures i < |t| && t[i].start <= k <= t[i].Last() && Maximal(t[i], claim)
  {
    CoveredIff(t, k);
    i :| 0 <= i < |t| && k in Slots(t[i]);
  }

  lemma SameRun(a: Token, b: Token, claim: set<nat>)
    requires Maximal(a, claim) && Maximal(b, claim) && b.start <= a.start <= b.Last()
    ensures a == b
  {
    assert b.start < a.start ==> a.start - 1 in claim;
    assert a.Last() < b.Last() ==> a.Last() + 1 in claim;
    assert b.Last() < a.Last() ==> b.Last() + 1 in claim;
  }

  /** Every token of one canonical text occurs in the other. */
  lemma Occurs(s: seq<Token>, t: seq<Token>, claim: set<nat>, i: nat) returns (k: nat)
    requires Canonical(s, claim) && Canonical(t, claim) && Covered(s) == Covered(t) && i < |s|
    ensures k < |t| && t[k] == s[i]
  {
    assert Maximal(s[i], claim) && s[i].start in Slots(s[i]);
    CoveredIff(s, s[i].start);
    k := Holder(t, claim, s[i].start);
    SameRun(s[i], t[k], claim);
  }

  ghost predicate SameText(s: seq<Token>, t: seq<Token>, claim: set<nat>) {
    forall u: nat :: Unfold(Tokens, u) ==> Canonical(s, claim) && Canonical(t, claim) && Covered(s) == Covered(t)
  }

  /** A token that occurs elsewhere in the other text comes no earlier there. */
  lemma ComesNoEarlier(s: seq<Token>, t: seq<Token>, i: nat, k: nat)
    requires Ascending(s) && i < |s| && k < |t| && t[k] == s[i] && s[i].start <= s[i].Last()
    requires i <= |t| && forall m :: 0 <= m < i ==> s[m] == t[m]
    ensures i <= k
  {
    forall m | 0 <= m < i
      ensures s[m] != s[i]
    {
      assert s[m].Last() + 1 < s[i].start;
    }
  }

  lemma SamePlace(s: seq<Token>, t: seq<Token>, i: nat, k: nat, l: nat)
    requires Ascending(s) && Ascending(t) && i <= k < |t| && i <= l < |s| && i < |s|
    requires t[k] == s[i] && s[l] == t[i] && s[i].start <= s[i].Last() && t[i].start <= t[i].Last()
    ensures s[i] == t[i]
  {
    assert i < k ==> t[i].Last() + 1 < t[k].start;
    assert i < l ==> s[i].Last() + 1 < s[l].start;
  }

  lemma NextToken(s: seq<Token>, t: seq<Token>, claim: set<nat>, i: nat)
    requires SameText(s, t, claim)
    requires i < |s| && i <= |t| && forall m :: 0 <= m < i ==> s[m] == t[m]
    ensures i < |t| && s[i] == t[i]
  {
    assert Unfold(Tokens, 0);
    var k := Occurs(s, t, claim, i);
    assert Maximal(s[i], claim);
    ComesNoEarlier(s, t, i, k);
    var l := Occurs(t, s, claim, i);
    assert Maximal(t[i], claim);
    ComesNoEarlier(t, s, i, l);
    SamePlace(s, t, i, k, l);
  }

  /** Ascending, disjoint, maximal ranges determine their text. */
  lemma CanonicalIsUnique(s: seq<Token>, t: seq<Token>, claim: set<nat>)
    requires Canonical(s, claim) && Canonical(t, claim) && Covered(s) == Covered(t)
    ensures s == t
  {
    SameTextIsEqual(s, t, claim);
  }

  lemma SameTextIsEqual(s: seq<Token>, t: seq<Token>, claim: set<nat>)
    requires SameText(s, t, claim)
    ensures s == t
  {
    for i := 0 to |s|
      invariant i <= |t| && forall m :: 0 <= m < i ==> s[m] == t[m]
    {
      NextToken(s, t, claim, i);
    }
    if |s| < |t| {
      assert SameText(t, s, claim);
      NextToken(t, s, claim, |s|);
    }
  }
}
