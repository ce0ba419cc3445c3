/** Sequences of chunks and the items in them, for any items and chunks; distinct items. */
module Sequences {

  ghost predicate Distinct<T>(s: seq<T>) {
    forall i, j :: 0 <= i < j < |s| ==> s[i] != s[j]
  }

  function Joined<E, C>(es: seq<E>, chunk: E -> seq<C>): seq<C> {
    if es == [] then [] else chunk(es[0]) + Joined(es[1..], chunk)
  }

  lemma {:induction false} JoinedTogether<E, C>(es: seq<E>, more: seq<E>, chunk: E -> seq<C>)
    ensures Joined(es + more, chunk) == Joined(es, chunk) + Joined(more, chunk)
    decreases |es|
  {
    if es == [] {
      assert es + more == more;
    } else {
      assert (es + more)[1..] == es[1..] + more;
      JoinedTogether(es[1..], more, chunk);
    }
  }

  function Same<C>(): seq<C> -> seq<C> {
    (s: seq<C>) => s
  }

  function Flatten<C>(ss: seq<seq<C>>): seq<C> {
    Joined(ss, Same())
  }

  lemma FlattenTogether<C>(x: seq<seq<C>>, y: seq<seq<C>>)
    ensures Flatten(x + y) == Flatten(x) + Flatten(y)
  {
    JoinedTogether(x, y, Same());
  }

  lemma FlattenFirst<C>(ss: seq<seq<C>>)
    requires ss != []
    ensures Flatten(ss) == ss[0] + Flatten(ss[1..])
  {
  }

  /** The first items of a sequence of chunks: those of the first `whole` chunks and then
      `part` more. */
  datatype Place = Place(whole: nat, part: nat)

  function Locate<E, C>(es: seq<E>, k: nat, chunk: E -> seq<C>): (p: Place)
    ensures p.whole <= |es|
    ensures p.part > 0 ==> p.whole < |es| && p.part < |chunk(es[p.whole])|
    decreases |es|
  {
    if es == [] then Place(0, 0)
    else if k < |chunk(es[0])| then Place(0, k)
    else
      var p := Locate(es[1..], k - |chunk(es[0])|, chunk);
      assert p.part > 0 ==> es[1..][p.whole] == es[1 + p.whole];
      Place(1 + p.whole, p.part)
  }

  /** The items of chunk `p.whole` that come before the place. */
  function Part<E, C>(es: seq<E>, p: Place, chunk: E -> seq<C>): seq<C>
    requires p.part > 0 ==> p.whole < |es| && p.part <= |chunk(es[p.whole])|
  {
    if p.part > 0 then chunk(es[p.whole])[..p.part] else []
  }

  lemma Associate<C>(a: seq<C>, b: seq<C>, c: seq<C>)
    ensures a + b + c == a + (b + c)
  {
  }

  lemma JoinedCons<E, C>(es: seq<E>, i: nat, chunk: E -> seq<C>)
    requires 0 < i <= |es|
    ensures Joined(es[..i], chunk) == chunk(es[0]) + Joined(es[1..][..i - 1], chunk)
  {
    assert es[..i][1..] == es[1..][..i - 1] && es[..i][0] == es[0];
  }

  lemma TakePast<C>(c: seq<C>, f: seq<C>, k: nat, pre: seq<C>, part: seq<C>)
    requires |c| <= k <= |c| + |f| && f[..k - |c|] == pre + part
    ensures (c + f)[..k] == c + pre + part
  {
    assert (c + f)[..k] == c + f[..k - |c|];
  }

  lemma {:induction false} LocateSplits<E, C>(es: seq<E>, k: nat, chunk: E -> seq<C>)
    requires k <= |Joined(es, chunk)|
    ensures var p := Locate(es, k, chunk);
            Joined(es, chunk)[..k] == Joined(es[..p.whole], chunk) + Part(es, p, chunk)
    decreases |es|
  {
    if es == [] {
      assert es[..0] == [];
    } else {
      var c, rest := chunk(es[0]), es[1..];
      if k < |c| {
        assert es[..0] == [] && Joined(es, chunk)[..k] == c[..k];
      } else {
        var p := Locate(rest, k - |c|, chunk);
        LocateSplits(rest, k - |c|, chunk);
        TakePast(c, Joined(rest, chunk), k, Joined(rest[..p.whole], chunk), Part(rest, p, chunk));
        JoinedCons(es, 1 + p.whole, chunk);
      }
    }
  }

  /** The place of item `j` of chunk `i`. */
  lemma {:induction false} LocateAt<E, C>(es: seq<E>, i: nat, j: nat, chunk: E -> seq<C>)
    requires i < |es| && j < |chunk(es[i])|
    ensures Locate(es, |Joined(es[..i], chunk)| + j, chunk) == Place(i, j)
    decreases i
  {
    if i == 0 {
      assert es[..0] == [];
    } else {
      JoinedCons(es, i, chunk);
      LocateAt(es[1..], i - 1, j, chunk);
    }
  }

  lemma {:induction false} JoinedSplit<E, C>(es: seq<E>, i: nat, chunk: E -> seq<C>)
    requires i < |es|
    ensures Joined(es, chunk) == Joined(es[..i], chunk) + (chunk(es[i]) + Joined(es[i + 1..], chunk))
    decreases i
  {
    var rest := chunk(es[i]) + Joined(es[i + 1..], chunk);
    if i == 0 {
      assert es[..0] == [] && [] + rest == rest;
    } else {
      JoinedCons(es, i, chunk);
      JoinedSplit(es[1..], i - 1, chunk);
      assert es[1..][i..] == es[i + 1..];
      Associate(chunk(es[0]), Joined(es[1..][..i - 1], chunk), rest);
    }
  }

  lemma SplitAround<C>(before: seq<C>, cmds: seq<C>, after: seq<C>, j: nat)
    requires j < |cmds|
    ensures before + (cmds + after) == before + cmds[..j] + ([cmds[j]] + (cmds[j + 1..] + after))
  {
    assert cmds == cmds[..j] + ([cmds[j]] + cmds[j + 1..]);
    Associate([cmds[j]], cmds[j + 1..], after);
    Associate(cmds[..j], [cmds[j]] + cmds[j + 1..], after);
    Associate(before, cmds[..j], [cmds[j]] + (cmds[j + 1..] + after));
  }

  /** The items around item `j` of chunk `i`. */
  lemma JoinedAround<E, C>(es: seq<E>, i: nat, j: nat, chunk: E -> seq<C>)
    requires i < |es| && j < |chunk(es[i])|
    ensures var c := chunk(es[i]);
            Joined(es, chunk) ==
              Joined(es[..i], chunk) + c[..j] + ([c[j]] + (c[j + 1..] + Joined(es[i + 1..], chunk)))
  {
    JoinedSplit(es, i, chunk);
    SplitAround(Joined(es[..i], chunk), chunk(es[i]), Joined(es[i + 1..], chunk), j);
  }
}
