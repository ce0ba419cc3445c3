/**
 The queues of a colegiado: calling the next person, and the position shown to a student.
 `filas` are in ascending priority; position k of a fila (from 1) is element k - 1 of `vagas`.
*/
module Filas {
  import opened Options

  datatype Fila = Fila(ativo: bool, posicao: nat, vagas: seq<nat>) {
    predicate Pending() {
      posicao < |vagas|
    }

    function Left(): nat {
      if posicao < |vagas| then |vagas| - posicao else 0
    }
  }

  datatype Vaga = Vaga(fila: nat, posicao: nat)

  datatype Result = Ok(value: int) | NoMethodError

  // ---- calling the next ----

  /** The first fila with somebody left, or the number of filas. Inactive ones are not skipped. */
  function FirstPending(filas: seq<Fila>): (i: nat)
    ensures i <= |filas| && (i < |filas| ==> filas[i].Pending())
    ensures forall j :: 0 <= j < i ==> !filas[j].Pending()
  {
    if filas == [] then 0
    else if filas[0].Pending() then 0
    else
      var i := FirstPending(filas[1..]);
      assert forall j :: 1 <= j < 1 + i ==> filas[j] == filas[1..][j - 1];
      1 + i
  }

  /** One "next": the first fila with somebody left moves on. */
  function Next(filas: seq<Fila>): seq<Fila> {
    var i := FirstPending(filas);
    if i == |filas| then filas else filas[i := filas[i].(posicao := filas[i].posicao + 1)]
  }

  function Run(filas: seq<Fila>, k: nat): (r: seq<Fila>)
    ensures |r| == |filas|
    decreases k
  {
    if k == 0 then filas else Run(Next(filas), k - 1)
  }

  class Colegiado {
    var filas: seq<Fila>
    var mesas: map<int, Option<Vaga>>

    constructor (fs: seq<Fila>, ms: map<int, Option<Vaga>>)
      ensures filas == fs && mesas == ms
    {
      filas, mesas := fs, ms;
    }

    /** proxima_fila_nao_vazia. */
    method ProximaFilaNaoVazia() returns (i: Option<nat>)
      ensures var n := FirstPending(filas);
              i == if n < |filas| then Some(n) else None
    {
      for j := 0 to |filas|
        invariant forall l :: 0 <= l < j ==> !filas[l].Pending()
      {
        if filas[j].posicao < |filas[j].vagas| {
          FirstIs(filas, j);
          return Some(j);
        }
      }
      return None;
    }

    /** chama_proximo: the position moves on and the desk gets the person there. */
    method ChamaProximo(i: nat, mesa: int)
      requires i < |filas|
      modifies this
      ensures filas == old(filas)[i := old(filas)[i].(posicao := old(filas)[i].posicao + 1)]
      ensures var p := old(filas)[i].posicao + 1;
              mesas == old(mesas)[mesa := if p <= |old(filas)[i].vagas| then Some(Vaga(i, p)) else None]
    {
      filas := filas[i := filas[i].(posicao := filas[i].posicao + 1)];
      var p := filas[i].posicao;
      var atual := if 1 <= p <= |filas[i].vagas| then Some(Vaga(i, p)) else None;
      mesas := mesas[mesa := atual];
    }

    /** The action: without a desk nothing happens; otherwise the desk gets the next person, who
        always exists, or is emptied when there is none. */
    method Proximo(session: Option<int>) returns (served: bool)
      modifies this
      ensures served == (session.Some? && session.value in old(mesas))
      ensures !served ==> filas == old(filas) && mesas == old(mesas)
      ensures served ==> filas == Next(old(filas))
      ensures served ==>
        var i := FirstPending(old(filas));
        var called := if i < |old(filas)| then Some(Vaga(i, old(filas)[i].posicao + 1)) else None;
        mesas == old(mesas)[session.value := called]
    {
      if session.None? {
        return false;
      }
      var mesa := session.value;
      if mesa !in mesas {
        return false;
      }
      served := true;
      var fila := ProximaFilaNaoVazia();
      if fila.Some? {
        if filas[fila.value].posicao == |filas[fila.value].vagas| {
          assert false;
        } else {
          ChamaProximo(fila.value, mesa);
        }
      } else if mesas[mesa] != None {
        mesas := mesas[mesa := None];
      }
    }
  }

  lemma {:induction false} FirstIs(filas: seq<Fila>, i: nat)
    requires i < |filas| && filas[i].Pending() && forall j :: 0 <= j < i ==> !filas[j].Pending()
    ensures FirstPending(filas) == i
  {
  }

  // ---- how many calls until a vaga ----

  /** The people left in the first `n` filas, active or not. */
  function Ahead(filas: seq<Fila>, n: nat): nat
    requires n <= |filas|
  {
    if n == 0 then 0 else Ahead(filas, n - 1) + filas[n - 1].Left()
  }

  lemma {:induction false} AheadUpdate(filas: seq<Fila>, i: nat, f: Fila, n: nat)
    requires i < |filas| && n <= |filas|
    ensures Ahead(filas[i := f], n) == Ahead(filas, n) + if i < n then f.Left() - filas[i].Left() else 0
  {
    if n > 0 {
      AheadUpdate(filas, i, f, n - 1);
    }
  }

  lemma {:induction false} AheadZero(filas: seq<Fila>, n: nat)
    requires n <= |filas|
    ensures Ahead(filas, n) == 0 <==> forall j :: 0 <= j < n ==> !filas[j].Pending()
  {
    if n > 0 {
      AheadZero(filas, n - 1);
    }
  }

  /** One call takes one person from those ahead of fila `f`, or moves `f` itself. */
  lemma NextAhead(filas: seq<Fila>, f: nat)
    requires f < |filas| && filas[f].Pending()
    ensures var next := Next(filas);
            && next[f].vagas == filas[f].vagas
            && if Ahead(filas, f) > 0 then Ahead(next, f) == Ahead(filas, f) - 1 && next[f] == filas[f]
               else Ahead(next, f) == 0 && next[f].posicao == filas[f].posicao + 1
  {
    var i := FirstPending(filas);
    AheadZero(filas, f);
    AheadUpdate(filas, i, filas[i].(posicao := filas[i].posicao + 1), f);
  }

  /** Once a fila is at or past a position it stays so. */
  lemma {:induction false} PastStays(filas: seq<Fila>, f: nat, p: nat, k: nat)
    requires f < |filas| && filas[f].posicao >= p
    ensures Run(filas, k)[f].posicao >= p
    decreases k
  {
    if k > 0 {
      PastStays(Next(filas), f, p, k - 1);
    }
  }

  /** The number of calls until position `p` of fila `f`. */
  function Calls(filas: seq<Fila>, f: nat, p: nat): nat
    requires f < |filas| && filas[f].posicao <= p
  {
    if filas[f].posicao == p then 0 else Ahead(filas, f) + (p - filas[f].posicao)
  }

  /** It takes exactly that many: the position is reached then, and not before. */
  lemma {:induction false} CallsAreExact(filas: seq<Fila>, f: nat, p: nat, k: nat)
    requires f < |filas| && filas[f].posicao <= p <= |filas[f].vagas|
    ensures Run(filas, k)[f].posicao >= p <==> k >= Calls(filas, f, p)
    ensures k == Calls(filas, f, p) ==> Run(filas, k)[f].posicao == p
    decreases k
  {
    if filas[f].posicao == p {
      PastStays(filas, f, p, k);
    } else if k > 0 {
      NextAhead(filas, f);
      CallsAreExact(Next(filas), f, p, k - 1);
    }
  }

  // ---- the position shown to a student ----

  /** The student has position `q` of a fila, and it is still to come. */
  predicate Has(fila: Fila, aluno: nat, q: nat) {
    1 <= q <= |fila.vagas| && fila.posicao <= q && fila.vagas[q - 1] == aluno
  }

  ghost predicate NearestIn(fila: Fila, aluno: nat, p: nat) {
    Has(fila, aluno, p) && forall q: nat :: q < p ==> !Has(fila, aluno, q)
  }

  ghost predicate NotIn(fila: Fila, aluno: nat) {
    forall q: nat :: !Has(fila, aluno, q)
  }

  /** The nearest place of a student in the active fila of highest priority that has one. */
  ghost predicate Nearest(filas: seq<Fila>, aluno: nat, v: Vaga) {
    && v.fila < |filas| && filas[v.fila].ativo && NearestIn(filas[v.fila], aluno, v.posicao)
    && forall i :: 0 <= i < v.fila && filas[i].ativo ==> NotIn(filas[i], aluno)
  }

  method NearestVaga(fila: Fila, aluno: nat) returns (p: Option<nat>)
    ensures if p.Some? then NearestIn(fila, aluno, p.value) else NotIn(fila, aluno)
  {
    for q := 1 to |fila.vagas| + 1
      invariant forall r: nat :: r < q ==> !Has(fila, aluno, r)
    {
      if fila.posicao <= q && fila.vagas[q - 1] == aluno {
        assert Has(fila, aluno, q);
        return Some(q);
      }
    }
    return None;
  }

  /** proxima_vaga. */
  method ProximaVaga(filas: seq<Fila>, aluno: nat) returns (v: Option<Vaga>)
    ensures if v.Some? then Nearest(filas, aluno, v.value)
            else forall i :: 0 <= i < |filas| && filas[i].ativo ==> NotIn(filas[i], aluno)
  {
    for i := 0 to |filas|
      invariant forall j :: 0 <= j < i && filas[j].ativo ==> NotIn(filas[j], aluno)
    {
      if filas[i].ativo {
        var p := NearestVaga(filas[i], aluno);
        if p.Some? {
          return Some(Vaga(i, p.value));
        }
      }
    }
    return None;
  }

  /** The people left in the first `n` filas, counting the active ones only. */
  function ActiveAhead(filas: seq<Fila>, n: nat): nat
    requires n <= |filas|
  {
    if n == 0 then 0 else ActiveAhead(filas, n - 1) + if filas[n - 1].ativo then filas[n - 1].Left() else 0
  }

  /** An active fila nobody ever joined has no last vaga to ask for its position. */
  ghost predicate HasEmpty(filas: seq<Fila>, n: nat)
    requires n <= |filas|
  {
    exists i :: 0 <= i < n && filas[i].ativo && filas[i].vagas == []
  }

  ghost function Shown(filas: seq<Fila>, v: Vaga): Result
    requires v.fila < |filas|
  {
    var here := filas[v.fila].posicao;
    if v.posicao == here then Ok(0)
    else if HasEmpty(filas, v.fila) then NoMethodError
    else Ok(ActiveAhead(filas, v.fila) + v.posicao - here)
  }

  /** posicao_total. */
  method PosicaoTotal(filas: seq<Fila>, aluno: nat) returns (r: Result)
    ensures r == Ok(-1) <==> forall i :: 0 <= i < |filas| && filas[i].ativo ==> NotIn(filas[i], aluno)
    ensures forall v :: Nearest(filas, aluno, v) ==> r == Shown(filas, v)
  {
    var vaga := ProximaVaga(filas, aluno);
    if vaga.None? {
      return Ok(-1);
    }
    var f, p := vaga.value.fila, vaga.value.posicao;
    assert Nearest(filas, aluno, Vaga(f, p));
    forall v | Nearest(filas, aluno, v)
      ensures v == Vaga(f, p)
    {
      NearestIsUnique(filas, aluno, v, Vaga(f, p));
    }
    if p == filas[f].posicao {
      return Ok(0);
    }
    var soma := 0;
    for i := 0 to f
      invariant soma == ActiveAhead(filas, i) && !HasEmpty(filas, i)
    {
      if filas[i].ativo {
        if filas[i].vagas == [] {
          assert HasEmpty(filas, f);
          return NoMethodError;
        }
        var diff := |filas[i].vagas| - filas[i].posicao;
        if diff > 0 {
          soma := soma + diff;
        }
      }
    }
    var diff := p - filas[f].posicao;
    if diff > 0 {
      soma := soma + diff;
    }
    r := Ok(soma);
  }

  lemma NearestIsUnique(filas: seq<Fila>, aluno: nat, v: Vaga, w: Vaga)
    requires Nearest(filas, aluno, v) && Nearest(filas, aluno, w)
    ensures v == w
  {
    assert Has(filas[v.fila], aluno, v.posicao) && Has(filas[w.fila], aluno, w.posicao);
  }

  /** Nobody waits in an inactive fila among the first `n`. */
  ghost predicate NoInactivePending(filas: seq<Fila>, n: nat)
    requires n <= |filas|
  {
    forall i :: 0 <= i < n && !filas[i].ativo ==> !filas[i].Pending()
  }

  lemma {:induction false} ActiveIsAll(filas: seq<Fila>, n: nat)
    requires n <= |filas|
    ensures ActiveAhead(filas, n) <= Ahead(filas, n)
    ensures ActiveAhead(filas, n) == Ahead(filas, n) <==> NoInactivePending(filas, n)
  {
    if n > 0 {
      ActiveIsAll(filas, n - 1);
    }
  }

  /** The position shown is the number of calls until the student's turn exactly when it is
      already their turn, or no active fila ahead is empty and no inactive one has people. */
  lemma ShownIsExact(filas: seq<Fila>, aluno: nat, v: Vaga)
    requires Nearest(filas, aluno, v)
    ensures var now := v.posicao == filas[v.fila].posicao;
            Shown(filas, v) == Ok(Calls(filas, v.fila, v.posicao)) <==>
              now || (!HasEmpty(filas, v.fila) && NoInactivePending(filas, v.fila))
  {
    ActiveIsAll(filas, v.fila);
  }

  /** With all filas active and none empty the position shown is exact. */
  lemma AllActiveIsExact(filas: seq<Fila>, aluno: nat, v: Vaga, k: nat)
    requires Nearest(filas, aluno, v) && forall i :: 0 <= i < |filas| ==> filas[i].ativo && filas[i].vagas != []
    ensures Shown(filas, v).Ok?
    ensures Run(filas, k)[v.fila].posicao >= v.posicao <==> k >= Shown(filas, v).value
  {
    ShownIsExact(filas, aluno, v);
    CallsAreExact(filas, v.fila, v.posicao, k);
  }

  /** An inactive fila of higher priority with people left: the student is told 1 and waits 3. */
  lemma InactiveFilaIsNotCounted()
    ensures var filas := [Fila(false, 1, [7, 8, 9]), Fila(true, 1, [5, 6])];
            && Nearest(filas, 6, Vaga(1, 2)) && Shown(filas, Vaga(1, 2)) == Ok(1) && Calls(filas, 1, 2) == 3
            && Run(filas, 1)[1].posicao < 2
  {
    var filas := [Fila(false, 1, [7, 8, 9]), Fila(true, 1, [5, 6])];
    ActiveIsAll(filas, 1);
    assert Ahead(filas, 1) == Ahead(filas, 0) + filas[0].Left() == 2;
    assert ActiveAhead(filas, 1) == ActiveAhead(filas, 0) + 0;
    CallsAreExact(filas, 1, 2, 1);
  }

  /** An active fila of higher priority that nobody ever joined: asking for the position fails,
      and the student is called next. */
  lemma EmptyFilaFails()
    ensures var filas := [Fila(true, 0, []), Fila(true, 0, [5])];
            && Nearest(filas, 5, Vaga(1, 1)) && Shown(filas, Vaga(1, 1)) == NoMethodError
            && Calls(filas, 1, 1) == 1 && Run(filas, 1)[1].posicao == 1
  {
    var filas := [Fila(true, 0, []), Fila(true, 0, [5])];
    assert filas[0].ativo && filas[0].vagas == [];
    assert Ahead(filas, 1) == Ahead(filas, 0) + filas[0].Left() == 0;
    CallsAreExact(filas, 1, 1, 1);
  }
}
