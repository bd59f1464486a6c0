/**
 * Assignments (escalas) of a person to a function in a service: the stored
 * columns, the partial unique index on (culto_id, pessoa_id, funcao_id)
 * over live rows, and the instance transitions `confirmar`, `fazerCheckIn`
 * and `marcarAusente` with their tests `estaConfirmada` and `fezCheckIn`.
 */
module EscalaModel {
  import opened Wrappers
  import opened Js
  import opened Tabela

  const StatusPendente: nat := 1
  const StatusConfirmado: nat := 2
  const StatusPresente: nat := 3
  const StatusAusente: nat := 4

  datatype EscalaRow = EscalaRow(
    cultoId: nat,
    pessoaId: nat,
    funcaoId: nat,
    statusId: nat,
    confirmadoEm: Option<Instant>,
    checkInEm: Option<Instant>,
    observacoes: Option<string>,
    createdBy: nat)

  /** The columns of the unique index. */
  datatype Chave = Chave(cultoId: nat, pessoaId: nat, funcaoId: nat)

  function ChaveDe(e: EscalaRow): Chave {
    Chave(e.cultoId, e.pessoaId, e.funcaoId)
  }

  /** The unique index holds: no two live rows share culto, pessoa and funcao, whatever their status. */
  ghost predicate IndiceUnico(t: map<nat, EscalaRow>) {
    forall a, b :: a in t && b in t && a != b ==> ChaveDe(t[a]) != ChaveDe(t[b])
  }

  /** Some live row other than `exceto` already holds the key `k`. */
  predicate ChaveOcupada(t: map<nat, EscalaRow>, k: Chave, exceto: Option<nat>) {
    exists id :: id in t && Some(id) != exceto && ChaveDe(t[id]) == k
  }

  /** Writing a row whose key no other live row holds keeps the index intact. */
  lemma {:induction false} GravarPreservaIndice(t: map<nat, EscalaRow>, id: nat, e: EscalaRow)
    requires IndiceUnico(t)
    requires !ChaveOcupada(t, ChaveDe(e), Some(id))
    ensures IndiceUnico(t[id := e])
  {
    var u := t[id := e];
    forall a, b | a in u && b in u && a != b
      ensures ChaveDe(u[a]) != ChaveDe(u[b])
    {
      if a == id {
        assert !(b in t && Some(b) != Some(id) && ChaveDe(t[b]) == ChaveDe(e));
      } else if b == id {
        assert !(a in t && Some(a) != Some(id) && ChaveDe(t[a]) == ChaveDe(e));
      }
    }
  }

  /** No row of a bulk insert takes a key a live row holds, and no two rows of the batch share a key. */
  predicate LoteSemColisao(t: map<nat, EscalaRow>, rows: seq<EscalaRow>) {
    (forall i :: 0 <= i < |rows| ==> !ChaveOcupada(t, ChaveDe(rows[i]), None))
    && forall i, j :: 0 <= i < j < |rows| ==> ChaveDe(rows[i]) != ChaveDe(rows[j])
  }

  /**
   * A bulk insert at fresh ids keeps the unique index exactly when the
   * batch collides neither with the live rows nor with itself; otherwise the
   * statement fails as a whole.
   */
  lemma {:induction false} LoteIndiceIff(t: map<nat, EscalaRow>, proximo: nat, rows: seq<EscalaRow>)
    requires IndiceUnico(t) && forall k :: k in t ==> k < proximo
    ensures IndiceUnico(Lote(t, proximo, rows)) <==> LoteSemColisao(t, rows)
  {
    var r := Lote(t, proximo, rows);
    if LoteSemColisao(t, rows) {
      forall a, b | a in r && b in r && a != b
        ensures ChaveDe(r[a]) != ChaveDe(r[b])
      {
        if a >= proximo && b >= proximo {
          var i, j := a - proximo, b - proximo;
          assert r[proximo + i] == rows[i] && r[proximo + j] == rows[j];
          if i < j {
            assert ChaveDe(rows[i]) != ChaveDe(rows[j]);
          } else {
            assert ChaveDe(rows[j]) != ChaveDe(rows[i]);
          }
        } else if a >= proximo {
          var i := a - proximo;
          assert r[proximo + i] == rows[i];
          assert !ChaveOcupada(t, ChaveDe(rows[i]), None);
          assert b in t && r[b] == t[b];
        } else if b >= proximo {
          var j := b - proximo;
          assert r[proximo + j] == rows[j];
          assert !ChaveOcupada(t, ChaveDe(rows[j]), None);
          assert a in t && r[a] == t[a];
        }
      }
    } else if i :| 0 <= i < |rows| && ChaveOcupada(t, ChaveDe(rows[i]), None) {
      var id :| id in t && ChaveDe(t[id]) == ChaveDe(rows[i]);
      assert r[id] == t[id] && r[proximo + i] == rows[i];
      assert !IndiceUnico(r);
    } else {
      var i, j :| 0 <= i < j < |rows| && ChaveDe(rows[i]) == ChaveDe(rows[j]);
      assert r[proximo + i] == rows[i] && r[proximo + j] == rows[j];
      assert !IndiceUnico(r);
    }
  }

  /** A loaded `Escala` instance. */
  class Escala {
    var cultoId: nat
    var pessoaId: nat
    var funcaoId: nat
    var statusId: nat
    var confirmadoEm: Option<Instant>
    var checkInEm: Option<Instant>
    var observacoes: Option<string>
    var createdBy: nat

    constructor Carregar(r: EscalaRow)
      ensures Row() == r
    {
      cultoId := r.cultoId;
      pessoaId := r.pessoaId;
      funcaoId := r.funcaoId;
      statusId := r.statusId;
      confirmadoEm := r.confirmadoEm;
      checkInEm := r.checkInEm;
      observacoes := r.observacoes;
      createdBy := r.createdBy;
    }

    /** The stored columns of this instance, as `save()` writes them. */
    function Row(): EscalaRow
      reads this
    {
      EscalaRow(cultoId, pessoaId, funcaoId, statusId, confirmadoEm, checkInEm, observacoes, createdBy)
    }

    /** `estaConfirmada()`: a confirmation time is recorded. */
    predicate EstaConfirmada()
      reads this
    {
      confirmadoEm.Some?
    }

    /** `fezCheckIn()`: a check-in time is recorded. */
    predicate FezCheckIn()
      reads this
    {
      checkInEm.Some?
    }

    /** `confirmar()`: records the confirmation time and moves to status 2, from any status. */
    method Confirmar(now: Instant)
      modifies this
      ensures Row() == old(Row()).(confirmadoEm := Some(now), statusId := StatusConfirmado)
      ensures EstaConfirmada() && FezCheckIn() == old(FezCheckIn())
    {
      confirmadoEm := Some(now);
      statusId := StatusConfirmado;
    }

    /** `fazerCheckIn()`: records the check-in time and moves to status 3; it does not require a confirmation. */
    method FazerCheckIn(now: Instant)
      modifies this
      ensures Row() == old(Row()).(checkInEm := Some(now), statusId := StatusPresente)
      ensures FezCheckIn() && EstaConfirmada() == old(EstaConfirmada())
    {
      checkInEm := Some(now);
      statusId := StatusPresente;
    }

    /** `marcarAusente()`: moves to status 4 and keeps both recorded times. */
    method MarcarAusente()
      modifies this
      ensures Row() == old(Row()).(statusId := StatusAusente)
      ensures EstaConfirmada() == old(EstaConfirmada()) && FezCheckIn() == old(FezCheckIn())
    {
      statusId := StatusAusente;
    }
  }
}
