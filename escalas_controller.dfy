/**
 * The assignment controller: create, update and delete an assignment, and
 * the confirm and cancel actions with the cancellation note.
 */
module EscalasController {
  import opened Wrappers
  import opened Js
  import opened Seed
  import opened EscalaModel
  import opened Db

  datatype EscalaErro =
    | CamposObrigatorios
    | PessoaNaoEncontrada
    | FuncaoNaoEncontrada
    | CultoNaoEncontrado
    | EscalaDuplicada
    | EscalaNaoEncontrada
    | EscalaConfirmada
    | ErroInterno

  /** The status the edit and delete guards protect. */
  const StatusProtegido: nat := 2

  /** The controller's duplicate test of `criar`: a live row with the same triple that is not cancelled (status 4). */
  predicate DuplicadaAtiva(t: map<nat, EscalaRow>, k: Chave) {
    exists id :: id in t && ChaveDe(t[id]) == k && t[id].statusId != StatusAusente
  }

  /** The first guard of `criar` that refuses the request, if any. */
  function RecusaCriar(db: Db, pessoaId: Option<nat>, funcaoId: Option<nat>, cultoId: Option<nat>): Option<EscalaErro>
    reads db
  {
    if !IdTruthy(pessoaId) || !IdTruthy(funcaoId) || !IdTruthy(cultoId) then Some(CamposObrigatorios)
    else if pessoaId.value !in db.pessoas then Some(PessoaNaoEncontrada)
    else if funcaoId.value !in db.funcoes then Some(FuncaoNaoEncontrada)
    else if cultoId.value !in db.cultos then Some(CultoNaoEncontrado)
    else if DuplicadaAtiva(db.escalas, Chave(cultoId.value, pessoaId.value, funcaoId.value)) then Some(EscalaDuplicada)
    else None
  }

  /** The row `criar` inserts: the pending status (or 1) and the acting user as creator. */
  function NovaEscala(statusEscala: seq<string>, pessoaId: nat, funcaoId: nat, cultoId: nat, observacoes: Option<string>, ator: nat): EscalaRow {
    EscalaRow(cultoId, pessoaId, funcaoId, StatusOu(statusEscala, "Pendente", StatusPendente), None, None, observacoes, ator)
  }

  /**
   * `criar`: the guards, then the insert, which the unique index refuses
   * when a cancelled row still holds the triple.
   */
  method Criar(db: Db, pessoaId: Option<nat>, funcaoId: Option<nat>, cultoId: Option<nat>, observacoes: Option<string>, ator: nat)
    returns (r: Result<nat, EscalaErro>)
    requires db.EscalasOk()
    modifies db`escalas, db`proximaEscala
    ensures db.EscalasOk()
    ensures old(RecusaCriar(db, pessoaId, funcaoId, cultoId)).Some? ==>
      r == Err(old(RecusaCriar(db, pessoaId, funcaoId, cultoId)).value) && unchanged(db)
    ensures old(RecusaCriar(db, pessoaId, funcaoId, cultoId)).None? ==>
      var e := NovaEscala(db.statusEscala, pessoaId.value, funcaoId.value, cultoId.value, observacoes, ator);
      var id := old(db.proximaEscala);
      (ChaveOcupada(old(db.escalas), ChaveDe(e), None) ==> r == Err(ErroInterno) && unchanged(db))
      && (!ChaveOcupada(old(db.escalas), ChaveDe(e), None) ==>
            r == Ok(id) && id !in old(db.escalas) && db.escalas == old(db.escalas)[id := e] && db.proximaEscala == id + 1)
  {
    if !IdTruthy(pessoaId) || !IdTruthy(funcaoId) || !IdTruthy(cultoId) {
      return Err(CamposObrigatorios);
    }
    if pessoaId.value !in db.pessoas {
      return Err(PessoaNaoEncontrada);
    }
    if funcaoId.value !in db.funcoes {
      return Err(FuncaoNaoEncontrada);
    }
    if cultoId.value !in db.cultos {
      return Err(CultoNaoEncontrado);
    }
    if DuplicadaAtiva(db.escalas, Chave(cultoId.value, pessoaId.value, funcaoId.value)) {
      return Err(EscalaDuplicada);
    }
    var e := NovaEscala(db.statusEscala, pessoaId.value, funcaoId.value, cultoId.value, observacoes, ator);
    if ChaveOcupada(db.escalas, ChaveDe(e), None) {
      return Err(ErroInterno);
    }
    var id := db.proximaEscala;
    GravarPreservaIndice(db.escalas, id, e);
    db.escalas := db.escalas[id := e];
    db.proximaEscala := id + 1;
    r := Ok(id);
  }

  /**
   * A cancelled assignment no longer counts as a duplicate, yet its row
   * still holds the unique index: creating the same triple again passes the
   * controller's test and is refused by the database.
   */
  lemma RecriarAposCancelar(t: map<nat, EscalaRow>, id: nat, k: Chave)
    requires IndiceUnico(t) && id in t && ChaveDe(t[id]) == k && t[id].statusId == StatusAusente
    ensures !DuplicadaAtiva(t, k)
    ensures ChaveOcupada(t, k, None)
  {
  }

  /** The controller's duplicate test of `atualizar`: another live, non-cancelled row with the new person and the body's function, in any service. */
  predicate DuplicadaNaAtualizacao(t: map<nat, EscalaRow>, id: nat, pessoaId: nat, funcaoId: Option<nat>) {
    exists k :: k in t && k != id && t[k].pessoaId == pessoaId && Some(t[k].funcaoId) == funcaoId && t[k].statusId != StatusAusente
  }

  /**
   * The first guard of `atualizar` that refuses the request, if any. The
   * duplicate test runs only when a different person is sent; with no
   * `funcao_id` key the query has an `undefined` condition and fails.
   */
  function RecusaAtualizar(t: map<nat, EscalaRow>, id: nat, pessoaId: Option<nat>, funcaoId: Given<Option<nat>>): (r: Option<EscalaErro>)
    ensures r.None? ==> id in t
  {
    if id !in t then Some(EscalaNaoEncontrada)
    else if t[id].statusId == StatusProtegido then Some(EscalaConfirmada)
    else if IdTruthy(pessoaId) && pessoaId.value != t[id].pessoaId then
      if funcaoId.Omitted? then Some(ErroInterno)
      else if DuplicadaNaAtualizacao(t, id, pessoaId.value, funcaoId.value) then Some(EscalaDuplicada)
      else None
    else None
  }

  /** The ids `dadosAtualizacao` carries: only truthy ones. */
  function FuncaoEnviada(funcaoId: Given<Option<nat>>): Option<nat> {
    if funcaoId.Sent? then funcaoId.value else None
  }

  /** The row after `update(dadosAtualizacao)`: truthy ids and status replace the old ones, `observacoes` whenever it is sent. */
  function EscalaAtualizada(e: EscalaRow, pessoaId: Option<nat>, funcaoId: Given<Option<nat>>, cultoId: Option<nat>,
                            observacoes: Given<Option<string>>, statusId: Option<nat>): EscalaRow
  {
    e.(pessoaId := OrId(pessoaId, e.pessoaId), funcaoId := OrId(FuncaoEnviada(funcaoId), e.funcaoId),
       cultoId := OrId(cultoId, e.cultoId), observacoes := IfSent(observacoes, e.observacoes), statusId := OrId(statusId, e.statusId))
  }

  /**
   * The update's duplicate test does not look at the service: moving a
   * person onto a function they hold in another service is refused, though
   * the unique index would accept it.
   */
  lemma DuplicidadeIgnoraCulto(a: EscalaRow, b: EscalaRow)
    requires a.cultoId != b.cultoId && a.pessoaId != b.pessoaId && b.pessoaId != 0 && a.statusId == StatusPendente && b.statusId == StatusPendente
    ensures var t := map[1 := a, 2 := b];
      var novo := EscalaAtualizada(a, Some(b.pessoaId), Sent(Some(a.funcaoId)), None, Omitted, None);
      (a.funcaoId == b.funcaoId ==> RecusaAtualizar(t, 1, Some(b.pessoaId), Sent(Some(a.funcaoId))) == Some(EscalaDuplicada))
      && !ChaveOcupada(t, ChaveDe(novo), Some(1))
  {
    var t := map[1 := a, 2 := b];
    if a.funcaoId == b.funcaoId {
      assert DuplicadaNaAtualizacao(t, 1, b.pessoaId, Some(a.funcaoId)) by {
        assert 2 in t && t[2].pessoaId == b.pessoaId;
      }
    }
  }

  /** `atualizar`: the guards in order, then the partial update, which the unique index may refuse. */
  method Atualizar(db: Db, id: nat, pessoaId: Option<nat>, funcaoId: Given<Option<nat>>, cultoId: Option<nat>,
                   observacoes: Given<Option<string>>, statusId: Option<nat>)
    returns (r: Result<nat, EscalaErro>)
    requires db.EscalasOk()
    modifies db`escalas
    ensures db.EscalasOk()
    ensures RecusaAtualizar(old(db.escalas), id, pessoaId, funcaoId).Some? ==>
      r == Err(RecusaAtualizar(old(db.escalas), id, pessoaId, funcaoId).value) && unchanged(db)
    ensures RecusaAtualizar(old(db.escalas), id, pessoaId, funcaoId).None? ==>
      var novo := EscalaAtualizada(old(db.escalas)[id], pessoaId, funcaoId, cultoId, observacoes, statusId);
      (ChaveOcupada(old(db.escalas), ChaveDe(novo), Some(id)) ==> r == Err(ErroInterno) && unchanged(db))
      && (!ChaveOcupada(old(db.escalas), ChaveDe(novo), Some(id)) ==> r == Ok(id) && db.escalas == old(db.escalas)[id := novo])
  {
    if id !in db.escalas {
      return Err(EscalaNaoEncontrada);
    }
    var e := db.escalas[id];
    if e.statusId == StatusProtegido {
      return Err(EscalaConfirmada);
    }
    if IdTruthy(pessoaId) && pessoaId.value != e.pessoaId {
      if funcaoId.Omitted? {
        return Err(ErroInterno);
      }
      if DuplicadaNaAtualizacao(db.escalas, id, pessoaId.value, funcaoId.value) {
        return Err(EscalaDuplicada);
      }
    }
    var novo := EscalaAtualizada(e, pessoaId, funcaoId, cultoId, observacoes, statusId);
    if ChaveOcupada(db.escalas, ChaveDe(novo), Some(id)) {
      return Err(ErroInterno);
    }
    GravarPreservaIndice(db.escalas, id, novo);
    db.escalas := db.escalas[id := novo];
    r := Ok(id);
  }

  /** `excluir`: a confirmed assignment (status 2) cannot be deleted; otherwise it is soft-deleted. */
  method Excluir(db: Db, id: nat) returns (r: Result<nat, EscalaErro>)
    requires db.EscalasOk()
    modifies db`escalas
    ensures db.EscalasOk()
    ensures id !in old(db.escalas) ==> r == Err(EscalaNaoEncontrada) && unchanged(db)
    ensures id in old(db.escalas) && old(db.escalas)[id].statusId == StatusProtegido ==> r == Err(EscalaConfirmada) && unchanged(db)
    ensures id in old(db.escalas) && old(db.escalas)[id].statusId != StatusProtegido ==> r == Ok(id) && db.escalas == old(db.escalas) - {id}
  {
    if id !in db.escalas {
      return Err(EscalaNaoEncontrada);
    }
    if db.escalas[id].statusId == StatusProtegido {
      return Err(EscalaConfirmada);
    }
    db.escalas := db.escalas - {id};
    r := Ok(id);
  }

  /** A write that keeps a row's triple leaves the unique index intact. */
  lemma MesmaChavePreservaIndice(t: map<nat, EscalaRow>, id: nat, e: EscalaRow)
    requires IndiceUnico(t) && id in t && ChaveDe(e) == ChaveDe(t[id])
    ensures IndiceUnico(t[id := e])
  {
    assert !ChaveOcupada(t, ChaveDe(e), Some(id));
    GravarPreservaIndice(t, id, e);
  }

  /** The status `confirmar` writes: the 'Confirmada' row's id, or 2. */
  function StatusConfirmada(statusEscala: seq<string>): nat {
    StatusOu(statusEscala, "Confirmada", StatusConfirmado)
  }

  /** The status `cancelar` writes: the 'Cancelada' row's id, or 4. */
  function StatusCancelada(statusEscala: seq<string>): nat {
    StatusOu(statusEscala, "Cancelada", StatusAusente)
  }

  /**
   * The seeded table names its rows 'Confirmado' and 'Ausente', so the
   * lookups by 'Confirmada' and 'Cancelada' find nothing and the numeric
   * fallbacks decide; the lookup by 'Pendente' finds row 1.
   */
  lemma StatusComSeed()
    ensures BuscarStatus(Seed.StatusEscala, "Confirmada").None? && StatusConfirmada(Seed.StatusEscala) == 2
    ensures BuscarStatus(Seed.StatusEscala, "Cancelada").None? && StatusCancelada(Seed.StatusEscala) == 4
    ensures StatusOu(Seed.StatusEscala, "Pendente", StatusPendente) == 1
  {
    assert Seed.StatusEscala[0] == "Pendente";
  }

  /**
   * `confirmar`: from any status, the status becomes the confirmed one. The
   * confirmation time is sent under a key that is not a column, so
   * `confirmado_em` stays as it was.
   */
  method Confirmar(db: Db, id: nat) returns (r: Result<nat, EscalaErro>)
    requires db.EscalasOk()
    modifies db`escalas
    ensures db.EscalasOk()
    ensures id !in old(db.escalas) ==> r == Err(EscalaNaoEncontrada) && unchanged(db)
    ensures id in old(db.escalas) ==>
      r == Ok(id) && db.escalas == old(db.escalas)[id := old(db.escalas)[id].(statusId := StatusConfirmada(db.statusEscala))]
  {
    if id !in db.escalas {
      return Err(EscalaNaoEncontrada);
    }
    var e := db.escalas[id].(statusId := StatusConfirmada(db.statusEscala));
    MesmaChavePreservaIndice(db.escalas, id, e);
    db.escalas := db.escalas[id := e];
    r := Ok(id);
  }

  /** Confirming twice leaves the table as confirming once, and the second call also succeeds. */
  method ConfirmarDuasVezes(db: Db, id: nat) returns (r1: Result<nat, EscalaErro>, r2: Result<nat, EscalaErro>)
    requires db.EscalasOk() && id in db.escalas
    modifies db`escalas
    ensures r1 == Ok(id) && r2 == Ok(id)
    ensures db.escalas == old(db.escalas)[id := old(db.escalas)[id].(statusId := StatusConfirmada(db.statusEscala))]
  {
    r1 := Confirmar(db, id);
    r2 := Confirmar(db, id);
  }

  /** The text `cancelar` puts before the reason. */
  const Rotulo := "Cancelada: "

  /** The note `cancelar` writes: `${observacoes || ''}\nCancelada: ${motivo}`, trimmed. */
  function NotaDeCancelamento(observacoes: Option<string>, motivo: string): string {
    Trim(OrStr(observacoes, "") + ['\n'] + Rotulo + motivo)
  }

  /**
   * For a reason with some visible text, the note is the old notes without
   * their leading blanks, a line with the reason, and the reason without its
   * trailing blanks; with no visible old notes it is that line alone.
   */
  lemma NotaDeCancelamentoForma(observacoes: Option<string>, motivo: string)
    requires HasNonSpace(motivo)
    ensures var base := OrStr(observacoes, "");
      (HasNonSpace(base) ==> NotaDeCancelamento(observacoes, motivo) == TrimStart(base) + ['\n'] + Rotulo + TrimEnd(motivo))
      && (!HasNonSpace(base) ==> NotaDeCancelamento(observacoes, motivo) == Rotulo + TrimEnd(motivo))
  {
    var base := OrStr(observacoes, "");
    if HasNonSpace(base) {
      NotaComObservacoes(base, motivo);
    } else {
      NotaSemObservacoes(base, motivo);
    }
  }

  lemma {:induction false} NotaComObservacoes(base: string, motivo: string)
    requires HasNonSpace(base) && HasNonSpace(motivo)
    ensures Trim(base + ['\n'] + Rotulo + motivo) == TrimStart(base) + ['\n'] + Rotulo + TrimEnd(motivo)
  {
    var meio := ['\n'] + Rotulo;
    assert base + ['\n'] + Rotulo + motivo == base + meio + motivo;
    TrimAround(base, meio, motivo);
    assert TrimStart(base) + meio + TrimEnd(motivo) == TrimStart(base) + ['\n'] + Rotulo + TrimEnd(motivo);
  }

  lemma {:induction false} NotaSemObservacoes(base: string, motivo: string)
    requires !HasNonSpace(base) && HasNonSpace(motivo)
    ensures Trim(base + ['\n'] + Rotulo + motivo) == Rotulo + TrimEnd(motivo)
  {
    var w := base + ['\n'];
    assert base + ['\n'] + Rotulo + motivo == w + (Rotulo + motivo);
    forall i | 0 <= i < |w| ensures IsSpace(w[i]) {
      if i < |base| {
        assert w[i] == base[i];
      }
    }
    TrimStartBlank(w, Rotulo + motivo);
    assert Rotulo[0] == 'C';
    assert HasNonSpace(Rotulo);
    TrimStartConcat(Rotulo, motivo);
    assert TrimStart(Rotulo) == Rotulo;
    TrimEndConcat(Rotulo, motivo);
  }

  /** The row after `cancelar`: the cancelled status, and the note when a truthy reason is given. */
  function Cancelada(e: EscalaRow, statusEscala: seq<string>, motivo: Option<string>): EscalaRow {
    e.(statusId := StatusCancelada(statusEscala),
       observacoes := if StrTruthy(motivo) then Some(NotaDeCancelamento(e.observacoes, motivo.value)) else e.observacoes)
  }

  /**
   * `cancelar`: from any status, the cancelled status and, with a reason,
   * the note; nothing else changes. The reload that builds the answer asks
   * the person for `nome` and `email`, columns `pessoas` does not have, so
   * once the row is written the request ends in an internal error.
   */
  method Cancelar(db: Db, id: nat, motivo: Option<string>) returns (r: Result<nat, EscalaErro>)
    requires db.EscalasOk()
    modifies db`escalas
    ensures db.EscalasOk()
    ensures id !in old(db.escalas) ==> r == Err(EscalaNaoEncontrada) && unchanged(db)
    ensures id in old(db.escalas) ==>
      r == Err(ErroInterno) && db.escalas == old(db.escalas)[id := Cancelada(old(db.escalas)[id], db.statusEscala, motivo)]
  {
    if id !in db.escalas {
      return Err(EscalaNaoEncontrada);
    }
    var e := Cancelada(db.escalas[id], db.statusEscala, motivo);
    MesmaChavePreservaIndice(db.escalas, id, e);
    db.escalas := db.escalas[id := e];
    r := Err(ErroInterno);
  }

  /** With the seeded table a cancelled assignment has status 4, which the creation guard no longer counts. */
  lemma CancelarLiberaDuplicidade(t: map<nat, EscalaRow>, id: nat, motivo: Option<string>)
    requires IndiceUnico(t) && id in t
    ensures var u := t[id := Cancelada(t[id], Seed.StatusEscala, motivo)];
      u[id].statusId == StatusAusente && !DuplicadaAtiva(u, ChaveDe(t[id])) && ChaveOcupada(u, ChaveDe(t[id]), None)
  {
    StatusComSeed();
    var u := t[id := Cancelada(t[id], Seed.StatusEscala, motivo)];
    MesmaChavePreservaIndice(t, id, u[id]);
    RecriarAposCancelar(u, id, ChaveDe(t[id]));
  }
}
