/**
 * The people controller: create, update and soft-delete a person, with the
 * phone uniqueness guard, the e-mail lookup and the linked-user guard.
 */
module PessoasController {
  import opened Wrappers
  import opened Js
  import opened PessoaModel
  import opened Db

  datatype PessoaErro =
    | CamposObrigatorios
    | TelefoneEmUso
    | PessoaNaoEncontrada
    | PessoaComUsuario
    | ErroInterno

  /** A live person other than `exceto` has the phone `telefone`. */
  predicate TelefoneOcupado(pessoas: map<nat, PessoaRow>, telefone: string, exceto: Option<nat>) {
    exists k :: k in pessoas && Some(k) != exceto && pessoas[k].telefone == Some(telefone)
  }

  /**
   * The guards shared by `criar` and `atualizar`, after the lookup: name and
   * phone required, then the phone held by no other live person. A truthy
   * e-mail is then looked up with `where: { email }`, a column `pessoas`
   * does not have, so the query fails and the request is an internal error.
   */
  function RecusaCampos(pessoas: map<nat, PessoaRow>, nome: Option<string>, telefone: Option<string>, email: Option<string>,
                        exceto: Option<nat>): (r: Option<PessoaErro>)
    ensures r.None? <==> StrTruthy(nome) && StrTruthy(telefone) && !TelefoneOcupado(pessoas, telefone.value, exceto) && !StrTruthy(email)
    ensures r == Some(ErroInterno) <==> StrTruthy(nome) && StrTruthy(telefone) && !TelefoneOcupado(pessoas, telefone.value, exceto) && StrTruthy(email)
  {
    if !StrTruthy(nome) || !StrTruthy(telefone) then Some(CamposObrigatorios)
    else if TelefoneOcupado(pessoas, telefone.value, exceto) then Some(TelefoneEmUso)
    else if StrTruthy(email) then Some(ErroInterno)
    else None
  }

  /**
   * The row `criar` inserts: `ativo` defaults to true, `membro` to false, the
   * other columns are `NULL`; the e-mail names no column and is dropped.
   */
  function NovaPessoa(nome: string, telefone: string, dataNascimento: Option<Data>, endereco: Option<string>,
                      cargoId: Option<nat>, departamentoId: Option<nat>, ativo: Given<bool>): PessoaRow
  {
    PessoaRow(nome, Some(telefone), None, dataNascimento, endereco, cargoId, departamentoId, false, IfSent(ativo, true), None)
  }

  /** Storing a row whose phone no other live person holds keeps phones unique. */
  lemma GravarPreservaUnicidade(db: Db, id: nat, p: PessoaRow)
    requires db.PessoasOk() && id <= db.proximaPessoa && PessoaValida(p, db.cargaDoModeloPessoa)
    requires p.telefone.Some? && !TelefoneOcupado(db.pessoas, p.telefone.value, Some(id))
    ensures var q := db.pessoas[id := p];
      forall a, b :: a in q && b in q && a != b && q[a].telefone.Some? ==> q[a].telefone != q[b].telefone
  {
    var q := db.pessoas[id := p];
    forall a, b | a in q && b in q && a != b && q[a].telefone.Some?
      ensures q[a].telefone != q[b].telefone
    {
      if b == id {
        assert !(a in db.pessoas && Some(a) != Some(id) && db.pessoas[a].telefone == Some(p.telefone.value));
      }
    }
  }

  /**
   * `criar`: the guards in order, then the insert, which fails when a
   * validator refuses the row.
   */
  method Criar(db: Db, nome: Option<string>, telefone: Option<string>, email: Option<string>, dataNascimento: Option<Data>,
               endereco: Option<string>, cargoId: Option<nat>, departamentoId: Option<nat>, ativo: Given<bool>)
    returns (r: Result<nat, PessoaErro>)
    requires db.PessoasOk()
    modifies db`pessoas, db`proximaPessoa
    ensures db.PessoasOk()
    ensures RecusaCampos(old(db.pessoas), nome, telefone, email, None).Some? ==>
      r == Err(RecusaCampos(old(db.pessoas), nome, telefone, email, None).value) && unchanged(db)
    ensures RecusaCampos(old(db.pessoas), nome, telefone, email, None).None? ==>
      var p := NovaPessoa(nome.value, telefone.value, dataNascimento, endereco, cargoId, departamentoId, ativo);
      var id := old(db.proximaPessoa);
      (!PessoaValida(p, db.cargaDoModeloPessoa) ==> r == Err(ErroInterno) && unchanged(db))
      && (PessoaValida(p, db.cargaDoModeloPessoa) ==>
            r == Ok(id) && id !in old(db.pessoas) && db.pessoas == old(db.pessoas)[id := p] && db.proximaPessoa == id + 1)
  {
    if !StrTruthy(nome) || !StrTruthy(telefone) {
      return Err(CamposObrigatorios);
    }
    if TelefoneOcupado(db.pessoas, telefone.value, None) {
      return Err(TelefoneEmUso);
    }
    if StrTruthy(email) {
      return Err(ErroInterno);
    }
    var p := NovaPessoa(nome.value, telefone.value, dataNascimento, endereco, cargoId, departamentoId, ativo);
    if !PessoaValida(p, db.cargaDoModeloPessoa) {
      return Err(ErroInterno);
    }
    var id := db.proximaPessoa;
    GravarPreservaUnicidade(db, id, p);
    db.pessoas := db.pessoas[id := p];
    db.proximaPessoa := id + 1;
    r := Ok(id);
  }

  /** The first guard of `atualizar` that refuses the request, if any: the lookup comes before the field checks. */
  function RecusaAtualizar(pessoas: map<nat, PessoaRow>, id: nat, nome: Option<string>, telefone: Option<string>, email: Given<Option<string>>): (r: Option<PessoaErro>)
    ensures r.None? ==> id in pessoas && StrTruthy(nome) && StrTruthy(telefone)
  {
    if id !in pessoas then Some(PessoaNaoEncontrada)
    else RecusaCampos(pessoas, nome, telefone, IfSent(email, None), Some(id))
  }

  /** The row after `update`: name and phone as sent, every other listed column as sent or kept when absent. */
  function PessoaAtualizada(p: PessoaRow, nome: string, telefone: string, dataNascimento: Given<Option<Data>>,
                            endereco: Given<Option<string>>, cargoId: Given<Option<nat>>, departamentoId: Given<Option<nat>>,
                            ativo: Given<bool>): PessoaRow
  {
    p.(nomeCompleto := nome, telefone := Some(telefone), dataNascimento := IfSent(dataNascimento, p.dataNascimento),
       endereco := IfSent(endereco, p.endereco), cargoEclesiasticoId := IfSent(cargoId, p.cargoEclesiasticoId),
       departamentoId := IfSent(departamentoId, p.departamentoId), ativo := IfSent(ativo, p.ativo))
  }

  /** An update that sends only the required fields, with their stored values, leaves a person with a phone as it was. */
  lemma AtualizacaoMinimaPreserva(p: PessoaRow)
    requires p.telefone.Some?
    ensures PessoaAtualizada(p, p.nomeCompleto, p.telefone.value, Omitted, Omitted, Omitted, Omitted, Omitted) == p
  {
  }

  /**
   * `atualizar`: the lookup, the required fields, the phone test excluding
   * the person itself and the e-mail lookup, then the update. The stored
   * row is valid, so validating the changed columns is validating the row.
   */
  method Atualizar(db: Db, id: nat, nome: Option<string>, telefone: Option<string>, email: Given<Option<string>>,
                   dataNascimento: Given<Option<Data>>, endereco: Given<Option<string>>, cargoId: Given<Option<nat>>,
                   departamentoId: Given<Option<nat>>, ativo: Given<bool>)
    returns (r: Result<nat, PessoaErro>)
    requires db.PessoasOk()
    modifies db`pessoas
    ensures db.PessoasOk()
    ensures RecusaAtualizar(old(db.pessoas), id, nome, telefone, email).Some? ==>
      r == Err(RecusaAtualizar(old(db.pessoas), id, nome, telefone, email).value) && unchanged(db)
    ensures RecusaAtualizar(old(db.pessoas), id, nome, telefone, email).None? ==>
      var p := PessoaAtualizada(old(db.pessoas)[id], nome.value, telefone.value, dataNascimento, endereco, cargoId, departamentoId, ativo);
      (!PessoaValida(p, db.cargaDoModeloPessoa) ==> r == Err(ErroInterno) && unchanged(db))
      && (PessoaValida(p, db.cargaDoModeloPessoa) ==> r == Ok(id) && db.pessoas == old(db.pessoas)[id := p])
  {
    if id !in db.pessoas {
      return Err(PessoaNaoEncontrada);
    }
    if !StrTruthy(nome) || !StrTruthy(telefone) {
      return Err(CamposObrigatorios);
    }
    if TelefoneOcupado(db.pessoas, telefone.value, Some(id)) {
      return Err(TelefoneEmUso);
    }
    if StrTruthy(IfSent(email, None)) {
      return Err(ErroInterno);
    }
    var p := PessoaAtualizada(db.pessoas[id], nome.value, telefone.value, dataNascimento, endereco, cargoId, departamentoId, ativo);
    if !PessoaValida(p, db.cargaDoModeloPessoa) {
      return Err(ErroInterno);
    }
    GravarPreservaUnicidade(db, id, p);
    db.pessoas := db.pessoas[id := p];
    r := Ok(id);
  }

  /** Some live user is linked to the person. */
  predicate TemUsuario(db: Db, id: nat)
    reads db
  {
    exists k :: k in db.usuarios && db.usuarios[k].pessoaId == Some(id)
  }

  /** `excluir`: a person still linked to a live user is kept; otherwise the row is soft-deleted. */
  method Excluir(db: Db, id: nat) returns (r: Result<nat, PessoaErro>)
    requires db.PessoasOk()
    modifies db`pessoas
    ensures db.PessoasOk()
    ensures id !in old(db.pessoas) ==> r == Err(PessoaNaoEncontrada) && unchanged(db)
    ensures id in old(db.pessoas) && TemUsuario(db, id) ==> r == Err(PessoaComUsuario) && unchanged(db)
    ensures id in old(db.pessoas) && !TemUsuario(db, id) ==> r == Ok(id) && db.pessoas == old(db.pessoas) - {id}
  {
    if id !in db.pessoas {
      return Err(PessoaNaoEncontrada);
    }
    if TemUsuario(db, id) {
      return Err(PessoaComUsuario);
    }
    db.pessoas := db.pessoas - {id};
    r := Ok(id);
  }
}
