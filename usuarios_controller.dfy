/**
 * The user controller: create, update, soft-delete and activate/deactivate
 * a user account, with its uniqueness, existence and self-protection guards.
 */
module UsuariosController {
  import opened Wrappers
  import opened Js
  import opened UsuarioModel
  import opened Db

  datatype UsuarioErro =
    | CamposObrigatorios
    | EmailEmUso
    | PerfilNaoEncontrado
    | PessoaNaoEncontrada
    | UsuarioNaoEncontrado
    | ProprioUsuario
    | ErroInterno

  /** A live user other than `exceto` has the e-mail `email`. */
  predicate EmailOcupado(usuarios: map<nat, UsuarioRow>, email: string, exceto: Option<nat>) {
    exists k :: k in usuarios && Some(k) != exceto && usuarios[k].email == email
  }

  /**
   * The database accepts `email` on a row: it is non-empty, passes the
   * `isEmail` validator (whose verdict `formatoValido` is an input here) and
   * no soft-deleted user holds it.
   */
  predicate EmailGravavel(db: Db, email: string, formatoValido: bool)
    reads db
  {
    email != "" && formatoValido && email !in db.emailsDeUsuariosExcluidos
  }

  /** The first guard of `criar` that refuses the request, if any. */
  function RecusaCriar(usuarios: map<nat, UsuarioRow>, perfis: set<nat>, pessoas: set<nat>,
                       email: Option<string>, senha: Option<string>, perfilId: Option<nat>, pessoaId: Option<nat>): Option<UsuarioErro>
  {
    if !StrTruthy(email) || !StrTruthy(senha) || !IdTruthy(perfilId) then Some(CamposObrigatorios)
    else if EmailOcupado(usuarios, email.value, None) then Some(EmailEmUso)
    else if perfilId.value !in perfis then Some(PerfilNaoEncontrado)
    else if IdTruthy(pessoaId) && pessoaId.value !in pessoas then Some(PessoaNaoEncontrada)
    else None
  }

  /**
   * `criar`: the guards in order, then the insert. `ativo` defaults to true
   * and `email_verificado` to false when absent. An e-mail that only a
   * soft-deleted user holds passes the guard and is refused by the unique
   * constraint.
   */
  method Criar(db: Db, email: Option<string>, senha: Option<string>, perfilId: Option<nat>, pessoaId: Option<nat>,
               ativo: Given<bool>, emailVerificado: Given<bool>, formatoValido: bool)
    returns (r: Result<nat, UsuarioErro>)
    requires db.UsuariosOk()
    modifies db`usuarios, db`proximoUsuario
    ensures db.UsuariosOk()
    ensures RecusaCriar(old(db.usuarios), db.perfis.Keys, db.pessoas.Keys, email, senha, perfilId, pessoaId).Some? ==>
      r == Err(RecusaCriar(old(db.usuarios), db.perfis.Keys, db.pessoas.Keys, email, senha, perfilId, pessoaId).value) && unchanged(db)
    ensures (RecusaCriar(old(db.usuarios), db.perfis.Keys, db.pessoas.Keys, email, senha, perfilId, pessoaId).None?
      && !EmailGravavel(db, email.value, formatoValido)) ==>
      r == Err(ErroInterno) && unchanged(db)
    ensures (RecusaCriar(old(db.usuarios), db.perfis.Keys, db.pessoas.Keys, email, senha, perfilId, pessoaId).None?
      && EmailGravavel(db, email.value, formatoValido)) ==>
      var id := old(db.proximoUsuario);
      r == Ok(id) && id !in old(db.usuarios) && db.proximoUsuario == id + 1
      && db.usuarios == old(db.usuarios)[id := NovoUsuario(email.value, perfilId.value, pessoaId, IfSent(ativo, true), IfSent(emailVerificado, false))]
  {
    if !StrTruthy(email) || !StrTruthy(senha) || !IdTruthy(perfilId) {
      return Err(CamposObrigatorios);
    }
    if EmailOcupado(db.usuarios, email.value, None) {
      return Err(EmailEmUso);
    }
    if perfilId.value !in db.perfis {
      return Err(PerfilNaoEncontrado);
    }
    if IdTruthy(pessoaId) && pessoaId.value !in db.pessoas {
      return Err(PessoaNaoEncontrada);
    }
    if !EmailGravavel(db, email.value, formatoValido) {
      return Err(ErroInterno);
    }
    var id := db.proximoUsuario;
    db.usuarios := db.usuarios[id := NovoUsuario(email.value, perfilId.value, pessoaId, IfSent(ativo, true), IfSent(emailVerificado, false))];
    db.proximoUsuario := id + 1;
    r := Ok(id);
  }

  /** The first guard of `atualizar` that refuses the request, if any; the existence checks run only for a changed id. */
  function RecusaAtualizar(usuarios: map<nat, UsuarioRow>, perfis: set<nat>, pessoas: set<nat>, id: nat,
                           email: Option<string>, perfilId: Option<nat>, pessoaId: Given<Option<nat>>): (r: Option<UsuarioErro>)
    ensures r.None? ==> id in usuarios
  {
    if id !in usuarios then Some(UsuarioNaoEncontrado)
    else
      var u := usuarios[id];
      if StrTruthy(email) && email.value != u.email && EmailOcupado(usuarios, email.value, Some(id)) then Some(EmailEmUso)
      else if IdTruthy(perfilId) && perfilId.value != u.perfilId && perfilId.value !in perfis then Some(PerfilNaoEncontrado)
      else if pessoaId.Sent? && IdTruthy(pessoaId.value) && pessoaId.value != u.pessoaId && pessoaId.value.value !in pessoas
      then Some(PessoaNaoEncontrada)
      else None
  }

  /**
   * The merged row `atualizar` writes: `email` and `perfil_id` fall back on
   * a falsy value, `pessoa_id`, `ativo` and `email_verificado` on an absent
   * one; the login columns are not touched.
   */
  function Atualizado(u: UsuarioRow, email: Option<string>, perfilId: Option<nat>, pessoaId: Given<Option<nat>>,
                      ativo: Given<bool>, emailVerificado: Given<bool>): UsuarioRow
  {
    u.(email := OrStr(email, u.email), perfilId := OrId(perfilId, u.perfilId), pessoaId := IfSent(pessoaId, u.pessoaId),
       ativo := IfSent(ativo, u.ativo), emailVerificado := IfSent(emailVerificado, u.emailVerificado))
  }

  /** An update that sends nothing, or sends back the row's own values, leaves the row as it was. */
  lemma {:induction false} AtualizadoSemMudanca(u: UsuarioRow)
    ensures Atualizado(u, None, None, Omitted, Omitted, Omitted) == u
    ensures Atualizado(u, Some(u.email), Some(u.perfilId), Sent(u.pessoaId), Sent(u.ativo), Sent(u.emailVerificado)) == u
  {
  }

  /** Sending the same update twice leaves the row as sending it once. */
  lemma AtualizadoIdempotente(u: UsuarioRow, email: Option<string>, perfilId: Option<nat>, pessoaId: Given<Option<nat>>,
                              ativo: Given<bool>, emailVerificado: Given<bool>)
    ensures var v := Atualizado(u, email, perfilId, pessoaId, ativo, emailVerificado);
      Atualizado(v, email, perfilId, pessoaId, ativo, emailVerificado) == v
  {
  }

  /** `atualizar`: the guards in order, then the merged update, which the database may still refuse. */
  method Atualizar(db: Db, id: nat, email: Option<string>, perfilId: Option<nat>, pessoaId: Given<Option<nat>>,
                   ativo: Given<bool>, emailVerificado: Given<bool>, formatoValido: bool)
    returns (r: Result<nat, UsuarioErro>)
    requires db.UsuariosOk()
    modifies db`usuarios
    ensures db.UsuariosOk()
    ensures RecusaAtualizar(old(db.usuarios), db.perfis.Keys, db.pessoas.Keys, id, email, perfilId, pessoaId).Some? ==>
      r == Err(RecusaAtualizar(old(db.usuarios), db.perfis.Keys, db.pessoas.Keys, id, email, perfilId, pessoaId).value) && unchanged(db)
    ensures RecusaAtualizar(old(db.usuarios), db.perfis.Keys, db.pessoas.Keys, id, email, perfilId, pessoaId).None? ==>
      var v := Atualizado(old(db.usuarios)[id], email, perfilId, pessoaId, ativo, emailVerificado);
      (!EmailGravavel(db, v.email, formatoValido) ==> r == Err(ErroInterno) && unchanged(db))
      && (EmailGravavel(db, v.email, formatoValido) ==> r == Ok(id) && db.usuarios == old(db.usuarios)[id := v])
  {
    if id !in db.usuarios {
      return Err(UsuarioNaoEncontrado);
    }
    var u := db.usuarios[id];
    if StrTruthy(email) && email.value != u.email && EmailOcupado(db.usuarios, email.value, Some(id)) {
      return Err(EmailEmUso);
    }
    if IdTruthy(perfilId) && perfilId.value != u.perfilId && perfilId.value !in db.perfis {
      return Err(PerfilNaoEncontrado);
    }
    if pessoaId.Sent? && IdTruthy(pessoaId.value) && pessoaId.value != u.pessoaId && pessoaId.value.value !in db.pessoas {
      return Err(PessoaNaoEncontrada);
    }
    var v := Atualizado(u, email, perfilId, pessoaId, ativo, emailVerificado);
    r := Gravar(db, id, v, formatoValido);
  }

  /** The write of `atualizar`: the database refuses an e-mail it does not accept, and otherwise stores the row. */
  method Gravar(db: Db, id: nat, v: UsuarioRow, formatoValido: bool) returns (r: Result<nat, UsuarioErro>)
    requires db.UsuariosOk() && id in db.usuarios
    requires v.email == db.usuarios[id].email || !EmailOcupado(db.usuarios, v.email, Some(id))
    modifies db`usuarios
    ensures db.UsuariosOk()
    ensures !EmailGravavel(db, v.email, formatoValido) ==> r == Err(ErroInterno) && unchanged(db)
    ensures EmailGravavel(db, v.email, formatoValido) ==> r == Ok(id) && db.usuarios == old(db.usuarios)[id := v]
  {
    if !EmailGravavel(db, v.email, formatoValido) {
      return Err(ErroInterno);
    }
    db.usuarios := db.usuarios[id := v];
    r := Ok(id);
  }

  /** `excluir`: a missing user is not found, the acting user cannot delete themself, otherwise the row is soft-deleted. */
  method Excluir(db: Db, id: nat, ator: Option<nat>) returns (r: Result<nat, UsuarioErro>)
    requires db.UsuariosOk()
    modifies db`usuarios, db`emailsDeUsuariosExcluidos
    ensures db.UsuariosOk()
    ensures id !in old(db.usuarios) ==> r == Err(UsuarioNaoEncontrado) && unchanged(db)
    ensures id in old(db.usuarios) && ator == Some(id) ==> r == Err(ProprioUsuario) && unchanged(db)
    ensures id in old(db.usuarios) && ator != Some(id) ==>
      r == Ok(id) && db.usuarios == old(db.usuarios) - {id}
      && db.emailsDeUsuariosExcluidos == old(db.emailsDeUsuariosExcluidos) + {old(db.usuarios)[id].email}
  {
    if id !in db.usuarios {
      return Err(UsuarioNaoEncontrado);
    }
    if ator == Some(id) {
      return Err(ProprioUsuario);
    }
    db.emailsDeUsuariosExcluidos := db.emailsDeUsuariosExcluidos + {db.usuarios[id].email};
    db.usuarios := db.usuarios - {id};
    r := Ok(id);
  }

  /**
   * `toggleAtivo`: flips `ativo`, except that the acting user cannot
   * deactivate themself; reactivating oneself is allowed.
   */
  method ToggleAtivo(db: Db, id: nat, ator: Option<nat>) returns (r: Result<bool, UsuarioErro>)
    requires db.UsuariosOk()
    modifies db`usuarios
    ensures db.UsuariosOk()
    ensures id !in old(db.usuarios) ==> r == Err(UsuarioNaoEncontrado) && unchanged(db)
    ensures id in old(db.usuarios) && ator == Some(id) && old(db.usuarios)[id].ativo ==> r == Err(ProprioUsuario) && unchanged(db)
    ensures id in old(db.usuarios) && !(ator == Some(id) && old(db.usuarios)[id].ativo) ==>
      r == Ok(!old(db.usuarios)[id].ativo)
      && db.usuarios == old(db.usuarios)[id := old(db.usuarios)[id].(ativo := !old(db.usuarios)[id].ativo)]
  {
    if id !in db.usuarios {
      return Err(UsuarioNaoEncontrado);
    }
    var u := db.usuarios[id];
    if ator == Some(id) && u.ativo {
      return Err(ProprioUsuario);
    }
    db.usuarios := db.usuarios[id := u.(ativo := !u.ativo)];
    r := Ok(!u.ativo);
  }
}
