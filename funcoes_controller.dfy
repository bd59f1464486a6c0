/**
 * The ministry-function controller: creation with a unique name, and a
 * partial update that keeps a name unique among the live functions.
 */
module FuncoesController {
  import opened Wrappers
  import opened Js
  import opened Db

  datatype FuncaoErro =
    | NomeObrigatorio
    | NomeEmUso
    | FuncaoNaoEncontrada
    | ErroInterno

  /** A live function other than `exceto` is named `nome`. */
  predicate NomeOcupado(funcoes: map<nat, FuncaoRow>, nome: string, exceto: Option<nat>) {
    exists k :: k in funcoes && Some(k) != exceto && funcoes[k].nome == nome
  }

  /**
   * The row `criar` inserts. The controller also sends `ativa` and
   * `criado_por`, which are not columns of the table; `requer_confirmacao`
   * and `ativo` take their defaults.
   */
  function NovaFuncao(nome: string, descricao: Option<string>, cor: Option<string>): FuncaoRow {
    FuncaoRow(nome, descricao, cor, true, true)
  }

  /** The first guard of `criar` that refuses the request, if any. */
  function RecusaCriar(funcoes: map<nat, FuncaoRow>, nome: Option<string>): (r: Option<FuncaoErro>)
    ensures r.None? <==> StrTruthy(nome) && !NomeOcupado(funcoes, nome.value, None)
  {
    if !StrTruthy(nome) then Some(NomeObrigatorio)
    else if NomeOcupado(funcoes, nome.value, None) then Some(NomeEmUso)
    else None
  }

  /** Storing a row under `id` whose name no other live function holds keeps the names unique. */
  lemma GravarPreservaNomes(funcoes: map<nat, FuncaoRow>, id: nat, f: FuncaoRow)
    requires forall a, b :: a in funcoes && b in funcoes && a != b ==> funcoes[a].nome != funcoes[b].nome
    requires !NomeOcupado(funcoes, f.nome, Some(id))
    ensures var q := funcoes[id := f]; forall a, b :: a in q && b in q && a != b ==> q[a].nome != q[b].nome
  {
    var q := funcoes[id := f];
    forall a, b | a in q && b in q && a != b
      ensures q[a].nome != q[b].nome
    {
      if a == id {
        assert !(b in funcoes && Some(b) != Some(id) && funcoes[b].nome == f.nome);
      } else if b == id {
        assert !(a in funcoes && Some(a) != Some(id) && funcoes[a].nome == f.nome);
      }
    }
  }

  /** `criar`: name required and free, then the insert, which fails when a validator refuses the row. */
  method Criar(db: Db, nome: Option<string>, descricao: Option<string>, cor: Option<string>) returns (r: Result<nat, FuncaoErro>)
    requires db.FuncoesOk()
    modifies db`funcoes, db`proximaFuncao
    ensures db.FuncoesOk()
    ensures RecusaCriar(old(db.funcoes), nome).Some? ==> r == Err(RecusaCriar(old(db.funcoes), nome).value) && unchanged(db)
    ensures RecusaCriar(old(db.funcoes), nome).None? ==>
      var f := NovaFuncao(nome.value, descricao, cor);
      var id := old(db.proximaFuncao);
      (!FuncaoValida(f) ==> r == Err(ErroInterno) && unchanged(db))
      && (FuncaoValida(f) ==> r == Ok(id) && id !in old(db.funcoes) && db.funcoes == old(db.funcoes)[id := f] && db.proximaFuncao == id + 1)
  {
    if !StrTruthy(nome) {
      return Err(NomeObrigatorio);
    }
    if NomeOcupado(db.funcoes, nome.value, None) {
      return Err(NomeEmUso);
    }
    var f := NovaFuncao(nome.value, descricao, cor);
    if !FuncaoValida(f) {
      return Err(ErroInterno);
    }
    var id := db.proximaFuncao;
    assert !NomeOcupado(db.funcoes, f.nome, Some(id));
    GravarPreservaNomes(db.funcoes, id, f);
    db.funcoes := db.funcoes[id := f];
    db.proximaFuncao := id + 1;
    r := Ok(id);
  }

  /**
   * The first guard of `atualizar` that refuses the request, if any: the
   * lookup, then the name test, which runs only for a new non-empty name.
   */
  function RecusaAtualizar(funcoes: map<nat, FuncaoRow>, id: nat, nome: Option<string>): (r: Option<FuncaoErro>)
    ensures r.None? ==> id in funcoes
  {
    if id !in funcoes then Some(FuncaoNaoEncontrada)
    else if StrTruthy(nome) && nome.value != funcoes[id].nome && NomeOcupado(funcoes, nome.value, Some(id)) then Some(NomeEmUso)
    else None
  }

  /** Renaming a function to the name it already has is never refused. */
  lemma ManterNomeAceito(funcoes: map<nat, FuncaoRow>, id: nat)
    requires id in funcoes
    ensures RecusaAtualizar(funcoes, id, Some(funcoes[id].nome)) == None
  {
  }

  /** The row after `update`: `nome` and `cor` when non-empty, `descricao` when sent; nothing else moves. */
  function FuncaoAtualizada(f: FuncaoRow, nome: Option<string>, descricao: Given<Option<string>>, cor: Option<string>): FuncaoRow {
    f.(nome := OrStr(nome, f.nome), descricao := IfSent(descricao, f.descricao), cor := if StrTruthy(cor) then cor else f.cor)
  }

  /** Sending the same update twice leaves the row as sending it once. */
  lemma AtualizacaoIdempotente(f: FuncaoRow, nome: Option<string>, descricao: Given<Option<string>>, cor: Option<string>)
    ensures FuncaoAtualizada(FuncaoAtualizada(f, nome, descricao, cor), nome, descricao, cor) == FuncaoAtualizada(f, nome, descricao, cor)
  {
  }

  /** An update that passed the guards leaves no name to two live functions. */
  lemma AtualizacaoPreservaNomes(funcoes: map<nat, FuncaoRow>, id: nat, nome: Option<string>, descricao: Given<Option<string>>, cor: Option<string>)
    requires forall a, b :: a in funcoes && b in funcoes && a != b ==> funcoes[a].nome != funcoes[b].nome
    requires RecusaAtualizar(funcoes, id, nome).None?
    ensures var q := funcoes[id := FuncaoAtualizada(funcoes[id], nome, descricao, cor)];
      forall a, b :: a in q && b in q && a != b ==> q[a].nome != q[b].nome
  {
    var f := FuncaoAtualizada(funcoes[id], nome, descricao, cor);
    if f.nome == funcoes[id].nome {
      forall k | k in funcoes && Some(k) != Some(id) ensures funcoes[k].nome != f.nome {
      }
    }
    GravarPreservaNomes(funcoes, id, f);
  }

  /**
   * `atualizar`: the guards, then the update, which validates the changed
   * columns; the stored row was valid, so that is validating the new row.
   * The controller also sends `ativa`, which is not a column, so `ativo`
   * never changes here.
   */
  method Atualizar(db: Db, id: nat, nome: Option<string>, descricao: Given<Option<string>>, cor: Option<string>, ativa: Given<bool>)
    returns (r: Result<nat, FuncaoErro>)
    requires db.FuncoesOk()
    modifies db`funcoes
    ensures db.FuncoesOk()
    ensures RecusaAtualizar(old(db.funcoes), id, nome).Some? ==>
      r == Err(RecusaAtualizar(old(db.funcoes), id, nome).value) && unchanged(db)
    ensures RecusaAtualizar(old(db.funcoes), id, nome).None? ==>
      var f := FuncaoAtualizada(old(db.funcoes)[id], nome, descricao, cor);
      (!FuncaoValida(f) ==> r == Err(ErroInterno) && unchanged(db))
      && (FuncaoValida(f) ==> r == Ok(id) && db.funcoes == old(db.funcoes)[id := f] && db.funcoes[id].ativo == old(db.funcoes)[id].ativo)
  {
    if id !in db.funcoes {
      return Err(FuncaoNaoEncontrada);
    }
    if StrTruthy(nome) && nome.value != db.funcoes[id].nome && NomeOcupado(db.funcoes, nome.value, Some(id)) {
      return Err(NomeEmUso);
    }
    var f := FuncaoAtualizada(db.funcoes[id], nome, descricao, cor);
    if !FuncaoValida(f) {
      return Err(ErroInterno);
    }
    AtualizacaoPreservaNomes(db.funcoes, id, nome, descricao, cor);
    db.funcoes := db.funcoes[id := f];
    r := Ok(id);
  }
}
