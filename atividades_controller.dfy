/**
 * The activity controller: create an activity, update it while replacing
 * both link lists wholesale, and soft-delete it with its links.
 */
module AtividadesController {
  import opened Wrappers
  import opened Js
  import opened CultoModel
  import opened AtividadeModel
  import opened Db

  datatype AtividadeErro =
    | CamposObrigatorios
    | TipoNaoEncontrado
    | CultoNaoEncontrado
    | AtividadeNaoEncontrada
    | ErroInterno

  /** One link row per given target, in input order, each naming the activity. */
  function Ligacoes(id: nat, alvos: seq<nat>): seq<Vinculo> {
    seq(|alvos|, i requires 0 <= i < |alvos| => Vinculo(id, alvos[i]))
  }

  /** The links of activity `id`, in table order. */
  function DaAtividade(vs: seq<Vinculo>, id: nat): seq<Vinculo>
    decreases |vs|
  {
    if vs == [] then []
    else (if vs[0].atividadeId == id then [vs[0]] else []) + DaAtividade(vs[1..], id)
  }

  /** The table after `destroy({ where: { atividade_id: id } })`: every link of `id` gone, the rest in order. */
  function SemAtividade(vs: seq<Vinculo>, id: nat): seq<Vinculo>
    decreases |vs|
  {
    if vs == [] then []
    else (if vs[0].atividadeId == id then [] else [vs[0]]) + SemAtividade(vs[1..], id)
  }

  lemma {:induction false} DaAtividadeConcat(a: seq<Vinculo>, b: seq<Vinculo>, x: nat)
    ensures DaAtividade(a + b, x) == DaAtividade(a, x) + DaAtividade(b, x)
    decreases |a|
  {
    if a == [] {
      assert a + b == b;
    } else {
      var t := a + b;
      var cabeca := if a[0].atividadeId == x then [a[0]] else [];
      assert t[0] == a[0] && t[1..] == a[1..] + b;
      assert DaAtividade(t, x) == cabeca + DaAtividade(a[1..] + b, x);
      DaAtividadeConcat(a[1..], b, x);
    }
  }

  /** After the delete, activity `id` has no link and every other activity keeps its links. */
  lemma {:induction false} SemAtividadeLimpa(vs: seq<Vinculo>, id: nat, x: nat)
    ensures DaAtividade(SemAtividade(vs, id), x) == if x == id then [] else DaAtividade(vs, x)
    decreases |vs|
  {
    if vs != [] {
      SemAtividadeLimpa(vs[1..], id, x);
      var cabeca := if vs[0].atividadeId == id then [] else [vs[0]];
      DaAtividadeConcat(cabeca, SemAtividade(vs[1..], id), x);
    }
  }

  /** The new links belong to `id` alone. */
  lemma {:induction false} LigacoesDaAtividade(id: nat, alvos: seq<nat>, x: nat)
    ensures DaAtividade(Ligacoes(id, alvos), x) == if x == id then Ligacoes(id, alvos) else []
    decreases |alvos|
  {
    if alvos != [] {
      var l := Ligacoes(id, alvos);
      assert l[1..] == Ligacoes(id, alvos[1..]);
      LigacoesDaAtividade(id, alvos[1..], x);
    }
  }

  /**
   * Replacing the links of `id` (delete them all, then insert one per
   * target) leaves `id` linked to exactly the targets, in order, one link per
   * list entry, and every other activity's links as they were.
   */
  lemma Substituicao(vs: seq<Vinculo>, id: nat, alvos: seq<nat>)
    ensures DaAtividade(SemAtividade(vs, id) + Ligacoes(id, alvos), id) == Ligacoes(id, alvos)
    ensures forall x :: x != id ==> DaAtividade(SemAtividade(vs, id) + Ligacoes(id, alvos), x) == DaAtividade(vs, x)
  {
    forall x | true
      ensures DaAtividade(SemAtividade(vs, id) + Ligacoes(id, alvos), x) == if x == id then Ligacoes(id, alvos) else DaAtividade(vs, x)
    {
      DaAtividadeConcat(SemAtividade(vs, id), Ligacoes(id, alvos), x);
      SemAtividadeLimpa(vs, id, x);
      LigacoesDaAtividade(id, alvos, x);
    }
  }

  lemma {:induction false} SemAtividadeSubconjunto(vs: seq<Vinculo>, id: nat, limite: nat)
    requires forall i :: 0 <= i < |vs| ==> vs[i].atividadeId < limite
    ensures forall i :: 0 <= i < |SemAtividade(vs, id)| ==> SemAtividade(vs, id)[i].atividadeId < limite
    decreases |vs|
  {
    if vs != [] {
      var cauda := vs[1..];
      SemAtividadeSubconjunto(cauda, id, limite);
      var cabeca := if vs[0].atividadeId == id then [] else [vs[0]];
      var resto := SemAtividade(cauda, id);
      var r := SemAtividade(vs, id);
      assert r == cabeca + resto;
      forall i | 0 <= i < |r|
        ensures r[i].atividadeId < limite
      {
        if i >= |cabeca| {
          assert r[i] == resto[i - |cabeca|];
          assert resto[i - |cabeca|].atividadeId < limite;
        } else {
          assert r[i] == vs[0];
          assert vs[0].atividadeId < limite;
        }
      }
    }
  }

  /** The first guard of `criar` that refuses the request, if any. */
  function RecusaCriar(tipos: set<nat>, cultos: set<nat>, nome: Option<string>, tipoId: Option<nat>, cultoId: Option<nat>): (r: Option<AtividadeErro>)
    ensures r.None? <==> StrTruthy(nome) && IdTruthy(tipoId) && IdTruthy(cultoId) && tipoId.value in tipos && cultoId.value in cultos
  {
    if !StrTruthy(nome) || !IdTruthy(tipoId) || !IdTruthy(cultoId) then Some(CamposObrigatorios)
    else if tipoId.value !in tipos then Some(TipoNaoEncontrado)
    else if cultoId.value !in cultos then Some(CultoNaoEncontrado)
    else None
  }

  /**
   * The column values `criar` hands to `create`. `nome`, `horario_fim`,
   * `ativa` and `criado_por` name no column of `atividades` and are
   * dropped, so `titulo`, `ordem_programacao` and `created_by` stay `NULL`.
   */
  function ValoresDoCriar(cultoId: nat, descricao: Option<string>, tipoId: nat, inicio: Option<Horario>,
                          observacoes: Option<string>): ValoresAtividade
  {
    ValoresAtividade(Some(cultoId), None, descricao, Some(tipoId), None, inicio, None, observacoes, None)
  }

  /**
   * `criar`: the guards, then `create` with values that leave the
   * `NOT NULL` title, order and creator out, which the insert refuses; no
   * activity and no link is written.
   */
  method Criar(db: Db, nome: Option<string>, descricao: Option<string>, tipoId: Option<nat>, cultoId: Option<nat>,
               inicio: Option<Horario>, observacoes: Option<string>)
    returns (r: Result<nat, AtividadeErro>)
    ensures RecusaCriar(db.tiposAtividade, db.cultos.Keys, nome, tipoId, cultoId).Some? ==>
      r == Err(RecusaCriar(db.tiposAtividade, db.cultos.Keys, nome, tipoId, cultoId).value)
    ensures RecusaCriar(db.tiposAtividade, db.cultos.Keys, nome, tipoId, cultoId).None? ==>
      LinhaDeAtividade(ValoresDoCriar(cultoId.value, descricao, tipoId.value, inicio, observacoes)).None? && r == Err(ErroInterno)
  {
    if !StrTruthy(nome) || !IdTruthy(tipoId) || !IdTruthy(cultoId) {
      return Err(CamposObrigatorios);
    }
    if tipoId.value !in db.tiposAtividade {
      return Err(TipoNaoEncontrado);
    }
    if cultoId.value !in db.cultos {
      return Err(CultoNaoEncontrado);
    }
    assert LinhaDeAtividade(ValoresDoCriar(cultoId.value, descricao, tipoId.value, inicio, observacoes)).None?;
    r := Err(ErroInterno);
  }

  /**
   * The row after `update`: type, service and start time when truthy,
   * `descricao` and `observacoes` when sent. The type and the service are
   * not looked up again; `nome`, `horario_fim` and `ativa` name no column
   * and change nothing.
   */
  function AtividadeAtualizada(a: AtividadeRow, descricao: Given<Option<string>>, tipoId: Option<nat>, cultoId: Option<nat>,
                               inicio: Option<Horario>, observacoes: Given<Option<string>>): AtividadeRow
  {
    a.(descricao := IfSent(descricao, a.descricao), tipoAtividadeId := OrId(tipoId, a.tipoAtividadeId),
       cultoId := OrId(cultoId, a.cultoId), horarioInicio := if inicio.Some? then inicio else a.horarioInicio,
       observacoes := IfSent(observacoes, a.observacoes))
  }

  /** An update that sends none of the activity's own columns leaves the row as it was. */
  lemma AtualizacaoVaziaPreserva(a: AtividadeRow)
    ensures AtividadeAtualizada(a, Omitted, None, None, None, Omitted) == a
  {
  }

  /**
   * `atualizar`: the lookup, the partial update, then both link lists
   * replaced wholesale, so a list left out of the request clears that kind
   * of link. The reload for the answer names associations and columns that
   * do not exist, so after the writes the request is an internal error.
   */
  method Atualizar(db: Db, id: nat, descricao: Given<Option<string>>, tipoId: Option<nat>, cultoId: Option<nat>,
                   inicio: Option<Horario>, observacoes: Given<Option<string>>, pessoas: seq<nat>, departamentos: seq<nat>)
    returns (r: Result<nat, AtividadeErro>)
    requires db.AtividadesOk()
    modifies db`atividades, db`atividadePessoas, db`atividadeDepartamentos
    ensures db.AtividadesOk()
    ensures id !in old(db.atividades) ==> r == Err(AtividadeNaoEncontrada) && unchanged(db)
    ensures id in old(db.atividades) ==>
      r == Err(ErroInterno)
      && db.atividades == old(db.atividades)[id := AtividadeAtualizada(old(db.atividades)[id], descricao, tipoId, cultoId, inicio, observacoes)]
      && db.atividadePessoas == SemAtividade(old(db.atividadePessoas), id) + Ligacoes(id, pessoas)
      && db.atividadeDepartamentos == SemAtividade(old(db.atividadeDepartamentos), id) + Ligacoes(id, departamentos)
      && DaAtividade(db.atividadePessoas, id) == Ligacoes(id, pessoas)
      && DaAtividade(db.atividadeDepartamentos, id) == Ligacoes(id, departamentos)
  {
    if id !in db.atividades {
      return Err(AtividadeNaoEncontrada);
    }
    db.atividades := db.atividades[id := AtividadeAtualizada(db.atividades[id], descricao, tipoId, cultoId, inicio, observacoes)];
    Substituicao(db.atividadePessoas, id, pessoas);
    Substituicao(db.atividadeDepartamentos, id, departamentos);
    SemAtividadeSubconjunto(db.atividadePessoas, id, db.proximaAtividade);
    SemAtividadeSubconjunto(db.atividadeDepartamentos, id, db.proximaAtividade);
    db.atividadePessoas := SemAtividade(db.atividadePessoas, id) + Ligacoes(id, pessoas);
    db.atividadeDepartamentos := SemAtividade(db.atividadeDepartamentos, id) + Ligacoes(id, departamentos);
    r := Err(ErroInterno);
  }

  /** `excluir`: every link of the activity is deleted, then the activity itself. */
  method Excluir(db: Db, id: nat) returns (r: Result<nat, AtividadeErro>)
    requires db.AtividadesOk()
    modifies db`atividades, db`atividadePessoas, db`atividadeDepartamentos
    ensures db.AtividadesOk()
    ensures id !in old(db.atividades) ==> r == Err(AtividadeNaoEncontrada) && unchanged(db)
    ensures id in old(db.atividades) ==>
      r == Ok(id) && db.atividades == old(db.atividades) - {id}
      && db.atividadePessoas == SemAtividade(old(db.atividadePessoas), id)
      && db.atividadeDepartamentos == SemAtividade(old(db.atividadeDepartamentos), id)
      && DaAtividade(db.atividadePessoas, id) == [] && DaAtividade(db.atividadeDepartamentos, id) == []
  {
    if id !in db.atividades {
      return Err(AtividadeNaoEncontrada);
    }
    SemAtividadeLimpa(db.atividadePessoas, id, id);
    SemAtividadeLimpa(db.atividadeDepartamentos, id, id);
    SemAtividadeSubconjunto(db.atividadePessoas, id, db.proximaAtividade);
    SemAtividadeSubconjunto(db.atividadeDepartamentos, id, db.proximaAtividade);
    db.atividadePessoas := SemAtividade(db.atividadePessoas, id);
    db.atividadeDepartamentos := SemAtividade(db.atividadeDepartamentos, id);
    db.atividades := db.atividades - {id};
    r := Ok(id);
  }
}
