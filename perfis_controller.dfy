/**
 * The profile controller: create, update, delete and activate/deactivate a
 * profile, the check that every requested permission exists, and the
 * grouping of permissions by module.
 */
module PerfisController {
  import opened Wrappers
  import opened Js
  import opened PerfilModel
  import opened Db

  datatype PerfilErro =
    | CamposObrigatorios
    | NomeEmUso
    | NivelForaDoIntervalo
    | PermissoesNaoEncontradas
    | PerfilNaoEncontrado
    | PerfilEmUso(usuarios: nat)
    | ErroInterno

  /** A live profile other than `exceto` is called `nome`. */
  predicate NomeOcupado(perfis: map<nat, PerfilRow>, nome: string, exceto: Option<nat>) {
    exists k :: k in perfis && Some(k) != exceto && perfis[k].nome == nome
  }

  /** The existing permission ids a list names. */
  function Existentes(permissoes: map<nat, PermissaoRow>, ids: seq<nat>): set<nat> {
    set i | i in ids && i in permissoes
  }

  /** `Permissao.findAll({ where: { id: { [Op.in]: ids } } }).length`: how many distinct existing rows the ids name. */
  function Encontradas(permissoes: map<nat, PermissaoRow>, ids: seq<nat>): nat {
    |Existentes(permissoes, ids)|
  }

  /** The controller's test `permissoesExistentes.length === permissoes.length`. */
  predicate PermissoesConferem(permissoes: map<nat, PermissaoRow>, ids: seq<nat>) {
    Encontradas(permissoes, ids) == |ids|
  }

  predicate SemRepeticao(ids: seq<nat>) {
    forall i, j :: 0 <= i < j < |ids| ==> ids[i] != ids[j]
  }

  /** A list names at most as many distinct ids as it is long, and exactly as many when it repeats none. */
  lemma {:induction false} CardinalidadeDosIds(ids: seq<nat>)
    ensures |PermissoesAssociadas(ids)| <= |ids|
    ensures |PermissoesAssociadas(ids)| == |ids| <==> SemRepeticao(ids)
    decreases |ids|
  {
    if |ids| > 0 {
      var resto := ids[1..];
      CardinalidadeDosIds(resto);
      assert PermissoesAssociadas(ids) == {ids[0]} + PermissoesAssociadas(resto);
      if ids[0] in resto {
        var j :| 0 <= j < |resto| && resto[j] == ids[0];
        assert ids[0] == ids[j + 1];
        assert !SemRepeticao(ids);
      } else {
        SemRepeticaoCauda(ids);
      }
    }
  }

  /** A list whose head does not recur repeats nothing exactly when its tail repeats nothing. */
  lemma SemRepeticaoCauda(ids: seq<nat>)
    requires |ids| > 0 && ids[0] !in ids[1..]
    ensures SemRepeticao(ids) <==> SemRepeticao(ids[1..])
  {
    var resto := ids[1..];
    if SemRepeticao(resto) {
      forall i, j | 0 <= i < j < |ids| ensures ids[i] != ids[j] {
        if i > 0 {
          assert ids[i] == resto[i - 1] && ids[j] == resto[j - 1];
        } else {
          assert ids[j] == resto[j - 1];
        }
      }
    }
    if SemRepeticao(ids) {
      forall i, j | 0 <= i < j < |resto| ensures resto[i] != resto[j] {
        assert resto[i] == ids[i + 1] && resto[j] == ids[j + 1];
      }
    }
  }

  lemma SubconjuntoProprio(s: set<nat>, t: set<nat>)
    requires s <= t && s != t
    ensures |s| < |t|
  {
    var x :| x in t && x !in s;
    assert s <= t - {x};
    assert |t - {x}| == |t| - 1;
    assert s + (t - {x} - s) == t - {x};
  }

  /**
   * The existence check accepts a list exactly when every id in it names a
   * permission and no id is repeated: a list that names an existing
   * permission twice is refused.
   */
  lemma PermissoesConferemIff(permissoes: map<nat, PermissaoRow>, ids: seq<nat>)
    ensures PermissoesConferem(permissoes, ids) <==> SemRepeticao(ids) && forall i :: 0 <= i < |ids| ==> ids[i] in permissoes
  {
    var s := Existentes(permissoes, ids);
    var d := PermissoesAssociadas(ids);
    CardinalidadeDosIds(ids);
    assert s <= d;
    if s != d {
      SubconjuntoProprio(s, d);
      var x :| x in d && x !in s;
      var k :| 0 <= k < |ids| && ids[k] == x;
      assert ids[k] !in permissoes;
    } else {
      forall i | 0 <= i < |ids| ensures ids[i] in permissoes {
        assert ids[i] in d;
      }
    }
  }

  /** The first guard of `criar` that refuses the request, if any. */
  function RecusaCriar(perfis: map<nat, PerfilRow>, nome: Option<string>, nivelAcesso: Option<int>): Option<PerfilErro> {
    if !StrTruthy(nome) || !IntTruthy(nivelAcesso) then Some(CamposObrigatorios)
    else if NomeOcupado(perfis, nome.value, None) then Some(NomeEmUso)
    else if !NivelValido(nivelAcesso.value) then Some(NivelForaDoIntervalo)
    else None
  }

  /** The database accepts the row: its validators pass and no soft-deleted profile holds its name. */
  predicate Gravavel(db: Db, p: PerfilRow)
    reads db
  {
    PerfilValido(p) && p.nome !in db.nomesDePerfisExcluidos
  }

  /**
   * `criar`: the guards in order, then the insert, then the permission
   * check. A refusal by a guard or by the database writes nothing; a failed
   * permission check comes after the insert, so that profile stays, without
   * permissions.
   */
  method Criar(db: Db, nome: Option<string>, descricao: Option<string>, nivelAcesso: Option<int>, ativo: bool, permissoes: seq<nat>)
    returns (r: Result<nat, PerfilErro>)
    requires db.PerfisOk()
    modifies db`perfis, db`proximoPerfil, db`perfilPermissoes
    ensures db.PerfisOk()
    ensures RecusaCriar(old(db.perfis), nome, nivelAcesso).Some? ==>
      r == Err(RecusaCriar(old(db.perfis), nome, nivelAcesso).value) && unchanged(db)
    ensures RecusaCriar(old(db.perfis), nome, nivelAcesso).None? ==>
      var p := PerfilRow(nome.value, descricao, nivelAcesso.value, ativo);
      var id := old(db.proximoPerfil);
      (!Gravavel(db, p) ==> r == Err(ErroInterno) && unchanged(db))
      && (Gravavel(db, p) ==>
        db.perfis == old(db.perfis)[id := p] && db.proximoPerfil == id + 1 && id !in old(db.perfis)
        && (|permissoes| > 0 && !PermissoesConferem(db.permissoes, permissoes) ==>
              r == Err(PermissoesNaoEncontradas) && db.perfilPermissoes == old(db.perfilPermissoes))
        && (|permissoes| == 0 ==> r == Ok(id) && db.perfilPermissoes == old(db.perfilPermissoes) && id !in db.perfilPermissoes)
        && (|permissoes| > 0 && PermissoesConferem(db.permissoes, permissoes) ==>
              r == Ok(id) && db.perfilPermissoes == old(db.perfilPermissoes)[id := PermissoesAssociadas(permissoes)]))
  {
    if !StrTruthy(nome) || !IntTruthy(nivelAcesso) {
      return Err(CamposObrigatorios);
    }
    if NomeOcupado(db.perfis, nome.value, None) {
      return Err(NomeEmUso);
    }
    if !NivelValido(nivelAcesso.value) {
      return Err(NivelForaDoIntervalo);
    }
    var p := PerfilRow(nome.value, descricao, nivelAcesso.value, ativo);
    if !(NomeValido(p.nome) && NivelValido(p.nivelAcesso) && p.nome !in db.nomesDePerfisExcluidos) {
      return Err(ErroInterno);
    }
    var id := db.proximoPerfil;
    db.perfis := db.perfis[id := p];
    db.proximoPerfil := id + 1;
    if |permissoes| > 0 {
      if Encontradas(db.permissoes, permissoes) != |permissoes| {
        return Err(PermissoesNaoEncontradas);
      }
      db.perfilPermissoes := db.perfilPermissoes[id := PermissoesAssociadas(permissoes)];
    }
    r := Ok(id);
  }

  /** The first guard of `atualizar` that refuses the request, if any. */
  function RecusaAtualizar(perfis: map<nat, PerfilRow>, id: nat, nome: Option<string>, nivelAcesso: Option<int>): Option<PerfilErro> {
    if id !in perfis then Some(PerfilNaoEncontrado)
    else if StrTruthy(nome) && nome.value != perfis[id].nome && NomeOcupado(perfis, nome.value, Some(id)) then Some(NomeEmUso)
    else if IntTruthy(nivelAcesso) && !NivelValido(nivelAcesso.value) then Some(NivelForaDoIntervalo)
    else None
  }

  /** The merged row `atualizar` writes: name and level fall back on a falsy value, description and state on an absent one. */
  function Atualizado(p: PerfilRow, nome: Option<string>, descricao: Given<Option<string>>, nivelAcesso: Option<int>, ativo: Given<bool>): PerfilRow {
    PerfilRow(OrStr(nome, p.nome), IfSent(descricao, p.descricao),
              if IntTruthy(nivelAcesso) then nivelAcesso.value else p.nivelAcesso, IfSent(ativo, p.ativo))
  }

  /**
   * `atualizar`: the guards, the merged update, then the permissions when
   * the key is present. An empty list clears them; a failed check comes
   * after the update, so the new columns stay and the old permissions too.
   */
  method Atualizar(db: Db, id: nat, nome: Option<string>, descricao: Given<Option<string>>, nivelAcesso: Option<int>,
                   ativo: Given<bool>, permissoes: Given<seq<nat>>)
    returns (r: Result<nat, PerfilErro>)
    requires db.PerfisOk()
    modifies db`perfis, db`perfilPermissoes
    ensures db.PerfisOk()
    ensures RecusaAtualizar(old(db.perfis), id, nome, nivelAcesso).Some? ==>
      r == Err(RecusaAtualizar(old(db.perfis), id, nome, nivelAcesso).value) && db.perfis == old(db.perfis) && db.perfilPermissoes == old(db.perfilPermissoes)
    ensures (RecusaAtualizar(old(db.perfis), id, nome, nivelAcesso).None?
      && !Gravavel(db, Atualizado(old(db.perfis)[id], nome, descricao, nivelAcesso, ativo))) ==>
      r == Err(ErroInterno) && db.perfis == old(db.perfis) && db.perfilPermissoes == old(db.perfilPermissoes)
    ensures (RecusaAtualizar(old(db.perfis), id, nome, nivelAcesso).None?
      && Gravavel(db, Atualizado(old(db.perfis)[id], nome, descricao, nivelAcesso, ativo))) ==>
      db.perfis == old(db.perfis)[id := Atualizado(old(db.perfis)[id], nome, descricao, nivelAcesso, ativo)]
      && (permissoes.Omitted? ==> r == Ok(id) && db.perfilPermissoes == old(db.perfilPermissoes))
      && (permissoes.Sent? && |permissoes.value| > 0 && !PermissoesConferem(db.permissoes, permissoes.value) ==>
            r == Err(PermissoesNaoEncontradas) && db.perfilPermissoes == old(db.perfilPermissoes))
      && (permissoes.Sent? && (|permissoes.value| == 0 || PermissoesConferem(db.permissoes, permissoes.value)) ==>
            r == Ok(id) && db.perfilPermissoes == old(db.perfilPermissoes)[id := PermissoesAssociadas(permissoes.value)])
  {
    if id !in db.perfis {
      return Err(PerfilNaoEncontrado);
    }
    var atual := db.perfis[id];
    if StrTruthy(nome) && nome.value != atual.nome && NomeOcupado(db.perfis, nome.value, Some(id)) {
      return Err(NomeEmUso);
    }
    if IntTruthy(nivelAcesso) && !NivelValido(nivelAcesso.value) {
      return Err(NivelForaDoIntervalo);
    }
    var p := Atualizado(atual, nome, descricao, nivelAcesso, ativo);
    RenomearPreservaUnicidade(db.perfis, id, p, db.nomesDePerfisExcluidos);
    r := GravarAtualizacao(db, id, p, permissoes);
  }

  /** The writing half of `atualizar`: the update of the row, then the permission associations. */
  method GravarAtualizacao(db: Db, id: nat, p: PerfilRow, permissoes: Given<seq<nat>>)
    returns (r: Result<nat, PerfilErro>)
    requires db.PerfisOk() && id in db.perfis
    requires var q := db.perfis[id := p]; forall a, b :: a in q && b in q && a != b ==> q[a].nome != q[b].nome
    modifies db`perfis, db`perfilPermissoes
    ensures db.PerfisOk()
    ensures !Gravavel(db, p) ==> r == Err(ErroInterno) && db.perfis == old(db.perfis) && db.perfilPermissoes == old(db.perfilPermissoes)
    ensures Gravavel(db, p) ==>
      db.perfis == old(db.perfis)[id := p]
      && (permissoes.Omitted? ==> r == Ok(id) && db.perfilPermissoes == old(db.perfilPermissoes))
      && (permissoes.Sent? && |permissoes.value| > 0 && !PermissoesConferem(db.permissoes, permissoes.value) ==>
            r == Err(PermissoesNaoEncontradas) && db.perfilPermissoes == old(db.perfilPermissoes))
      && (permissoes.Sent? && (|permissoes.value| == 0 || PermissoesConferem(db.permissoes, permissoes.value)) ==>
            r == Ok(id) && db.perfilPermissoes == old(db.perfilPermissoes)[id := PermissoesAssociadas(permissoes.value)])
  {
    if !(NomeValido(p.nome) && NivelValido(p.nivelAcesso) && p.nome !in db.nomesDePerfisExcluidos) {
      return Err(ErroInterno);
    }
    db.perfis := db.perfis[id := p];
    if permissoes.Sent? {
      if |permissoes.value| > 0 && Encontradas(db.permissoes, permissoes.value) != |permissoes.value| {
        return Err(PermissoesNaoEncontradas);
      }
      db.perfilPermissoes := db.perfilPermissoes[id := PermissoesAssociadas(permissoes.value)];
    }
    r := Ok(id);
  }

  /** Renaming a profile to its own name or to a name no other live profile holds keeps names unique. */
  lemma RenomearPreservaUnicidade(perfis: map<nat, PerfilRow>, id: nat, p: PerfilRow, excluidos: set<string>)
    requires id in perfis
    requires forall a, b :: a in perfis && b in perfis && a != b ==> perfis[a].nome != perfis[b].nome
    requires p.nome == perfis[id].nome || !NomeOcupado(perfis, p.nome, Some(id))
    ensures var q := perfis[id := p]; forall a, b :: a in q && b in q && a != b ==> q[a].nome != q[b].nome
  {
  }

  /** `Usuario.count({ where: { perfil_id: id } })`. */
  function UsuariosComPerfil(db: Db, id: nat): nat
    reads db
  {
    |set k | k in db.usuarios && db.usuarios[k].perfilId == id|
  }

  /** `excluir`: a profile still assigned to a live user is refused, with the count; otherwise it is soft-deleted. */
  method Excluir(db: Db, id: nat) returns (r: Result<nat, PerfilErro>)
    requires db.PerfisOk()
    modifies db`perfis, db`nomesDePerfisExcluidos
    ensures db.PerfisOk()
    ensures id !in old(db.perfis) ==> r == Err(PerfilNaoEncontrado) && unchanged(db)
    ensures id in old(db.perfis) && UsuariosComPerfil(db, id) > 0 ==> r == Err(PerfilEmUso(UsuariosComPerfil(db, id))) && unchanged(db)
    ensures id in old(db.perfis) && UsuariosComPerfil(db, id) == 0 ==>
      r == Ok(id) && db.perfis == old(db.perfis) - {id}
      && db.nomesDePerfisExcluidos == old(db.nomesDePerfisExcluidos) + {old(db.perfis)[id].nome}
  {
    if id !in db.perfis {
      return Err(PerfilNaoEncontrado);
    }
    var n := UsuariosComPerfil(db, id);
    if n > 0 {
      return Err(PerfilEmUso(n));
    }
    db.nomesDePerfisExcluidos := db.nomesDePerfisExcluidos + {db.perfis[id].nome};
    db.perfis := db.perfis - {id};
    r := Ok(id);
  }

  /** `toggleAtivo`: flips the profile's `ativo` and nothing else. */
  method ToggleAtivo(db: Db, id: nat) returns (r: Result<bool, PerfilErro>)
    requires db.PerfisOk()
    modifies db`perfis
    ensures db.PerfisOk()
    ensures id !in old(db.perfis) ==> r == Err(PerfilNaoEncontrado) && unchanged(db)
    ensures id in old(db.perfis) ==>
      r == Ok(!old(db.perfis)[id].ativo) && db.perfis == old(db.perfis)[id := old(db.perfis)[id].(ativo := !old(db.perfis)[id].ativo)]
  {
    if id !in db.perfis {
      return Err(PerfilNaoEncontrado);
    }
    var p := db.perfis[id];
    db.perfis := db.perfis[id := p.(ativo := !p.ativo)];
    r := Ok(!p.ativo);
  }

  /** Toggling twice puts the profile table back as it was. */
  method ToggleDuasVezes(db: Db, id: nat)
    requires db.PerfisOk() && id in db.perfis
    modifies db`perfis
    ensures db.perfis == old(db.perfis)
  {
    var _ := ToggleAtivo(db, id);
    var _ := ToggleAtivo(db, id);
  }

  /** The bucket a permission goes to: its `modulo`, or `Geral` when that is null or empty. */
  function ModuloDe(p: PermissaoRow): string {
    if p.modulo.Some? && p.modulo.value != "" then p.modulo.value else "Geral"
  }

  /** The permissions of `ps` whose bucket is `m`, in their order in `ps`. */
  function Grupo(ps: seq<PermissaoRow>, m: string): seq<PermissaoRow>
    decreases |ps|
  {
    if |ps| == 0 then []
    else Grupo(ps[..|ps| - 1], m) + (if ModuloDe(ps[|ps| - 1]) == m then [ps[|ps| - 1]] else [])
  }

  lemma {:induction false} GrupoPertence(ps: seq<PermissaoRow>, m: string)
    ensures forall x :: x in Grupo(ps, m) ==> x in ps && ModuloDe(x) == m
    ensures forall i :: 0 <= i < |ps| && ModuloDe(ps[i]) == m ==> ps[i] in Grupo(ps, m)
    decreases |ps|
  {
    if |ps| > 0 {
      var ini := ps[..|ps| - 1];
      GrupoPertence(ini, m);
      forall i | 0 <= i < |ps| - 1 ensures ps[i] == ini[i] { }
    }
  }

  /**
   * The `reduce` of `listarPermissoes`: one bucket per module present, each
   * holding exactly the permissions of that module in input order, so each
   * permission lands in its own module's bucket and in no other.
   */
  method AgruparPorModulo(ps: seq<PermissaoRow>) returns (acc: map<string, seq<PermissaoRow>>)
    ensures acc.Keys == set i | 0 <= i < |ps| :: ModuloDe(ps[i])
    ensures forall m :: m in acc ==> acc[m] == Grupo(ps, m)
    ensures forall i :: 0 <= i < |ps| ==> ps[i] in acc[ModuloDe(ps[i])]
    ensures forall m, x :: m in acc && x in acc[m] ==> ModuloDe(x) == m
  {
    acc := map[];
    var i := 0;
    while i < |ps|
      invariant 0 <= i <= |ps|
      invariant acc.Keys == set j | 0 <= j < i :: ModuloDe(ps[j])
      invariant forall m :: m in acc ==> acc[m] == Grupo(ps[..i], m)
    {
      var m := ModuloDe(ps[i]);
      assert ps[..i + 1][..i] == ps[..i];
      if m !in acc {
        GrupoVazio(ps[..i], m);
        acc := acc[m := []];
      }
      acc := acc[m := acc[m] + [ps[i]]];
      i := i + 1;
    }
    assert ps[..|ps|] == ps;
    GrupoPorModulos(ps, acc);
  }

  lemma {:induction false} GrupoVazio(ps: seq<PermissaoRow>, m: string)
    requires forall j :: 0 <= j < |ps| ==> ModuloDe(ps[j]) != m
    ensures Grupo(ps, m) == []
    decreases |ps|
  {
    if |ps| > 0 {
      GrupoVazio(ps[..|ps| - 1], m);
    }
  }

  lemma GrupoPorModulos(ps: seq<PermissaoRow>, acc: map<string, seq<PermissaoRow>>)
    requires acc.Keys == set i | 0 <= i < |ps| :: ModuloDe(ps[i])
    requires forall m :: m in acc ==> acc[m] == Grupo(ps, m)
    ensures forall i :: 0 <= i < |ps| ==> ps[i] in acc[ModuloDe(ps[i])]
    ensures forall m, x :: m in acc && x in acc[m] ==> ModuloDe(x) == m
  {
    forall m | m in acc {
      GrupoPertence(ps, m);
    }
    forall i | 0 <= i < |ps| ensures ps[i] in acc[ModuloDe(ps[i])] {
      GrupoPertence(ps, ModuloDe(ps[i]));
    }
  }
}
