/**
 * The database the controllers work on, as one object holding every table
 * the core touches. Live rows are kept in maps from id to row; a
 * soft-deleted (paranoid) row leaves its map, and for the two columns whose
 * unique constraint also covers soft-deleted rows (profile names, user
 * e-mails) the deleted values are kept. New ids come from one counter per
 * table, as auto-increment keys do, and are never reused.
 */
module Db {
  import opened Wrappers
  import opened Js
  import opened PerfilModel
  import opened UsuarioModel
  import opened PessoaModel
  import opened CultoModel
  import opened EscalaModel
  import opened AtividadeModel

  /** A function (funcao) row. */
  datatype FuncaoRow = FuncaoRow(nome: string, descricao: Option<string>, cor: Option<string>, requerConfirmacao: bool, ativo: bool)

  /** A row of `atividade_pessoas` or `atividade_departamentos`: an activity and the person or department linked to it. */
  datatype Vinculo = Vinculo(atividadeId: nat, alvoId: nat)

  datatype AvaliacaoRow = AvaliacaoRow(
    nomeAvaliador: Option<string>,
    emailAvaliador: Option<string>,
    dataVisita: Data,
    comentarioGeral: Option<string>,
    recomendaria: Option<bool>)

  /** A row of `avaliacao_criterios`: one criterion's mark within one evaluation. */
  datatype NotaRow = NotaRow(avaliacaoId: nat, criterioId: nat, nota: int)

  class Db {
    var perfis: map<nat, PerfilRow>
    var nomesDePerfisExcluidos: set<string>
    var proximoPerfil: nat
    var permissoes: map<nat, PermissaoRow>
    /** `perfil_permissao`: the permission ids associated with each profile. */
    var perfilPermissoes: map<nat, set<nat>>

    var usuarios: map<nat, UsuarioRow>
    var emailsDeUsuariosExcluidos: set<string>
    var proximoUsuario: nat

    var pessoas: map<nat, PessoaRow>
    var proximaPessoa: nat
    /** The day the `Pessoa` model was loaded, the bound of its `isBefore` validator. */
    const cargaDoModeloPessoa: Data

    var tiposCulto: set<nat>
    /** `status_culto` names; the id of a row is its position plus one. */
    var statusCulto: seq<string>
    var cultos: map<nat, CultoRow>
    var proximoCulto: nat

    /** `status_escala` names; the id of a row is its position plus one. */
    var statusEscala: seq<string>
    var escalas: map<nat, EscalaRow>
    var proximaEscala: nat

    var funcoes: map<nat, FuncaoRow>
    var proximaFuncao: nat

    var tiposAtividade: set<nat>
    var atividades: map<nat, AtividadeRow>
    var proximaAtividade: nat
    var atividadePessoas: seq<Vinculo>
    var atividadeDepartamentos: seq<Vinculo>

    /** Ids of the evaluation criteria (criterios_avaliacao). */
    var criterios: set<nat>
    var avaliacoes: map<nat, AvaliacaoRow>
    var proximaAvaliacao: nat
    var avaliacaoCriterios: seq<NotaRow>

    /** A database holding only reference data: permissions, status names, types and criteria. */
    constructor Inicial(permissoes: map<nat, PermissaoRow>, statusCulto: seq<string>, statusEscala: seq<string>,
                        tiposCulto: set<nat>, tiposAtividade: set<nat>, criterios: set<nat>, carga: Data)
      ensures PerfisOk() && UsuariosOk() && PessoasOk() && CultosOk() && EscalasOk() && FuncoesOk()
        && AtividadesOk() && AvaliacoesOk()
      ensures this.permissoes == permissoes && this.statusCulto == statusCulto && this.statusEscala == statusEscala
      ensures this.tiposCulto == tiposCulto && this.tiposAtividade == tiposAtividade && this.criterios == criterios
      ensures cargaDoModeloPessoa == carga
      ensures perfis == map[] && usuarios == map[] && pessoas == map[] && cultos == map[] && escalas == map[]
        && funcoes == map[] && atividades == map[] && avaliacoes == map[]
    {
      perfis := map[];
      nomesDePerfisExcluidos := {};
      proximoPerfil := 1;
      this.permissoes := permissoes;
      perfilPermissoes := map[];
      usuarios := map[];
      emailsDeUsuariosExcluidos := {};
      proximoUsuario := 1;
      pessoas := map[];
      proximaPessoa := 1;
      cargaDoModeloPessoa := carga;
      this.tiposCulto := tiposCulto;
      this.statusCulto := statusCulto;
      cultos := map[];
      proximoCulto := 1;
      this.statusEscala := statusEscala;
      escalas := map[];
      proximaEscala := 1;
      funcoes := map[];
      proximaFuncao := 1;
      this.tiposAtividade := tiposAtividade;
      atividades := map[];
      proximaAtividade := 1;
      atividadePessoas := [];
      atividadeDepartamentos := [];
      this.criterios := criterios;
      avaliacoes := map[];
      proximaAvaliacao := 1;
      avaliacaoCriterios := [];
    }

    /**
     * Profiles: ids below the counter (permission associations included),
     * every row passes its validators, and no name is held twice, by a live
     * row or a soft-deleted one.
     */
    ghost predicate PerfisOk()
      reads this`perfis, this`proximoPerfil, this`nomesDePerfisExcluidos, this`perfilPermissoes
    {
      (forall k :: k in perfis ==> k < proximoPerfil && PerfilValido(perfis[k]) && perfis[k].nome !in nomesDePerfisExcluidos)
      && (forall k :: k in perfilPermissoes ==> k < proximoPerfil)
      && forall a, b :: a in perfis && b in perfis && a != b ==> perfis[a].nome != perfis[b].nome
    }

    /** Users: ids below the counter, no empty e-mail, and no e-mail held twice, by a live row or a soft-deleted one. */
    ghost predicate UsuariosOk()
      reads this`usuarios, this`proximoUsuario, this`emailsDeUsuariosExcluidos
    {
      (forall k :: k in usuarios ==> k < proximoUsuario && usuarios[k].email != "" && usuarios[k].email !in emailsDeUsuariosExcluidos)
      && forall a, b :: a in usuarios && b in usuarios && a != b ==> usuarios[a].email != usuarios[b].email
    }

    /**
     * People: ids below the counter, every row passes its validators, and
     * no phone number is held twice.
     */
    ghost predicate PessoasOk()
      reads this`pessoas, this`proximaPessoa
    {
      (forall k :: k in pessoas ==> k < proximaPessoa && PessoaValida(pessoas[k], cargaDoModeloPessoa))
      && (forall a, b :: a in pessoas && b in pessoas && a != b && pessoas[a].telefone.Some? ==> pessoas[a].telefone != pessoas[b].telefone)
    }

    /**
     * Services: ids below the counter and every title passes its validator.
     * The end-after-start rule is not an invariant: an update validates only
     * the columns it changes.
     */
    ghost predicate CultosOk()
      reads this`cultos, this`proximoCulto
    {
      forall k :: k in cultos ==> k < proximoCulto && TituloValido(cultos[k].titulo)
    }

    /** Assignments: ids below the counter and the unique index on (culto, pessoa, funcao) holds. */
    ghost predicate EscalasOk()
      reads this`escalas, this`proximaEscala
    {
      (forall k :: k in escalas ==> k < proximaEscala) && IndiceUnico(escalas)
    }

    /** Functions: ids below the counter, every row passes its validators, and no name is held twice. */
    ghost predicate FuncoesOk()
      reads this`funcoes, this`proximaFuncao
    {
      (forall k :: k in funcoes ==> k < proximaFuncao && FuncaoValida(funcoes[k]))
      && forall a, b :: a in funcoes && b in funcoes && a != b ==> funcoes[a].nome != funcoes[b].nome
    }

    /** Activities: ids below the counter, and every link names an activity id already handed out. */
    ghost predicate AtividadesOk()
      reads this`atividades, this`proximaAtividade, this`atividadePessoas, this`atividadeDepartamentos
    {
      (forall k :: k in atividades ==> k < proximaAtividade)
      && (forall i :: 0 <= i < |atividadePessoas| ==> atividadePessoas[i].atividadeId < proximaAtividade)
      && forall i :: 0 <= i < |atividadeDepartamentos| ==> atividadeDepartamentos[i].atividadeId < proximaAtividade
    }

    /**
     * Evaluations: ids below the counter, every mark between 1 and 5 and
     * naming an evaluation id already handed out, and no criterion marked
     * twice within one evaluation (the unique index on the pair).
     */
    ghost predicate AvaliacoesOk()
      reads this`avaliacoes, this`proximaAvaliacao, this`avaliacaoCriterios
    {
      (forall k :: k in avaliacoes ==> k < proximaAvaliacao)
      && (forall i :: 0 <= i < |avaliacaoCriterios| ==>
            avaliacaoCriterios[i].avaliacaoId < proximaAvaliacao && 1 <= avaliacaoCriterios[i].nota <= 5)
      && forall i, j :: 0 <= i < j < |avaliacaoCriterios| ==>
        (avaliacaoCriterios[i].avaliacaoId, avaliacaoCriterios[i].criterioId) != (avaliacaoCriterios[j].avaliacaoId, avaliacaoCriterios[j].criterioId)
    }
  }

  /** `nome` between 2 and 100 characters. */
  predicate NomeDeFuncaoValido(nome: string) {
    2 <= |nome| <= 100
  }

  predicate DigitoHex(c: char) {
    ('0' <= c <= '9') || ('a' <= c <= 'f') || ('A' <= c <= 'F')
  }

  /** `/^#[0-9A-Fa-f]{6}$/.test(cor)`. */
  predicate CorValida(cor: string) {
    |cor| == 7 && cor[0] == '#' && forall i :: 1 <= i < 7 ==> DigitoHex(cor[i])
  }

  predicate FuncaoValida(f: FuncaoRow) {
    NomeDeFuncaoValido(f.nome) && (f.cor.None? || CorValida(f.cor.value))
  }
}
