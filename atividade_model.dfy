/**
 * Activities (atividades): the columns the table has, the values a create
 * or bulk insert hands to it, and which of those the table accepts.
 */
module AtividadeModel {
  import opened Wrappers
  import opened CultoModel

  /** A stored activity: every column, the `NOT NULL` ones without an option. */
  datatype AtividadeRow = AtividadeRow(
    cultoId: nat,
    titulo: string,
    descricao: Option<string>,
    tipoAtividadeId: nat,
    ordemProgramacao: int,
    horarioInicio: Option<Horario>,
    duracaoEstimada: Option<int>,
    observacoes: Option<string>,
    createdBy: nat)

  /**
   * The values an insert receives, restricted to the columns: a key that
   * names no column is dropped, and a column left out is `NULL`.
   */
  datatype ValoresAtividade = ValoresAtividade(
    cultoId: Option<nat>,
    titulo: Option<string>,
    descricao: Option<string>,
    tipoAtividadeId: Option<nat>,
    ordemProgramacao: Option<int>,
    horarioInicio: Option<Horario>,
    duracaoEstimada: Option<int>,
    observacoes: Option<string>,
    createdBy: Option<nat>)

  /** The values that store exactly the row `a`. */
  function Valores(a: AtividadeRow): ValoresAtividade {
    ValoresAtividade(Some(a.cultoId), Some(a.titulo), a.descricao, Some(a.tipoAtividadeId), Some(a.ordemProgramacao),
                     a.horarioInicio, a.duracaoEstimada, a.observacoes, Some(a.createdBy))
  }

  /**
   * The row the table stores for `v`; nothing when one of `culto_id`,
   * `titulo`, `tipo_atividade_id`, `ordem_programacao` or `created_by` is
   * missing, which the `NOT NULL` constraints refuse.
   */
  function LinhaDeAtividade(v: ValoresAtividade): Option<AtividadeRow> {
    if v.cultoId.None? || v.titulo.None? || v.tipoAtividadeId.None? || v.ordemProgramacao.None? || v.createdBy.None? then None
    else Some(AtividadeRow(v.cultoId.value, v.titulo.value, v.descricao, v.tipoAtividadeId.value, v.ordemProgramacao.value,
                           v.horarioInicio, v.duracaoEstimada, v.observacoes, v.createdBy.value))
  }

  /**
   * The table accepts a set of values exactly when they are the full column
   * values of some row, and then it stores that row.
   */
  lemma LinhaDeAtividadeInversa(v: ValoresAtividade, a: AtividadeRow)
    ensures LinhaDeAtividade(Valores(a)) == Some(a)
    ensures LinhaDeAtividade(v) == Some(a) <==> v == Valores(a)
  {
  }

  /**
   * The validators `create` runs: a non-empty title, an order of at least
   * 1 and, when given, a duration of at least 1. A bulk insert skips them.
   */
  predicate AtividadeValida(a: AtividadeRow) {
    a.titulo != "" && a.ordemProgramacao >= 1 && (a.duracaoEstimada.Some? ==> a.duracaoEstimada.value >= 1)
  }
}
