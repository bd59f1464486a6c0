/**
 * Services (cultos): the stored columns and their validators, the
 * same-place same-day overlap query `verificarConflito`, and the time- and
 * status-based tests `podeSerEditado` and `podeSerExcluido`.
 */
module CultoModel {
  import opened Wrappers
  import opened Js

  const SegundosPorDia: nat := 86400

  /** A `TIME` value as seconds after midnight; text comparison of `HH:MM:SS` agrees with this order. */
  type Horario = t: nat | t < SegundosPorDia

  /** A `DATEONLY` value as a day number. */
  type Dia = nat

  const LocalPadrao := "Templo Principal"
  const StatusPadrao: nat := 1
  const StatusFinalizado: nat := 3
  const StatusCancelado: nat := 4

  datatype CultoRow = CultoRow(
    titulo: string,
    descricao: Option<string>,
    dataCulto: Dia,
    horarioInicio: Horario,
    horarioFim: Option<Horario>,
    local: Option<string>,
    tipoCultoId: nat,
    statusId: nat,
    observacoes: Option<string>,
    criadoPor: Option<nat>)

  /** `titulo` is non-empty and between 3 and 200 characters long. */
  predicate TituloValido(t: string) {
    3 <= |t| <= 200
  }

  /** `isAfterStart`: an end time, when there is one, lies strictly after the start. */
  predicate FimDepoisDoInicio(inicio: Horario, fim: Option<Horario>) {
    fim.None? || inicio < fim.value
  }

  predicate CultoValido(c: CultoRow) {
    TituloValido(c.titulo) && FimDepoisDoInicio(c.horarioInicio, c.horarioFim)
  }

  /** `horario_fim || horario_inicio`: the end of the window a service occupies in the query. */
  function FimOuInicio(c: CultoRow): Horario {
    if c.horarioFim.Some? then c.horarioFim.value else c.horarioInicio
  }

  /**
   * The three time clauses of `verificarConflito`, for the candidate `c` and
   * a stored row `o`. A `NULL` end in `o` makes its clauses false.
   */
  predicate SobreposicaoModelo(c: CultoRow, o: CultoRow) {
    var s := c.horarioInicio;
    var e := FimOuInicio(c);
    (s <= o.horarioInicio <= e)
    || (o.horarioFim.Some? && s <= o.horarioFim.value <= e)
    || (o.horarioInicio <= s && o.horarioFim.Some? && o.horarioFim.value >= e)
  }

  /**
   * `verificarConflito()`: another service (`id <> (this.id || 0)`) at the
   * same place (equal, or both `NULL`) on the same day whose times meet the
   * candidate's.
   */
  predicate VerificarConflito(c: CultoRow, selfId: Option<nat>, cultos: map<nat, CultoRow>) {
    exists id :: id in cultos && id != OrId(selfId, 0)
      && cultos[id].local == c.local && cultos[id].dataCulto == c.dataCulto
      && SobreposicaoModelo(c, cultos[id])
  }

  /**
   * When both services have an end after their start, the three clauses
   * together say exactly that the closed intervals [start, end] meet; in
   * particular a service ending when the other begins is a conflict.
   */
  lemma SobreposicaoFechada(c: CultoRow, o: CultoRow)
    requires c.horarioFim.Some? && c.horarioInicio < c.horarioFim.value
    requires o.horarioFim.Some? && o.horarioInicio < o.horarioFim.value
    ensures SobreposicaoModelo(c, o) <==> c.horarioInicio <= o.horarioFim.value && o.horarioInicio <= c.horarioFim.value
  {
  }

  /** Under the same conditions, the conflict test does not depend on which service is the candidate. */
  lemma SobreposicaoSimetrica(c: CultoRow, o: CultoRow)
    requires c.horarioFim.Some? && c.horarioInicio < c.horarioFim.value
    requires o.horarioFim.Some? && o.horarioInicio < o.horarioFim.value
    ensures SobreposicaoModelo(c, o) == SobreposicaoModelo(o, c)
  {
    SobreposicaoFechada(c, o);
    SobreposicaoFechada(o, c);
  }

  /**
   * A candidate without an end is the instant it starts: it meets a stored
   * row with an end exactly when it falls within that row's closed interval,
   * and a stored row without an end only when both start together.
   */
  lemma CandidatoSemFim(c: CultoRow, o: CultoRow)
    requires c.horarioFim.None?
    requires FimDepoisDoInicio(o.horarioInicio, o.horarioFim)
    ensures o.horarioFim.Some? ==> (SobreposicaoModelo(c, o) <==> o.horarioInicio <= c.horarioInicio <= o.horarioFim.value)
    ensures o.horarioFim.None? ==> (SobreposicaoModelo(c, o) <==> o.horarioInicio == c.horarioInicio)
  {
  }

  /** The instant a service starts, in milliseconds: `new Date(`${data_culto}T${horario_inicio}`)`. */
  function InicioEmMs(c: CultoRow): Instant {
    (c.dataCulto * SegundosPorDia + c.horarioInicio) * 1000
  }

  /** `podeSerEditado()`: the service has not started and is neither finished (3) nor cancelled (4). */
  predicate PodeSerEditado(c: CultoRow, now: Instant) {
    InicioEmMs(c) > now && c.statusId != StatusFinalizado && c.statusId != StatusCancelado
  }

  /** `podeSerExcluido()`: the service has not started. */
  predicate PodeSerExcluido(c: CultoRow, now: Instant) {
    InicioEmMs(c) > now
  }

  /** Whatever may be edited may be deleted, and once a service has started it stays undeletable. */
  lemma EdicaoExclusao(c: CultoRow, now: Instant, later: Instant)
    requires now <= later
    ensures PodeSerEditado(c, now) ==> PodeSerExcluido(c, now)
    ensures !PodeSerExcluido(c, now) ==> !PodeSerExcluido(c, later) && !PodeSerEditado(c, later)
  {
  }
}
