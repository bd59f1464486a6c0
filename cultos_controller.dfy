/**
 * The service controller: the time-conflict query `verificarConflitoHorario`,
 * creation with its programme and assignments, update, deletion and the
 * status change.
 */
module CultosController {
  import opened Wrappers
  import opened Js
  import opened Seed
  import opened CultoModel
  import opened EscalaModel
  import opened Tabela
  import opened AtividadeModel
  import opened Db

  /** `'23:59:59'`, the upper bound of the window when no end time is given. */
  const UltimoSegundo: Horario := 86399

  datatype CultoErro =
    | CamposObrigatorios
    | TipoNaoEncontrado
    | ConflitoDeHorario
    | CultoNaoEncontrado
    | CultoFinalizado
    | CultoJaAconteceu
    | StatusNaoEncontrado
    | ErroInterno

  /**
   * The three time clauses of `verificarConflitoHorario` against a stored
   * row: the window reaches `fim`, or the end of the day when there is none,
   * while the containment clause compares against `fim || inicio`.
   */
  predicate ClausulasDeHorario(inicio: Horario, fim: Option<Horario>, o: CultoRow) {
    var teto := if fim.Some? then fim.value else UltimoSegundo;
    var alvo := if fim.Some? then fim.value else inicio;
    (inicio <= o.horarioInicio <= teto)
    || (o.horarioFim.Some? && inicio <= o.horarioFim.value <= teto)
    || (o.horarioInicio <= inicio && o.horarioFim.Some? && o.horarioFim.value >= alvo)
  }

  /** The stored row `o`, of id `id`, meets the query: same day, the time clauses, the place when one is given, and not the excluded id. */
  predicate Conflita(id: nat, o: CultoRow, data: Dia, inicio: Horario, fim: Option<Horario>, local: Option<string>, excluirId: Option<nat>) {
    o.dataCulto == data && ClausulasDeHorario(inicio, fim, o)
    && (StrTruthy(local) ==> o.local == local)
    && (excluirId.Some? ==> id != excluirId.value)
  }

  /** `verificarConflitoHorario(...)` finds a row. */
  predicate HaConflito(cultos: map<nat, CultoRow>, data: Dia, inicio: Horario, fim: Option<Horario>, local: Option<string>, excluirId: Option<nat>) {
    exists id :: id in cultos && Conflita(id, cultos[id], data, inicio, fim, local, excluirId)
  }

  /**
   * For a candidate with an end and a place, the controller's query and the
   * model's `verificarConflito` agree (ids start at 1, so excluding id 0
   * excludes nothing).
   */
  lemma ConflitoConcordaComModelo(c: CultoRow, selfId: Option<nat>, cultos: map<nat, CultoRow>)
    requires c.horarioFim.Some? && StrTruthy(c.local) && 0 !in cultos
    ensures HaConflito(cultos, c.dataCulto, c.horarioInicio, c.horarioFim, c.local, selfId) <==> VerificarConflito(c, selfId, cultos)
  {
    if HaConflito(cultos, c.dataCulto, c.horarioInicio, c.horarioFim, c.local, selfId) {
      var id :| id in cultos && Conflita(id, cultos[id], c.dataCulto, c.horarioInicio, c.horarioFim, c.local, selfId);
      assert SobreposicaoModelo(c, cultos[id]);
    }
    if VerificarConflito(c, selfId, cultos) {
      var id :| id in cultos && id != OrId(selfId, 0) && cultos[id].local == c.local && cultos[id].dataCulto == c.dataCulto
        && SobreposicaoModelo(c, cultos[id]);
      assert Conflita(id, cultos[id], c.dataCulto, c.horarioInicio, c.horarioFim, c.local, selfId);
    }
  }

  /**
   * Without an end time the two disagree: the controller's window runs to
   * the end of the day, so any later service that day conflicts, while the
   * model treats the candidate as the single instant it starts.
   */
  lemma SemFimAteOFimDoDia(c: CultoRow, o: CultoRow)
    requires c.horarioFim.None? && c.horarioInicio < o.horarioInicio && FimDepoisDoInicio(o.horarioInicio, o.horarioFim)
    ensures ClausulasDeHorario(c.horarioInicio, c.horarioFim, o)
    ensures !SobreposicaoModelo(c, o)
  {
  }

  /** Without a place the query spans every place, so dropping the place only adds conflicts. */
  lemma SemLocalAlcancaTodos(cultos: map<nat, CultoRow>, data: Dia, inicio: Horario, fim: Option<Horario>, local: Option<string>, excluirId: Option<nat>)
    ensures HaConflito(cultos, data, inicio, fim, local, excluirId) ==> HaConflito(cultos, data, inicio, fim, None, excluirId)
    ensures !StrTruthy(local) ==> (HaConflito(cultos, data, inicio, fim, local, excluirId) <==> HaConflito(cultos, data, inicio, fim, None, excluirId))
  {
    if HaConflito(cultos, data, inicio, fim, local, excluirId) {
      var id :| id in cultos && Conflita(id, cultos[id], data, inicio, fim, local, excluirId);
      assert Conflita(id, cultos[id], data, inicio, fim, None, excluirId);
    }
    if !StrTruthy(local) && HaConflito(cultos, data, inicio, fim, None, excluirId) {
      var id :| id in cultos && Conflita(id, cultos[id], data, inicio, fim, None, excluirId);
      assert Conflita(id, cultos[id], data, inicio, fim, local, excluirId);
    }
  }

  /**
   * The rows `criarAtividades` inserts: each item's column values with the
   * service's id as `culto_id`; nothing when an item lacks a `NOT NULL`
   * column. The `ordem` key the code computes names no column and is
   * dropped, so the order stored is the item's own `ordem_programacao`.
   */
  function ProgramacaoDoLote(cultoId: nat, itens: seq<ValoresAtividade>): Option<seq<AtividadeRow>> {
    Linhas((v: ValoresAtividade) => LinhaDeAtividade(v.(cultoId := Some(cultoId))), itens)
  }

  /**
   * The programme is stored exactly when every item has a title, a type, an
   * order and a creator; row i then belongs to the service and holds item
   * i's values, its order included. A bulk insert runs no validator, so an
   * empty title or an order below 1 is stored as given.
   */
  lemma ProgramacaoColunas(cultoId: nat, itens: seq<ValoresAtividade>)
    ensures ProgramacaoDoLote(cultoId, itens).Some? <==>
      forall i :: 0 <= i < |itens| ==> itens[i].titulo.Some? && itens[i].tipoAtividadeId.Some? && itens[i].ordemProgramacao.Some? && itens[i].createdBy.Some?
    ensures ProgramacaoDoLote(cultoId, itens).Some? ==>
      var rows := ProgramacaoDoLote(cultoId, itens).value;
      |rows| == |itens|
      && forall i :: 0 <= i < |itens| ==>
           rows[i].cultoId == cultoId && Some(rows[i].titulo) == itens[i].titulo && Some(rows[i].ordemProgramacao) == itens[i].ordemProgramacao
           && Some(rows[i].tipoAtividadeId) == itens[i].tipoAtividadeId && Some(rows[i].createdBy) == itens[i].createdBy
           && rows[i].descricao == itens[i].descricao && rows[i].horarioInicio == itens[i].horarioInicio
           && rows[i].duracaoEstimada == itens[i].duracaoEstimada && rows[i].observacoes == itens[i].observacoes
  {
  }

  /** An item of the `escalas` list of `criarCulto`; the columns it leaves out are `NULL`. */
  datatype ItemEscala = ItemEscala(
    pessoaId: Option<nat>,
    funcaoId: Option<nat>,
    statusId: Option<nat>,
    observacoes: Option<string>,
    createdBy: Option<nat>)

  /**
   * The row `criarEscalas` builds from an item, with status `status_id ||
   * pendente`; nothing when a `NOT NULL` column (pessoa, funcao, created_by)
   * is missing, which makes the bulk insert fail.
   */
  function EscalaDoItem(cultoId: nat, item: ItemEscala, pendente: nat): Option<EscalaRow> {
    if item.pessoaId.None? || item.funcaoId.None? || item.createdBy.None? then None
    else Some(EscalaRow(cultoId, item.pessoaId.value, item.funcaoId.value, OrId(item.statusId, pendente), None, None,
                        item.observacoes, item.createdBy.value))
  }

  /** The rows of a bulk insert of assignments, when every item has its required columns. */
  function EscalasDoLote(cultoId: nat, itens: seq<ItemEscala>, pendente: nat): (r: Option<seq<EscalaRow>>)
    ensures r.Some? <==> forall i :: 0 <= i < |itens| ==> EscalaDoItem(cultoId, itens[i], pendente).Some?
    ensures r.Some? ==> |r.value| == |itens| && forall i :: 0 <= i < |itens| ==> Some(r.value[i]) == EscalaDoItem(cultoId, itens[i], pendente)
  {
    Linhas((item: ItemEscala) => EscalaDoItem(cultoId, item, pendente), itens)
  }

  /**
   * `criarAtividades`: one bulk insert of the programme at fresh ids, which
   * fails as a whole when an item lacks a required column.
   */
  method CriarAtividades(db: Db, cultoId: nat, itens: seq<ValoresAtividade>) returns (ok: bool)
    requires db.AtividadesOk()
    modifies db`atividades, db`proximaAtividade
    ensures db.AtividadesOk()
    ensures ok <==> ProgramacaoDoLote(cultoId, itens).Some?
    ensures ok ==> db.atividades == Lote(old(db.atividades), old(db.proximaAtividade), ProgramacaoDoLote(cultoId, itens).value)
                   && db.proximaAtividade == old(db.proximaAtividade) + |itens|
    ensures !ok ==> unchanged(db)
  {
    var lote := ProgramacaoDoLote(cultoId, itens);
    if lote.None? {
      return false;
    }
    db.atividades := Lote(db.atividades, db.proximaAtividade, lote.value);
    db.proximaAtividade := db.proximaAtividade + |itens|;
    ok := true;
  }

  /**
   * `criarEscalas`: one bulk insert of the assignments with the pending
   * status by default. The statement fails as a whole when an item lacks a
   * required column or the batch breaks the unique index.
   */
  method CriarEscalas(db: Db, cultoId: nat, itens: seq<ItemEscala>) returns (ok: bool)
    requires db.EscalasOk()
    modifies db`escalas, db`proximaEscala
    ensures db.EscalasOk()
    ensures var lote := EscalasDoLote(cultoId, itens, StatusOu(db.statusEscala, "Pendente", StatusPendente));
      (ok <==> lote.Some? && LoteSemColisao(old(db.escalas), lote.value))
      && (ok ==> db.escalas == Lote(old(db.escalas), old(db.proximaEscala), lote.value)
                 && db.proximaEscala == old(db.proximaEscala) + |itens|)
      && (!ok ==> unchanged(db))
  {
    var lote := EscalasDoLote(cultoId, itens, StatusOu(db.statusEscala, "Pendente", StatusPendente));
    if lote.None? || !LoteSemColisao(db.escalas, lote.value) {
      return false;
    }
    LoteIndiceIff(db.escalas, db.proximaEscala, lote.value);
    db.escalas := Lote(db.escalas, db.proximaEscala, lote.value);
    db.proximaEscala := db.proximaEscala + |itens|;
    ok := true;
  }

  /** The local the request sends to the query: absent and `null` both leave the place out. */
  function LocalPedido(local: Given<Option<string>>): Option<string> {
    if local.Sent? then local.value else None
  }

  /** The first guard of `criarCulto` that refuses the request, if any. */
  function RecusaCriar(cultos: map<nat, CultoRow>, tipos: set<nat>, titulo: Option<string>, data: Option<Dia>, inicio: Option<Horario>,
                       fim: Option<Horario>, local: Given<Option<string>>, tipoCultoId: Option<nat>): Option<CultoErro>
  {
    if !StrTruthy(titulo) || data.None? || inicio.None? || !IdTruthy(tipoCultoId) then Some(CamposObrigatorios)
    else if tipoCultoId.value !in tipos then Some(TipoNaoEncontrado)
    else if HaConflito(cultos, data.value, inicio.value, fim, LocalPedido(local), None) then Some(ConflitoDeHorario)
    else None
  }

  /**
   * The row `criarCulto` inserts: the given columns, the default place when
   * `local` is absent (an explicit `null` stays `NULL`), the 'Planejado'
   * status (or 1) and the acting user as creator.
   */
  function NovoCulto(statusCulto: seq<string>, titulo: string, descricao: Option<string>, data: Dia, inicio: Horario, fim: Option<Horario>,
                     local: Given<Option<string>>, observacoes: Option<string>, tipoCultoId: nat, ator: nat): (c: CultoRow)
  {
    CultoRow(titulo, descricao, data, inicio, fim, IfSent(local, Some(LocalPadrao)), tipoCultoId,
             StatusOu(statusCulto, "Planejado", StatusPadrao), observacoes, Some(ator))
  }

  /** With the seeded status table, a new service is 'Planejado', status 1, and an absent place is the main temple. */
  lemma NovoCultoComSeed(titulo: string, descricao: Option<string>, data: Dia, inicio: Horario, fim: Option<Horario>,
                         observacoes: Option<string>, tipoCultoId: nat, ator: nat)
    ensures var c := NovoCulto(Seed.StatusCulto, titulo, descricao, data, inicio, fim, Omitted, observacoes, tipoCultoId, ator);
      c.statusId == 1 && Seed.StatusCulto[c.statusId - 1] == "Planejado" && c.local == Some("Templo Principal")
  {
    assert Seed.StatusCulto[0] == "Planejado";
  }

  /**
   * `criarCulto`: the guards, the insert (which runs every validator), then
   * the programme and the assignments. There is no transaction: when the
   * programme fails the service stays and no assignment is tried; when the
   * assignments fail the service and its programme stay. Either way the
   * answer is an internal error.
   */
  method CriarCulto(db: Db, titulo: Option<string>, descricao: Option<string>, data: Option<Dia>, inicio: Option<Horario>,
                    fim: Option<Horario>, local: Given<Option<string>>, observacoes: Option<string>, tipoCultoId: Option<nat>,
                    atividades: seq<ValoresAtividade>, escalas: seq<ItemEscala>, ator: nat)
    returns (r: Result<nat, CultoErro>)
    requires db.CultosOk() && db.AtividadesOk() && db.EscalasOk()
    modifies db`cultos, db`proximoCulto, db`atividades, db`proximaAtividade, db`escalas, db`proximaEscala
    ensures db.CultosOk() && db.AtividadesOk() && db.EscalasOk()
    ensures RecusaCriar(old(db.cultos), db.tiposCulto, titulo, data, inicio, fim, local, tipoCultoId).Some? ==>
      r == Err(RecusaCriar(old(db.cultos), db.tiposCulto, titulo, data, inicio, fim, local, tipoCultoId).value) && unchanged(db)
    ensures RecusaCriar(old(db.cultos), db.tiposCulto, titulo, data, inicio, fim, local, tipoCultoId).None? ==>
      var c := NovoCulto(db.statusCulto, titulo.value, descricao, data.value, inicio.value, fim, local, observacoes, tipoCultoId.value, ator);
      var id := old(db.proximoCulto);
      var programa := ProgramacaoDoLote(id, atividades);
      var lote := EscalasDoLote(id, escalas, StatusOu(db.statusEscala, "Pendente", StatusPendente));
      (!CultoValido(c) ==> r == Err(ErroInterno) && unchanged(db))
      && (CultoValido(c) ==>
            db.cultos == old(db.cultos)[id := c] && id !in old(db.cultos) && db.proximoCulto == id + 1
            && (programa.None? ==> r == Err(ErroInterno) && db.atividades == old(db.atividades) && db.escalas == old(db.escalas))
            && (programa.Some? ==>
                  db.atividades == Lote(old(db.atividades), old(db.proximaAtividade), programa.value)
                  && (lote.Some? && LoteSemColisao(old(db.escalas), lote.value) ==>
                        r == Ok(id) && db.escalas == Lote(old(db.escalas), old(db.proximaEscala), lote.value))
                  && (!(lote.Some? && LoteSemColisao(old(db.escalas), lote.value)) ==>
                        r == Err(ErroInterno) && db.escalas == old(db.escalas))))
  {
    if !StrTruthy(titulo) || data.None? || inicio.None? || !IdTruthy(tipoCultoId) {
      return Err(CamposObrigatorios);
    }
    if tipoCultoId.value !in db.tiposCulto {
      return Err(TipoNaoEncontrado);
    }
    if HaConflito(db.cultos, data.value, inicio.value, fim, LocalPedido(local), None) {
      return Err(ConflitoDeHorario);
    }
    var c := NovoCulto(db.statusCulto, titulo.value, descricao, data.value, inicio.value, fim, local, observacoes, tipoCultoId.value, ator);
    if !CultoValido(c) {
      return Err(ErroInterno);
    }
    r := GravarCulto(db, c, atividades, escalas);
  }

  /** The insert of a valid service row at a fresh id. */
  method InserirCulto(db: Db, c: CultoRow) returns (id: nat)
    requires db.CultosOk() && CultoValido(c)
    modifies db`cultos, db`proximoCulto
    ensures db.CultosOk()
    ensures id == old(db.proximoCulto) && id !in old(db.cultos) && db.cultos == old(db.cultos)[id := c] && db.proximoCulto == id + 1
  {
    id := db.proximoCulto;
    db.cultos := db.cultos[id := c];
    db.proximoCulto := id + 1;
  }

  /** The writes of `criarCulto` once the row is valid: the service, its programme, then its assignments. */
  method GravarCulto(db: Db, c: CultoRow, atividades: seq<ValoresAtividade>, escalas: seq<ItemEscala>)
    returns (r: Result<nat, CultoErro>)
    requires db.CultosOk() && db.AtividadesOk() && db.EscalasOk() && CultoValido(c)
    modifies db`cultos, db`proximoCulto, db`atividades, db`proximaAtividade, db`escalas, db`proximaEscala
    ensures db.CultosOk() && db.AtividadesOk() && db.EscalasOk()
    ensures var id := old(db.proximoCulto);
      var programa := ProgramacaoDoLote(id, atividades);
      var lote := EscalasDoLote(id, escalas, StatusOu(db.statusEscala, "Pendente", StatusPendente));
      db.cultos == old(db.cultos)[id := c] && id !in old(db.cultos) && db.proximoCulto == id + 1
      && (programa.None? ==> r == Err(ErroInterno) && db.atividades == old(db.atividades) && db.escalas == old(db.escalas))
      && (programa.Some? ==>
            db.atividades == Lote(old(db.atividades), old(db.proximaAtividade), programa.value)
            && (lote.Some? && LoteSemColisao(old(db.escalas), lote.value) ==>
                  r == Ok(id) && db.escalas == Lote(old(db.escalas), old(db.proximaEscala), lote.value))
            && (!(lote.Some? && LoteSemColisao(old(db.escalas), lote.value)) ==>
                  r == Err(ErroInterno) && db.escalas == old(db.escalas)))
  {
    var id := InserirCulto(db, c);
    var programado := GravarProgramacao(db, id, atividades);
    if !programado {
      return Err(ErroInterno);
    }
    var ok := GravarEscalas(db, id, escalas);
    r := if ok then Ok(id) else Err(ErroInterno);
  }

  /** `if (atividades.length > 0) criarAtividades(...)`: an empty list writes nothing and cannot fail. */
  method GravarProgramacao(db: Db, id: nat, atividades: seq<ValoresAtividade>) returns (ok: bool)
    requires db.AtividadesOk()
    modifies db`atividades, db`proximaAtividade
    ensures db.AtividadesOk()
    ensures ok <==> ProgramacaoDoLote(id, atividades).Some?
    ensures ok ==> db.atividades == Lote(old(db.atividades), old(db.proximaAtividade), ProgramacaoDoLote(id, atividades).value)
    ensures !ok ==> db.atividades == old(db.atividades)
  {
    if |atividades| > 0 {
      ok := CriarAtividades(db, id, atividades);
    } else {
      ok := true;
    }
  }

  /** `if (escalas.length > 0) criarEscalas(...)`: an empty list writes nothing and cannot fail. */
  method GravarEscalas(db: Db, id: nat, escalas: seq<ItemEscala>) returns (ok: bool)
    requires db.EscalasOk()
    modifies db`escalas, db`proximaEscala
    ensures db.EscalasOk()
    ensures var lote := EscalasDoLote(id, escalas, StatusOu(db.statusEscala, "Pendente", StatusPendente));
      (ok <==> lote.Some? && LoteSemColisao(old(db.escalas), lote.value))
      && (ok ==> db.escalas == Lote(old(db.escalas), old(db.proximaEscala), lote.value))
      && (!ok ==> db.escalas == old(db.escalas))
  {
    if |escalas| > 0 {
      ok := CriarEscalas(db, id, escalas);
    } else {
      ok := true;
    }
  }

  /** The status `atualizarCulto` treats as finished; in the seeded table it is 'Em Andamento'. */
  const StatusBloqueiaEdicao: nat := 2

  /** A sent value that is truthy: a time, or a non-empty place. */
  predicate FimEnviado(fim: Given<Option<Horario>>) {
    fim.Sent? && fim.value.Some?
  }

  predicate LocalEnviado(local: Given<Option<string>>) {
    local.Sent? && StrTruthy(local.value)
  }

  /**
   * The first guard of `atualizarCulto` that refuses the request, if any.
   * The conflict query runs only when a date, time or place is sent, on the
   * values merged with `||`, excluding the service itself.
   */
  function RecusaAtualizar(cultos: map<nat, CultoRow>, id: nat, data: Option<Dia>, inicio: Option<Horario>,
                           fim: Given<Option<Horario>>, local: Given<Option<string>>): (r: Option<CultoErro>)
    ensures r.None? ==> id in cultos
  {
    if id !in cultos then Some(CultoNaoEncontrado)
    else
      var c := cultos[id];
      if c.statusId == StatusBloqueiaEdicao then Some(CultoFinalizado)
      else if (data.Some? || inicio.Some? || FimEnviado(fim) || LocalEnviado(local))
        && HaConflito(cultos, OrElse(data, c.dataCulto), OrElse(inicio, c.horarioInicio),
                      if FimEnviado(fim) then fim.value else c.horarioFim,
                      if LocalEnviado(local) then local.value else c.local, Some(id))
      then Some(ConflitoDeHorario)
      else None
  }

  /**
   * The merged row `atualizarCulto` writes: title, date, start, type and
   * status fall back on a falsy value; description, end, place and notes on
   * an absent one.
   */
  function CultoAtualizado(c: CultoRow, titulo: Option<string>, descricao: Given<Option<string>>, data: Option<Dia>, inicio: Option<Horario>,
                           fim: Given<Option<Horario>>, local: Given<Option<string>>, observacoes: Given<Option<string>>,
                           tipoCultoId: Option<nat>, statusId: Option<nat>): CultoRow
  {
    c.(titulo := OrStr(titulo, c.titulo), descricao := IfSent(descricao, c.descricao), dataCulto := OrElse(data, c.dataCulto),
       horarioInicio := OrElse(inicio, c.horarioInicio), horarioFim := IfSent(fim, c.horarioFim), local := IfSent(local, c.local),
       observacoes := IfSent(observacoes, c.observacoes), tipoCultoId := OrId(tipoCultoId, c.tipoCultoId),
       statusId := OrId(statusId, c.statusId))
  }

  /** `instance.update` validates only the columns whose value changes. */
  predicate AtualizacaoValida(antes: CultoRow, depois: CultoRow) {
    (depois.titulo != antes.titulo ==> TituloValido(depois.titulo))
    && (depois.horarioFim != antes.horarioFim ==> FimDepoisDoInicio(depois.horarioInicio, depois.horarioFim))
  }

  /** An accepted update keeps a valid title, and an end it writes lies after the start. */
  lemma AtualizacaoPreservaTitulo(antes: CultoRow, depois: CultoRow)
    requires TituloValido(antes.titulo) && AtualizacaoValida(antes, depois)
    ensures TituloValido(depois.titulo)
    ensures depois.horarioFim != antes.horarioFim ==> FimDepoisDoInicio(depois.horarioInicio, depois.horarioFim)
  {
  }

  /**
   * Moving only the start of a service past its stored end is accepted,
   * because the end's validator does not run, and the stored row then ends
   * before it starts.
   */
  lemma InicioDepoisDoFimAceito()
    ensures var antes := CultoRow("Culto de domingo", None, 100, 36000, Some(39600), Some(LocalPadrao), 1, 1, None, None);
      var depois := CultoAtualizado(antes, None, Omitted, None, Some(43200), Omitted, Omitted, Omitted, None, None);
      CultoValido(antes) && AtualizacaoValida(antes, depois) && !FimDepoisDoInicio(depois.horarioInicio, depois.horarioFim)
  {
  }

  /** `atualizarCulto`: the guards in order, then the merged update, which fails when a changed column is invalid. */
  method AtualizarCulto(db: Db, id: nat, titulo: Option<string>, descricao: Given<Option<string>>, data: Option<Dia>, inicio: Option<Horario>,
                        fim: Given<Option<Horario>>, local: Given<Option<string>>, observacoes: Given<Option<string>>,
                        tipoCultoId: Option<nat>, statusId: Option<nat>)
    returns (r: Result<nat, CultoErro>)
    requires db.CultosOk()
    modifies db`cultos
    ensures db.CultosOk()
    ensures RecusaAtualizar(old(db.cultos), id, data, inicio, fim, local).Some? ==>
      r == Err(RecusaAtualizar(old(db.cultos), id, data, inicio, fim, local).value) && unchanged(db)
    ensures RecusaAtualizar(old(db.cultos), id, data, inicio, fim, local).None? ==>
      var antes := old(db.cultos)[id];
      var depois := CultoAtualizado(antes, titulo, descricao, data, inicio, fim, local, observacoes, tipoCultoId, statusId);
      (!AtualizacaoValida(antes, depois) ==> r == Err(ErroInterno) && unchanged(db))
      && (AtualizacaoValida(antes, depois) ==> r == Ok(id) && db.cultos == old(db.cultos)[id := depois])
  {
    if id !in db.cultos {
      return Err(CultoNaoEncontrado);
    }
    var c := db.cultos[id];
    if c.statusId == StatusBloqueiaEdicao {
      return Err(CultoFinalizado);
    }
    if data.Some? || inicio.Some? || FimEnviado(fim) || LocalEnviado(local) {
      if HaConflito(db.cultos, OrElse(data, c.dataCulto), OrElse(inicio, c.horarioInicio),
                    if FimEnviado(fim) then fim.value else c.horarioFim,
                    if LocalEnviado(local) then local.value else c.local, Some(id)) {
        return Err(ConflitoDeHorario);
      }
    }
    var depois := CultoAtualizado(c, titulo, descricao, data, inicio, fim, local, observacoes, tipoCultoId, statusId);
    if !AtualizacaoValida(c, depois) {
      return Err(ErroInterno);
    }
    AtualizacaoPreservaTitulo(c, depois);
    GravarAtualizacao(db, id, depois);
    r := Ok(id);
  }

  /** The write of `atualizarCulto` once the changed columns passed their validators. */
  method GravarAtualizacao(db: Db, id: nat, depois: CultoRow)
    requires db.CultosOk() && id in db.cultos && TituloValido(depois.titulo)
    modifies db`cultos
    ensures db.CultosOk()
    ensures db.cultos == old(db.cultos)[id := depois]
  {
    db.cultos := db.cultos[id := depois];
  }

  /** `new Date(data_culto)`: midnight at the start of the service's day, in milliseconds. */
  function DiaEmMs(c: CultoRow): Instant {
    c.dataCulto * SegundosPorDia * 1000
  }

  /** The first guard of `excluirCulto` that refuses, if any: the day has begun, or the status is 3. */
  function RecusaExcluir(cultos: map<nat, CultoRow>, id: nat, now: Instant): (r: Option<CultoErro>)
    ensures r.None? ==> id in cultos
  {
    if id !in cultos then Some(CultoNaoEncontrado)
    else if DiaEmMs(cultos[id]) <= now then Some(CultoJaAconteceu)
    else if cultos[id].statusId == StatusFinalizado then Some(CultoFinalizado)
    else None
  }

  /** `excluirCulto`: the guards, then the soft delete. */
  method ExcluirCulto(db: Db, id: nat, now: Instant) returns (r: Result<nat, CultoErro>)
    requires db.CultosOk()
    modifies db`cultos
    ensures db.CultosOk()
    ensures RecusaExcluir(old(db.cultos), id, now).Some? ==> r == Err(RecusaExcluir(old(db.cultos), id, now).value) && unchanged(db)
    ensures RecusaExcluir(old(db.cultos), id, now).None? ==> r == Ok(id) && db.cultos == old(db.cultos) - {id}
  {
    if id !in db.cultos {
      return Err(CultoNaoEncontrado);
    }
    if DiaEmMs(db.cultos[id]) <= now {
      return Err(CultoJaAconteceu);
    }
    if db.cultos[id].statusId == StatusFinalizado {
      return Err(CultoFinalizado);
    }
    db.cultos := db.cultos - {id};
    r := Ok(id);
  }

  /**
   * The controller's guards and the model's tests disagree on status codes:
   * a service in status 3 ('Finalizado' in the seeded table) passes the edit
   * guard though `podeSerEditado` refuses it, one in status 2 ('Em
   * Andamento') is refused edit, and a cancelled one (4) may still be deleted.
   */
  lemma StatusDivergentes(cultos: map<nat, CultoRow>, id: nat, now: Instant)
    requires id in cultos && DiaEmMs(cultos[id]) > now
    ensures Seed.StatusCulto[StatusFinalizado - 1] == "Finalizado" && Seed.StatusCulto[StatusBloqueiaEdicao - 1] == "Em Andamento"
    ensures cultos[id].statusId == StatusFinalizado ==>
      RecusaAtualizar(cultos, id, None, None, Omitted, Omitted) == None && !PodeSerEditado(cultos[id], now)
    ensures cultos[id].statusId == StatusBloqueiaEdicao ==>
      RecusaAtualizar(cultos, id, None, None, Omitted, Omitted) == Some(CultoFinalizado)
    ensures cultos[id].statusId == StatusCancelado ==> RecusaExcluir(cultos, id, now) == None && !PodeSerEditado(cultos[id], now)
  {
  }

  /**
   * `excluirCulto` compares the start of the day, `podeSerExcluido` the start
   * of the service: later on the day of a service, before it starts, the
   * model allows deleting it and the controller refuses.
   */
  lemma ExclusaoNoDiaDoCulto(c: CultoRow, now: Instant)
    requires DiaEmMs(c) <= now < InicioEmMs(c)
    ensures PodeSerExcluido(c, now)
    ensures RecusaExcluir(map[1 := c], 1, now) == Some(CultoJaAconteceu)
  {
  }

  /** `atualizarStatusCulto`: the status must name a row of the status table; nothing else changes. */
  method AtualizarStatus(db: Db, id: nat, statusId: Option<nat>) returns (r: Result<nat, CultoErro>)
    requires db.CultosOk()
    modifies db`cultos
    ensures db.CultosOk()
    ensures id !in old(db.cultos) ==> r == Err(CultoNaoEncontrado) && unchanged(db)
    ensures id in old(db.cultos) && !(statusId.Some? && 1 <= statusId.value <= |db.statusCulto|) ==>
      r == Err(StatusNaoEncontrado) && unchanged(db)
    ensures id in old(db.cultos) && statusId.Some? && 1 <= statusId.value <= |db.statusCulto| ==>
      r == Ok(id) && db.cultos == old(db.cultos)[id := old(db.cultos)[id].(statusId := statusId.value)]
  {
    if id !in db.cultos {
      return Err(CultoNaoEncontrado);
    }
    if !(statusId.Some? && 1 <= statusId.value <= |db.statusCulto|) {
      return Err(StatusNaoEncontrado);
    }
    db.cultos := db.cultos[id := db.cultos[id].(statusId := statusId.value)];
    r := Ok(id);
  }
}
