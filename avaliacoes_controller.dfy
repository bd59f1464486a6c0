/**
 * The public evaluation submission: the request is checked item by item,
 * then the evaluation and one mark row per item are written in one
 * transaction, which either commits both or leaves nothing behind.
 */
module AvaliacoesController {
  import opened Wrappers
  import opened Js
  import opened PessoaModel
  import opened Db

  /** One entry of `criterios` in the request body. */
  datatype ItemNota = ItemNota(criterioId: Option<nat>, nota: Option<int>)

  datatype AvaliacaoErro =
    | DataObrigatoria
    | SemCriterios
    | CriterioENotaObrigatorios
    | NotaForaDoIntervalo
    | CriterioNaoEncontrado(id: nat)
    | ErroInterno

  /** The checks the loop makes on one item, in order: both fields truthy, the mark within 1..5, the criterion present. */
  function ErroDoItem(item: ItemNota, criterios: set<nat>): (r: Option<AvaliacaoErro>)
    ensures r.None? <==> item.criterioId.Some? && item.criterioId.value in criterios && item.criterioId.value != 0
                         && item.nota.Some? && 1 <= item.nota.value <= 5
  {
    if !IdTruthy(item.criterioId) || !IntTruthy(item.nota) then Some(CriterioENotaObrigatorios)
    else if item.nota.value < 1 || item.nota.value > 5 then Some(NotaForaDoIntervalo)
    else if item.criterioId.value !in criterios then Some(CriterioNaoEncontrado(item.criterioId.value))
    else None
  }

  /** The error of the first item that fails, if any. */
  function PrimeiroErro(itens: seq<ItemNota>, criterios: set<nat>): Option<AvaliacaoErro>
    decreases |itens|
  {
    if itens == [] then None
    else if ErroDoItem(itens[0], criterios).Some? then ErroDoItem(itens[0], criterios)
    else PrimeiroErro(itens[1..], criterios)
  }

  /** No error comes out of the loop exactly when every item passes. */
  lemma {:induction false} PrimeiroErroNoneIff(itens: seq<ItemNota>, criterios: set<nat>)
    ensures PrimeiroErro(itens, criterios).None? <==> forall i :: 0 <= i < |itens| ==> ErroDoItem(itens[i], criterios).None?
    decreases |itens|
  {
    if itens != [] {
      var cauda := itens[1..];
      PrimeiroErroNoneIff(cauda, criterios);
      assert forall i :: 1 <= i < |itens| ==> itens[i] == cauda[i - 1];
    }
  }

  /** An error that comes out of the loop is the error of some item, and every item before it passes. */
  lemma {:induction false} PrimeiroErroPosicao(itens: seq<ItemNota>, criterios: set<nat>)
    requires PrimeiroErro(itens, criterios).Some?
    ensures exists i :: 0 <= i < |itens| && ErroDoItem(itens[i], criterios) == PrimeiroErro(itens, criterios)
                        && forall j :: 0 <= j < i ==> ErroDoItem(itens[j], criterios).None?
    decreases |itens|
  {
    if ErroDoItem(itens[0], criterios).None? {
      var cauda := itens[1..];
      PrimeiroErroPosicao(cauda, criterios);
      var i :| 0 <= i < |cauda| && ErroDoItem(cauda[i], criterios) == PrimeiroErro(cauda, criterios)
               && forall j :: 0 <= j < i ==> ErroDoItem(cauda[j], criterios).None?;
      assert itens[i + 1] == cauda[i];
      assert forall j :: 1 <= j < i + 1 ==> itens[j] == cauda[j - 1];
    } else {
      assert ErroDoItem(itens[0], criterios) == PrimeiroErro(itens, criterios);
    }
  }

  /** The validation loop of `criarPublica`, leaving at the first failing item. */
  method ValidarCriterios(itens: seq<ItemNota>, criterios: set<nat>) returns (r: Option<AvaliacaoErro>)
    ensures r == PrimeiroErro(itens, criterios)
  {
    var i := 0;
    while i < |itens|
      invariant 0 <= i <= |itens|
      invariant PrimeiroErro(itens[i..], criterios) == PrimeiroErro(itens, criterios)
    {
      assert itens[i..][1..] == itens[i + 1..];
      var item := itens[i];
      if !IdTruthy(item.criterioId) || !IntTruthy(item.nota) {
        return Some(CriterioENotaObrigatorios);
      }
      if item.nota.value < 1 || item.nota.value > 5 {
        return Some(NotaForaDoIntervalo);
      }
      if item.criterioId.value !in criterios {
        return Some(CriterioNaoEncontrado(item.criterioId.value));
      }
      i := i + 1;
    }
    r := None;
  }

  /** No criterion appears twice in the request: otherwise the unique index on `(avaliacao_id, criterio_id)` refuses the batch. */
  predicate CriteriosDistintos(itens: seq<ItemNota>) {
    forall i, j :: 0 <= i < j < |itens| ==> itens[i].criterioId != itens[j].criterioId
  }

  /** The mark rows for evaluation `id`, one per item, in input order. */
  function Notas(id: nat, itens: seq<ItemNota>): seq<NotaRow> {
    seq(|itens|, i requires 0 <= i < |itens| => NotaRow(id, OrId(itens[i].criterioId, 0), OrElse(itens[i].nota, 0)))
  }

  /**
   * When every item passed, the rows carry the evaluation's id and each
   * item's own criterion and mark, and when the criteria are distinct no two
   * rows share the pair the unique index covers.
   */
  lemma NotasDosItens(id: nat, itens: seq<ItemNota>, criterios: set<nat>)
    requires PrimeiroErro(itens, criterios).None?
    ensures var rows := Notas(id, itens);
      |rows| == |itens|
      && (forall i :: 0 <= i < |rows| ==>
            rows[i].avaliacaoId == id && Some(rows[i].criterioId) == itens[i].criterioId && Some(rows[i].nota) == itens[i].nota
            && rows[i].criterioId in criterios && 1 <= rows[i].nota <= 5)
      && (CriteriosDistintos(itens) <==> forall i, j :: 0 <= i < j < |rows| ==> rows[i].criterioId != rows[j].criterioId)
  {
    PrimeiroErroNoneIff(itens, criterios);
  }

  /** The first check of `criarPublica` that refuses the submission, if any. */
  function Recusa(dataVisita: Option<Data>, itens: seq<ItemNota>, criterios: set<nat>): (r: Option<AvaliacaoErro>)
    ensures r.None? <==> dataVisita.Some? && |itens| > 0 && forall i :: 0 <= i < |itens| ==> ErroDoItem(itens[i], criterios).None?
  {
    PrimeiroErroNoneIff(itens, criterios);
    if dataVisita.None? then Some(DataObrigatoria)
    else if |itens| == 0 then Some(SemCriterios)
    else PrimeiroErro(itens, criterios)
  }

  /**
   * `criarPublica`: a refused or failed submission rolls back, so neither
   * the evaluation nor any mark persists; otherwise both commit together.
   */
  method CriarPublica(db: Db, nomeAvaliador: Option<string>, emailAvaliador: Option<string>, dataVisita: Option<Data>,
                      comentario: Option<string>, recomendaria: Option<bool>, itens: seq<ItemNota>)
    returns (r: Result<nat, AvaliacaoErro>)
    requires db.AvaliacoesOk()
    modifies db`avaliacoes, db`proximaAvaliacao, db`avaliacaoCriterios
    ensures db.AvaliacoesOk()
    ensures Recusa(dataVisita, itens, db.criterios).Some? ==> r == Err(Recusa(dataVisita, itens, db.criterios).value) && unchanged(db)
    ensures Recusa(dataVisita, itens, db.criterios).None? && !CriteriosDistintos(itens) ==> r == Err(ErroInterno) && unchanged(db)
    ensures Recusa(dataVisita, itens, db.criterios).None? && CriteriosDistintos(itens) ==>
      var id := old(db.proximaAvaliacao);
      r == Ok(id) && id !in old(db.avaliacoes)
      && db.avaliacoes == old(db.avaliacoes)[id := AvaliacaoRow(nomeAvaliador, emailAvaliador, dataVisita.value, comentario, recomendaria)]
      && db.proximaAvaliacao == id + 1
      && db.avaliacaoCriterios == old(db.avaliacaoCriterios) + Notas(id, itens)
  {
    if dataVisita.None? {
      return Err(DataObrigatoria);
    }
    if |itens| == 0 {
      return Err(SemCriterios);
    }
    var erro := ValidarCriterios(itens, db.criterios);
    if erro.Some? {
      return Err(erro.value);
    }
    if !CriteriosDistintos(itens) {
      return Err(ErroInterno);
    }
    var id := db.proximaAvaliacao;
    NotasDosItens(id, itens, db.criterios);
    GravarNotasPreservaIndice(db.avaliacaoCriterios, id, Notas(id, itens));
    db.avaliacoes := db.avaliacoes[id := AvaliacaoRow(nomeAvaliador, emailAvaliador, dataVisita.value, comentario, recomendaria)];
    db.proximaAvaliacao := id + 1;
    db.avaliacaoCriterios := db.avaliacaoCriterios + Notas(id, itens);
    r := Ok(id);
  }

  /** Appending the rows of a fresh evaluation whose criteria are distinct keeps every pair unique. */
  lemma GravarNotasPreservaIndice(antes: seq<NotaRow>, id: nat, novas: seq<NotaRow>)
    requires forall i :: 0 <= i < |antes| ==> antes[i].avaliacaoId < id
    requires forall i, j :: 0 <= i < j < |antes| ==> (antes[i].avaliacaoId, antes[i].criterioId) != (antes[j].avaliacaoId, antes[j].criterioId)
    requires forall i :: 0 <= i < |novas| ==> novas[i].avaliacaoId == id
    requires forall i, j :: 0 <= i < j < |novas| ==> novas[i].criterioId != novas[j].criterioId
    ensures var t := antes + novas;
      forall i, j :: 0 <= i < j < |t| ==> (t[i].avaliacaoId, t[i].criterioId) != (t[j].avaliacaoId, t[j].criterioId)
  {
    var t := antes + novas;
    forall i, j | 0 <= i < j < |t|
      ensures (t[i].avaliacaoId, t[i].criterioId) != (t[j].avaliacaoId, t[j].criterioId)
    {
      if j < |antes| {
        assert t[i] == antes[i] && t[j] == antes[j];
      } else if i < |antes| {
        assert t[i] == antes[i] && t[j] == novas[j - |antes|];
      } else {
        assert t[i] == novas[i - |antes|] && t[j] == novas[j - |antes|];
      }
    }
  }
}
