/**
 * Tables keyed by auto-increment ids: the rows a bulk insert adds, one new
 * id per row in input order, and the statement failing as a whole when one
 * item cannot be stored.
 */
module Tabela {
  import opened Wrappers

  /** `t` after inserting `rows` at the ids `proximo`, `proximo + 1`, and so on. */
  function Lote<T>(t: map<nat, T>, proximo: nat, rows: seq<T>): (r: map<nat, T>)
    ensures forall k :: k in r <==> k in t || proximo <= k < proximo + |rows|
    ensures forall i :: 0 <= i < |rows| ==> r[proximo + i] == rows[i]
    ensures forall k :: k in t && !(proximo <= k < proximo + |rows|) ==> r[k] == t[k]
    ensures |rows| == 0 ==> r == t
  {
    map k | k in t.Keys + Ids(proximo, |rows|) :: if proximo <= k < proximo + |rows| then rows[k - proximo] else t[k]
  }

  /** The `n` ids from `proximo` on. */
  function Ids(proximo: nat, n: nat): (r: set<nat>)
    ensures forall k :: k in r <==> proximo <= k < proximo + n
    decreases n
  {
    if n == 0 then {} else Ids(proximo, n - 1) + {proximo + n - 1}
  }

  /**
   * The rows of a bulk insert whose item `x` becomes the row `linha(x)`:
   * all of them when every item can be stored, nothing otherwise.
   */
  function Linhas<A, B>(linha: A -> Option<B>, itens: seq<A>): (r: Option<seq<B>>)
    ensures r.Some? <==> forall i :: 0 <= i < |itens| ==> linha(itens[i]).Some?
    ensures r.Some? ==> |r.value| == |itens| && forall i :: 0 <= i < |itens| ==> Some(r.value[i]) == linha(itens[i])
    decreases |itens|
  {
    if |itens| == 0 then Some([])
    else
      match (linha(itens[0]), Linhas(linha, itens[1..]))
      case (Some(b), Some(resto)) => Some([b] + resto)
      case _ =>
        assert forall i :: 0 <= i < |itens[1..]| ==> itens[1..][i] == itens[i + 1];
        None
  }
}
