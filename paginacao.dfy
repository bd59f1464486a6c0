/**
 * The page arithmetic of the listing endpoints: the offset of a page, the
 * number of pages, and the next/previous flags.
 */
module Paginacao {

  /** `(page - 1) * limit`: how many rows come before page `page`. */
  function Offset(page: int, limit: int): int {
    (page - 1) * limit
  }

  /** `Math.ceil(count / limit)`: the least number of pages of `limit` rows that holds `count` rows. */
  function TotalPaginas(count: nat, limit: nat): (r: nat)
    requires limit > 0
    ensures r * limit >= count
    ensures r == 0 || (r - 1) * limit < count
    ensures r == 0 <==> count == 0
  {
    var q := (count + limit - 1) / limit;
    assert q * limit + (count + limit - 1) % limit == count + limit - 1;
    q
  }

  /** `hasNext`: `page < totalPages`. */
  predicate TemProxima(page: int, count: nat, limit: nat)
    requires limit > 0
  {
    page < TotalPaginas(count, limit)
  }

  /** `hasPrev`: `page > 1`. */
  predicate TemAnterior(page: int) {
    page > 1
  }

  lemma MultiplicacaoMonotona(a: int, b: int, limit: nat)
    requires a <= b
    ensures a * limit <= b * limit
  {
  }

  /** A next page is announced exactly when some row lies after the current page. */
  lemma TemProximaIff(page: int, count: nat, limit: nat)
    requires limit > 0
    ensures TemProxima(page, count, limit) <==> Offset(page + 1, limit) < count
  {
    var n := TotalPaginas(count, limit);
    if page < n {
      MultiplicacaoMonotona(page, n as int - 1, limit);
    } else {
      MultiplicacaoMonotona(n, page, limit);
    }
  }

  /**
   * Every row position below the count lies on exactly one announced page:
   * the page `i / limit + 1`, which is between 1 and the number of pages.
   */
  lemma PaginaDaLinha(i: nat, count: nat, limit: nat)
    requires limit > 0 && i < count
    ensures var p := i / limit + 1;
      1 <= p <= TotalPaginas(count, limit) && Offset(p, limit) <= i < Offset(p, limit) + limit
    ensures forall p: int :: Offset(p, limit) <= i < Offset(p, limit) + limit ==> p == i / limit + 1
  {
    var n := TotalPaginas(count, limit);
    var p := i / limit + 1;
    assert (p - 1) * limit + i % limit == i;
    if p > n {
      MultiplicacaoMonotona(n, p - 1, limit);
    }
    forall q: int | Offset(q, limit) <= i < Offset(q, limit) + limit ensures q == p {
      if q < p {
        MultiplicacaoMonotona(q, p - 1, limit);
      } else if q > p {
        MultiplicacaoMonotona(p, q - 1, limit);
      }
    }
  }
}
