/** Page arithmetic of every paginated listing. */
module Pagination {
  import opened Basics

  datatype Meta = Meta(total: nat, page: nat, limit: nat, totalPages: nat, hasNextPage: bool, hasPreviousPage: bool)

  datatype Paginated<T> = Paginated(data: seq<T>, meta: Meta)

  function CreatePaginatedResponse<T>(data: seq<T>, total: nat, page: nat, limit: nat): Paginated<T>
    requires limit >= 1
  {
    var totalPages := CeilDiv(total, limit);
    Paginated(data, Meta(total, page, limit, totalPages, page < totalPages, page > 1))
  }

  /** What the storage returns for `skip` and `take`. */
  function Slice<T>(rows: seq<T>, skip: nat, take: nat): seq<T> {
    if skip >= |rows| then [] else if skip + take >= |rows| then rows[skip..] else rows[skip..skip + take]
  }

  /** A listing of `rows`, as every `findAll` computes it. */
  function FindAll<T>(rows: seq<T>, page: nat, limit: nat): Paginated<T>
    requires page >= 1 && limit >= 1
  {
    var skip := (page - 1) * limit;
    CreatePaginatedResponse(Slice(rows, skip, limit), |rows|, page, limit)
  }

  lemma MulMonotone(a: nat, b: nat, c: nat)
    requires a <= b
    ensures a * c <= b * c
  {
  }

  lemma BelowCeil(page: nat, total: nat, limit: nat, q: nat, r: nat)
    requires limit >= 1 && total == q * limit + r && r < limit
    ensures page * limit < total <==> page < (if r == 0 then q else q + 1)
  {
    if page < q {
      MulMonotone(page + 1, q, limit);
      assert (page + 1) * limit == page * limit + limit;
    } else if page > q {
      MulMonotone(q + 1, page, limit);
      assert (q + 1) * limit == q * limit + limit;
    }
  }

  lemma CeilDivIsLeastCover(page: nat, total: nat, limit: nat)
    requires limit >= 1
    ensures page < CeilDiv(total, limit) <==> page * limit < total
  {
    var q, r := total / limit, total % limit;
    assert total == limit * q + r;
    BelowCeil(page, total, limit, q, r);
  }

  /** There is a next page exactly when some row lies behind the current one. */
  lemma NextPageMeansMoreRows<T>(rows: seq<T>, page: nat, limit: nat)
    requires page >= 1 && limit >= 1
    ensures FindAll(rows, page, limit).meta.hasNextPage <==> page * limit < |rows|
    ensures FindAll(rows, page, limit).meta.hasPreviousPage <==> page > 1
  {
    CeilDivIsLeastCover(page, |rows|, limit);
  }

  /** The page numbers are those asked for, and `totalPages` pages of this size are just enough for
      all rows. */
  lemma MetaDescribesRows<T>(rows: seq<T>, page: nat, limit: nat)
    requires page >= 1 && limit >= 1
    ensures var m := FindAll(rows, page, limit).meta;
            && m.total == |rows| && m.page == page && m.limit == limit
            && |rows| <= m.totalPages * limit
            && (forall n: nat :: |rows| <= n * limit ==> m.totalPages <= n)
  {
    var pages := CeilDiv(|rows|, limit);
    CeilDivIsLeastCover(pages, |rows|, limit);
    forall n: nat | |rows| <= n * limit ensures pages <= n {
      CeilDivIsLeastCover(n, |rows|, limit);
    }
  }

  /** The rows a client collects that starts at `page` and follows `hasNextPage`. */
  function Walk<T>(rows: seq<T>, page: nat, limit: nat): seq<T>
    requires page >= 1 && limit >= 1
    decreases CeilDiv(|rows|, limit) - page
  {
    var response := FindAll(rows, page, limit);
    response.data + if response.meta.hasNextPage then Walk(rows, page + 1, limit) else []
  }

  /** One page holds the rows from `skip` on that fit, and the next page starts behind them. */
  lemma PageAndRest<T>(rows: seq<T>, skip: nat, limit: nat)
    requires limit >= 1
    ensures skip + limit < |rows| ==> Slice(rows, skip, limit) + rows[skip + limit..] == rows[skip..]
    ensures skip < |rows| <= skip + limit ==> Slice(rows, skip, limit) == rows[skip..]
  {
  }

  lemma {:induction false} WalkCollectsRest<T>(rows: seq<T>, page: nat, limit: nat, skip: nat)
    requires page >= 1 && limit >= 1 && skip == (page - 1) * limit
    ensures Walk(rows, page, limit) == if skip >= |rows| then [] else rows[skip..]
    decreases CeilDiv(|rows|, limit) - page
  {
    assert skip + limit == page * limit;
    NextPageMeansMoreRows(rows, page, limit);
    PageAndRest(rows, skip, limit);
    if FindAll(rows, page, limit).meta.hasNextPage {
      WalkCollectsRest(rows, page + 1, limit, skip + limit);
    } else {
      assert Walk(rows, page, limit) == Slice(rows, skip, limit);
    }
  }

  /** Pagination walk: for any rows and page size, walking from the first page ends and yields
      every row exactly once, in order. */
  lemma WalkCollectsEverything<T>(rows: seq<T>, limit: nat)
    requires limit >= 1
    ensures Walk(rows, 1, limit) == rows
  {
    WalkCollectsRest(rows, 1, limit, 0);
  }
}
