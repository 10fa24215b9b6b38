/**
 * The paging arithmetic of the list and table queries
 * (src/server/api/routers/orders.ts and src/server/api/routers/product.ts):
 * the window `offset`/`limit` cuts out of the sorted rows and the page
 * count the table query reports.
 */
module Paging {
  import opened Wrappers

  /** PostgreSQL refuses a negative OFFSET. */
  datatype QueryError = NegativeOffset

  /** The number of rows from `offset` to the end. */
  function Remaining(count: nat, offset: nat): nat
  {
    if offset <= count then count - offset else 0
  }

  /** `findMany({offset, limit})` over `rows`, already in the query's order.
    * The query builder sends a LIMIT only when it is not negative, so a
    * negative `limit` reads every row from `offset` on; a negative OFFSET
    * is sent, and refused. */
  function Window<T>(rows: seq<T>, offset: int, limit: int): (r: Result<seq<T>, QueryError>)
    ensures r.Success? <==> offset >= 0
    ensures r.Success? && limit >= 0 ==> |r.value| == Min(limit, Remaining(|rows|, offset))
    ensures r.Success? && limit < 0 ==> |r.value| == Remaining(|rows|, offset)
    ensures r.Success? ==> forall i :: 0 <= i < |r.value| ==> r.value[i] == rows[offset + i]
  {
    if offset < 0 then Failure(NegativeOffset)
    else if limit < 0 then Success(rows[Min(offset, |rows|)..])
    else Success(rows[Min(offset, |rows|)..Min(offset + limit, |rows|)])
  }

  /** `Math.ceil(rowCount / pageSize)`; a division by zero gives no finite
    * number (`None`). */
  function PageCount(rowCount: nat, pageSize: int): Option<int>
  {
    if pageSize == 0 then None
    else if pageSize > 0 then Some((rowCount + pageSize - 1) / pageSize)
    else Some(-(rowCount / -pageSize))
  }

  /** The page count is the fewest pages of `pageSize` rows that hold every
    * row. */
  lemma {:induction false} PageCountIsCeiling(rowCount: nat, pageSize: int)
    requires pageSize > 0
    ensures PageCount(rowCount, pageSize).Some?
    ensures var n := PageCount(rowCount, pageSize).value;
            n >= 0 && n * pageSize >= rowCount && (n == 0 || (n - 1) * pageSize < rowCount)
  {
    var n := (rowCount + pageSize - 1) / pageSize;
    var m := (rowCount + pageSize - 1) % pageSize;
    assert n * pageSize + m == rowCount + pageSize - 1;
  }

  /** `getTable`: the page at `pageIndex * pageSize` and the page count. */
  datatype Table<T> = Table(rows: seq<T>, pageCount: Option<int>, rowCount: nat)

  function GetTable<T>(rows: seq<T>, pageIndex: int, pageSize: int): (r: Result<Table<T>, QueryError>)
    ensures r.Success? <==> pageIndex * pageSize >= 0
    ensures r.Success? ==> r.value.rowCount == |rows|
    ensures r.Success? && pageSize >= 0 ==> |r.value.rows| <= pageSize
    ensures r.Success? ==> r.value.pageCount == PageCount(|rows|, pageSize)
    ensures pageIndex >= 0 && pageSize > 0 ==> r.Success? && r.value.rows == Page(rows, pageIndex, pageSize)
  {
    match Window(rows, pageIndex * pageSize, pageSize)
    case Failure(e) => Failure(e)
    case Success(page) => Success(Table(page, PageCount(|rows|, pageSize), |rows|))
  }

  /** A negative page size at index 0 reads the whole table, and reports a
    * page count of at most 0. */
  lemma {:induction false} GetTableNegativeSize<T>(rows: seq<T>, pageSize: int)
    requires pageSize < 0
    ensures GetTable(rows, 0, pageSize) == Success(Table(rows, PageCount(|rows|, pageSize), |rows|))
    ensures PageCount(|rows|, pageSize).value <= 0
  {
    assert 0 * pageSize == 0;
    assert rows[0..] == rows;
  }

  /** The page of index `i` for a positive page size. */
  function Page<T>(rows: seq<T>, i: nat, size: nat): seq<T>
    requires size > 0
  {
    rows[Min(i * size, |rows|)..Min(i * size + size, |rows|)]
  }

  /** Pages `0 .. n-1` one after another. */
  function Pages<T>(rows: seq<T>, size: nat, n: nat): seq<T>
    requires size > 0
  {
    if n == 0 then [] else Pages(rows, size, n - 1) + Page(rows, n - 1, size)
  }

  lemma {:induction false} PagesPrefix<T>(rows: seq<T>, size: nat, n: nat)
    requires size > 0
    ensures Pages(rows, size, n) == rows[..Min(n * size, |rows|)]
  {
    if n > 0 {
      PagesPrefix(rows, size, n - 1);
      var m := (n - 1) * size;
      assert n * size == m + size;
      var a, b := Min(m, |rows|), Min(m + size, |rows|);
      assert Page(rows, n - 1, size) == rows[a..b];
      SliceJoin(rows, 0, a, b);
    }
  }

  /** Reading the table page by page, from index 0 up to the page count,
    * returns every row once and in order. */
  lemma {:induction false} PagesCoverRows<T>(rows: seq<T>, size: nat)
    requires size > 0
    ensures Pages(rows, size, PageCount(|rows|, size).value) == rows
  {
    PageCountIsCeiling(|rows|, size);
    PagesPrefix(rows, size, PageCount(|rows|, size).value);
  }

  /** `paginationSchema`: `page` and `perPage` are positive integers, 1 and
    * 10 when absent. */
  function ListParams(page: Option<int>, perPage: Option<int>): (r: Option<(int, int)>)
    ensures r.Some? <==> (page.None? || page.value >= 1) && (perPage.None? || perPage.value >= 1)
    ensures r.Some? ==> r.value.0 >= 1 && r.value.1 >= 1
    ensures r.Some? && page.Some? ==> r.value.0 == page.value
    ensures r.Some? && page.None? ==> r.value.0 == 1
    ensures r.Some? && perPage.Some? ==> r.value.1 == perPage.value
    ensures r.Some? && perPage.None? ==> r.value.1 == 10
    ensures page.None? && perPage.None? ==> r == Some((1, 10))
  {
    var p := if page.Some? then page.value else 1;
    var n := if perPage.Some? then perPage.value else 10;
    if p >= 1 && n >= 1 then Some((p, n)) else None
  }

  /** `getList`: the rows from `(page - 1) * perPage`, `perPage` of them. */
  function GetList<T>(rows: seq<T>, page: int, perPage: int): Result<seq<T>, QueryError>
  {
    Window(rows, (page - 1) * perPage, perPage)
  }

  /** The window at `i * size` of `size` rows is page `i`. */
  lemma {:induction false} WindowIsPage<T>(rows: seq<T>, i: nat, size: nat)
    requires size > 0
    ensures Window(rows, i * size, size) == Success(Page(rows, i, size))
  {
    assert i * size >= 0;
  }

  /** Any accepted `page` and `perPage` give a valid window, and it is page
    * `page - 1` of the table split into pages of `perPage` rows. */
  lemma {:induction false} GetListPage<T>(rows: seq<T>, page: Option<int>, perPage: Option<int>)
    requires ListParams(page, perPage).Some?
    ensures var (p, n) := ListParams(page, perPage).value;
            && GetList(rows, p, n).Success?
            && GetList(rows, p, n).value == Page(rows, p - 1, n)
  {
    var (p, n) := ListParams(page, perPage).value;
    WindowIsPage(rows, p - 1, n);
  }
}
