/** The whole request handler (datatables.go:30-256) with the database as two
    function parameters: one answers count statements, one answers the page
    statement. The code's fatal exits and its panics become `Failure`s, in
    the order the code would meet them. */
module Handler {
  import opened Wrappers
  import opened Atoi
  import opened Columns
  import opened Clauses
  import opened Rows

  /** The raw form values the handler reads; a missing value is "". */
  datatype Request = Request(
    search: string,       // search[value]
    orderColumn: string,  // order[0][column]
    orderDir: string,     // order[0][dir]
    start: string,        // start
    length: string,       // length
    draw: string)         // draw

  /** Named parameters bound to a statement, never spliced into its text. */
  type Bindings = map<string, string>

  /** A statement together with the values bound to its named parameters. */
  datatype Query = Query(text: string, params: Bindings)

  /** What a count statement yields: an execution error, or the scanned
      rows, each either the count or a scan error. */
  datatype CountAnswer = CountQueryError | CountRows(scans: seq<Option<int>>)

  /** What the page statement yields: an execution error, or the rows, each
      either its values or a scan error. */
  datatype PageAnswer = PageQueryError | PageRows(scans: seq<Option<seq<DbValue>>>)

  /** The `data` field: `NoRows` is serialised as the integer 0. */
  datatype Data = NoRows | RowList(rows: seq<seq<Cell>>)

  datatype Reply = Reply(draw: Int64, recordsTotal: int, recordsFiltered: int, data: Data)

  datatype Failure =
    | TotalCountFailed                   // log.Fatal on the first count
    | FilteredCountFailed                // log.Fatal on the filtered count
    | OrderIndexOutOfRange(index: int)   // panic indexing the column slice
    | PageQueryFailed                    // panic reading columns of nil rows

  /** The statements of one request with their bindings. */
  datatype Plan = Plan(total: Query, filtered: Query, page: Result<Query, int>)

  function MakePlan(req: Request, table: string, additionalWhere: string, groupBy: string,
                    columns: seq<Column>): (p: Plan)
    ensures p.total.params == map[]
    ensures p.filtered.params == map["search" := req.search]
    ensures p.page.Success? ==>
              p.page.value.params == map["search" := req.search, "length" := req.length, "start" := req.start]
    ensures p.page.Success? <==> 0 <= AtoiOrZero(req.orderColumn) < |columns|
  {
    Plan(
      Query(TotalCount(table, additionalWhere, groupBy), map[]),
      Query(CountFiltered(table, additionalWhere, groupBy, columns), map["search" := req.search]),
      match OrderExprAt(columns, req.orderColumn)
      case Success(orderExpr) =>
        Success(Query(PageStatement(table, additionalWhere, groupBy, columns, orderExpr, req.orderDir, req.length),
                      map["search" := req.search, "length" := req.length, "start" := req.start]))
      case Failure(idx) => Failure(idx))
  }

  /** The count a count statement's rows leave in the Go variable: the last
      scanned value, or 0 when there is no row; absent when execution or any
      scan failed. */
  function ReadCount(a: CountAnswer): (r: Option<int>)
    ensures r.None? <==> a.CountQueryError? || exists i :: 0 <= i < |a.scans| && a.scans[i].None?
    ensures r.Some? && |a.scans| == 0 ==> r.value == 0
    ensures r.Some? && |a.scans| > 0 ==> r.value == a.scans[|a.scans| - 1].value
  {
    match a
    case CountQueryError => None
    case CountRows(scans) => LastScanned(scans, 0)
  }

  /** Scans the count rows in order, each successful scan overwriting `current`. */
  function LastScanned(scans: seq<Option<int>>, current: int): (r: Option<int>)
    ensures r.None? <==> exists i :: 0 <= i < |scans| && scans[i].None?
    ensures r.Some? && |scans| == 0 ==> r.value == current
    ensures r.Some? && |scans| > 0 ==> r.value == scans[|scans| - 1].value
  {
    if |scans| == 0 then Some(current)
    else
      assert forall i :: 1 <= i < |scans| ==> scans[i] == scans[1..][i - 1];
      match scans[0]
      case None => None
      case Some(v) => LastScanned(scans[1..], v)
  }

  /** The `data` field for the projected rows. */
  function PackData(rows: seq<seq<Cell>>): (d: Data)
    ensures d.NoRows? <==> |rows| == 0
    ensures d.RowList? ==> d.rows == rows
  {
    if |rows| == 0 then NoRows else RowList(rows)
  }

  /** One request, end to end. */
  function DataTables(req: Request, table: string, additionalWhere: string, groupBy: string, columns: seq<Column>,
                      countDb: Query -> CountAnswer, pageDb: Query -> PageAnswer): (r: Result<Reply, Failure>)
    ensures var p := MakePlan(req, table, additionalWhere, groupBy, columns);
            && (ReadCount(countDb(p.total)).None? ==> r == Failure(TotalCountFailed))
            && (r.Success? ==> ReadCount(countDb(p.total)) == Some(r.value.recordsTotal))
            && (r.Success? ==> ReadCount(countDb(p.filtered)) == Some(r.value.recordsFiltered))
            && (ReadCount(countDb(p.total)).Some? && ReadCount(countDb(p.filtered)).None? ==>
                  r == Failure(FilteredCountFailed))
            && (r.Success? ==> p.page.Success? && pageDb(p.page.value).PageRows?)
            && (r.Success? ==> r.value.data == PackData(ProjectPage(pageDb(p.page.value).scans)))
    ensures r.Success? ==> r.value.draw == AtoiOrZero(req.draw)
    ensures r == Failure(PageQueryFailed) ==> 0 <= AtoiOrZero(req.orderColumn) < |columns|
    ensures r.Failure? && r.error.OrderIndexOutOfRange? ==>
              r.error.index == AtoiOrZero(req.orderColumn) && !(0 <= r.error.index < |columns|)
    ensures var p := MakePlan(req, table, additionalWhere, groupBy, columns);
            var good := ReadCount(countDb(p.total)).Some? && ReadCount(countDb(p.filtered)).Some?;
            && (r == Failure(TotalCountFailed) ==> ReadCount(countDb(p.total)).None?)
            && (r == Failure(FilteredCountFailed) ==> ReadCount(countDb(p.filtered)).None?)
            && (good && p.page.Failure? ==> r == Failure(OrderIndexOutOfRange(AtoiOrZero(req.orderColumn))))
            && (good && p.page.Success? && pageDb(p.page.value).PageQueryError? ==> r == Failure(PageQueryFailed))
            && (good && p.page.Success? && pageDb(p.page.value).PageRows? ==> r.Success?)
  {
    var p := MakePlan(req, table, additionalWhere, groupBy, columns);
    match ReadCount(countDb(p.total))
    case None => Failure(TotalCountFailed)
    case Some(total) =>
      match ReadCount(countDb(p.filtered))
      case None => Failure(FilteredCountFailed)
      case Some(filtered) =>
        match p.page
        case Failure(idx) => Failure(OrderIndexOutOfRange(idx))
        case Success(pageQuery) =>
          match pageDb(pageQuery)
          case PageQueryError => Failure(PageQueryFailed)
          case PageRows(scans) =>
            Success(Reply(AtoiOrZero(req.draw), total, filtered, PackData(ProjectPage(scans))))
  }

  /** In a reply, `data` is the 0 sentinel exactly when no row of the page scanned. */
  lemma DataZeroIffNoRows(req: Request, table: string, additionalWhere: string, groupBy: string,
                          columns: seq<Column>, countDb: Query -> CountAnswer, pageDb: Query -> PageAnswer)
    ensures var r := DataTables(req, table, additionalWhere, groupBy, columns, countDb, pageDb);
            var p := MakePlan(req, table, additionalWhere, groupBy, columns);
            r.Success? ==>
              var scans := pageDb(p.page.value).scans;
              && (r.value.data.NoRows? <==> forall i :: 0 <= i < |scans| ==> scans[i].None?)
              && (r.value.data.RowList? ==> |r.value.data.rows| == ScannedCount(scans))
  {
  }

  /** A draw counter rendered as a decimal integer is echoed unchanged. */
  lemma DrawEchoed(req: Request, n: Int64, table: string, additionalWhere: string, groupBy: string,
                   columns: seq<Column>, countDb: Query -> CountAnswer, pageDb: Query -> PageAnswer)
    requires req.draw == FormatInt(n)
    ensures var r := DataTables(req, table, additionalWhere, groupBy, columns, countDb, pageDb);
            r.Success? ==> r.value.draw == n
  {
    AtoiRoundTrip(n);
  }

  /** With a well-behaved database the request fails only when the order
      index is outside the column list. */
  lemma FailsOnlyOnBadIndex(req: Request, table: string, additionalWhere: string, groupBy: string,
                            columns: seq<Column>, countDb: Query -> CountAnswer, pageDb: Query -> PageAnswer)
    requires forall q :: ReadCount(countDb(q)).Some?
    requires forall q :: pageDb(q).PageRows?
    ensures DataTables(req, table, additionalWhere, groupBy, columns, countDb, pageDb).Success? <==>
              0 <= AtoiOrZero(req.orderColumn) < |columns|
  {
    var p := MakePlan(req, table, additionalWhere, groupBy, columns);
    assert ReadCount(countDb(p.total)).Some? && ReadCount(countDb(p.filtered)).Some?;
    if p.page.Success? {
      assert pageDb(p.page.value).PageRows?;
    }
  }

  /** The user's search term, page size and offset reach the database only
      as bound values: two requests that agree on the order column, the
      direction and on whether the page size is "-1" send the same texts. */
  lemma UserValuesOnlyBound(r1: Request, r2: Request, table: string, additionalWhere: string, groupBy: string,
                            columns: seq<Column>)
    requires r1.orderColumn == r2.orderColumn && r1.orderDir == r2.orderDir
    requires (r1.length == NoLimit) == (r2.length == NoLimit)
    ensures var p1 := MakePlan(r1, table, additionalWhere, groupBy, columns);
            var p2 := MakePlan(r2, table, additionalWhere, groupBy, columns);
            && p1.total.text == p2.total.text
            && p1.filtered.text == p2.filtered.text
            && p1.page.Success? == p2.page.Success?
            && (p1.page.Success? ==> p1.page.value.text == p2.page.value.text)
  {
  }
}
