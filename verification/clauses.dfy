/** Reference definitions of the three statements the handler sends to the
    database: the total count, the filtered count and the page of rows
    (datatables.go:42-192). Each is assembled from named pieces so that the
    pieces the statements share are visibly the same text. */
module Clauses {
  import opened Wrappers
  import opened Text
  import opened Atoi
  import opened Columns

  /** The search term is never spliced into the text; it is bound as `:search`. */
  const LikeSuffix := " LIKE CONCAT('%', :search, '%')"
  /** Page size and offset are bound as `:length` and `:start`. */
  const LimitClause := " LIMIT :length OFFSET :start"
  /** The `length` value that asks for every row. */
  const NoLimit := "-1"
  const CountFrom := "SELECT COUNT(*) FROM "
  /** The opening of a count of groups: an outer count over a grouped inner query. */
  const GroupedCountFrom := "SELECT COUNT(*) FROM (SELECT COUNT(*) FROM "
  const CountTableTail := ") AS count_table"

  /** The select-list form that renders SQL NULL as an empty string. */
  function NullGuard(e: string): string
  {
    "IF(ISNULL(" + e + "),\"\"," + e + ")"
  }

  /** Count of all rows, or of all groups when `groupBy` is set. The optional
      WHERE is placed after the GROUP BY inside the wrapper, as the code does. */
  function TotalCount(table: string, additionalWhere: string, groupBy: string): (r: string)
    ensures groupBy == "" && additionalWhere == "" ==> r == CountFrom + table
    ensures groupBy == "" && additionalWhere != "" ==> r == CountFrom + table + " WHERE " + additionalWhere
    ensures groupBy != "" ==> StartsWith(r, GroupedCountFrom + table + " GROUP BY " + groupBy)
    ensures groupBy != "" && additionalWhere == "" ==>
              r == GroupedCountFrom + table + " GROUP BY " + groupBy + CountTableTail
    ensures groupBy != "" && additionalWhere != "" ==> EndsWith(r, " WHERE " + additionalWhere + CountTableTail)
    ensures groupBy != "" && additionalWhere != "" ==>
              |r| == |GroupedCountFrom + table + " GROUP BY " + groupBy| + |" WHERE " + additionalWhere + CountTableTail|
  {
    var filter := if additionalWhere != "" then " WHERE " + additionalWhere else "";
    if groupBy == "" then CountFrom + table + filter
    else
      var head := GroupedCountFrom + table + " GROUP BY " + groupBy;
      head + filter + CountTableTail
  }

  /** With both a grouping and an additional filter the WHERE text follows the
      GROUP BY text in the total-count statement. */
  lemma TotalCountWhereAfterGroupBy(table: string, additionalWhere: string, groupBy: string)
    requires groupBy != "" && additionalWhere != ""
    ensures exists i, j :: i < j && OccursAt(TotalCount(table, additionalWhere, groupBy), " GROUP BY " + groupBy, i)
                                 && OccursAt(TotalCount(table, additionalWhere, groupBy), " WHERE " + additionalWhere, j)
  {
    var r := TotalCount(table, additionalWhere, groupBy);
    var head := GroupedCountFrom + table;
    var grouping := " GROUP BY " + groupBy;
    var filter := " WHERE " + additionalWhere;
    assert r == head + grouping + (filter + CountTableTail);
    assert r[|head|..|head| + |grouping|] == grouping;
    assert r[|head| + |grouping|..|head| + |grouping| + |filter|] == filter;
    assert OccursAt(r, grouping, |head|);
    assert OccursAt(r, filter, |head| + |grouping|);
  }

  /** One select-list entry per column, NULL-guarded exactly when there is no grouping. */
  function SelectEntries(columns: seq<Column>, groupBy: string): (r: seq<string>)
    ensures |r| == |columns|
    ensures forall i :: 0 <= i < |columns| ==>
              r[i] == (if groupBy == "" then NullGuard(DisplayExpr(columns[i])) else DisplayExpr(columns[i]))
  {
    if |columns| == 0 then []
    else
      var e := DisplayExpr(columns[0]);
      [if groupBy == "" then NullGuard(e) else e] + SelectEntries(columns[1..], groupBy)
  }

  function SelectList(columns: seq<Column>, groupBy: string): string
  {
    Join(SelectEntries(columns, groupBy), ", ")
  }

  /** One LIKE test per column, on its search expression. */
  function LikeTerms(columns: seq<Column>): (r: seq<string>)
    ensures |r| == |columns|
    ensures forall i :: 0 <= i < |columns| ==> r[i] == SearchExpr(columns[i]) + LikeSuffix
  {
    if |columns| == 0 then [] else [SearchExpr(columns[0]) + LikeSuffix] + LikeTerms(columns[1..])
  }

  /** The OR of the LIKE tests over the search-eligible columns. */
  function Disjunction(columns: seq<Column>, groupBy: string): string
  {
    Join(LikeTerms(SearchColumns(columns, groupBy)), " OR ")
  }

  /** Everything after ` WHERE `: the disjunction, wrapped as `(w) AND (…)`
      when an additional filter is given. */
  function WhereBody(additionalWhere: string, groupBy: string, columns: seq<Column>): (r: string)
    ensures additionalWhere == "" ==> r == Disjunction(columns, groupBy)
    ensures additionalWhere != "" ==> StartsWith(r, "(" + additionalWhere + ") AND (")
    ensures additionalWhere != "" ==> EndsWith(r, Disjunction(columns, groupBy) + ")")
    ensures additionalWhere != "" ==>
              |r| == |"(" + additionalWhere + ") AND ("| + |Disjunction(columns, groupBy)| + 1
  {
    var d := Disjunction(columns, groupBy);
    if additionalWhere == "" then d
    else
      "(" + additionalWhere + ") AND (" + d + ")"
  }

  /** `t WHERE <body>`: the scope the filtered count and the page statement
      share, so that both count and fetch the same rows. */
  function FilteredScope(table: string, additionalWhere: string, groupBy: string, columns: seq<Column>): string
  {
    table + " WHERE " + WhereBody(additionalWhere, groupBy, columns)
  }

  /** A count of the rows, or of the groups, in the filtered scope. */
  function CountFiltered(table: string, additionalWhere: string, groupBy: string, columns: seq<Column>): (r: string)
    ensures groupBy == "" ==> r == CountFrom + FilteredScope(table, additionalWhere, groupBy, columns)
    ensures groupBy != "" ==> StartsWith(r, GroupedCountFrom + FilteredScope(table, additionalWhere, groupBy, columns))
    ensures groupBy != "" ==> EndsWith(r, " GROUP BY " + groupBy + CountTableTail)
    ensures groupBy != "" ==>
              |r| == |GroupedCountFrom + FilteredScope(table, additionalWhere, groupBy, columns)|
                     + |" GROUP BY " + groupBy + CountTableTail|
  {
    var scope := FilteredScope(table, additionalWhere, groupBy, columns);
    if groupBy == "" then CountFrom + scope
    else
      GroupedCountFrom + scope + (" GROUP BY " + groupBy + CountTableTail)
  }

  /** ` ORDER BY e dir`, then the LIMIT clause unless every row is asked for. */
  function OrderAndLimit(orderExpr: string, dir: string, length: string): (r: string)
    ensures length != NoLimit ==> r == " ORDER BY " + orderExpr + " " + dir + LimitClause
    ensures length == NoLimit ==> r == " ORDER BY " + orderExpr + " " + dir
  {
    var order := " ORDER BY " + orderExpr + " " + dir;
    if length != NoLimit then order + LimitClause else order
  }

  /** The statement that fetches one page of rows: the select list over the
      filtered scope, the grouping when there is one, then order and limit.
      The three clauses together leave nothing else in between. */
  function PageStatement(table: string, additionalWhere: string, groupBy: string, columns: seq<Column>,
                         orderExpr: string, dir: string, length: string): (r: string)
    ensures StartsWith(r, "SELECT " + SelectList(columns, groupBy) + " FROM " + FilteredScope(table, additionalWhere, groupBy, columns))
    ensures EndsWith(r, (if groupBy != "" then " GROUP BY " + groupBy else "") + OrderAndLimit(orderExpr, dir, length))
    ensures |r| == |"SELECT " + SelectList(columns, groupBy) + " FROM " + FilteredScope(table, additionalWhere, groupBy, columns)|
                   + |if groupBy != "" then " GROUP BY " + groupBy else ""| + |OrderAndLimit(orderExpr, dir, length)|
  {
    var head := "SELECT " + SelectList(columns, groupBy) + " FROM " + FilteredScope(table, additionalWhere, groupBy, columns);
    var grouping := if groupBy != "" then " GROUP BY " + groupBy else "";
    Concat3(head, grouping, OrderAndLimit(orderExpr, dir, length))
  }

  /** The page statement ends with the ORDER BY text, followed by the LIMIT
      clause exactly when the length is not `-1`. */
  lemma PageStatementOrderLast(table: string, additionalWhere: string, groupBy: string, columns: seq<Column>,
                               orderExpr: string, dir: string, length: string)
    ensures var r := PageStatement(table, additionalWhere, groupBy, columns, orderExpr, dir, length);
            && (length != NoLimit ==> EndsWith(r, " ORDER BY " + orderExpr + " " + dir + LimitClause))
            && (length == NoLimit ==> EndsWith(r, " ORDER BY " + orderExpr + " " + dir))
  {
    var grouping := if groupBy != "" then " GROUP BY " + groupBy else "";
    var tail := OrderAndLimit(orderExpr, dir, length);
    var suffix := if length != NoLimit then " ORDER BY " + orderExpr + " " + dir + LimitClause
                  else " ORDER BY " + orderExpr + " " + dir;
    EndsWithTrans(PageStatement(table, additionalWhere, groupBy, columns, orderExpr, dir, length),
                  grouping, tail, suffix);
  }

  /** The order expression of the column the request names by index. A
      malformed index reads as 0, unless its digits overflow 64 bits before
      the first bad character; an index outside the column list is an
      error (the code indexes the slice and panics). */
  function OrderExprAt(columns: seq<Column>, rawIndex: string): (r: Result<string, int>)
    ensures r.Success? <==> 0 <= AtoiOrZero(rawIndex) < |columns|
    ensures r.Success? ==> r.value == OrderExpr(columns[AtoiOrZero(rawIndex)])
    ensures r.Failure? ==> r.error == AtoiOrZero(rawIndex)
    ensures ParseDecimal(rawIndex).None? && |rawIndex| < 19 && |columns| > 0 ==>
              r == Success(OrderExpr(columns[0]))
    ensures ParseDecimal(rawIndex).None? && 0 < |columns| <= Int64Max ==>
              r == Success(OrderExpr(columns[0])) || r == Failure(Int64Max) || r == Failure(Int64Min)
  {
    var idx := AtoiOrZero(rawIndex);
    if 0 <= idx < |columns| then Success(OrderExpr(columns[idx])) else Failure(idx)
  }

  /** Without grouping every column contributes exactly one LIKE test, in
      column order, and ` OR ` stands between each consecutive pair. */
  lemma UngroupedDisjunction(columns: seq<Column>, i: nat)
    requires 0 < i < |columns|
    ensures |LikeTerms(SearchColumns(columns, ""))| == |columns|
    ensures Disjunction(columns, "")
              == Disjunction(columns[..i], "") + " OR " + Disjunction(columns[i..], "")
  {
    var terms := LikeTerms(columns);
    JoinSplit(terms, " OR ", i);
    assert terms[..i] == LikeTerms(columns[..i]);
    assert terms[i..] == LikeTerms(columns[i..]);
  }

  /** The three-column example with no grouping and no additional filter:
      the disjunction is not parenthesised and the order expression is the
      second column's name. */
  lemma ThreeColumnScenario()
    ensures CountFiltered("t", "", "", [Named("id"), Named("name"), Named("email")])
              == "SELECT COUNT(*) FROM t WHERE id" + LikeSuffix + " OR name" + LikeSuffix + " OR email" + LikeSuffix
    ensures OrderExprAt([Named("id"), Named("name"), Named("email")], "1") == Success("name")
  {
    ThreeColumnCount();
    ThreeColumnOrder();
  }

  lemma ThreeColumnCount()
    ensures CountFiltered("t", "", "", [Named("id"), Named("name"), Named("email")])
              == "SELECT COUNT(*) FROM t WHERE id" + LikeSuffix + " OR name" + LikeSuffix + " OR email" + LikeSuffix
  {
    var d := ThreeColumnDisjunction();
    UngroupedUnfilteredCount("t", [Named("id"), Named("name"), Named("email")]);
    ThreeColumnText(LikeSuffix);
  }

  /** With neither grouping nor extra filter the filtered count is the
      plain count over `t WHERE` and the disjunction. */
  lemma UngroupedUnfilteredCount(table: string, columns: seq<Column>)
    ensures CountFiltered(table, "", "", columns) == CountFrom + table + " WHERE " + Disjunction(columns, "")
  {
  }

  lemma ThreeColumnText(x: string)
    ensures CountFrom + "t" + " WHERE " + ("id" + x + " OR " + ("name" + x + " OR " + "email" + x))
              == "SELECT COUNT(*) FROM t WHERE id" + x + " OR name" + x + " OR email" + x
  {
  }

  lemma ThreeColumnOrder()
    ensures OrderExprAt([Named("id"), Named("name"), Named("email")], "1") == Success("name")
  {
    AtoiOne();
  }

  lemma ThreeColumnDisjunction() returns (d: string)
    ensures d == "id" + LikeSuffix + " OR " + ("name" + LikeSuffix + " OR " + "email" + LikeSuffix)
    ensures Disjunction([Named("id"), Named("name"), Named("email")], "") == d
  {
    var cs := [Named("id"), Named("name"), Named("email")];
    var a, b, c := "id" + LikeSuffix, "name" + LikeSuffix, "email" + LikeSuffix;
    var terms := LikeTerms(cs);
    assert terms == [a, b, c];
    assert terms[1..] == [b, c];
    assert Join([b, c], " OR ") == b + " OR " + c by {
      assert [b, c][1..] == [c];
    }
    d := a + " OR " + (b + " OR " + c);
  }

}
