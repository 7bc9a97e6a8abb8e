/** The handler's statement assembly as the code performs it: strings grown
    by appending, one loop over the columns for the select list, one that
    collects the search columns, and one that appends the same LIKE tests to
    the filtered count and to the page statement together
    (datatables.go:41-192). Each step's contract ties its result to the
    reference definitions in `Clauses`. */
module Builder {
  import opened Wrappers
  import opened Text
  import opened Atoi
  import opened Columns
  import opened Clauses

  /** The count of all records (datatables.go:41-55). */
  method CountAllStatement(table: string, additionalWhere: string, groupBy: string) returns (query: string)
    ensures query == TotalCount(table, additionalWhere, groupBy)
  {
    query := "SELECT COUNT(*) FROM " + table;
    if groupBy != "" {
      query := "SELECT COUNT(*) FROM (SELECT COUNT(*) FROM " + table;
      query := query + (" GROUP BY " + groupBy);
    }
    ghost var head := query;
    if additionalWhere != "" {
      query := query + (" WHERE " + additionalWhere);
    }
    ghost var filter := if additionalWhere != "" then " WHERE " + additionalWhere else "";
    assert query == head + filter;
    if groupBy != "" {
      query := query + ") AS count_table";
      AppendAssoc(head, filter, CountTableTail);
    }
  }

  /** Appends the select list, entry by entry (datatables.go:82-101). */
  method AppendSelectList(statement: string, columns: seq<Column>, groupBy: string) returns (out: string)
    ensures out == statement + SelectList(columns, groupBy)
  {
    ghost var entries := SelectEntries(columns, groupBy);
    out := statement;
    var i := 0;
    while i < |columns|
      invariant 0 <= i <= |columns|
      invariant out == statement + JoinPrefix(entries, ", ", i)
    {
      var column := columns[i];
      var entry := "";
      if groupBy == "" {
        if column.display == "" {
          entry := "IF(ISNULL(" + column.name + "),\"\"," + column.name + ")";
        } else {
          entry := "IF(ISNULL(" + column.display + "),\"\"," + column.display + ")";
        }
      } else {
        if column.display == "" {
          entry := column.name;
        } else {
          entry := column.display;
        }
      }
      var piece := entry + (if i + 1 != |columns| then ", " else "");
      assert JoinPrefix(entries, ", ", i) + piece == JoinPrefix(entries, ", ", i + 1) by {
        assert entry == entries[i];
        JoinPrefixStep(entries, ", ", i);
      }
      AppendAssoc(statement, JoinPrefix(entries, ", ", i), piece);
      out := out + piece;
      i := i + 1;
    }
    assert entries[..|entries|] == entries;
  }

  /** Collects the columns the search applies to (datatables.go:111-121). */
  method CollectSearchColumns(columns: seq<Column>, groupBy: string) returns (searchColumns: seq<Column>)
    ensures searchColumns == SearchColumns(columns, groupBy)
  {
    searchColumns := [];
    var i := 0;
    while i < |columns|
      invariant 0 <= i <= |columns|
      invariant searchColumns == SearchColumns(columns[..i], groupBy)
    {
      var column := columns[i];
      if groupBy == "" {
        searchColumns := searchColumns + [column];
      } else if Contains(groupBy, column.name) || (Contains(groupBy, column.search) && column.search != "") {
        searchColumns := searchColumns + [column];
      }
      SearchColumnsSnoc(columns[..i], column, groupBy);
      assert columns[..i + 1] == columns[..i] + [column];
      i := i + 1;
    }
    assert columns[..|columns|] == columns;
  }

  /** Appends the LIKE tests to the page statement and the filtered count in
      the same loop, so both receive the same text (datatables.go:123-140). */
  method AppendLikeTerms(statement: string, countFiltered: string, searchColumns: seq<Column>)
    returns (statementOut: string, countOut: string)
    ensures statementOut == statement + Join(LikeTerms(searchColumns), " OR ")
    ensures countOut == countFiltered + Join(LikeTerms(searchColumns), " OR ")
  {
    ghost var terms := LikeTerms(searchColumns);
    statementOut, countOut := statement, countFiltered;
    var i := 0;
    while i < |searchColumns|
      invariant 0 <= i <= |searchColumns|
      invariant statementOut == statement + JoinPrefix(terms, " OR ", i)
      invariant countOut == countFiltered + JoinPrefix(terms, " OR ", i)
    {
      var column := searchColumns[i];
      var expr := "";
      if column.search == "" {
        expr := column.name;
      } else {
        expr := column.search;
      }
      var piece := expr + " LIKE CONCAT('%', :search, '%')" + (if i + 1 != |searchColumns| then " OR " else "");
      assert JoinPrefix(terms, " OR ", i) + piece == JoinPrefix(terms, " OR ", i + 1) by {
        assert piece == terms[i] + (if i + 1 != |searchColumns| then " OR " else "");
        JoinPrefixStep(terms, " OR ", i);
      }
      AppendAssoc(statement, JoinPrefix(terms, " OR ", i), piece);
      AppendAssoc(countFiltered, JoinPrefix(terms, " OR ", i), piece);
      statementOut := statementOut + piece;
      countOut := countOut + piece;
      i := i + 1;
    }
    assert terms[..|terms|] == terms;
  }

  /** All three statements, in the order the handler builds them. The page
      statement is an error carrying the index when the order index falls
      outside the column list, where the code's slice access panics. */
  method BuildStatements(table: string, additionalWhere: string, groupBy: string, columns: seq<Column>,
                         orderIndex: string, dir: string, length: string)
    returns (total: string, filtered: string, page: Result<string, int>)
    ensures total == TotalCount(table, additionalWhere, groupBy)
    ensures filtered == CountFiltered(table, additionalWhere, groupBy, columns)
    ensures page.Success? <==> 0 <= AtoiOrZero(orderIndex) < |columns|
    ensures page.Success? ==>
              page.value == PageStatement(table, additionalWhere, groupBy, columns,
                                          OrderExpr(columns[AtoiOrZero(orderIndex)]), dir, length)
    ensures page.Failure? ==> page.error == AtoiOrZero(orderIndex)
  {
    total := CountAllStatement(table, additionalWhere, groupBy);

    var countFiltered := "";
    if groupBy != "" {
      countFiltered := "SELECT COUNT(*) FROM (SELECT COUNT(*) FROM " + table + " WHERE ";
    } else {
      countFiltered := "SELECT COUNT(*) FROM " + table + " WHERE ";
    }
    ghost var countPrefix := if groupBy != "" then GroupedCountFrom else CountFrom;
    assert countFiltered == countPrefix + (table + " WHERE ");

    var statement := AppendSelectList("SELECT ", columns, groupBy);
    ghost var selectPrefix := statement + " FROM ";
    statement := statement + " FROM " + table + " WHERE ";
    assert statement == selectPrefix + (table + " WHERE ");
    ghost var countHead, statementHead := countFiltered, statement;

    var open := if additionalWhere != "" then "(" + additionalWhere + ") AND (" else "";
    statement := statement + open;
    countFiltered := countFiltered + open;

    var searchColumns := CollectSearchColumns(columns, groupBy);
    statement, countFiltered := AppendLikeTerms(statement, countFiltered, searchColumns);

    var close := if additionalWhere != "" then ")" else "";
    statement := statement + close;
    countFiltered := countFiltered + close;
    ScopeShape(countPrefix, countHead, table, additionalWhere, groupBy, columns);
    ScopeShape(selectPrefix, statementHead, table, additionalWhere, groupBy, columns);
    ghost var page0 := statement;

    if groupBy != "" {
      countFiltered := countFiltered + (" GROUP BY " + groupBy + ") AS count_table");
      statement := statement + (" GROUP BY " + groupBy);
    }
    filtered := countFiltered;
    ghost var grouping := if groupBy != "" then " GROUP BY " + groupBy else "";
    assert statement == page0 + grouping;

    var orderColumnNumber := AtoiOrZero(orderIndex);
    if !(0 <= orderColumnNumber < |columns|) {
      page := Failure(orderColumnNumber);
      return;
    }
    var orderColumn := columns[orderColumnNumber];
    var name := "";
    if orderColumn.order == "" {
      name := orderColumn.name;
    } else {
      name := orderColumn.order;
    }
    statement := statement + (" ORDER BY " + name + " " + dir);
    ghost var order := " ORDER BY " + name + " " + dir;
    if length != "-1" {
      AppendAssoc(page0 + grouping, order, LimitClause);
      statement := statement + " LIMIT :length OFFSET :start";
    }
    ghost var tail := OrderAndLimit(name, dir, length);
    assert statement == page0 + grouping + tail by {
      assert tail == if length != NoLimit then order + LimitClause else order;
    }
    assert name == OrderExpr(columns[AtoiOrZero(orderIndex)]);
    page := Success(statement);
  }

  /** The filtered scope, spelled in the order the code appends its pieces. */
  lemma ScopeShape(prefix: string, head: string, table: string, additionalWhere: string, groupBy: string,
                   columns: seq<Column>)
    requires head == prefix + (table + " WHERE ")
    ensures var d := Join(LikeTerms(SearchColumns(columns, groupBy)), " OR ");
            var open := if additionalWhere != "" then "(" + additionalWhere + ") AND (" else "";
            var close := if additionalWhere != "" then ")" else "";
            head + open + d + close == prefix + FilteredScope(table, additionalWhere, groupBy, columns)
  {
    var d := Join(LikeTerms(SearchColumns(columns, groupBy)), " OR ");
    var scope := table + " WHERE ";
    if additionalWhere == "" {
      assert head + "" + d + "" == prefix + (scope + d);
    } else {
      var open := "(" + additionalWhere + ") AND (";
      assert WhereBody(additionalWhere, groupBy, columns) == open + d + ")";
      assert head + open + d + ")" == prefix + (scope + (open + d + ")"));
    }
  }
}
