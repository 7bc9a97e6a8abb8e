/** The `Column` record and the rules that pick, per column, the expression
    used for searching, displaying and ordering, and whether the column takes
    part in the free-text search (datatables.go:17-28, 111-121). */
module Columns {
  import opened Text

  /** One column of the widget. `search`, `display` and `order` replace
      `name` in their role when they are non-empty. */
  datatype Column = Column(name: string, search: string, display: string, order: string)

  /** A column given by its name alone. */
  function Named(name: string): Column
  {
    Column(name, "", "", "")
  }

  /** The override when it is set, else the column name. */
  function OrName(override: string, name: string): string
  {
    if override == "" then name else override
  }

  function SearchExpr(c: Column): string { OrName(c.search, c.name) }
  function DisplayExpr(c: Column): string { OrName(c.display, c.name) }
  function OrderExpr(c: Column): string { OrName(c.order, c.name) }

  /** Without grouping every column is searched; with grouping only those whose
      name, or whose non-empty search override, occurs as a substring of the
      GROUP BY expression. */
  predicate SearchEligible(c: Column, groupBy: string)
  {
    groupBy == "" || Contains(groupBy, c.name) || (Contains(groupBy, c.search) && c.search != "")
  }

  /** The columns the LIKE disjunction is built from, in their original order. */
  function SearchColumns(columns: seq<Column>, groupBy: string): (r: seq<Column>)
    ensures |r| <= |columns|
    ensures groupBy == "" ==> r == columns
  {
    if |columns| == 0 then []
    else
      var rest := SearchColumns(columns[1..], groupBy);
      if SearchEligible(columns[0], groupBy) then [columns[0]] + rest else rest
  }

  /** A column is searched exactly when it is listed and eligible. */
  lemma {:induction false} SearchColumnsMembership(columns: seq<Column>, groupBy: string, c: Column)
    ensures c in SearchColumns(columns, groupBy) <==> c in columns && SearchEligible(c, groupBy)
  {
    if |columns| > 0 {
      SearchColumnsMembership(columns[1..], groupBy, c);
      assert c in columns <==> c == columns[0] || c in columns[1..];
    }
  }

  /** Selection distributes over concatenation, so the relative order of the
      kept columns is their order in the input. */
  lemma {:induction false} SearchColumnsAppend(a: seq<Column>, b: seq<Column>, groupBy: string)
    ensures SearchColumns(a + b, groupBy) == SearchColumns(a, groupBy) + SearchColumns(b, groupBy)
  {
    if |a| > 0 {
      assert (a + b)[1..] == a[1..] + b;
      SearchColumnsAppend(a[1..], b, groupBy);
    } else {
      assert a + b == b;
    }
  }

  /** The loop form: scanning one more column appends it exactly when eligible. */
  lemma SearchColumnsSnoc(a: seq<Column>, c: Column, groupBy: string)
    ensures SearchColumns(a + [c], groupBy)
              == SearchColumns(a, groupBy) + (if SearchEligible(c, groupBy) then [c] else [])
  {
    SearchColumnsAppend(a, [c], groupBy);
    assert [c][1..] == [];
  }

  /** A grouping expression that merely contains a column's name as a
      substring makes that column searchable: grouping by `department` keeps
      a column named `dep` as well as the `department` column. */
  lemma SubstringMakesEligible()
    ensures SearchEligible(Named("dep"), "department")
    ensures SearchEligible(Named("department"), "department")
  {
  }

  /** Grouping by `department` over the columns `id`, `department`, `salary`
      leaves only the `department` column searchable. */
  lemma GroupByDepartmentScenario()
    ensures SearchColumns([Named("id"), Named("department"), Named("salary")], "department")
              == [Named("department")]
  {
    var cs := [Named("id"), Named("department"), Named("salary")];
    DepartmentEligibility();
    assert cs[1..] == [Named("department"), Named("salary")];
    assert cs[1..][1..] == [Named("salary")];
    assert cs[1..][1..][1..] == [];
  }

  lemma DepartmentEligibility()
    ensures !SearchEligible(Named("id"), "department")
    ensures SearchEligible(Named("department"), "department")
    ensures !SearchEligible(Named("salary"), "department")
  {
    var g := "department";
    NotInDepartment("id");
    NotInDepartment("salary");
    SelfEligible(g);
  }

  /** A column whose name is the whole grouping text is searchable. */
  lemma SelfEligible(name: string)
    ensures SearchEligible(Named(name), name)
  {
    assert name[..|name|] == name;
  }

  lemma NotInDepartment(name: string)
    requires |name| > 0 && name[0] !in "department"
    ensures !SearchEligible(Named(name), "department")
  {
    AbsentFirstChar("department", name);
  }

  /** A text that lacks the first character of `sub` does not contain `sub`. */
  lemma AbsentFirstChar(s: string, sub: string)
    requires |sub| > 0 && sub[0] !in s
    ensures !Contains(s, sub)
  {
  }
}
