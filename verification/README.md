# godatatables in Dafny

A model of `DataTables`, the single handler of the `godatatables` Go package.
The handler answers server-side processing requests from the DataTables
jQuery widget. It takes a table name, an optional extra WHERE expression, an
optional GROUP BY expression and a list of `Column` records. It builds three
MySQL statements: a count of all rows (or groups), a count of the rows that
match the free-text search, and one page of rows. It runs them with the
search term, page size and offset bound as named parameters. It then shapes
the scanned values into the JSON reply `{draw, recordsTotal, recordsFiltered, data}`.

The model splits that procedure into pure pieces:

- `Text`: joining with a separator, Go's `strings.Contains`, prefix and suffix tests.
- `Atoi`: `strconv.Atoi` as the handler uses it, with its error ignored. It
  follows the standard library's steps: a fast path for short texts, and
  otherwise `ParseInt` over `ParseUint`. Go picks the fast path for texts
  shorter than 19 bytes, the model for texts shorter than 19 characters;
  `FastPathAgrees` shows both paths give the same number, so the choice
  does not change the result. `ParseUint` reads
  digits left to right and stops at the first non-digit (a syntax error, read
  as 0) or at the first digit that overflows 64 bits (a range error, read as
  the bound of the text's sign), whichever comes first. So
  `"99999999999999999999x"` reads as the largest 64-bit integer, and `"12x"`
  reads as 0. Go's `int` is taken to be 64 bits wide.
- `Columns`: the `Column` record, the override-or-name rule for the search,
  display and order expressions, and search eligibility under grouping.
- `Clauses`: reference definitions of the three statements. They are built
  from named pieces. The filtered count and the page statement both use one
  `FilteredScope`, so both filter with the same WHERE body.
- `Builder`: the statement assembly written the way the Go code does it. It
  grows strings by appending, with the same loops and the same branches. Each
  method is proved to produce exactly the `Clauses` text.
- `Rows`: the type switch over driver values, and the row loop that skips
  rows whose scan fails.
- `Handler`: the whole request. The database is two function parameters, one
  for count statements and one for the page statement. The code's
  `log.Fatal` exits and panics become `Failure` values, in the order the
  code would hit them.

## Model

| member | source | states |
|---|---|---|
| Atoi.ParseDecimal | datatables.go:175 | a number is read only from non-empty text, and a negative one only from text starting with `-` |
| Atoi.ScanAllDigits | datatables.go:175 | on digits alone the unsigned scan returns the accumulated value when it fits in 64 unsigned bits, and a range error exactly when it does not |
| Atoi.FastPathAgrees | datatables.go:175 | the short-text fast path yields the same number as the general `ParseInt` route |
| Atoi.ScanUint | datatables.go:175 | the unsigned digit loop succeeds only on text made of digits alone, and then never with a value above 2^64-1 |
| Atoi.AtoiOrZero | datatables.go:175 | `strconv.Atoi` with its error dropped, for the order index (and the draw at line 245): the same number as the `ParseInt` route; text in the decimal grammar reads as its value clamped to 64 bits; any other text reads as 0 or as one of the two bounds |
| Atoi.OverflowBeforeJunk | datatables.go:175 | unsigned digits followed by a non-digit read as the upper bound when the digits overflow 64 unsigned bits, and as 0 when they fit |
| Atoi.OverflowWinsExample | datatables.go:175 | `99999999999999999999x` reads as the largest 64-bit integer, because the overflow is met before the letter |
| Atoi.ParseFormatRoundTrip | datatables.go:175 | parsing the decimal rendering of any integer gives that integer back |
| Atoi.AtoiRoundTrip | datatables.go:245 | every 64-bit draw counter sent as decimal text is read back unchanged |
| Atoi.AtoiDefaults | datatables.go:175 | a missing, sign-only or non-numeric form value reads as 0 |
| Text.ContainsOccurs | datatables.go:117 | the substring test used for eligibility holds exactly when the text occurs at some position (so the empty string is contained in every text) |
| Text.JoinSplit | datatables.go:98-100 | in a joined list the separator stands exactly between each pair of consecutive entries |
| Columns.SearchColumns | datatables.go:111-121 | never more columns than given; with no grouping, every column, in order |
| Columns.SearchColumnsMembership | datatables.go:113-121 | a column is searched if and only if it is listed and its name, or its non-empty search override, occurs in the GROUP BY text (or there is no grouping) |
| Columns.SearchColumnsAppend | datatables.go:113-121 | selection distributes over concatenation, so kept columns keep their original relative order |
| Columns.SubstringMakesEligible | datatables.go:117 | eligibility is substring-based: grouping by `department` also makes a column named `dep` searchable |
| Columns.GroupByDepartmentScenario | datatables.go:111-121 | grouping by `department` over `id`, `department`, `salary` leaves only `department` searchable |
| Clauses.TotalCount | datatables.go:41-55 | without grouping the count is `SELECT COUNT(*) FROM t`, plus ` WHERE w` exactly when w is non-empty; with grouping it is the grouped inner count, `GROUP BY g`, then ` WHERE w` when w is non-empty, then `) AS count_table`, with nothing else in between |
| Clauses.TotalCountWhereAfterGroupBy | datatables.go:44-55 | with both a grouping and an extra filter, the WHERE text comes after the GROUP BY text |
| Clauses.SelectEntries | datatables.go:83-101 | one select entry per column, in order: the display expression (or the name) wrapped as `IF(ISNULL(e),"",e)` if and only if there is no grouping |
| Clauses.LikeTerms | datatables.go:123-134 | one `LIKE CONCAT('%', :search, '%')` test per searched column, on its search override or else its name |
| Clauses.WhereBody | datatables.go:103-146 | without an extra filter the body is the OR of the LIKE tests; with one it starts `(w) AND (`, ends with the disjunction and `)`, and has nothing in between |
| Clauses.CountFiltered | datatables.go:74-151 | the filtered count is the count prefix followed by the shared filtered scope; when grouped, ` GROUP BY g) AS count_table` follows the scope directly |
| Clauses.OrderAndLimit | datatables.go:185-192 | exactly ` ORDER BY e dir`, followed by ` LIMIT :length OFFSET :start` if and only if the length is not `-1`, and nothing else |
| Clauses.PageStatement | datatables.go:73-192 | the page starts with the select list and the shared filtered scope, ends with ` GROUP BY g` (when grouped) followed by the ORDER BY and LIMIT text, and has nothing in between |
| Clauses.PageStatementOrderLast | datatables.go:185-192 | the page ends with ` ORDER BY e dir`, followed by the LIMIT clause exactly when the length is not `-1` |
| Clauses.OrderExprAt | datatables.go:175-183 | the order expression (override or name) of the column at the parsed index; an index outside the list is an error carrying it; unparsable text shorter than 19 characters selects column 0, and longer unparsable text selects column 0 or is out of range at one of the 64-bit bounds |
| Clauses.UngroupedDisjunction | datatables.go:113-140 | without grouping there is one LIKE test per column, and the disjunction splits at any column boundary into the two halves' disjunctions joined by ` OR ` |
| Clauses.ThreeColumnScenario | datatables.go:113-140 | for `id`, `name`, `email` without grouping or extra filter, the filtered count is the unparenthesised OR of the three LIKE tests, and order index `1` selects `name` |
| Builder.CountAllStatement | datatables.go:41-55 | the code's step-by-step total-count text equals the reference `TotalCount` |
| Builder.AppendSelectList | datatables.go:82-101 | the code's select loop, with its `i+1 != len` separator test, appends exactly the joined select list |
| Builder.CollectSearchColumns | datatables.go:111-121 | the code's eligibility loop collects exactly the reference search columns |
| Builder.AppendLikeTerms | datatables.go:123-140 | the shared loop appends the same OR-joined LIKE tests to the page statement and to the filtered count |
| Builder.BuildStatements | datatables.go:41-192 | the three statements as the code assembles them equal the reference definitions; the page statement fails exactly when the parsed order index is outside the column list |
| Rows.Project | datatables.go:227-236 | a value yields a cell if and only if its kind is bytes, int64, float64 or time |
| Rows.ProjectRow | datatables.go:223-236 | a projected row is never longer than the scanned row, and is as long exactly when every value is of a recognised kind |
| Rows.ProjectRowAppend | datatables.go:223-236 | projection is value by value, so kept values keep their order |
| Rows.ProjectEmbedRoundTrip | datatables.go:227-236 | every recognised kind passes through unchanged: bytes become a string cell with the same bytes, the others keep their payload |
| Rows.NullShiftsLaterValues | datatables.go:227-236 | a NULL or unknown kind is dropped without a placeholder, so later values move into earlier positions |
| Rows.ProjectPage | datatables.go:212-241 | one response row per successfully scanned row, and none at all exactly when no scan succeeded |
| Rows.ProjectPageSnoc | datatables.go:212-241 | a further scanned row adds its own projection at the end; a failed scan adds nothing |
| Rows.ProjectScannedRows | datatables.go:210-241 | the code's nested row and value loops produce exactly the reference projection |
| Handler.MakePlan | datatables.go:156-198 | the total count binds nothing; the filtered count binds only `search`; the page binds `search`, `length` and `start`; the page exists exactly when the order index is in range |
| Handler.ReadCount | datatables.go:57-71 | a count is the last scanned value, or 0 when there is no row; it is absent when the query or any scan fails |
| Handler.PackData | datatables.go:249-253 | `data` is the 0 sentinel if and only if there are no rows, and the rows otherwise |
| Handler.DataTables | datatables.go:38-256 | each outcome in both directions: the total count failing aborts with `TotalCountFailed`; with a good total, the filtered count failing aborts with `FilteredCountFailed`; with both counts good, an out-of-range order index gives `OrderIndexOutOfRange` with the index, a page query error gives `PageQueryFailed`, and page rows give a reply; a reply carries the two counts, the parsed draw and the projected page rows (or the 0 sentinel) |
| Handler.DataZeroIffNoRows | datatables.go:243-253 | in a reply, `data` is 0 exactly when no page row scanned, and otherwise holds one row per scanned row |
| Handler.DrawEchoed | datatables.go:245 | a draw counter sent as decimal text is echoed as that number |
| Handler.FailsOnlyOnBadIndex | datatables.go:174-176 | when both count statements always scan cleanly (any counts, any number of rows) and the page query always runs, the request fails if and only if the order index is outside the column list |
| Handler.UserValuesOnlyBound | datatables.go:148-198 | the search term, page size and offset never change any statement's text, except that a page size of `-1` drops the LIMIT clause |

## Notable behaviour of the code

- When a grouping and an extra filter are both given, the total count puts
  ` WHERE w` after ` GROUP BY g` inside the wrapper (datatables.go:44-55).
  MySQL requires WHERE before GROUP BY, so it rejects this text.
  `Clauses.TotalCountWhereAfterGroupBy` states the order.
- With no extra filter, the LIKE disjunction is not parenthesised
  (datatables.go:103-146). With an extra filter it is wrapped as
  `(w) AND (...)`.
- A failing page query panics. `NamedQuery` returns nil rows with the
  error, the error is only printed, and `rows.Columns()` then dereferences
  the nil rows (datatables.go:194-208). The model reports `PageQueryFailed`.
- Eligibility under grouping is a substring test, not a name comparison
  (datatables.go:117). `Columns.SubstringMakesEligible` shows the effect.
- With zero searched columns the WHERE body is empty, or `(w) AND ()`. The
  statement text still says ` WHERE `. The model keeps that text as it is.
- The order direction `order[0][dir]` is written into the page statement
  text unchecked (datatables.go:185). It is the one request value that is not
  a bound parameter. `Handler.UserValuesOnlyBound` therefore requires the
  two requests to agree on it.
- The order index is read with `strconv.Atoi` and its error is dropped
  (datatables.go:175). Malformed text selects column 0. Digits that overflow
  64 bits before the first bad character select index 2^63-1 (or -2^63),
  which is out of range and panics.

## Left out

- HTTP: reading form values from the request is replaced by the `Request`
  record of raw strings. A missing form value is the empty string, as with
  `FormValue`.
- Database access through `sqlx` and `database/sql` is left out, because it
  is foreign I/O. This covers `Query`, `NamedQuery`, `Scan`, `Columns`, and
  binding named parameters into the text. Statements go to the two function
  parameters of `Handler.DataTables`, as a text plus a map of named
  parameters. Scanned values and scan failures come back as data.
- `rows.Columns()` failing on a page query that did run is left out. In the
  code it makes every later scan fail. The model takes the scanned rows as
  given.
- `log.Fatal` and `fmt.Println` are left out. The fatal paths become
  `Failure` values; the printed page-query error has no effect on the reply.
- JSON encoding and writing to the `ResponseWriter` are left out. The reply
  is the `Reply` record. The encoder would write `NoRows` as `0`, and a row
  whose values were all dropped as `null`.
- Floating-point and `time.Time` values are opaque payloads. Nothing is
  computed with them.
- `test/main.go` (env file, template, HTTP server bootstrap) is plumbing
  with no core logic.
- SQL text and form values are `seq<char>`, while Go strings are byte
  sequences. Every literal the code appends is ASCII, so the statement
  texts agree; lengths stated in the contracts count characters, not bytes.
- Clauses.OrderExprAt: no longer promises that every malformed index selects
  column 0. That holds for texts shorter than 19 characters. Longer text
  whose digits overflow before the first bad character reads as a 64-bit
  bound, as `strconv.Atoi` does.
