/** Shaping of the page query's rows for the response (datatables.go:210-241):
    each scanned value is kept when its dynamic type is one of four known
    kinds and silently dropped otherwise; a row whose scan fails is skipped. */
module Rows {
  import opened Wrappers
  import opened Atoi

  newtype byte = b: int | 0 <= b < 256

  /** An IEEE-754 double, carried by its bit pattern and never inspected. */
  datatype Float64 = Float64(bits: bv64)

  /** A point in time as the driver reports it; never inspected. */
  datatype Timestamp = Timestamp(seconds: int, nanos: int)

  /** The dynamic value the driver stores into one scanned column. */
  datatype DbValue =
    | Bytes(bytes: seq<byte>)   // []uint8
    | Int(i: Int64)             // int64
    | Float(f: Float64)         // float64
    | Time(t: Timestamp)        // time.Time
    | Null                      // nil, for SQL NULL
    | Other(kind: string)       // any other dynamic type the driver may produce

  /** A value kept in the response. Go strings are byte sequences, so the text
      keeps exactly the scanned bytes. */
  datatype Cell = Str(bytes: seq<byte>) | Integer(i: Int64) | Real(f: Float64) | Instant(t: Timestamp)

  /** The four kinds the type switch has a case for. */
  predicate Recognised(v: DbValue)
  {
    v.Bytes? || v.Int? || v.Float? || v.Time?
  }

  /** The response cell for one value, or nothing for a kind without a case. */
  function Project(v: DbValue): (r: Option<Cell>)
    ensures r.Some? <==> Recognised(v)
  {
    match v
    case Bytes(b) => Some(Str(b))
    case Int(i) => Some(Integer(i))
    case Float(f) => Some(Real(f))
    case Time(t) => Some(Instant(t))
    case _ => None
  }

  /** The driver value a cell is read from: the inverse of `Project`. */
  function Embed(c: Cell): DbValue
  {
    match c
    case Str(b) => Bytes(b)
    case Integer(i) => Int(i)
    case Real(f) => Float(f)
    case Instant(t) => Time(t)
  }

  /** One row's cells: the recognised values, in column order. */
  function ProjectRow(row: seq<DbValue>): (r: seq<Cell>)
    ensures |r| <= |row|
    ensures |r| == |row| <==> forall i :: 0 <= i < |row| ==> Recognised(row[i])
  {
    if |row| == 0 then []
    else
      var rest := ProjectRow(row[1..]);
      assert forall i :: 1 <= i < |row| ==> row[i] == row[1..][i - 1];
      match Project(row[0])
      case Some(c) => [c] + rest
      case None => rest
  }

  /** Projection works value by value, so it keeps the order of the kept values. */
  lemma {:induction false} ProjectRowAppend(a: seq<DbValue>, b: seq<DbValue>)
    ensures ProjectRow(a + b) == ProjectRow(a) + ProjectRow(b)
  {
    if |a| == 0 {
      assert a + b == b;
    } else {
      assert (a + b)[1..] == a[1..] + b;
      ProjectRowAppend(a[1..], b);
    }
  }

  /** Scanning one more value appends its cell, or nothing. */
  lemma ProjectRowSnoc(a: seq<DbValue>, v: DbValue)
    ensures ProjectRow(a + [v]) == ProjectRow(a) + (if Recognised(v) then [Project(v).value] else [])
  {
    ProjectRowAppend(a, [v]);
    assert [v][1..] == [];
  }

  function EmbedRow(cells: seq<Cell>): (r: seq<DbValue>)
    ensures |r| == |cells|
  {
    if |cells| == 0 then [] else [Embed(cells[0])] + EmbedRow(cells[1..])
  }

  /** Every recognised kind survives projection unchanged: projecting the
      driver values the cells came from gives back the cells. */
  lemma {:induction false} ProjectEmbedRoundTrip(cells: seq<Cell>)
    ensures ProjectRow(EmbedRow(cells)) == cells
  {
    if |cells| > 0 {
      ProjectEmbedRoundTrip(cells[1..]);
      assert EmbedRow(cells)[1..] == EmbedRow(cells[1..]);
    }
  }

  /** A NULL or an unknown kind leaves no trace, so a later value moves into
      the earlier value's position. */
  lemma NullShiftsLaterValues(b: seq<byte>)
    ensures ProjectRow([Null, Bytes(b)]) == [Str(b)]
    ensures ProjectRow([Other("bool"), Null]) == []
  {
  }

  /** The number of rows whose scan succeeded. */
  function ScannedCount(scans: seq<Option<seq<DbValue>>>): nat
  {
    if |scans| == 0 then 0 else (if scans[0].Some? then 1 else 0) + ScannedCount(scans[1..])
  }

  /** The response rows: one per successfully scanned row, in result order. */
  function ProjectPage(scans: seq<Option<seq<DbValue>>>): (r: seq<seq<Cell>>)
    ensures |r| == ScannedCount(scans)
    ensures |r| == 0 <==> forall i :: 0 <= i < |scans| ==> scans[i].None?
  {
    if |scans| == 0 then []
    else
      var rest := ProjectPage(scans[1..]);
      assert forall i :: 1 <= i < |scans| ==> scans[i] == scans[1..][i - 1];
      match scans[0]
      case Some(row) => [ProjectRow(row)] + rest
      case None => rest
  }

  lemma {:induction false} ProjectPageAppend(a: seq<Option<seq<DbValue>>>, b: seq<Option<seq<DbValue>>>)
    ensures ProjectPage(a + b) == ProjectPage(a) + ProjectPage(b)
  {
    if |a| == 0 {
      assert a + b == b;
    } else {
      assert (a + b)[1..] == a[1..] + b;
      ProjectPageAppend(a[1..], b);
    }
  }

  /** Appending a scanned row appends its projection; a failed scan adds nothing. */
  lemma ProjectPageSnoc(scans: seq<Option<seq<DbValue>>>, next: Option<seq<DbValue>>)
    ensures ProjectPage(scans + [next]) ==
              ProjectPage(scans) + (if next.Some? then [ProjectRow(next.value)] else [])
  {
    ProjectPageAppend(scans, [next]);
    assert [next][1..] == [];
  }

  /** The row loop as the code runs it: a fresh cell list per scanned row, each
      value appended when its kind has a case (datatables.go:212-241). */
  method ProjectScannedRows(scans: seq<Option<seq<DbValue>>>) returns (result: seq<seq<Cell>>)
    ensures result == ProjectPage(scans)
  {
    result := [];
    var k := 0;
    while k < |scans|
      invariant 0 <= k <= |scans|
      invariant result == ProjectPage(scans[..k])
    {
      ProjectPageSnoc(scans[..k], scans[k]);
      assert scans[..k + 1] == scans[..k] + [scans[k]];
      if scans[k].Some? {
        var row := scans[k].value;
        var m: seq<Cell> := [];
        var i := 0;
        while i < |row|
          invariant 0 <= i <= |row|
          invariant m == ProjectRow(row[..i])
        {
          ProjectRowSnoc(row[..i], row[i]);
          assert row[..i + 1] == row[..i] + [row[i]];
          match row[i] {
            case Bytes(b) => m := m + [Str(b)];
            case Int(n) => m := m + [Integer(n)];
            case Float(f) => m := m + [Real(f)];
            case Time(t) => m := m + [Instant(t)];
            case _ =>
          }
          i := i + 1;
        }
        assert row[..|row|] == row;
        result := result + [m];
      }
      k := k + 1;
    }
    assert scans[..|scans|] == scans;
  }
}
