/**
 * The drivers' own batches: PostgreSQL's COPY and ODBC's parameter arrays stand in for the row loop when the database
 * does with what arrives what it does with the bound row.
 */
module BatchPaths {
  import opened Values
  import opened Batch
  import opened BatchContext
  import W = CopyWriter
  import R = CopyReader
  import A = ColumnArrays

  ghost predicate AllStorable(values: Row) { forall i :: 0 <= i < |values| ==> W.Storable(values[i]) }

  ghost predicate AllSendable(values: Row) { forall i :: 0 <= i < |values| ==> A.Sendable(values[i]) }

  lemma {:induction false} FlatAll(rows: seq<Row>)
    ensures (forall r :: 0 <= r < |rows| ==> AllStorable(rows[r])) ==> AllStorable(Flat(rows))
    ensures (forall r :: 0 <= r < |rows| ==> AllSendable(rows[r])) ==> AllSendable(Flat(rows))
    decreases |rows|
  {
    if rows != [] { FlatAll(rows[..|rows| - 1]); }
  }

  /** Row `r` of the flat values of some rows. */
  lemma FlatRow(rows: seq<Row>, columns: nat, r: nat)
    requires Rectangular(rows, columns) && r < |rows|
    ensures (r + 1) * columns <= |Flat(rows)| && r * columns + columns == (r + 1) * columns
    ensures Flat(rows)[r * columns..][..columns] == rows[r]
  {
    FlatRoundTrip(rows, columns);
    RowInside(r, |rows|, columns);
    NthRow(Flat(rows), columns, |rows|, r);
  }

  lemma {:induction false} NthRow(flat: Row, columns: nat, rows: nat, r: nat)
    requires rows * columns <= |flat| && r < rows
    ensures (r + 1) * columns <= |flat| && RowsOf(flat, columns, rows)[r] == RowAt(flat, columns, r)
    decreases rows
  {
    hide RowAt;
    RowInside(rows - 1, rows, columns);
    if r < rows - 1 { NthRow(flat, columns, rows - 1, r); }
  }

  // ---------------------------------------------------------------------------------------------
  // COPY
  // ---------------------------------------------------------------------------------------------

  /** The server reads the stream of the rows and inserts each text row; the driver reports the number of rows. */
  ghost function CopyStep<T>(format: W.Formats, insert: (T, W.Row) -> Option<(T, nat)>): Step<T> {
    (t: T, flat: Row, columns: nat, rows: nat) =>
      if rows * columns <= |flat| && AllStorable(flat) then
        match R.ReadRows(W.Stream(W.RowsOf(format, flat, columns, rows)))
        case None => None
        case Some(received) =>
          match Run(insert, t, received)
          case None => None
          case Some((u, _)) => Some((u, rows))
      else None
  }

  /** The statement and the copy do the same with every row: text is converted to the column's type as the bound value is. */
  ghost predicate Understands<T(!new)>(f: Effect<T>, format: W.Formats, insert: (T, W.Row) -> Option<(T, nat)>) {
    forall t: T, row: Row | AllStorable(row) :: f(t, row) == insert(t, W.Meanings(format, row))
  }

  /** A bulk insert by COPY leaves the table that the row loop leaves. */
  lemma CopyLands<T(!new)>(f: Effect<T>, format: W.Formats, insert: (T, W.Row) -> Option<(T, nat)>, kind: Kind, columns: seq<Column>,
                           entities: seq<Row>)
    requires Conform(columns, entities) && Understands(f, format, insert)
    requires forall i :: 0 <= i < |entities| ==> AllStorable(RowOf(kind, columns, entities[i]))
    ensures LandsLike(f, Some(CopyStep(format, insert)), kind, columns, entities)
  {
    hide RowOf, Run, CopyStep, Understands, ColumnCount;
    if ColumnCount(kind, columns) > 0 {
      forall t: T, n: nat, m: nat | n + m <= |entities| && m > 0
        ensures SameTable(CopyStep(format, insert)(t, FlatPart(kind, columns, entities, n, m), ColumnCount(kind, columns), m),
                          Run(f, t, RowsFor(kind, columns, entities[n..][..m])))
      {
        RowsAreRectangular(kind, columns, entities[n..][..m]);
        CopiesRows(f, format, insert, t, RowsFor(kind, columns, entities[n..][..m]), ColumnCount(kind, columns));
      }
    }
  }

  lemma CopiesRows<T(!new)>(f: Effect<T>, format: W.Formats, insert: (T, W.Row) -> Option<(T, nat)>, t: T, rows: seq<Row>, columns: nat)
    requires Rectangular(rows, columns) && columns > 0 && (forall r :: 0 <= r < |rows| ==> AllStorable(rows[r]))
    requires Understands(f, format, insert)
    ensures SameTable(CopyStep(format, insert)(t, Flat(rows), columns, |rows|), Run(f, t, rows))
  {
    hide Run, Flat, W.RowsOf, W.Stream, R.ReadRows, W.Meanings, W.RowAt;
    FlatAll(rows);
    FlatLength(rows, columns);
    var texts := W.RowsOf(format, Flat(rows), columns, |rows|);
    forall r | 0 <= r < |rows| ensures texts[r] == W.Meanings(format, rows[r]) && texts[r] != [] {
      CopiedRow(format, rows, columns, r);
    }
    R.CopyRoundTrip(texts);
    assert forall u: T, r :: 0 <= r < |rows| ==> f(u, rows[r]) == insert(u, texts[r]);
    RunAlike(f, insert, t, rows, texts);
  }

  lemma CopiedRow(format: W.Formats, rows: seq<Row>, columns: nat, r: nat)
    requires Rectangular(rows, columns) && columns > 0 && (forall r :: 0 <= r < |rows| ==> AllStorable(rows[r])) && r < |rows|
    ensures AllStorable(Flat(rows)) && AllStorable(rows[r]) && |rows| * columns <= |Flat(rows)|
    ensures W.RowsOf(format, Flat(rows), columns, |rows|)[r] == W.Meanings(format, rows[r]) != []
  {
    hide W.RowsOf, W.Meaning;
    FlatAll(rows);
    FlatLength(rows, columns);
    FlatRow(rows, columns, r);
    R.RowIs(format, Flat(rows), columns, |rows|, r);
  }

  /**
   * The bulk insert itself: what is written, sent, read and inserted. Nothing lands when the copy breaks off, which it
   * does exactly when the connection takes too few buffers or the end of the copy is not accepted.
   */
  method CopyBatch<T>(format: W.Formats, insert: (T, W.Row) -> Option<(T, nat)>, table: T, flat: Row, columns: nat, rows: nat,
                      accepted: nat, completes: bool) returns (r: Option<(T, nat)>)
    requires W.PlainDoubles(format) && columns > 0 && rows * columns <= |flat| && AllStorable(flat)
    ensures var buffers := |W.Buffers(W.RowsOf(format, flat, columns, rows))|;
      && buffers <= rows
      && r == if completes && buffers <= accepted then CopyStep(format, insert)(table, flat, columns, rows) else None
  {
    hide Run, W.Stream, W.RowsOf, R.ReadRows, W.Joined, W.Buffers;
    W.BuffersAreStream(W.RowsOf(format, flat, columns, rows));
    var ok, sent := W.CopyRows(format, flat, columns, rows, accepted, completes);
    if !ok { return None; }
    var received := R.ReadRows(W.Joined(sent));
    if received == None { return None; }
    var run := Run(insert, table, received.value);
    if run == None { return None; }
    return Some((run.value.0, rows));
  }

  // ---------------------------------------------------------------------------------------------
  // Parameter arrays
  // ---------------------------------------------------------------------------------------------

  /** What ODBC carries of a row. */
  function Cells(row: Row): (cells: seq<A.Cell>)
    requires forall i :: 0 <= i < |row| ==> A.Sendable(row[i])
    ensures |cells| == |row|
  {
    seq(|row|, i requires 0 <= i < |row| => (assert A.Sendable(row[i]); A.Carried(row[i])))
  }

  function CellRows(flat: Row, columns: nat, rows: nat): (r: seq<seq<A.Cell>>)
    requires rows * columns <= |flat| && forall i :: 0 <= i < |flat| ==> A.Sendable(flat[i])
    ensures |r| == rows
  {
    seq(rows, i requires 0 <= i < rows => (RowInside(i, rows, columns); Cells(flat[i * columns..][..columns])))
  }

  /** The driver executes the statement with the cells of each row in turn. */
  ghost function ArrayStep<T>(execute: (T, seq<A.Cell>) -> Option<(T, nat)>): Step<T> {
    (t: T, flat: Row, columns: nat, rows: nat) =>
      if rows * columns <= |flat| && AllSendable(flat) then Run(execute, t, CellRows(flat, columns, rows)) else None
  }

  ghost predicate Carries<T(!new)>(f: Effect<T>, execute: (T, seq<A.Cell>) -> Option<(T, nat)>) {
    forall t: T, row: Row | AllSendable(row) :: f(t, row) == execute(t, Cells(row))
  }

  /** A batch by parameter arrays leaves the table that the row loop leaves. */
  lemma ArraysLand<T(!new)>(f: Effect<T>, execute: (T, seq<A.Cell>) -> Option<(T, nat)>, kind: Kind, columns: seq<Column>, entities: seq<Row>)
    requires Conform(columns, entities) && Carries(f, execute)
    requires forall i :: 0 <= i < |entities| ==> AllSendable(RowOf(kind, columns, entities[i]))
    ensures LandsLike(f, Some(ArrayStep(execute)), kind, columns, entities)
  {
    hide RowOf, Run, ArrayStep, Carries, ColumnCount;
    if ColumnCount(kind, columns) > 0 {
      forall t: T, n: nat, m: nat | n + m <= |entities| && m > 0
        ensures SameTable(ArrayStep(execute)(t, FlatPart(kind, columns, entities, n, m), ColumnCount(kind, columns), m),
                          Run(f, t, RowsFor(kind, columns, entities[n..][..m])))
      {
        RowsAreRectangular(kind, columns, entities[n..][..m]);
        CarriesRows(f, execute, t, RowsFor(kind, columns, entities[n..][..m]), ColumnCount(kind, columns));
      }
    }
  }

  lemma CarriesRows<T(!new)>(f: Effect<T>, execute: (T, seq<A.Cell>) -> Option<(T, nat)>, t: T, rows: seq<Row>, columns: nat)
    requires Rectangular(rows, columns) && (forall r :: 0 <= r < |rows| ==> AllSendable(rows[r])) && Carries(f, execute)
    ensures ArrayStep(execute)(t, Flat(rows), columns, |rows|) == Run(f, t, rows)
  {
    hide Run, Flat, Cells;
    FlatAll(rows);
    FlatLength(rows, columns);
    var cells := CellRows(Flat(rows), columns, |rows|);
    forall r | 0 <= r < |rows| ensures cells[r] == Cells(rows[r]) { FlatRow(rows, columns, r); }
    assert forall u: T, r :: 0 <= r < |rows| ==> f(u, rows[r]) == execute(u, cells[r]);
    RunAlike(f, execute, t, rows, cells);
  }

  /** The batch itself: both passes fill the arrays, and the driver reads row after row out of them. */
  method ArrayBatch<T>(execute: (T, seq<A.Cell>) -> Option<(T, nat)>, table: T, flat: Row, columns: nat, rows: nat, kinds: seq<A.Kind>)
    returns (r: Option<(T, nat)>)
    requires rows * columns <= |flat| && |kinds| == columns && AllSendable(flat)
    requires forall c :: 0 <= c < columns ==> A.Homogeneous(A.Column(flat, columns, rows, c), kinds[c])
    ensures r == ArrayStep(execute)(table, flat, columns, rows)
  {
    hide Run, A.ReadCell, A.Column, A.Homogeneous, A.Carried;
    var arrays := A.FillColumns(flat, columns, rows, kinds);
    var t, total := table, 0;
    var row := 0;
    ghost var cells := CellRows(flat, columns, rows);
    NothingYet(execute, table);
    assert cells[..0] == [];
    while row < rows
      invariant row <= rows && Run(execute, table, cells[..row]) == Some((t, total))
    {
      var read := ReadRow(arrays, flat, columns, rows, kinds, row);
      assert cells[..row + 1] == cells[..row] + [read];
      RunInParts(execute, table, cells[..row], [read]);
      RunSingle(execute, t, read);
      var outcome := execute(t, read);
      if outcome == None {
        assert cells == cells[..row + 1] + cells[row + 1..];
        RunFailsEarly(execute, table, cells[..row + 1], cells[row + 1..]);
        return None;
      }
      t := outcome.value.0;
      total := total + outcome.value.1;
      row := row + 1;
    }
    assert cells[..rows] == cells;
    return Some((t, total));
  }

  lemma NothingYet<T, X>(f: (T, X) -> Option<(T, nat)>, t: T)
    ensures Run(f, t, []) == Some((t, 0))
  {
  }

  method ReadRow(arrays: seq<A.ColArrays>, flat: Row, columns: nat, rows: nat, kinds: seq<A.Kind>, r: nat) returns (cells: seq<A.Cell>)
    requires rows * columns <= |flat| && |kinds| == |arrays| == columns && r < rows && AllSendable(flat)
    requires forall c :: 0 <= c < columns ==> A.Done(arrays[c], A.Column(flat, columns, rows, c), rows, kinds[c])
    ensures cells == CellRows(flat, columns, rows)[r]
  {
    hide A.ReadCell, A.Carried, A.Column, A.Sendable;
    RowInside(r, rows, columns);
    cells := [];
    ghost var row := flat[r * columns..][..columns];
    assert forall i :: 0 <= i < |row| ==> row[i] == flat[r * columns + i];
    for c := 0 to columns
      invariant |cells| == c && forall i :: 0 <= i < c ==> cells[i] == Cells(row)[i]
    {
      A.ColumnAt(flat, columns, rows, c, r);
      cells := cells + [A.ReadCell(arrays[c], rows, r, kinds[c])];
    }
    assert cells == Cells(row);
  }
}
