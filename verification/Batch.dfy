/**
 * Many entities at once: chunks of flat values inside a transaction must do what the loop over single rows does,
 * completely or not at all. A prepared statement is known by its effect: the table after it and the rows it
 * touched, or none when it fails.
 */
module Batch {
  import opened Values

  type Row = seq<BoundValue>
  type Effect<!T> = (T, Row) -> Option<(T, nat)>
  type Step<!T> = (T, Row, nat, nat) -> Option<(T, nat)>

  /** The reference: the statement executed once for each row, in order; the counts add up. */
  function Run<T, R>(f: (T, R) -> Option<(T, nat)>, table: T, rows: seq<R>): Option<(T, nat)> {
    if rows == [] then Some((table, 0))
    else match Run(f, table, rows[..|rows| - 1])
      case None => None
      case Some((t, total)) =>
        match f(t, rows[|rows| - 1])
        case None => None
        case Some((u, count)) => Some((u, total + count))
  }

  function Then<T, R>(f: (T, R) -> Option<(T, nat)>, first: Option<(T, nat)>, rows: seq<R>): Option<(T, nat)> {
    match first
    case None => None
    case Some((t, total)) =>
      match Run(f, t, rows)
      case None => None
      case Some((u, count)) => Some((u, total + count))
  }

  /** Rows may be cut into two runs anywhere. */
  lemma {:induction false} RunInParts<T, R>(f: (T, R) -> Option<(T, nat)>, table: T, a: seq<R>, b: seq<R>)
    ensures Run(f, table, a + b) == Then(f, Run(f, table, a), b)
    decreases |b|
  {
    if b == [] {
      assert a + b == a;
    } else {
      var front := b[..|b| - 1];
      assert (a + b)[..|a + b| - 1] == a + front;
      RunInParts(f, table, a, front);
    }
  }

  lemma RunFailsEarly<T, R>(f: (T, R) -> Option<(T, nat)>, table: T, a: seq<R>, b: seq<R>)
    requires Run(f, table, a) == None
    ensures Run(f, table, a + b) == None
  {
    RunInParts(f, table, a, b);
  }

  /** Two statements that do the same to each row of two lists do the same to the lists. */
  lemma {:induction false} RunAlike<T, R, S>(f: (T, R) -> Option<(T, nat)>, g: (T, S) -> Option<(T, nat)>, table: T, a: seq<R>, b: seq<S>)
    requires |a| == |b| && forall t: T, i :: 0 <= i < |a| ==> f(t, a[i]) == g(t, b[i])
    ensures Run(f, table, a) == Run(g, table, b)
    decreases |a|
  {
    if a != [] {
      var n := |a| - 1;
      assert forall t: T, i :: 0 <= i < n ==> f(t, a[..n][i]) == g(t, b[..n][i]);
      RunAlike(f, g, table, a[..n], b[..n]);
      match Run(f, table, a[..n])
      case None =>
      case Some((t, _)) => assert f(t, a[n]) == g(t, b[n]);
    }
  }

  // ---------------------------------------------------------------------------------------------
  // Flat values
  // ---------------------------------------------------------------------------------------------

  lemma RowInside(r: nat, rows: nat, columns: nat)
    requires r < rows
    ensures r * columns + columns == (r + 1) * columns <= rows * columns
  {
    assert rows * columns == (r + 1) * columns + (rows - r - 1) * columns;
  }

  function RowAt(flat: Row, columns: nat, r: nat): Row
    requires (r + 1) * columns <= |flat|
  {
    assert r * columns + columns == (r + 1) * columns;
    flat[r * columns..][..columns]
  }

  function RowsOf(flat: Row, columns: nat, rows: nat): (result: seq<Row>)
    requires rows * columns <= |flat|
    ensures |result| == rows
  {
    if rows == 0 then []
    else
      RowInside(rows - 1, rows, columns);
      RowsOf(flat, columns, rows - 1) + [RowAt(flat, columns, rows - 1)]
  }

  /** The guard by division refuses exactly the values that are too few. */
  lemma GuardIsExact(length: nat, columns: nat, rows: nat)
    requires columns > 0
    ensures length / columns < rows <==> length < rows * columns
  {
    var q := length / columns;
    assert q * columns <= length < q * columns + columns;
    if q < rows { RowInside(q, rows, columns); }
    if q >= rows { assert q * columns == rows * columns + (q - rows) * columns; }
  }

  datatype Result = Ok(total: nat) | TooFewValues | Failed

  /** The first `done` rows lead to the table `now`, and the next one fails. */
  ghost predicate FailsAfter<T>(f: Effect<T>, start: T, flat: Row, columns: nat, rows: nat, done: nat, now: T) {
    && done < rows && rows * columns <= |flat| && done * columns <= |flat| && (done + 1) * columns <= |flat|
    && Run(f, start, RowsOf(flat, columns, done)).Some? && Run(f, start, RowsOf(flat, columns, done)).value.0 == now
    && Run(f, start, RowsOf(flat, columns, done + 1)) == None
    && Run(f, start, RowsOf(flat, columns, rows)) == None
  }

  lemma NoRows<T>(f: Effect<T>, table: T, flat: Row, columns: nat)
    ensures Run(f, table, RowsOf(flat, columns, 0)) == Some((table, 0))
  {
  }

  /** A connection to a database whose tables are one value; `saved` is their state when the transaction began. */
  class Connection<T> {
    var table: T
    var saved: Option<T>

    constructor (table: T)
      ensures this.table == table && saved == None
    {
      this.table := table;
      saved := None;
    }

    method Begin()
      requires saved == None
      modifies this`saved
      ensures saved == Some(table)
    {
      saved := Some(table);
    }

    /** A commit that fails leaves the transaction open. */
    method Commit(succeeds: bool)
      requires saved != None
      modifies this`saved
      ensures saved == if succeeds then None else old(saved)
    {
      if succeeds { saved := None; }
    }

    /** A rollback that fails leaves the transaction open. */
    method Rollback(succeeds: bool)
      requires saved != None
      modifies this
      ensures table == (if succeeds then old(saved).value else old(table)) && saved == if succeeds then None else old(saved)
    {
      if succeeds {
        table := saved.value;
        saved := None;
      }
    }

    /** The table the database keeps: without an open transaction's changes. */
    ghost function Kept(): T
      reads this
    {
      if saved.Some? then saved.value else table
    }

    /**
     * `insert_many_batch`: one prepared statement, bound and executed row by row. When a row fails, the `done` rows
     * before it have been executed and no other.
     */
    method InsertManyBatch(f: Effect<T>, flat: Row, columns: nat, rows: nat) returns (r: Result, ghost done: nat)
      modifies this`table
      ensures rows == 0 || columns == 0 ==> r == Ok(0) && table == old(table)
      ensures rows > 0 && columns > 0 && |flat| < rows * columns ==> r == TooFewValues && table == old(table)
      ensures rows > 0 && columns > 0 && |flat| >= rows * columns ==>
        var run := Run(f, old(table), RowsOf(flat, columns, rows));
        (r == Failed && run == None) || (r.Ok? && run == Some((table, r.total)))
      ensures r == Failed ==> FailsAfter(f, old(table), flat, columns, rows, done, table)
    {
      hide RowsOf, Run;
      if rows == 0 || columns == 0 { return Ok(0), 0; }
      GuardIsExact(|flat|, columns, rows);
      if |flat| / columns < rows { return TooFewValues, 0; }
      var ok, total;
      ok, total, done := ExecuteRows(f, flat, columns, rows);
      r := if ok then Ok(total) else Failed;
    }

    /** The loop over the rows. */
    method ExecuteRows(f: Effect<T>, flat: Row, columns: nat, rows: nat) returns (ok: bool, total: nat, ghost done: nat)
      requires rows * columns <= |flat|
      modifies this`table
      ensures if ok then Run(f, old(table), RowsOf(flat, columns, rows)) == Some((table, total))
              else FailsAfter(f, old(table), flat, columns, rows, done, table)
    {
      hide RowsOf, Run;
      var bound: Row := seq(columns, _ => Null);
      total := 0;
      var row := 0;
      NoRows(f, table, flat, columns);
      while row < rows
        invariant row <= rows && |bound| == columns
        invariant row * columns <= |flat| && Run(f, old(table), RowsOf(flat, columns, row)) == Some((table, total))
      {
        RowInside(row, rows, columns);
        bound := BindRow(bound, flat, row);
        RunOne(f, old(table), flat, columns, row);
        RunSingle(f, table, bound);
        var outcome := f(table, bound);
        if outcome == None {
          RowsGrow(flat, columns, row + 1, rows);
          RunFailsEarly(f, old(table), RowsOf(flat, columns, row + 1), RowsOf(flat, columns, rows)[row + 1..]);
          return false, 0, row;
        }
        table := outcome.value.0;
        total := total + outcome.value.1;
        row := row + 1;
      }
      return true, total, rows;
    }

    /**
     * The virtual call: a driver's own batch, known by what it leaves of the table and the count it reports, or the
     * loop above.
     */
    method InsertBatch(f: Effect<T>, native: Option<Step<T>>, flat: Row, columns: nat, rows: nat) returns (r: Result)
      requires rows * columns <= |flat|
      modifies this`table
      ensures var outcome := BatchOutcome(f, native, old(table), flat, columns, rows);
        (r == Failed && outcome == None) || (r.Ok? && outcome == Some((table, r.total)))
    {
      if native == None {
        ghost var done;
        r, done := InsertManyBatch(f, flat, columns, rows);
        return;
      }
      if rows == 0 || columns == 0 { return Ok(0); }
      var outcome := native.value(table, flat, columns, rows);
      if outcome == None { return Failed; }
      table := outcome.value.0;
      return Ok(outcome.value.1);
    }
  }

  function BatchOutcome<T>(f: Effect<T>, native: Option<Step<T>>, table: T, flat: Row, columns: nat, rows: nat): Option<(T, nat)>
    requires rows * columns <= |flat|
  {
    if rows == 0 || columns == 0 then Some((table, 0))
    else if native == None then Run(f, table, RowsOf(flat, columns, rows))
    else native.value(table, flat, columns, rows)
  }

  lemma RunOne<T>(f: Effect<T>, table: T, flat: Row, columns: nat, row: nat)
    requires (row + 1) * columns <= |flat|
    ensures row * columns <= |flat|
    ensures Run(f, table, RowsOf(flat, columns, row + 1))
         == Then(f, Run(f, table, RowsOf(flat, columns, row)), [RowAt(flat, columns, row)])
  {
    assert row * columns + columns == (row + 1) * columns;
    RunInParts(f, table, RowsOf(flat, columns, row), [RowAt(flat, columns, row)]);
  }

  lemma RunSingle<T, R>(f: (T, R) -> Option<(T, nat)>, table: T, row: R)
    ensures Run(f, table, [row]) == f(table, row)
  {
    assert [row][..0] == [];
  }

  lemma {:induction false} RowsGrow(flat: Row, columns: nat, some: nat, all: nat)
    requires some <= all && all * columns <= |flat|
    ensures some * columns <= |flat|
    ensures RowsOf(flat, columns, all) == RowsOf(flat, columns, some) + RowsOf(flat, columns, all)[some..]
    decreases all
  {
    if some < all {
      RowInside(all - 1, all, columns);
      RowsGrow(flat, columns, some, all - 1);
      var front, last := RowsOf(flat, columns, all - 1), RowAt(flat, columns, all - 1);
      assert (front + [last])[some..] == front[some..] + [last];
    } else {
      assert RowsOf(flat, columns, all)[some..] == [];
    }
  }

  method BindRow(before: Row, flat: Row, row: nat) returns (bound: Row)
    requires (row + 1) * |before| <= |flat|
    ensures bound == RowAt(flat, |before|, row)
  {
    var columns := |before|;
    assert row * columns + columns == (row + 1) * columns;
    bound := before;
    for c := 0 to columns
      invariant |bound| == columns
      invariant bound[..c] == flat[row * columns..][..c]
    {
      assert flat[row * columns..][..c + 1] == flat[row * columns..][..c] + [flat[row * columns + c]];
      bound := bound[c := flat[row * columns + c]];
      assert bound[..c + 1] == bound[..c] + [bound[c]];
    }
    assert bound[..columns] == bound;
  }

  // ---------------------------------------------------------------------------------------------
  // The transaction guard
  // ---------------------------------------------------------------------------------------------

  class Transaction<T> {
    const conn: Connection<T>
    var committed: bool

    ghost predicate Valid()
      reads this, conn
    {
      committed <==> conn.saved == None
    }

    constructor (conn: Connection<T>)
      requires conn.saved == None
      modifies conn`saved
      ensures this.conn == conn && Valid() && !committed
      ensures conn.saved == Some(conn.table)
    {
      this.conn := conn;
      committed := false;
      new;
      conn.Begin();
    }

    /** Commits once; later calls do nothing. */
    method Commit(succeeds: bool)
      requires Valid()
      modifies this`committed, conn`saved
      ensures Valid() && committed == (old(committed) || succeeds)
      ensures committed || conn.saved == old(conn.saved)
    {
      if !committed {
        conn.Commit(succeeds);
        committed := succeeds;
      }
    }

    /**
     * The destructor: what was not committed is rolled back. A rollback that throws is swallowed; it leaves the
     * transaction open, so the database keeps nothing of it either way.
     */
    method Destroy(rollsBack: bool)
      requires Valid()
      modifies conn
      ensures conn.Kept() == old(conn.Kept())
      ensures committed || rollsBack ==> conn.saved == None && conn.table == old(conn.Kept())
      ensures !committed && !rollsBack ==> conn.saved == old(conn.saved) && conn.table == old(conn.table)
    {
      if !committed { conn.Rollback(rollsBack); }
    }
  }
}
