/** Inserting, updating and deleting many entities in chunks. An entity is the row of its column values. */
module BatchContext {
  import opened Values
  import opened Batch

  datatype Column = Column(name: string, isPrimaryKey: bool, isAutoIncrement: bool)

  datatype Kind = Inserting | Updating

  /** An update has two groups of placeholders, its other columns and then its keys; an insert has only the first. */
  predicate InGroup(kind: Kind, c: Column, keys: bool) {
    if keys then kind == Updating && c.isPrimaryKey
    else if kind == Inserting then !c.isAutoIncrement
    else !c.isPrimaryKey
  }

  function Group(kind: Kind, columns: seq<Column>, entity: Row, keys: bool): Row
    requires |entity| == |columns|
  {
    if columns == [] then []
    else
      var n := |columns| - 1;
      Group(kind, columns[..n], entity[..n], keys) + if InGroup(kind, columns[n], keys) then [entity[n]] else []
  }

  /** The values at the placeholders of one entity. */
  function RowOf(kind: Kind, columns: seq<Column>, entity: Row): Row
    requires |entity| == |columns|
  {
    Group(kind, columns, entity, false) + Group(kind, columns, entity, true)
  }

  /** The column each placeholder of a group stands for, in the order of the generated statement. */
  function Names(kind: Kind, columns: seq<Column>, keys: bool): seq<string> {
    if columns == [] then []
    else
      var n := |columns| - 1;
      Names(kind, columns[..n], keys) + if InGroup(kind, columns[n], keys) then [columns[n].name] else []
  }

  function ColumnCount(kind: Kind, columns: seq<Column>): nat { |Names(kind, columns, false)| + |Names(kind, columns, true)| }

  /** Column `i` is the one of the placeholder `p` in its group, and the entity's value there is the one bound. */
  predicate Meets(kind: Kind, columns: seq<Column>, entity: Row, keys: bool, p: nat, i: nat)
    requires |entity| == |columns|
  {
    && i < |columns| && p < |Names(kind, columns, keys)| == |Group(kind, columns, entity, keys)|
    && InGroup(kind, columns[i], keys)
    && columns[i].name == Names(kind, columns, keys)[p] && entity[i] == Group(kind, columns, entity, keys)[p]
  }

  lemma {:induction false} GroupLength(kind: Kind, columns: seq<Column>, entity: Row, keys: bool)
    requires |entity| == |columns|
    ensures |Group(kind, columns, entity, keys)| == |Names(kind, columns, keys)|
    decreases |columns|
  {
    if columns != [] { GroupLength(kind, columns[..|columns| - 1], entity[..|columns| - 1], keys); }
  }

  /** Every placeholder is bound to the value of its own column. */
  lemma {:induction false} ValuesMeetTheirPlaceholders(kind: Kind, columns: seq<Column>, entity: Row, keys: bool, p: nat) returns (i: nat)
    requires |entity| == |columns| && p < |Names(kind, columns, keys)|
    ensures Meets(kind, columns, entity, keys, p, i)
    decreases |columns|
  {
    var n := |columns| - 1;
    GroupLength(kind, columns, entity, keys);
    GroupLength(kind, columns[..n], entity[..n], keys);
    if p < |Names(kind, columns[..n], keys)| {
      i := ValuesMeetTheirPlaceholders(kind, columns[..n], entity[..n], keys, p);
    } else {
      i := n;
    }
  }

  predicate Conform(columns: seq<Column>, entities: seq<Row>) { forall i :: 0 <= i < |entities| ==> |entities[i]| == |columns| }

  function RowsFor(kind: Kind, columns: seq<Column>, entities: seq<Row>): (rows: seq<Row>)
    requires Conform(columns, entities)
    ensures |rows| == |entities|
  {
    seq(|entities|, i requires 0 <= i < |entities| => RowOf(kind, columns, entities[i]))
  }

  method BuildRow(kind: Kind, columns: seq<Column>, entity: Row) returns (row: Row)
    requires |entity| == |columns|
    ensures row == RowOf(kind, columns, entity) && |row| == ColumnCount(kind, columns)
  {
    hide Names;
    GroupLength(kind, columns, entity, false);
    GroupLength(kind, columns, entity, true);
    var first, keys: Row := [], [];
    for i := 0 to |columns|
      invariant first == Group(kind, columns[..i], entity[..i], false) && keys == Group(kind, columns[..i], entity[..i], true)
    {
      assert columns[..i + 1][..i] == columns[..i] && entity[..i + 1][..i] == entity[..i];
      if InGroup(kind, columns[i], false) { first := first + [entity[i]]; }
      if InGroup(kind, columns[i], true) { keys := keys + [entity[i]]; }
    }
    assert columns[..|columns|] == columns && entity[..|columns|] == entity;
    row := first + keys;
  }

  // ---------------------------------------------------------------------------------------------
  // Flattening
  // ---------------------------------------------------------------------------------------------

  function Flat(rows: seq<Row>): Row { if rows == [] then [] else Flat(rows[..|rows| - 1]) + rows[|rows| - 1] }

  predicate Rectangular(rows: seq<Row>, columns: nat) { forall i :: 0 <= i < |rows| ==> |rows[i]| == columns }

  lemma {:induction false} FlatLength(rows: seq<Row>, columns: nat)
    requires Rectangular(rows, columns)
    ensures |Flat(rows)| == |rows| * columns
    decreases |rows|
  {
    if rows != [] {
      FlatLength(rows[..|rows| - 1], columns);
      RowInside(|rows| - 1, |rows|, columns);
    }
  }

  lemma {:induction false} RowsOfPrefix(a: Row, b: Row, columns: nat, count: nat)
    requires count * columns <= |a|
    ensures count * columns <= |a + b| && RowsOf(a + b, columns, count) == RowsOf(a, columns, count)
    decreases count
  {
    if count > 0 {
      RowInside(count - 1, count, columns);
      RowsOfPrefix(a, b, columns, count - 1);
      assert RowAt(a + b, columns, count - 1) == RowAt(a, columns, count - 1);
    }
  }

  /** Reading the flat values row by row gives the rows back. */
  lemma {:induction false} FlatRoundTrip(rows: seq<Row>, columns: nat)
    requires Rectangular(rows, columns)
    ensures |Flat(rows)| == |rows| * columns && RowsOf(Flat(rows), columns, |rows|) == rows
    decreases |rows|
  {
    FlatLength(rows, columns);
    if rows != [] {
      var n := |rows| - 1;
      FlatRoundTrip(rows[..n], columns);
      RowInside(n, |rows|, columns);
      RowsOfPrefix(Flat(rows[..n]), rows[n], columns, n);
      assert RowAt(Flat(rows), columns, n) == rows[n];
      assert rows[..n] + [rows[n]] == rows;
    }
  }

  method Flatten(kind: Kind, columns: seq<Column>, entities: seq<Row>) returns (flat: Row)
    requires Conform(columns, entities)
    ensures flat == Flat(RowsFor(kind, columns, entities))
    ensures Rectangular(RowsFor(kind, columns, entities), ColumnCount(kind, columns))
  {
    hide RowOf, ColumnCount, RowsFor, Flat, Rectangular;
    flat := [];
    NothingFlat(kind, columns);
    assert entities[..0] == [];
    for r := 0 to |entities|
      invariant flat == Flat(RowsFor(kind, columns, entities[..r]))
      invariant Rectangular(RowsFor(kind, columns, entities[..r]), ColumnCount(kind, columns))
    {
      var row := BuildRow(kind, columns, entities[r]);
      FlatSnoc(kind, columns, entities, r);
      flat := flat + row;
    }
    assert entities[..|entities|] == entities;
  }

  lemma NothingFlat(kind: Kind, columns: seq<Column>)
    ensures Flat(RowsFor(kind, columns, [])) == [] && Rectangular(RowsFor(kind, columns, []), ColumnCount(kind, columns))
  {
  }

  lemma FlatSnoc(kind: Kind, columns: seq<Column>, entities: seq<Row>, r: nat)
    requires Conform(columns, entities) && r < |entities|
    ensures var row := RowOf(kind, columns, entities[r]);
      && Flat(RowsFor(kind, columns, entities[..r + 1])) == Flat(RowsFor(kind, columns, entities[..r])) + row
      && (Rectangular(RowsFor(kind, columns, entities[..r]), ColumnCount(kind, columns)) && |row| == ColumnCount(kind, columns)
          ==> Rectangular(RowsFor(kind, columns, entities[..r + 1]), ColumnCount(kind, columns)))
  {
    hide RowOf, ColumnCount;
    var rows, row := RowsFor(kind, columns, entities[..r]), RowOf(kind, columns, entities[r]);
    assert RowsFor(kind, columns, entities[..r + 1]) == rows + [row];
    assert (rows + [row])[..r] == rows;
  }

  // ---------------------------------------------------------------------------------------------
  // insert_many and update_many
  // ---------------------------------------------------------------------------------------------

  function ChunkSize(requested: nat, byDefault: nat): (n: nat)
    ensures n >= 1
  {
    if requested > 0 then requested else if byDefault > 0 then byDefault else 1000
  }

  /** Without columns nothing is executed on the array path. */
  function Executed(kind: Kind, columns: seq<Column>, entities: seq<Row>, arrays: bool): seq<Row>
    requires Conform(columns, entities)
  {
    if arrays && ColumnCount(kind, columns) == 0 then [] else RowsFor(kind, columns, entities)
  }

  lemma RowsForParts(kind: Kind, columns: seq<Column>, entities: seq<Row>, n: nat, m: nat)
    requires Conform(columns, entities) && n + m <= |entities|
    ensures Conform(columns, entities[..n]) && Conform(columns, entities[n..][..m]) && Conform(columns, entities[..n + m])
    ensures RowsFor(kind, columns, entities[..n + m]) == RowsFor(kind, columns, entities[..n]) + RowsFor(kind, columns, entities[n..][..m])
    ensures RowsFor(kind, columns, entities[..n]) <= RowsFor(kind, columns, entities)
  {
  }

  /** The run of a longer prefix is the run of the shorter one and then of the chunk between them. */
  lemma ChunkRuns<T>(f: Effect<T>, start: T, now: T, total: nat, kind: Kind, columns: seq<Column>, entities: seq<Row>, n: nat, m: nat)
    requires Conform(columns, entities) && n + m <= |entities|
    requires Run(f, start, Executed(kind, columns, entities[..n], true)) == Some((now, total))
    ensures Conform(columns, entities[n..][..m])
    ensures Run(f, start, Executed(kind, columns, entities[..n + m], true))
         == Then(f, Some((now, total)), Executed(kind, columns, entities[n..][..m], true))
    ensures Run(f, start, Executed(kind, columns, entities[..n + m], true)) == None ==> Run(f, start, Executed(kind, columns, entities, true)) == None
  {
    hide RowsFor, ColumnCount, Run;
    RowsForParts(kind, columns, entities, n, m);
    RowsForParts(kind, columns, entities, n + m, |entities| - n - m);
    assert entities[..n + m + (|entities| - n - m)] == entities;
    var done, part, rest := Executed(kind, columns, entities[..n], true), Executed(kind, columns, entities[n..][..m], true),
                            Executed(kind, columns, entities[n + m..][..|entities| - n - m], true);
    assert Executed(kind, columns, entities[..n + m], true) == done + part;
    assert Executed(kind, columns, entities, true) == done + part + rest;
    RunInParts(f, start, done, part);
    RunInParts(f, start, done + part, rest);
  }

  predicate SameTable<T(==)>(a: Option<(T, nat)>, b: Option<(T, nat)>) {
    (a == None <==> b == None) && (a.Some? ==> a.value.0 == b.value.0)
  }

  /** On the flat values of any chunk, from any table, the driver's own batch leaves the table that the rows one by one leave. */
  ghost predicate LandsLike<T(!new)>(f: Effect<T>, native: Option<Step<T>>, kind: Kind, columns: seq<Column>, entities: seq<Row>)
    requires Conform(columns, entities)
  {
    native.Some? && ColumnCount(kind, columns) > 0 ==>
      forall t: T, n: nat, m: nat :: n + m <= |entities| && m > 0 ==>
        SameTable(native.value(t, FlatPart(kind, columns, entities, n, m), ColumnCount(kind, columns), m),
                  Run(f, t, RowsFor(kind, columns, entities[n..][..m])))
  }

  function FlatPart(kind: Kind, columns: seq<Column>, entities: seq<Row>, n: nat, m: nat): Row
    requires Conform(columns, entities) && n + m <= |entities|
  {
    Flat(RowsFor(kind, columns, entities[n..][..m]))
  }

  /** The batch of one chunk leaves what the run over its rows leaves, and the loop of the library counts like it. */
  lemma ChunkLands<T(!new)>(f: Effect<T>, native: Option<Step<T>>, t: T, kind: Kind, columns: seq<Column>, entities: seq<Row>, n: nat, m: nat)
    requires Conform(columns, entities) && n + m <= |entities| && m > 0 && LandsLike(f, native, kind, columns, entities)
    ensures var flat := FlatPart(kind, columns, entities, n, m); var part := entities[n..][..m]; var count := ColumnCount(kind, columns);
      && m * count <= |flat|
      && Conform(columns, part)
      && SameTable(BatchOutcome(f, native, t, flat, count, m), Run(f, t, Executed(kind, columns, part, true)))
      && (native == None ==> BatchOutcome(f, native, t, flat, count, m) == Run(f, t, Executed(kind, columns, part, true)))
  {
    hide RowOf, Run, RowsOf, Flat, Names;
    var part := entities[n..][..m];
    RowsAreRectangular(kind, columns, part);
    FlatRoundTrip(RowsFor(kind, columns, part), ColumnCount(kind, columns));
    NothingRuns(f, t, kind, columns);
    if native.Some? && ColumnCount(kind, columns) > 0 {
      assert SameTable(native.value(t, FlatPart(kind, columns, entities, n, m), ColumnCount(kind, columns), m), Run(f, t, RowsFor(kind, columns, part)));
    }
  }

  lemma RowsAreRectangular(kind: Kind, columns: seq<Column>, entities: seq<Row>)
    requires Conform(columns, entities)
    ensures Rectangular(RowsFor(kind, columns, entities), ColumnCount(kind, columns))
  {
    hide Group, Names;
    forall i | 0 <= i < |entities| ensures |RowOf(kind, columns, entities[i])| == ColumnCount(kind, columns) {
      GroupLength(kind, columns, entities[i], false);
      GroupLength(kind, columns, entities[i], true);
    }
  }

  /**
   * The array path: chunk after chunk goes through `insert_many_batch`, the driver's own or the library's. The counts
   * are those of the run when the library's loop is used.
   */
  method RunChunks<T(!new)>(conn: Connection<T>, f: Effect<T>, native: Option<Step<T>>, kind: Kind, columns: seq<Column>, entities: seq<Row>, chunk: nat)
    returns (ok: bool, total: nat)
    requires chunk >= 1 && Conform(columns, entities) && LandsLike(f, native, kind, columns, entities)
    modifies conn`table
    ensures var run := Run(f, old(conn.table), Executed(kind, columns, entities, true));
      if ok then run.Some? && run.value.0 == conn.table && (native == None ==> run.value.1 == total) else run == None
  {
    hide RowOf, RowsFor, ColumnCount, RowsOf, Flat, Run, LandsLike, BatchOutcome, Executed;
    var count := ColumnCount(kind, columns);
    var offset := 0;
    total := 0;
    ghost var counted := 0;
    NothingRuns(f, conn.table, kind, columns);
    assert entities[..0] == [];
    while offset < |entities|
      invariant offset <= |entities|
      invariant Run(f, old(conn.table), Executed(kind, columns, entities[..offset], true)) == Some((conn.table, counted))
      invariant native == None ==> counted == total
    {
      var size := if chunk <= |entities| - offset then chunk else |entities| - offset;
      ghost var now := conn.table;
      ChunkRuns(f, old(conn.table), now, counted, kind, columns, entities, offset, size);
      var part := entities[offset..][..size];
      var flat := Flatten(kind, columns, part);
      ChunkLands(f, native, now, kind, columns, entities, offset, size);
      assert flat == FlatPart(kind, columns, entities, offset, size);
      var r := conn.InsertBatch(f, native, flat, count, size);
      if !r.Ok? { return false, 0; }
      counted := counted + Run(f, now, Executed(kind, columns, part, true)).value.1;
      total := total + r.total;
      offset := offset + size;
    }
    assert entities[..offset] == entities;
    ok := true;
  }

  lemma NothingRuns<T>(f: Effect<T>, table: T, kind: Kind, columns: seq<Column>)
    ensures Run(f, table, []) == Some((table, 0)) && Executed(kind, columns, [], true) == []
  {
  }

  /** The other path: one statement bound and executed for each entity. */
  method RunRows<T>(conn: Connection<T>, f: Effect<T>, kind: Kind, columns: seq<Column>, entities: seq<Row>) returns (ok: bool, total: nat)
    requires Conform(columns, entities)
    modifies conn`table
    ensures var run := Run(f, old(conn.table), RowsFor(kind, columns, entities));
      if ok then run == Some((conn.table, total)) else run == None
  {
    hide RowOf, RowsFor, Run;
    total := 0;
    var next := 0;
    NoRows(f, conn.table, kind, columns);
    assert entities[..0] == [];
    while next < |entities|
      invariant next <= |entities|
      invariant Run(f, old(conn.table), RowsFor(kind, columns, entities[..next])) == Some((conn.table, total))
    {
      var row := BuildRow(kind, columns, entities[next]);
      OneMore(f, old(conn.table), kind, columns, entities, next);
      var outcome := f(conn.table, row);
      if outcome == None { return false, 0; }
      conn.table := outcome.value.0;
      total := total + outcome.value.1;
      next := next + 1;
    }
    assert entities[..next] == entities;
    ok := true;
  }

  lemma NoRows<T>(f: Effect<T>, table: T, kind: Kind, columns: seq<Column>)
    ensures Run(f, table, RowsFor(kind, columns, [])) == Some((table, 0))
  {
  }

  lemma OneMore<T>(f: Effect<T>, start: T, kind: Kind, columns: seq<Column>, entities: seq<Row>, n: nat)
    requires Conform(columns, entities) && n < |entities|
    ensures var next := Run(f, start, RowsFor(kind, columns, entities[..n + 1]));
      && (match Run(f, start, RowsFor(kind, columns, entities[..n]))
          case None => next == None
          case Some((t, total)) =>
            match f(t, RowOf(kind, columns, entities[n]))
            case None => next == None
            case Some((u, count)) => next == Some((u, total + count)))
      && (next == None ==> Run(f, start, RowsFor(kind, columns, entities)) == None)
  {
    hide RowOf;
    var rows := RowsFor(kind, columns, entities);
    assert RowsFor(kind, columns, entities[..n]) == rows[..n] && RowsFor(kind, columns, entities[..n + 1]) == rows[..n + 1];
    assert rows[..n + 1][..n] == rows[..n];
    assert rows == rows[..n + 1] + rows[n + 1..];
    RunInParts(f, start, rows[..n + 1], rows[n + 1..]);
  }

  datatype ManyResult = Done(total: nat) | NoKey | DbFailed

  /** What a call comes to, from a table: its result and the table it leaves. */
  function ManyOutcome<T>(f: Effect<T>, table: T, kind: Kind, columns: seq<Column>, entities: seq<Row>, arrays: bool, commits: bool): (ManyResult, T)
    requires Conform(columns, entities)
  {
    if entities == [] then (Done(0), table)
    else if kind == Updating && Names(kind, columns, true) == [] then (NoKey, table)
    else
      var run := Run(f, table, Executed(kind, columns, entities, arrays));
      if run.Some? && commits then (Done(run.value.1), run.value.0) else (DbFailed, table)
  }

  /**
   * `insert_many` and `update_many`: the table ends as the row loop leaves it, or as it was, whatever the chunk
   * size and whatever faithful batch the driver has. `commits` and `rollsBack` tell whether the commit and the
   * rollback succeed; a rollback that fails leaves the transaction open, and the database keeps the table it was.
   */
  method ExecuteMany<T(!new)>(conn: Connection<T>, f: Effect<T>, native: Option<Step<T>>, kind: Kind, columns: seq<Column>, entities: seq<Row>,
                        requested: nat, byDefault: nat, arrays: bool, commits: bool, rollsBack: bool) returns (r: ManyResult)
    requires conn.saved == None && Conform(columns, entities) && (arrays ==> LandsLike(f, native, kind, columns, entities))
    modifies conn
    ensures conn.saved == None || (r == DbFailed && !rollsBack && conn.saved == Some(old(conn.table)))
    ensures var outcome := ManyOutcome(f, old(conn.table), kind, columns, entities, arrays, commits);
      && conn.Kept() == outcome.1
      && (r.Done? <==> outcome.0.Done?) && (r.NoKey? <==> outcome.0.NoKey?)
      && (!arrays || native == None ==> r == outcome.0)
    ensures !r.Done? ==> conn.Kept() == old(conn.table)
  {
    hide RowsFor, ColumnCount, Run, Names, LandsLike, Executed;
    if entities == [] { return Done(0); }
    var chunk := ChunkSize(requested, byDefault);
    if kind == Updating && Names(kind, columns, true) == [] { return NoKey; }
    PathOfRows(kind, columns, entities);
    var txn := new Transaction(conn);
    var ok, total;
    if arrays { ok, total := RunChunks(conn, f, native, kind, columns, entities, chunk); }
    else { ok, total := RunRows(conn, f, kind, columns, entities); }
    if ok { txn.Commit(commits); }
    r := if txn.committed then Done(total) else DbFailed;
    txn.Destroy(rollsBack);
  }

  lemma PathOfRows(kind: Kind, columns: seq<Column>, entities: seq<Row>)
    requires Conform(columns, entities)
    ensures Executed(kind, columns, entities, false) == RowsFor(kind, columns, entities)
  {
  }

  // ---------------------------------------------------------------------------------------------
  // When the two paths agree
  // ---------------------------------------------------------------------------------------------

  /** A statement that always succeeds and touches one row; its table is the number of executions. */
  function CountExecution(t: nat, row: Row): Option<(nat, nat)> { Some((t + 1, 1)) }

  lemma {:induction false} CountsExecutions(t: nat, rows: seq<Row>)
    ensures Run(CountExecution, t, rows) == Some((t + |rows|, |rows|))
    decreases |rows|
  {
    if rows != [] { CountsExecutions(t, rows[..|rows| - 1]); }
  }

  /** The result and the table of a call are the same by arrays as row by row, for every statement, table and commit. */
  ghost predicate PathsAgree(kind: Kind, columns: seq<Column>, entities: seq<Row>)
    requires Conform(columns, entities)
  {
    forall f: Effect<nat>, t: nat, commits: bool ::
      ManyOutcome(f, t, kind, columns, entities, true, commits) == ManyOutcome(f, t, kind, columns, entities, false, commits)
  }

  /**
   * The array path does what the row loop does exactly when there is nothing to do or a column to write, which an
   * update with a key always has. Otherwise an insert reports success and inserts nothing.
   */
  lemma PathsAgreeIffColumns(kind: Kind, columns: seq<Column>, entities: seq<Row>)
    requires Conform(columns, entities)
    ensures PathsAgree(kind, columns, entities) <==> entities == [] || kind == Updating || ColumnCount(kind, columns) > 0
    ensures entities != [] && kind == Inserting && ColumnCount(kind, columns) == 0 ==>
      && ManyOutcome(CountExecution, 0, kind, columns, entities, true, true) == (Done(0), 0)
      && ManyOutcome(CountExecution, 0, kind, columns, entities, false, true) == (Done(|entities|), |entities|)
  {
    hide RowsFor, Run, ManyOutcome;
    PathOfRows(kind, columns, entities);
    if entities == [] || kind == Updating || ColumnCount(kind, columns) > 0 {
      forall f: Effect<nat>, t: nat, commits: bool
        ensures ManyOutcome(f, t, kind, columns, entities, true, commits) == ManyOutcome(f, t, kind, columns, entities, false, commits)
      {
        SameRowsSameOutcome(f, t, kind, columns, entities, commits);
      }
    } else {
      InsertsNothing(kind, columns, entities);
      assert ManyOutcome(CountExecution, 0, kind, columns, entities, true, true) != ManyOutcome(CountExecution, 0, kind, columns, entities, false, true);
    }
  }

  lemma SameRowsSameOutcome<T>(f: Effect<T>, t: T, kind: Kind, columns: seq<Column>, entities: seq<Row>, commits: bool)
    requires Conform(columns, entities) && (entities == [] || kind == Updating || ColumnCount(kind, columns) > 0)
    ensures ManyOutcome(f, t, kind, columns, entities, true, commits) == ManyOutcome(f, t, kind, columns, entities, false, commits)
  {
    hide RowsFor, Run;
  }

  lemma InsertsNothing(kind: Kind, columns: seq<Column>, entities: seq<Row>)
    requires Conform(columns, entities) && entities != [] && kind == Inserting && ColumnCount(kind, columns) == 0
    ensures ManyOutcome(CountExecution, 0, kind, columns, entities, true, true) == (Done(0), 0)
    ensures ManyOutcome(CountExecution, 0, kind, columns, entities, false, true) == (Done(|entities|), |entities|)
  {
    hide RowsFor, Run, ColumnCount, Names;
    CountsExecutions(0, []);
    CountsExecutions(0, RowsFor(kind, columns, entities));
  }

  /** The failing input: one auto-increment column and one entity. The row loop inserts one row, the array path none. */
  lemma AutoIncrementTableGetsNothing(value: BoundValue)
    ensures var columns, entities := [Column("id", true, true)], [[value]];
      && Conform(columns, entities)
      && ManyOutcome(CountExecution, 0, Inserting, columns, entities, true, true) == (Done(0), 0)
      && ManyOutcome(CountExecution, 0, Inserting, columns, entities, false, true) == (Done(1), 1)
  {
    hide Run, RowsFor;
    var columns, entities := [Column("id", true, true)], [[value]];
    assert columns[..0] == [];
    assert Names(Inserting, columns, false) == [] && Names(Inserting, columns, true) == [];
    InsertsNothing(Inserting, columns, entities);
  }

  // ---------------------------------------------------------------------------------------------
  // delete_many
  // ---------------------------------------------------------------------------------------------

  /** A table by its primary key; no key is NULL. */
  type Keyed = map<BoundValue, Row>

  function Remaining(t: Keyed, ids: Row): (rest: Keyed)
    ensures rest.Keys <= t.Keys && |rest| <= |t|
  {
    var rest := map key | key in t && key !in ids :: t[key];
    SubsetCount(rest.Keys, t.Keys);
    assert |rest.Keys| == |rest| && |t.Keys| == |t|;
    rest
  }

  /** What deleting the rows with one of these keys does, and how many there were. */
  function Delete(t: Keyed, ids: Row): (Keyed, nat) { (Remaining(t, ids), |t| - |Remaining(t, ids)|) }

  /** A statement that deletes, unless the database refuses it. */
  function DeleteEffect(refuses: (Keyed, Row) -> bool): Effect<Keyed> {
    (t: Keyed, ids: Row) => if refuses(t, ids) then None else Some(Delete(t, ids))
  }

  lemma SubsetCount<T>(a: set<T>, b: set<T>)
    requires a <= b
    ensures |a| <= |b|
  {
    assert b == a + (b - a);
  }

  lemma DeleteInParts(t: Keyed, a: Row, b: Row)
    ensures Delete(t, a + b) == (Delete(Delete(t, a).0, b).0, Delete(t, a).1 + Delete(Delete(t, a).0, b).1)
  {
    assert Remaining(t, a + b) == Remaining(Remaining(t, a), b);
  }

  lemma DeleteNothing(t: Keyed)
    ensures Delete(t, []) == (t, 0)
  {
    assert Remaining(t, []) == t;
  }

  function Singles(ids: Row): (r: seq<Row>)
    ensures |r| == |ids|
  {
    seq(|ids|, i requires 0 <= i < |ids| => [ids[i]])
  }

  function Chunks(ids: Row, chunk: nat): seq<Row>
    requires chunk >= 1
  {
    if |ids| <= chunk then (if ids == [] then [] else [ids]) else [ids[..chunk]] + Chunks(ids[chunk..], chunk)
  }

  /** The keys of each statement: one by array binding, else a list for each chunk. */
  function Statements(ids: Row, chunk: nat, arrays: bool): seq<Row>
    requires chunk >= 1
  {
    if arrays then Singles(ids) else Chunks(ids, chunk)
  }

  lemma Associate<T>(a: seq<T>, b: seq<T>, c: seq<T>)
    ensures a + b + c == a + (b + c)
  {
  }

  lemma FlatAppend(a: seq<Row>, b: seq<Row>)
    ensures Flat(a + b) == Flat(a) + Flat(b)
  {
    if b == [] {
      assert a + b == a;
    } else {
      var n := |b| - 1;
      assert (a + b)[..|a + b| - 1] == a + b[..n];
      FlatAppend(a, b[..n]);
      Associate(Flat(a), Flat(b[..n]), b[n]);
    }
  }

  lemma FlatOne(row: Row)
    ensures Flat([row]) == row
  {
    assert [row][..0] == [];
  }

  /** The statements cover the keys, each once and in order. */
  lemma {:induction false} StatementsCover(ids: Row, chunk: nat, arrays: bool)
    requires chunk >= 1
    ensures Flat(Statements(ids, chunk, arrays)) == ids
    decreases |ids|
  {
    if arrays {
      if ids != [] {
        var n := |ids| - 1;
        StatementsCover(ids[..n], chunk, true);
        assert Singles(ids)[..n] == Singles(ids[..n]);
      }
    } else if |ids| <= chunk {
      FlatOne(ids);
    } else {
      StatementsCover(ids[chunk..], chunk, false);
      FlatAppend([ids[..chunk]], Chunks(ids[chunk..], chunk));
      FlatOne(ids[..chunk]);
    }
  }

  /** However the keys are spread over statements that succeed, deleting them all at once does the same. */
  lemma {:induction false} DeletesTogether(refuses: (Keyed, Row) -> bool, t: Keyed, statements: seq<Row>)
    ensures var run := Run(DeleteEffect(refuses), t, statements); run == None || run == Some(Delete(t, Flat(statements)))
    decreases |statements|
  {
    hide Delete;
    if statements == [] {
      DeleteNothing(t);
    } else {
      var n := |statements| - 1;
      DeletesTogether(refuses, t, statements[..n]);
      DeleteInParts(t, Flat(statements[..n]), statements[n]);
    }
  }

  lemma {:induction false} SinglesAreRows(part: Row)
    ensures RowsOf(part, 1, |part|) == Singles(part)
    decreases |part|
  {
    if part != [] {
      var n := |part| - 1;
      SinglesAreRows(part[..n]);
      RowsOfPrefix(part[..n], [part[n]], 1, n);
      assert part[..n] + [part[n]] == part;
      LastSingle(part);
      assert Singles(part) == Singles(part[..n]) + [[part[n]]];
    }
  }

  lemma LastSingle(part: Row)
    requires part != []
    ensures RowsOf(part, 1, |part|) == RowsOf(part, 1, |part| - 1) + [[part[|part| - 1]]]
  {
    assert RowAt(part, 1, |part| - 1) == [part[|part| - 1]];
  }

  /** What one turn of the loop over chunks executes, before the turns that follow. */
  lemma NextStatements(ids: Row, offset: nat, size: nat, chunk: nat, arrays: bool)
    requires chunk >= 1 && offset + size <= |ids| && size == (if chunk <= |ids| - offset then chunk else |ids| - offset) && size > 0
    ensures var part := ids[offset..][..size];
      Statements(ids[offset..], chunk, arrays) == (if arrays then Singles(part) else [part]) + Statements(ids[offset + size..], chunk, arrays)
  {
    var rest, part := ids[offset..], ids[offset..][..size];
    assert rest[size..] == ids[offset + size..];
    if arrays {
      assert Singles(rest) == Singles(part) + Singles(rest[size..]);
    } else if |rest| <= chunk {
      assert part == rest;
    }
  }

  datatype DeleteResult = Deleted(total: nat) | NoSingleKey | NotDone

  /**
   * `delete_many`: by array binding one key at a time, or by one statement with a list for each chunk. Either way
   * the rows with these keys are gone and counted, or nothing has changed: when a statement fails, or the commit.
   */
  method DeleteMany(conn: Connection<Keyed>, refuses: (Keyed, Row) -> bool, keyColumns: nat, ids: Row, requested: nat, byDefault: nat,
                    arrays: bool, commits: bool, rollsBack: bool) returns (r: DeleteResult)
    requires conn.saved == None
    modifies conn
    ensures conn.saved == None || (r == NotDone && !rollsBack && conn.saved == Some(old(conn.table)))
    ensures r == NoSingleKey <==> ids != [] && keyColumns != 1
    ensures r.Deleted? ==> conn.saved == None && (conn.table, r.total) == Delete(old(conn.table), ids)
    ensures !r.Deleted? ==> conn.Kept() == old(conn.table)
    ensures ids != [] && keyColumns == 1 ==>
      var statements := Statements(ids, ChunkSize(requested, byDefault), arrays);
      r.Deleted? <==> commits && Run(DeleteEffect(refuses), old(conn.table), statements).Some?
  {
    hide Run, RowsOf, Delete, Statements, Flat, DeleteEffect;
    DeleteNothing(conn.table);
    if ids == [] { return Deleted(0); }
    var chunk := ChunkSize(requested, byDefault);
    if keyColumns != 1 { return NoSingleKey; }
    ghost var start, f, all := conn.table, DeleteEffect(refuses), Statements(ids, chunk, arrays);
    var txn := new Transaction(conn);
    var ok, total := DeleteChunks(conn, refuses, ids, chunk, arrays);
    DeletesTogether(refuses, start, all);
    StatementsCover(ids, chunk, arrays);
    if ok { txn.Commit(commits); }
    r := if txn.committed then Deleted(total) else NotDone;
    txn.Destroy(rollsBack);
  }

  method DeleteChunks(conn: Connection<Keyed>, refuses: (Keyed, Row) -> bool, ids: Row, chunk: nat, arrays: bool) returns (ok: bool, total: nat)
    requires chunk >= 1
    modifies conn`table
    ensures var run := Run(DeleteEffect(refuses), old(conn.table), Statements(ids, chunk, arrays));
      if ok then run == Some((conn.table, total)) else run == None
  {
    hide Run, RowsOf, Delete, Statements, Singles;
    var f := DeleteEffect(refuses);
    ghost var done: seq<Row> := [];
    var offset := 0;
    total := 0;
    NoStatements(f, conn.table, chunk, arrays);
    assert ids[0..] == ids;
    while offset < |ids|
      invariant offset <= |ids|
      invariant done + Statements(ids[offset..], chunk, arrays) == Statements(ids, chunk, arrays)
      invariant Run(f, old(conn.table), done) == Some((conn.table, total))
    {
      var size := if chunk <= |ids| - offset then chunk else |ids| - offset;
      var part := ids[offset..][..size];
      ghost var now, next := conn.table, if arrays then Singles(part) else [part];
      NextStatements(ids, offset, size, chunk, arrays);
      RunInParts(f, old(conn.table), done, next);
      if arrays {
        SinglesAreRows(part);
        ghost var executed;
        var r;
        r, executed := conn.InsertManyBatch(f, part, 1, size);
        if !r.Ok? {
          RunFailsEarly(f, old(conn.table), done + next, Statements(ids[offset + size..], chunk, arrays));
          assert done + next + Statements(ids[offset + size..], chunk, arrays) == done + (next + Statements(ids[offset + size..], chunk, arrays));
          return false, 0;
        }
        total := total + r.total;
      } else {
        RunSingle(f, now, part);
        var outcome := f(conn.table, part);
        if outcome == None {
          RunFailsEarly(f, old(conn.table), done + next, Statements(ids[offset + size..], chunk, arrays));
          assert done + next + Statements(ids[offset + size..], chunk, arrays) == done + (next + Statements(ids[offset + size..], chunk, arrays));
          return false, 0;
        }
        conn.table := outcome.value.0;
        total := total + outcome.value.1;
      }
      assert done + next + Statements(ids[offset + size..], chunk, arrays) == done + (next + Statements(ids[offset + size..], chunk, arrays));
      done := done + next;
      offset := offset + size;
    }
    assert ids[offset..] == [];
    NoStatements(f, conn.table, chunk, arrays);
    assert done + [] == done;
    ok := true;
  }

  lemma NoStatements(f: Effect<Keyed>, t: Keyed, chunk: nat, arrays: bool)
    requires chunk >= 1
    ensures Run(f, t, []) == Some((t, 0)) && Statements([], chunk, arrays) == []
  {
  }
}
