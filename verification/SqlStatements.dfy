/** Whole statements: SELECT with common table expressions, set operations, joins, INSERT and UPDATE (src/sql_generator.cpp). */
module SqlStatements {
  import opened Values
  import opened Dialects
  import opened LayoutTree
  import opened SqlAst
  import opened SqlText
  import opened SqlGenerator
  import Decimal

  datatype GeneratedSql = GeneratedSql(sql: string, params: seq<BoundValue>, slots: seq<Slot>)

  datatype Cte = Cte(name: string, query: Select)

  datatype SelectQuery = SelectQuery(
    ctes: seq<Cte>, table: string, columns: seq<string>, where: Option<Expr>, orderBy: seq<Order>,
    limit: Option<nat>, offset: Option<nat>, distinct: bool, groupBy: seq<Expr>, having: Option<Expr>)

  datatype SetOp = Union | UnionAll | Intersect | Except

  datatype SetOpClause = SetOpClause(op: SetOp, query: Select)

  datatype SetQuery = SetQuery(
    base: Select, operations: seq<SetOpClause>, orderBy: seq<Order>, limit: Option<nat>, offset: Option<nat>)

  datatype Join = Join(words: string, table: string, on: Expr)

  datatype JoinQuery = JoinQuery(
    table: string, columns: seq<string>, joins: seq<Join>, joinedColumns: seq<(string, seq<string>)>, where: Option<Expr>,
    orderBy: seq<Order>, limit: Option<nat>, offset: Option<nat>, distinct: bool)

  /** A column to assign: its name, or the name the builder left in the table field. */
  datatype Assignment = Assignment(table: string, column: string, value: Expr)

  const WITH: PlainText := "WITH "
  const AS_SELECT: PlainText := " AS (SELECT "
  const GROUP_BY: PlainText := " GROUP BY "
  const HAVING: PlainText := " HAVING "
  const ORDER_BY_CLAUSE: PlainText := " ORDER BY "
  const ORDER_BY_NULL: PlainText := " ORDER BY (SELECT NULL)"
  const UNION: PlainText := " UNION "
  const UNION_ALL: PlainText := " UNION ALL "
  const INTERSECT: PlainText := " INTERSECT "
  const EXCEPT: PlainText := " EXCEPT "
  const ON: PlainText := " ON "
  const UPDATE: PlainText := "UPDATE "
  const SET: PlainText := " SET "
  const EQUALS: PlainText := " = "
  const INSERT_INTO: PlainText := "INSERT INTO "
  const OPEN_COLUMNS: PlainText := " ("
  const VALUES_OPEN: PlainText := " VALUES ("
  const DEFAULT_VALUES: PlainText := " DEFAULT VALUES"
  const OUTPUT_INSERTED: PlainText := " OUTPUT INSERTED."
  const RETURNING: PlainText := " RETURNING "

  // ---------------------------------------------------------------------------------------------
  // Paging text
  // ---------------------------------------------------------------------------------------------

  const LIMIT: PlainText := " LIMIT "
  const OFFSET: PlainText := " OFFSET "
  const ROWS: PlainText := " ROWS"
  const FETCH_NEXT: PlainText := " ROWS FETCH NEXT "
  const ROWS_ONLY: PlainText := " ROWS ONLY"
  const OFFSET_ZERO: PlainText := " OFFSET 0 ROWS FETCH NEXT "

  function Numeral(n: nat): Lexeme {
    var text := Decimal.ToString(n);
    assert Plain(text);
    Raw(text)
  }

  /** LIMIT and OFFSET; SQL Server refuses a limit of zero. */
  function Paging(d: Dialect, limit: Option<nat>, offset: Option<nat>): Option<seq<Lexeme>> {
    match d
    case Postgres =>
      Some((if limit.Some? then [Raw(LIMIT), Numeral(limit.value)] else [])
           + (if offset.Some? then [Raw(OFFSET), Numeral(offset.value)] else []))
    case Mssql =>
      if limit == Some(0) then None
      else if offset.Some? && limit.Some? then
        Some([Raw(OFFSET), Numeral(offset.value), Raw(FETCH_NEXT), Numeral(limit.value), Raw(ROWS_ONLY)])
      else if offset.Some? then Some([Raw(OFFSET), Numeral(offset.value), Raw(ROWS)])
      else if limit.Some? then Some([Raw(OFFSET_ZERO), Numeral(limit.value), Raw(ROWS_ONLY)])
      else Some([])
  }

  lemma PagingRefuses(d: Dialect, limit: Option<nat>, offset: Option<nat>)
    ensures Paging(d, limit, offset).None? <==> d.Mssql? && limit == Some(0)
  {
  }

  /** Whether `word` occurs in `s`. */
  predicate Contains(s: string, word: string) {
    word <= s || (s != "" && Contains(s[1..], word))
  }

  /** Whether the paging text mentions OFFSET. */
  predicate PrintsOffset(d: Dialect, limit: Option<nat>, offset: Option<nat>) {
    offset.Some? || (d.Mssql? && limit.Some?)
  }

  lemma WithoutIsAbsent(s: string, word: string)
    requires word != "" && word[0] !in s
    ensures !Contains(s, word)
  {
  }

  lemma ContainsInside(a: string, word: string, b: string)
    ensures Contains(a + word + b, word)
  {
    if a != "" {
      assert (a + word + b)[1..] == a[1..] + word + b;
      ContainsInside(a[1..], word, b);
    } else {
      assert a + word + b == word + b;
    }
  }

  /** Searching the printed paging text for OFFSET asks which clauses were given. */
  lemma FindOffset(d: Dialect, limit: Option<nat>, offset: Option<nat>)
    requires Paging(d, limit, offset).Some?
    ensures Contains(LexText(d, Paging(d, limit, offset).value), "OFFSET") <==> PrintsOffset(d, limit, offset)
  {
    if d.Postgres? { FindOffsetPostgres(limit, offset); } else { FindOffsetMssql(limit, offset); }
  }

  lemma FindOffsetPostgres(limit: Option<nat>, offset: Option<nat>)
    ensures Contains(LexText(Postgres, Paging(Postgres, limit, offset).value), "OFFSET") <==> offset.Some?
  {
    var front := if limit.Some? then [Raw(LIMIT), Numeral(limit.value)] else [];
    LimitOnly(limit);
    if offset.Some? {
      LexAppend(Postgres, front, [Raw(OFFSET), Numeral(offset.value)]);
      LexTwo(Postgres, Raw(OFFSET), Numeral(offset.value));
      OffsetFirst(LexText(Postgres, front), OFFSET, " ", Decimal.ToString(offset.value));
    } else {
      assert front + [] == front;
    }
  }

  lemma MssqlPaging(limit: Option<nat>, offset: Option<nat>)
    requires Paging(Mssql, limit, offset).Some?
    ensures var ls := Paging(Mssql, limit, offset).value;
      && (ls == [] <==> offset.None? && limit.None?)
      && (ls != [] ==> ls[0].Raw? && ls[0].text == " OFFSET" + if offset.Some? then " " else " 0 ROWS FETCH NEXT ")
  {
    hide Numeral;
  }

  lemma FindOffsetMssql(limit: Option<nat>, offset: Option<nat>)
    requires Paging(Mssql, limit, offset).Some?
    ensures Contains(LexText(Mssql, Paging(Mssql, limit, offset).value), "OFFSET") <==> (offset.Some? || limit.Some?)
  {
    hide LexText, Contains, Numeral;
    NoOffset();
    MssqlPaging(limit, offset);
    var ls := Paging(Mssql, limit, offset).value;
    if ls != [] { OffsetLeads(ls, if offset.Some? then " " else " 0 ROWS FETCH NEXT "); }
  }

  lemma NoOffset()
    ensures !Contains(LexText(Mssql, []), "OFFSET")
  {
    LexNone(Mssql);
  }

  lemma OffsetLeads(ls: seq<Lexeme>, middle: string)
    requires ls != [] && ls[0].Raw? && ls[0].text == " OFFSET" + middle
    ensures Contains(LexText(Mssql, ls), "OFFSET")
  {
    hide LexText, Contains;
    LexAppend(Mssql, [ls[0]], ls[1..]);
    assert ls == [ls[0]] + ls[1..];
    LexOne(Mssql, ls[0]);
    OffsetFirst("", ls[0].text, middle, LexText(Mssql, ls[1..]));
    assert "" + (ls[0].text + LexText(Mssql, ls[1..])) == ls[0].text + LexText(Mssql, ls[1..]);
  }

  lemma OffsetFirst(a: string, opening: string, middle: string, b: string)
    requires opening == " OFFSET" + middle
    ensures Contains(a + (opening + b), "OFFSET")
  {
    assert a + (opening + b) == (a + " ") + "OFFSET" + (middle + b);
    ContainsInside(a + " ", "OFFSET", middle + b);
  }

  lemma LimitOnly(limit: Option<nat>)
    ensures !Contains(LexText(Postgres, if limit.Some? then [Raw(LIMIT), Numeral(limit.value)] else []), "OFFSET")
  {
    if limit.Some? {
      LexTwo(Postgres, Raw(LIMIT), Numeral(limit.value));
      WithoutIsAbsent(" LIMIT " + Decimal.ToString(limit.value), "OFFSET");
    } else {
      LexNone(Postgres);
    }
  }

  // ---------------------------------------------------------------------------------------------
  // Writing a statement
  // ---------------------------------------------------------------------------------------------

  /** A statement under construction: its text, and the layout that text belongs to. */
  class Writer {
    const d: Dialect
    const ctx: Context
    var sql: string
    ghost var items: seq<Item>

    ghost predicate Valid()
      reads this, ctx
    {
      && sql == ItemText(d, items, 0)
      && ctx.slots == ItemSlots(items)
      && ctx.params == Statics(ItemSlots(items))
      && ctx.paramCounter == |ItemSlots(items)|
    }

    constructor (d: Dialect)
      ensures Valid() && this.d == d && items == [] && fresh(ctx)
    {
      this.d := d;
      ctx := new Context();
      sql := "";
      items := [];
      new;
      EmptyRow(d, 0);
    }

    /** What has been written is a generated statement. */
    lemma Finish(g: GeneratedSql)
      requires Valid() && g == GeneratedSql(sql, ctx.params, ctx.slots)
      ensures Generates(d, g, items)
    {
    }

    /** Appends fixed text. */
    method Put(ghost ls: seq<Lexeme>, text: string)
      requires Valid() && text == LexText(d, ls)
      modifies this
      ensures Valid() && items == old(items) + Toks(ls)
    {
      hide ItemText, ItemSlots, Statics, LexText;
      TextOfAppend(d, items, Toks(ls), 0);
      TextOfToks(d, ls, |ItemSlots(items)|);
      sql := sql + text;
      items := items + Toks(ls);
    }

    method PutWord(word: PlainText)
      requires Valid()
      modifies this
      ensures Valid() && items == old(items) + Toks([Raw(word)])
    {
      LexOne(d, Raw(word));
      Put([Raw(word)], word);
    }

    method PutId(id: string)
      requires Valid()
      modifies this
      ensures Valid() && items == old(items) + Toks([Ident(id)])
    {
      LexOne(d, Ident(id));
      var text := QuoteIdentifier(d, id);
      Put([Ident(id)], text);
    }

    method PutNames(ids: seq<string>)
      requires Valid()
      modifies this
      ensures Valid() && items == old(items) + Toks(Names(ids))
    {
      var text := NamesText(d, ids);
      Put(Names(ids), text);
    }

    method PutHead(q: Select, star: PlainText)
      requires Valid()
      modifies this
      ensures Valid() && items == old(items) + Toks(SelectHead(q, star))
    {
      var text := SelectHeadText(d, q, star);
      Put(SelectHead(q, star), text);
    }

    /** Appends a placeholder with its value. */
    method PutValue(value: BoundValue)
      requires Valid()
      modifies this, ctx
      ensures Valid() && items == old(items) + [Sub(Leaf(Static(value)))]
    {
      hide ItemText, ItemSlots, Statics;
      LeafRow(d, items, Static(value));
      OneStatic(value);
      StaticsAppend(ItemSlots(items), [Static(value)]);
      sql := sql + "?";
      ctx.paramCounter := ctx.paramCounter + 1;
      ctx.params := ctx.params + [value];
      ctx.slots := ctx.slots + [Static(value)];
      items := items + [Sub(Leaf(Static(value)))];
    }

    /** Appends rows whose text and slots visiting has just produced. */
    method PutVisited(text: string, ghost row: seq<Item>, ghost before: nat, ghost slots: seq<Slot>)
      requires sql == ItemText(d, items, 0) && before == |ItemSlots(items)|
      requires ctx.slots == ItemSlots(items) + slots
      requires ctx.params == Statics(ItemSlots(items)) + Statics(slots)
      requires ctx.paramCounter == before + |slots|
      requires text == ItemText(d, row, before) && slots == ItemSlots(row)
      modifies this
      ensures Valid() && items == old(items) + row
    {
      hide ItemText, ItemSlots, Statics;
      TextOfAppend(d, items, row, 0);
      StaticsAppend(ItemSlots(items), slots);
      sql := sql + text;
      items := items + row;
    }

    method PutExpr(e: Expr)
      requires Valid()
      modifies this, ctx
      ensures Valid() && items == old(items) + [Sub(Shape(d, e))]
    {
      hide Shape, ItemText, ItemSlots, Statics, TreeText, Slots;
      ghost var base := ctx.paramCounter;
      TextOfSub(d, Shape(d, e), base);
      var text := Visit(d, e, ctx);
      PutVisited(text, [Sub(Shape(d, e))], base, ExprSlots(d, e));
    }

    method PutList(es: seq<Expr>)
      requires Valid()
      modifies this, ctx
      ensures Valid() && items == old(items) + ListItems(ShapesOf(d, es))
    {
      hide Shape, ItemText, ItemSlots, Statics, ListItems;
      ghost var base := ctx.paramCounter;
      var text := VisitList(d, es, ctx);
      PutVisited(text, ListItems(ShapesOf(d, es)), base, ListSlots(d, es));
    }

    method PutOrder(os: seq<Order>)
      requires Valid()
      modifies this, ctx
      ensures Valid() && items == old(items) + OrderItems(KeyShapes(d, os), os)
    {
      hide Shape, ItemText, ItemSlots, Statics, OrderItems;
      ghost var base := ctx.paramCounter;
      var text := VisitOrder(d, os, ctx);
      PutVisited(text, OrderItems(KeyShapes(d, os), os), base, OrderSlots(d, os));
    }

    /** Appends an optional clause: its keyword and its expression. */
    method PutClause(word: PlainText, e: Option<Expr>)
      requires Valid()
      modifies this, ctx
      ensures Valid() && items == old(items) + ClauseItems(d, word, e)
    {
      hide Shape, ItemText, ItemSlots, Statics;
      if e.Some? {
        PutWord(word);
        PutExpr(e.value);
      }
    }
  }

  lemma LeafRow(d: Dialect, items: seq<Item>, slot: Slot)
    ensures ItemText(d, items + [Sub(Leaf(slot))], 0) == ItemText(d, items, 0) + "?"
    ensures ItemSlots(items + [Sub(Leaf(slot))]) == ItemSlots(items) + [slot]
  {
    hide ItemText, ItemSlots;
    TextOfAppend(d, items, [Sub(Leaf(slot))], 0);
    TextOfSub(d, Leaf(slot), |ItemSlots(items)|);
    MarkText(d, |ItemSlots(items)|);
  }

  lemma MarkText(d: Dialect, k: nat)
    ensures Flatten(d, [Mark(k)]) == "?"
  {
    var p := [Mark(k)];
    assert p[1..] == [] && Flatten(d, p) == "?" + Flatten(d, p[1..]);
  }

  function ClauseItems(d: Dialect, word: PlainText, e: Option<Expr>): seq<Item> {
    match e
    case None => []
    case Some(x) => Toks([Raw(word)]) + [Sub(Shape(d, x))]
  }

  /** A generated statement is the text and slots of a layout. */
  ghost predicate Generates(d: Dialect, g: GeneratedSql, items: seq<Item>) {
    && g.sql == ItemText(d, items, 0)
    && g.slots == ItemSlots(items)
    && g.params == Statics(ItemSlots(items))
  }

  // ---------------------------------------------------------------------------------------------
  // SELECT
  // ---------------------------------------------------------------------------------------------

  function NestedItems(d: Dialect, q: Select): seq<Item> {
    Toks(SelectHead(q, STAR)) + ClauseItems(d, WHERE, q.where)
  }

  function CteItem(d: Dialect, cte: Cte): seq<Item> {
    Toks([Ident(cte.name)]) + Toks([Raw(AS_SELECT)]) + NestedItems(d, cte.query) + Toks([RParen])
  }

  function CteItems(d: Dialect, ctes: seq<Cte>): seq<Item> {
    if ctes == [] then []
    else CteItems(d, ctes[..|ctes| - 1]) + Toks(if |ctes| > 1 then [Comma] else []) + CteItem(d, ctes[|ctes| - 1])
  }

  function WithItems(d: Dialect, ctes: seq<Cte>): seq<Item> {
    if ctes == [] then [] else Toks([Raw(WITH)]) + CteItems(d, ctes) + Toks([Raw(SPACE)])
  }

  function GroupItems(d: Dialect, es: seq<Expr>): seq<Item> {
    if es == [] then [] else Toks([Raw(GROUP_BY)]) + ListItems(ShapesOf(d, es))
  }

  function SortItems(d: Dialect, os: seq<Order>, limit: Option<nat>, offset: Option<nat>): seq<Item> {
    if os != [] then Toks([Raw(ORDER_BY_CLAUSE)]) + OrderItems(KeyShapes(d, os), os)
    else Toks(if PrintsOffset(d, limit, offset) then [Raw(ORDER_BY_NULL)] else [])
  }

  function PagingItems(d: Dialect, limit: Option<nat>, offset: Option<nat>): seq<Item> {
    match Paging(d, limit, offset)
    case None => []
    case Some(ls) => Toks(ls)
  }

  function SelectItems(d: Dialect, q: SelectQuery): seq<Item> {
    WithItems(d, q.ctes) + Toks([Raw(SELECT)]) + NestedItems(d, Select(q.table, q.columns, q.where, q.distinct))
    + GroupItems(d, q.groupBy) + ClauseItems(d, HAVING, q.having)
    + SortItems(d, q.orderBy, q.limit, q.offset) + PagingItems(d, q.limit, q.offset)
  }

  method PutNested(w: Writer, q: Select)
    requires w.Valid()
    modifies w, w.ctx
    ensures w.Valid() && w.items == old(w.items) + NestedItems(w.d, q)
  {
    hide Writer.Valid, Shape, SelectHead, Toks, Layout;
    w.PutHead(q, STAR);
    w.PutClause(WHERE, q.where);
  }

  method PutCte(w: Writer, cte: Cte)
    requires w.Valid()
    modifies w, w.ctx
    ensures w.Valid() && w.items == old(w.items) + CteItem(w.d, cte)
  {
    hide Writer.Valid, Shape, NestedItems, Toks, LexText;
    w.PutId(cte.name);
    w.PutWord(AS_SELECT);
    PutNested(w, cte.query);
    LexOne(w.d, RParen);
    w.Put([RParen], ")");
  }

  method PutComma(w: Writer, needed: bool)
    requires w.Valid()
    modifies w
    ensures w.Valid() && w.items == old(w.items) + Toks(if needed then [Comma] else [])
  {
    hide Writer.Valid, LexText, Toks, Separator;
    CommaText(w.d, needed);
    w.Put(CommaIf(needed), Separator(needed));
  }

  method PutCtes(w: Writer, ctes: seq<Cte>)
    requires w.Valid()
    modifies w, w.ctx
    ensures w.Valid() && w.items == old(w.items) + CteItems(w.d, ctes)
  {
    hide Writer.Valid, Shape, CteItem, Toks;
    for i := 0 to |ctes|
      invariant w.Valid() && w.items == old(w.items) + CteItems(w.d, ctes[..i])
    {
      assert ctes[..i + 1][..i] == ctes[..i];
      PutComma(w, i > 0);
      PutCte(w, ctes[i]);
    }
    assert ctes[..|ctes|] == ctes;
  }

  /** ORDER BY, or a dummy order when paging needs one, and then the paging text. */
  method PutSortAndPaging(w: Writer, os: seq<Order>, limit: Option<nat>, offset: Option<nat>) returns (ok: bool)
    requires w.Valid()
    modifies w, w.ctx
    ensures !ok <==> w.d.Mssql? && limit == Some(0)
    ensures ok ==> w.Valid() && w.items == old(w.items) + SortItems(w.d, os, limit, offset) + PagingItems(w.d, limit, offset)
  {
    hide Writer.Valid, Shape, OrderItems, Contains, LexText, Toks, Paging;
    PagingRefuses(w.d, limit, offset);
    var paging := Paging(w.d, limit, offset);
    if paging == None { return false; }
    var text := LexText(w.d, paging.value);
    if os != [] {
      w.PutWord(ORDER_BY_CLAUSE);
      w.PutOrder(os);
    } else {
      FindOffset(w.d, limit, offset);
      if (limit.Some? || offset.Some?) && Contains(text, "OFFSET") { w.PutWord(ORDER_BY_NULL); }
    }
    w.Put(paging.value, text);
    ok := true;
  }

  method PutGroup(w: Writer, es: seq<Expr>)
    requires w.Valid()
    modifies w, w.ctx
    ensures w.Valid() && w.items == old(w.items) + GroupItems(w.d, es)
  {
    hide Writer.Valid, ListItems, Toks, ShapesOf;
    if es != [] {
      w.PutWord(GROUP_BY);
      w.PutList(es);
    }
  }

  /** The statement for a query, or nothing when the dialect rejects its paging. */
  method GenerateCteSelect(d: Dialect, q: SelectQuery) returns (g: Option<GeneratedSql>)
    ensures g.None? <==> d.Mssql? && q.limit == Some(0)
    ensures g.Some? ==> Generates(d, g.value, SelectItems(d, q))
  {
    hide Writer.Valid, Shape, NestedItems, CteItems, SortItems, PagingItems, ListItems, Paging, Toks, Generates;
    var w := new Writer(d);
    if q.ctes != [] {
      w.PutWord(WITH);
      PutCtes(w, q.ctes);
      w.PutWord(SPACE);
    }
    assert w.items == WithItems(d, q.ctes);
    w.PutWord(SELECT);
    PutNested(w, Select(q.table, q.columns, q.where, q.distinct));
    PutGroup(w, q.groupBy);
    w.PutClause(HAVING, q.having);
    var ok := PutSortAndPaging(w, q.orderBy, q.limit, q.offset);
    if !ok { return None; }
    g := Some(GeneratedSql(w.sql, w.ctx.params, w.ctx.slots));
    w.Finish(g.value);
  }

  // ---------------------------------------------------------------------------------------------
  // Set operations
  // ---------------------------------------------------------------------------------------------

  function SetOpWord(op: SetOp): PlainText {
    match op
    case Union => UNION
    case UnionAll => UNION_ALL
    case Intersect => INTERSECT
    case Except => EXCEPT
  }

  function OperationItems(d: Dialect, ops: seq<SetOpClause>): seq<Item> {
    if ops == [] then []
    else
      var last := ops[|ops| - 1];
      OperationItems(d, ops[..|ops| - 1]) + (Toks([Raw(SetOpWord(last.op))]) + Toks([Raw(SELECT)]) + NestedItems(d, last.query))
  }

  /** A sort key of a set operation: a column is named without its table. */
  function SetKeyItems(d: Dialect, o: Order): seq<Item> {
    (if o.expr.Column? then Toks([Ident(o.expr.column)]) else [Sub(Shape(d, o.expr))])
    + Toks([Raw(if o.descending then DESC else ASC)])
  }

  function SetKeys(d: Dialect, os: seq<Order>): seq<Item> {
    if os == [] then []
    else SetKeys(d, os[..|os| - 1]) + Toks(if |os| > 1 then [Comma] else []) + SetKeyItems(d, os[|os| - 1])
  }

  function SetSortItems(d: Dialect, q: SetQuery): seq<Item> {
    if q.orderBy == [] then SortItems(d, [], q.limit, q.offset)
    else Toks([Raw(ORDER_BY_CLAUSE)]) + SetKeys(d, q.orderBy)
  }

  function SetItems(d: Dialect, q: SetQuery): seq<Item> {
    Toks([Raw(SELECT)]) + NestedItems(d, q.base) + OperationItems(d, q.operations)
    + SetSortItems(d, q) + PagingItems(d, q.limit, q.offset)
  }

  method PutOperations(w: Writer, ops: seq<SetOpClause>)
    requires w.Valid()
    modifies w, w.ctx
    ensures w.Valid() && w.items == old(w.items) + OperationItems(w.d, ops)
  {
    hide Writer.Valid, Shape, NestedItems, Toks, SetOpWord;
    for i := 0 to |ops|
      invariant w.Valid() && w.items == old(w.items) + OperationItems(w.d, ops[..i])
    {
      assert ops[..i + 1][..i] == ops[..i];
      w.PutWord(SetOpWord(ops[i].op));
      w.PutWord(SELECT);
      PutNested(w, ops[i].query);
    }
    assert ops[..|ops|] == ops;
  }

  method PutSetKey(w: Writer, o: Order)
    requires w.Valid()
    modifies w, w.ctx
    ensures w.Valid() && w.items == old(w.items) + SetKeyItems(w.d, o)
  {
    hide Writer.Valid, Shape, Toks;
    if o.expr.Column? { w.PutId(o.expr.column); } else { w.PutExpr(o.expr); }
    w.PutWord(if o.descending then DESC else ASC);
  }

  method PutSetKeys(w: Writer, os: seq<Order>)
    requires w.Valid()
    modifies w, w.ctx
    ensures w.Valid() && w.items == old(w.items) + SetKeys(w.d, os)
  {
    hide Writer.Valid, Shape, SetKeyItems, Toks;
    for i := 0 to |os|
      invariant w.Valid() && w.items == old(w.items) + SetKeys(w.d, os[..i])
    {
      assert os[..i + 1][..i] == os[..i];
      PutComma(w, i > 0);
      PutSetKey(w, os[i]);
    }
    assert os[..|os|] == os;
  }

  method PutSetSort(w: Writer, q: SetQuery) returns (ok: bool)
    requires w.Valid()
    modifies w, w.ctx
    ensures !ok <==> w.d.Mssql? && q.limit == Some(0)
    ensures ok ==> w.Valid() && w.items == old(w.items) + SetSortItems(w.d, q) + PagingItems(w.d, q.limit, q.offset)
  {
    hide Writer.Valid, SetKeys, SortItems, PagingItems, Paging, Toks, LexText;
    if q.orderBy != [] {
      PagingRefuses(w.d, q.limit, q.offset);
      var paging := Paging(w.d, q.limit, q.offset);
      if paging == None { return false; }
      w.PutWord(ORDER_BY_CLAUSE);
      PutSetKeys(w, q.orderBy);
      PagingLexemes(w.d, q.limit, q.offset);
      w.Put(paging.value, LexText(w.d, paging.value));
      ok := true;
    } else {
      ok := PutSortAndPaging(w, [], q.limit, q.offset);
    }
  }

  method GenerateSetOperation(d: Dialect, q: SetQuery) returns (g: Option<GeneratedSql>)
    ensures g.None? <==> d.Mssql? && q.limit == Some(0)
    ensures g.Some? ==> Generates(d, g.value, SetItems(d, q))
  {
    hide Writer.Valid, NestedItems, OperationItems, SetSortItems, PagingItems, Paging, Toks, Generates;
    var w := new Writer(d);
    w.PutWord(SELECT);
    PutNested(w, q.base);
    PutOperations(w, q.operations);
    var ok := PutSetSort(w, q);
    if !ok { return None; }
    g := Some(GeneratedSql(w.sql, w.ctx.params, w.ctx.slots));
    assert w.items == SetItems(d, q);
    w.Finish(g.value);
  }

  lemma PagingLexemes(d: Dialect, limit: Option<nat>, offset: Option<nat>)
    ensures Paging(d, limit, offset).Some? ==> PagingItems(d, limit, offset) == Toks(Paging(d, limit, offset).value)
  {
  }

  // ---------------------------------------------------------------------------------------------
  // Joins
  // ---------------------------------------------------------------------------------------------

  function Qualified(table: string, ids: seq<string>, first: bool): seq<Lexeme> {
    if ids == [] then []
    else Qualified(table, ids[..|ids| - 1], first) + (if first && |ids| == 1 then [] else [Comma]) + [Ident(table), Dot, Ident(ids[|ids| - 1])]
  }

  /** The columns of the joined tables; `first` says no column has been printed before them. */
  function JoinedColumns(groups: seq<(string, seq<string>)>, first: bool): seq<Lexeme> {
    if groups == [] then []
    else
      Qualified(groups[0].0, groups[0].1, first) + JoinedColumns(groups[1..], first && groups[0].1 == [])
  }

  function JoinItem(d: Dialect, j: Join): seq<Item> {
    Toks([Raw(SPACE), Verbatim(j.words), Raw(SPACE), Ident(j.table), Raw(ON)]) + [Sub(Shape(d, j.on))]
  }

  function JoinItems(d: Dialect, joins: seq<Join>): seq<Item> {
    if joins == [] then [] else JoinItems(d, joins[..|joins| - 1]) + JoinItem(d, joins[|joins| - 1])
  }

  function JoinHead(q: JoinQuery): seq<Lexeme> {
    [Raw(SELECT)] + (if q.distinct then [Raw(DISTINCT)] else [])
    + Qualified(q.table, q.columns, true) + JoinedColumns(q.joinedColumns, q.columns == []) + [Raw(FROM), Ident(q.table)]
  }

  function JoinedItems(d: Dialect, q: JoinQuery): seq<Item> {
    Toks(JoinHead(q)) + JoinItems(d, q.joins) + ClauseItems(d, WHERE, q.where)
    + SortItems(d, q.orderBy, q.limit, q.offset) + PagingItems(d, q.limit, q.offset)
  }

  lemma QualifiedStep(d: Dialect, table: string, ids: seq<string>, i: nat, first: bool)
    requires i < |ids|
    ensures LexText(d, Qualified(table, ids[..i + 1], first))
         == LexText(d, Qualified(table, ids[..i], first)) + (if first && i == 0 then "" else ", ")
            + (QuoteId(d, table) + "." + QuoteId(d, ids[i]))
  {
    hide QuoteId, LexText;
    var front, comma := Qualified(table, ids[..i], first), if first && i == 0 then [] else [Comma];
    assert ids[..i + 1][..i] == ids[..i];
    LexAppend(d, front + comma, [Ident(table), Dot, Ident(ids[i])]);
    LexAppend(d, front, comma);
    CommaText(d, !(first && i == 0));
    LexThree(d, Ident(table), Dot, Ident(ids[i]));
  }

  method QualifiedText(d: Dialect, table: string, ids: seq<string>, first: bool) returns (text: string)
    ensures text == LexText(d, Qualified(table, ids, first))
  {
    hide QuoteId, LexText;
    text := "";
    LexNone(d);
    for i := 0 to |ids|
      invariant text == LexText(d, Qualified(table, ids[..i], first))
    {
      if !(first && i == 0) { text := text + ", "; }
      var t := QuoteIdentifier(d, table);
      var c := QuoteIdentifier(d, ids[i]);
      text := text + (t + "." + c);
      QualifiedStep(d, table, ids, i, first);
    }
    assert ids[..|ids|] == ids;
  }

  method PutJoinedColumns(w: Writer, groups: seq<(string, seq<string>)>, noneYet: bool)
    requires w.Valid()
    modifies w
    ensures w.Valid() && w.items == old(w.items) + Toks(JoinedColumns(groups, noneYet))
  {
    hide Writer.Valid, Qualified, LexText;
    var first := noneYet;
    for i := 0 to |groups|
      invariant w.Valid()
      invariant w.items + Toks(JoinedColumns(groups[i..], first)) == old(w.items) + Toks(JoinedColumns(groups, noneYet))
    {
      assert groups[i..][1..] == groups[i + 1..];
      var text := QualifiedText(w.d, groups[i].0, groups[i].1, first);
      ghost var rest := JoinedColumns(groups[i + 1..], first && groups[i].1 == []);
      assert Toks(JoinedColumns(groups[i..], first)) == Toks(Qualified(groups[i].0, groups[i].1, first)) + Toks(rest);
      w.Put(Qualified(groups[i].0, groups[i].1, first), text);
      first := first && groups[i].1 == [];
    }
    assert groups[|groups|..] == [];
    assert w.items + Toks([]) == w.items;
  }

  lemma JoinText(d: Dialect, j: Join)
    ensures LexText(d, [Raw(SPACE), Verbatim(j.words), Raw(SPACE), Ident(j.table), Raw(ON)])
         == " " + j.words + " " + (QuoteId(d, j.table) + " ON ")
  {
    hide QuoteId, LexText;
    LexAppend(d, [Raw(SPACE), Verbatim(j.words), Raw(SPACE)], [Ident(j.table), Raw(ON)]);
    LexThree(d, Raw(SPACE), Verbatim(j.words), Raw(SPACE));
    LexTwo(d, Ident(j.table), Raw(ON));
    assert [Raw(SPACE), Verbatim(j.words), Raw(SPACE)] + [Ident(j.table), Raw(ON)]
        == [Raw(SPACE), Verbatim(j.words), Raw(SPACE), Ident(j.table), Raw(ON)];
  }

  method PutJoins(w: Writer, joins: seq<Join>)
    requires w.Valid()
    modifies w, w.ctx
    ensures w.Valid() && w.items == old(w.items) + JoinItems(w.d, joins)
  {
    hide Writer.Valid, Shape, Toks, LexText, QuoteId;
    for i := 0 to |joins|
      invariant w.Valid() && w.items == old(w.items) + JoinItems(w.d, joins[..i])
    {
      assert joins[..i + 1][..i] == joins[..i];
      JoinText(w.d, joins[i]);
      var table := QuoteIdentifier(w.d, joins[i].table);
      w.Put([Raw(SPACE), Verbatim(joins[i].words), Raw(SPACE), Ident(joins[i].table), Raw(ON)], " " + joins[i].words + " " + (table + " ON "));
      w.PutExpr(joins[i].on);
    }
    assert joins[..|joins|] == joins;
  }

  lemma PutOn(start: seq<Item>, ls: seq<Lexeme>, more: seq<Lexeme>, needed: bool)
    ensures start + Toks(ls) + Toks(more) == start + Toks(ls + more)
    ensures !needed && more == [] ==> start + Toks(ls) == start + Toks(ls + more)
  {
    assert Toks(ls + more) == Toks(ls) + Toks(more);
    assert more == [] ==> ls + more == ls;
  }

  method PutJoinHead(w: Writer, q: JoinQuery)
    requires w.Valid()
    modifies w
    ensures w.Valid() && w.items == old(w.items) + Toks(JoinHead(q))
  {
    hide Writer.Valid, LexText, Qualified, JoinedColumns, Toks;
    ghost var start, distinct := w.items, if q.distinct then [Raw(DISTINCT)] else [];
    w.PutWord(SELECT);
    if q.distinct { w.PutWord(DISTINCT); }
    PutOn(start, [Raw(SELECT)], distinct, q.distinct);
    var own := QualifiedText(w.d, q.table, q.columns, true);
    w.Put(Qualified(q.table, q.columns, true), own);
    PutOn(start, [Raw(SELECT)] + distinct, Qualified(q.table, q.columns, true), true);
    PutJoinedColumns(w, q.joinedColumns, q.columns == []);
    ghost var columns := [Raw(SELECT)] + distinct + Qualified(q.table, q.columns, true) + JoinedColumns(q.joinedColumns, q.columns == []);
    PutOn(start, [Raw(SELECT)] + distinct + Qualified(q.table, q.columns, true), JoinedColumns(q.joinedColumns, q.columns == []), true);
    w.PutWord(FROM);
    PutOn(start, columns, [Raw(FROM)], true);
    w.PutId(q.table);
    PutOn(start, columns + [Raw(FROM)], [Ident(q.table)], true);
    assert columns + [Raw(FROM)] + [Ident(q.table)] == columns + [Raw(FROM), Ident(q.table)];
  }

  method GenerateJoinedSelect(d: Dialect, q: JoinQuery) returns (g: Option<GeneratedSql>)
    ensures g.None? <==> d.Mssql? && q.limit == Some(0)
    ensures g.Some? ==> Generates(d, g.value, JoinedItems(d, q))
  {
    hide Writer.Valid, Shape, JoinItems, JoinHead, SortItems, PagingItems, Paging, Toks, Generates;
    var w := new Writer(d);
    PutJoinHead(w, q);
    PutJoins(w, q.joins);
    w.PutClause(WHERE, q.where);
    var ok := PutSortAndPaging(w, q.orderBy, q.limit, q.offset);
    if !ok { return None; }
    g := Some(GeneratedSql(w.sql, w.ctx.params, w.ctx.slots));
    assert w.items == JoinedItems(d, q);
    w.Finish(g.value);
  }

  // ---------------------------------------------------------------------------------------------
  // INSERT and UPDATE
  // ---------------------------------------------------------------------------------------------

  function ValueItems(values: seq<BoundValue>): seq<Item> {
    if values == [] then []
    else ValueItems(values[..|values| - 1]) + Toks(if |values| > 1 then [Comma] else []) + [Sub(Leaf(Static(values[|values| - 1])))]
  }

  function InsertHead(d: Dialect, table: string, columns: seq<string>, returning: string): seq<Item> {
    Toks([Raw(INSERT_INTO)]) + Toks([Ident(table)])
    + (if columns == [] then [] else Toks([Raw(OPEN_COLUMNS)]) + Toks(Names(columns)) + Toks([RParen]))
    + (if returning != "" && d.Mssql? then Toks([Raw(OUTPUT_INSERTED)]) + Toks([Ident(returning)]) else [])
  }

  function InsertBody(d: Dialect, columns: seq<string>, values: seq<BoundValue>, returning: string): seq<Item> {
    (if columns == [] then Toks([Raw(DEFAULT_VALUES)]) else Toks([Raw(VALUES_OPEN)]) + ValueItems(values) + Toks([RParen]))
    + (if returning != "" && d.Postgres? then Toks([Raw(RETURNING)]) + Toks([Ident(returning)]) else [])
  }

  function InsertItems(d: Dialect, table: string, columns: seq<string>, values: seq<BoundValue>, returning: string): seq<Item> {
    InsertHead(d, table, columns, returning) + InsertBody(d, columns, values, returning)
  }

  method PutValues(w: Writer, values: seq<BoundValue>)
    requires w.Valid()
    modifies w, w.ctx
    ensures w.Valid() && w.items == old(w.items) + ValueItems(values)
  {
    hide Writer.Valid, Toks;
    for i := 0 to |values|
      invariant w.Valid() && w.items == old(w.items) + ValueItems(values[..i])
    {
      assert values[..i + 1][..i] == values[..i];
      PutComma(w, i > 0);
      w.PutValue(values[i]);
    }
    assert values[..|values|] == values;
  }

  method PutParen(w: Writer)
    requires w.Valid()
    modifies w
    ensures w.Valid() && w.items == old(w.items) + Toks([RParen])
  {
    hide Writer.Valid, Toks, LexText;
    LexOne(w.d, RParen);
    w.Put([RParen], ")");
  }

  method PutInsertHead(w: Writer, table: string, columns: seq<string>, returning: string)
    requires w.Valid()
    modifies w
    ensures w.Valid() && w.items == old(w.items) + InsertHead(w.d, table, columns, returning)
  {
    hide Writer.Valid, Names, Toks;
    w.PutWord(INSERT_INTO);
    w.PutId(table);
    if columns != [] {
      w.PutWord(OPEN_COLUMNS);
      w.PutNames(columns);
      PutParen(w);
    }
    if returning != "" && w.d.Mssql? {
      w.PutWord(OUTPUT_INSERTED);
      w.PutId(returning);
    }
  }

  method PutInsertBody(w: Writer, columns: seq<string>, values: seq<BoundValue>, returning: string)
    requires w.Valid()
    modifies w, w.ctx
    ensures w.Valid() && w.items == old(w.items) + InsertBody(w.d, columns, values, returning)
  {
    hide Writer.Valid, ValueItems, Toks;
    if columns != [] {
      w.PutWord(VALUES_OPEN);
      PutValues(w, values);
      PutParen(w);
    } else {
      w.PutWord(DEFAULT_VALUES);
    }
    if returning != "" && w.d.Postgres? {
      w.PutWord(RETURNING);
      w.PutId(returning);
    }
  }

  /** `returning` is empty when no generated key is asked for. */
  method GenerateInsert(d: Dialect, table: string, columns: seq<string>, values: seq<BoundValue>, returning: string) returns (g: GeneratedSql)
    ensures Generates(d, g, InsertItems(d, table, columns, values, returning))
  {
    hide Writer.Valid, InsertHead, InsertBody, Generates;
    var w := new Writer(d);
    PutInsertHead(w, table, columns, returning);
    PutInsertBody(w, columns, values, returning);
    g := GeneratedSql(w.sql, w.ctx.params, w.ctx.slots);
    assert w.items == InsertItems(d, table, columns, values, returning);
    w.Finish(g);
  }

  function AssignmentItem(d: Dialect, a: Assignment): seq<Item> {
    Toks([Ident(if a.column == "" then a.table else a.column)]) + Toks([Raw(EQUALS)]) + [Sub(Shape(d, a.value))]
  }

  function AssignmentItems(d: Dialect, assignments: seq<Assignment>): seq<Item> {
    if assignments == [] then []
    else
      AssignmentItems(d, assignments[..|assignments| - 1]) + Toks(if |assignments| > 1 then [Comma] else [])
      + AssignmentItem(d, assignments[|assignments| - 1])
  }

  function UpdateItems(d: Dialect, table: string, assignments: seq<Assignment>, where: Option<Expr>): seq<Item> {
    Toks([Raw(UPDATE), Ident(table), Raw(SET)]) + AssignmentItems(d, assignments) + ClauseItems(d, WHERE, where)
  }

  method PutAssignment(w: Writer, a: Assignment)
    requires w.Valid()
    modifies w, w.ctx
    ensures w.Valid() && w.items == old(w.items) + AssignmentItem(w.d, a)
  {
    hide Writer.Valid, Shape, Toks;
    var name := a.column;
    if name == "" { name := a.table; }
    w.PutId(name);
    w.PutWord(EQUALS);
    w.PutExpr(a.value);
  }

  method PutAssignments(w: Writer, assignments: seq<Assignment>)
    requires w.Valid()
    modifies w, w.ctx
    ensures w.Valid() && w.items == old(w.items) + AssignmentItems(w.d, assignments)
  {
    hide Writer.Valid, Shape, Toks, AssignmentItem;
    for i := 0 to |assignments|
      invariant w.Valid() && w.items == old(w.items) + AssignmentItems(w.d, assignments[..i])
    {
      assert assignments[..i + 1][..i] == assignments[..i];
      PutComma(w, i > 0);
      PutAssignment(w, assignments[i]);
    }
    assert assignments[..|assignments|] == assignments;
  }

  method GenerateUpdate(d: Dialect, table: string, assignments: seq<Assignment>, where: Option<Expr>) returns (g: GeneratedSql)
    ensures Generates(d, g, UpdateItems(d, table, assignments, where))
  {
    hide Writer.Valid, Shape, AssignmentItems, Generates;
    var w := new Writer(d);
    w.PutWord(UPDATE);
    w.PutId(table);
    w.PutWord(SET);
    PutAssignments(w, assignments);
    w.PutClause(WHERE, where);
    g := GeneratedSql(w.sql, w.ctx.params, w.ctx.slots);
    assert w.items == UpdateItems(d, table, assignments, where);
    w.Finish(g);
  }
}
