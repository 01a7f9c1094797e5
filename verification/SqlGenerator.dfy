/** The SQL compiler (src/sql_generator.cpp): visiting an expression prints it and records its slots. */
module SqlGenerator {
  import opened Values
  import opened Dialects
  import opened LayoutTree
  import opened SqlAst
  import opened SqlText

  // ---------------------------------------------------------------------------------------------
  // Visiting
  // ---------------------------------------------------------------------------------------------

  /** The state visiting writes: the placeholder counter, the slots, and the parameter values. */
  class Context {
    var paramCounter: nat
    var slots: seq<Slot>
    var params: seq<BoundValue>

    constructor ()
      ensures paramCounter == 0 && slots == [] && params == []
    {
      paramCounter, slots, params := 0, [], [];
    }

    /** What recording `recorded` leaves. */
    twostate predicate Grew(recorded: seq<Slot>)
      reads this
    {
      && slots == old(slots) + recorded
      && params == old(params) + Statics(recorded)
      && paramCounter == old(paramCounter) + |recorded|
    }
  }

  method Visit(d: Dialect, e: Expr, ctx: Context) returns (text: string)
    modifies ctx
    ensures text == ExprText(d, e, old(ctx.paramCounter))
    ensures ctx.Grew(ExprSlots(d, e))
    decreases e, 2
  {
    hide Shape, ExprText, ExprSlots, ListText, ListSlots, WhereText, WhereSlots, SelectText, SelectHead, Statics, QuoteId, FunctionName, DatePartName;
    ghost var base := ctx.paramCounter;
    match e
    case Column(table, column) =>
      FixedTexts(d, e, base);
      if table == "" {
        text := QuoteIdentifier(d, column);
      } else {
        var t := QuoteIdentifier(d, table);
        var c := QuoteIdentifier(d, column);
        text := t + "." + c;
      }
    case Literal(value) =>
      LeafTexts(d, e, base);
      OneStatic(value);
      ctx.params := ctx.params + [value];
      ctx.slots := ctx.slots + [Static(value)];
      ctx.paramCounter := ctx.paramCounter + 1;
      text := "?";
    case Param(index) =>
      LeafTexts(d, e, base);
      OneDynamic(index);
      ctx.slots := ctx.slots + [Dynamic(index)];
      ctx.paramCounter := ctx.paramCounter + 1;
      text := "?";
    case Compare(_, _, _) => text := VisitPredicate(d, e, ctx);
    case Logic(_, _, _) => text := VisitPredicate(d, e, ctx);
    case Not(_) => text := VisitPredicate(d, e, ctx);
    case IsNull(_, _) => text := VisitPredicate(d, e, ctx);
    case Between(_, _, _, _) => text := VisitBetween(d, e, ctx);
    case Like(_, _, _) => text := VisitPredicate(d, e, ctx);
    case InList(expr, values, negated) =>
      var x := Visit(d, expr, ctx);
      if values == [] {
        EmptyInListText(d, e, base);
        return if negated then "(1 = 1)" else "(1 = 0)";
      }
      var list := VisitList(d, values, ctx);
      text := "(" + x + (if negated then " NOT IN (" else " IN (") + list + "))";
      InListText(d, e, base);
      StaticsAppend(ExprSlots(d, expr), ListSlots(d, values));
    case Function(name, args) =>
      var list := VisitList(d, args, ctx);
      text := FunctionName(d, name) + "(" + list + ")";
      FunctionText(d, e, base);
    case Subquery(_) => text := VisitNested(d, e, ctx);
    case Exists(_, _) => text := VisitNested(d, e, ctx);
    case InSubquery(_, _, _) => text := VisitNested(d, e, ctx);
    case Extract(_, _) => text := VisitDate(d, e, ctx);
    case DateAdd(_, _) => text := VisitDate(d, e, ctx);
    case Window(_, _, _, _) =>
      text := VisitWindow(d, e, ctx);
    case CurrentTimestamp =>
      FixedTexts(d, e, base);
      text := "CURRENT_TIMESTAMP";
    case CurrentDate =>
      FixedTexts(d, e, base);
      text := if d.Postgres? then "CURRENT_DATE" else "CAST(GETDATE() AS DATE)";
    case Missing =>
      FixedTexts(d, e, base);
      text := "";
  }

  /** Comparisons, logic, NULL tests and LIKE: operands left to right. */
  method VisitPredicate(d: Dialect, e: Expr, ctx: Context) returns (text: string)
    requires e.Compare? || e.Logic? || e.Not? || e.IsNull? || e.Like?
    modifies ctx
    ensures text == ExprText(d, e, old(ctx.paramCounter))
    ensures ctx.Grew(ExprSlots(d, e))
    decreases e, 1
  {
    hide Shape, ExprText, ExprSlots, ListText, ListSlots, WhereText, WhereSlots, SelectText, SelectHead, Statics, QuoteId, FunctionName, DatePartName;
    ghost var base := ctx.paramCounter;
    match e
    case Compare(left, op, right) =>
      var l := Visit(d, left, ctx);
      var r := Visit(d, right, ctx);
      text := "(" + l + CmpText(op) + r + ")";
      CompareText(d, e, base);
      StaticsAppend(ExprSlots(d, left), ExprSlots(d, right));
    case Logic(left, isAnd, right) =>
      var l := Visit(d, left, ctx);
      var r := Visit(d, right, ctx);
      text := "(" + l + (if isAnd then " AND " else " OR ") + r + ")";
      LogicText(d, e, base);
      StaticsAppend(ExprSlots(d, left), ExprSlots(d, right));
    case Not(operand) =>
      var x := Visit(d, operand, ctx);
      text := "NOT (" + x + ")";
      NotText(d, e, base);
    case IsNull(operand, negated) =>
      var x := Visit(d, operand, ctx);
      text := x + (if negated then " IS NOT NULL" else " IS NULL");
      IsNullText(d, e, base);
    case Like(expr, pattern, negated) =>
      var x := Visit(d, expr, ctx);
      var p := Visit(d, pattern, ctx);
      text := "(" + x + (if negated then " NOT LIKE " else " LIKE ") + p + ")";
      LikeText(d, e, base);
      StaticsAppend(ExprSlots(d, expr), ExprSlots(d, pattern));
  }

  /** BETWEEN visits its three operands in printing order. */
  method VisitBetween(d: Dialect, e: Expr, ctx: Context) returns (text: string)
    requires e.Between?
    modifies ctx
    ensures text == ExprText(d, e, old(ctx.paramCounter))
    ensures ctx.Grew(ExprSlots(d, e))
    decreases e, 1
  {
    hide Shape, ExprText, ExprSlots, ListText, ListSlots, WhereText, WhereSlots, SelectText, SelectHead, Statics, QuoteId, FunctionName, DatePartName;
    ghost var base := ctx.paramCounter;
    var x := Visit(d, e.expr, ctx);
    var lo := Visit(d, e.low, ctx);
    var hi := Visit(d, e.high, ctx);
    text := "(" + x + (if e.negated then " NOT BETWEEN " else " BETWEEN ") + lo + " AND " + hi + ")";
    BetweenText(d, e, base);
    StaticsAppend(ExprSlots(d, e.expr), ExprSlots(d, e.low));
    StaticsAppend(ExprSlots(d, e.expr) + ExprSlots(d, e.low), ExprSlots(d, e.high));
  }

  /** Nested SELECT statements. */
  method VisitNested(d: Dialect, e: Expr, ctx: Context) returns (text: string)
    requires e.Subquery? || e.Exists? || e.InSubquery?
    modifies ctx
    ensures text == ExprText(d, e, old(ctx.paramCounter))
    ensures ctx.Grew(ExprSlots(d, e))
    decreases e, 1
  {
    hide Shape, ExprText, ExprSlots, ListText, ListSlots, WhereText, WhereSlots, SelectText, SelectHead, Statics, QuoteId, FunctionName, DatePartName;
    ghost var base := ctx.paramCounter;
    match e
    case Subquery(q) =>
      var body := VisitSelect(d, q, STAR, ctx);
      text := "(SELECT " + body + ")";
      SubqueryText(d, e, base);
    case Exists(q, negated) =>
      var body := VisitSelect(d, q, ONE, ctx);
      text := (if negated then "NOT EXISTS (SELECT " else "EXISTS (SELECT ") + body + ")";
      SubqueryText(d, e, base);
    case InSubquery(expr, q, negated) =>
      var x := Visit(d, expr, ctx);
      var body := VisitSelect(d, q, STAR, ctx);
      text := "(" + x + (if negated then " NOT IN (SELECT " else " IN (SELECT ") + body + "))";
      InSubqueryText(d, e, base);
      StaticsAppend(ExprSlots(d, expr), WhereSlots(d, q.where));
  }

  /** Date parts and date arithmetic; the base expression is always visited first. */
  method VisitDate(d: Dialect, e: Expr, ctx: Context) returns (text: string)
    requires e.Extract? || e.DateAdd?
    modifies ctx
    ensures text == ExprText(d, e, old(ctx.paramCounter))
    ensures ctx.Grew(ExprSlots(d, e))
    decreases e, 1
  {
    hide Shape, ExprText, ExprSlots, ListText, ListSlots, WhereText, WhereSlots, SelectText, SelectHead, Statics, QuoteId, FunctionName, DatePartName;
    ghost var base := ctx.paramCounter;
    match e
    case Extract(part, expr) =>
      var x := Visit(d, expr, ctx);
      text := if d.Postgres? then "EXTRACT(" + DatePartName(part) + " FROM CAST(" + x + " AS TIMESTAMP))"
              else DatePartName(part) + "(" + x + ")";
      ExtractText(d, e, base);
    case DateAdd(expr, days) =>
      var x := Visit(d, expr, ctx);
      var n := Visit(d, days, ctx);
      text := if d.Postgres? then "(CAST(" + x + " AS TIMESTAMP) + (" + n + " || ' days')::interval)"
              else "DATEADD(day, " + n + ", " + x + ")";
      DateAddText(d, e, base);
      StaticsAppend(ExprSlots(d, expr), ExprSlots(d, days));
  }

  lemma OneStatic(value: BoundValue)
    ensures Statics([Static(value)]) == [value]
  {
    assert [Static(value)][1..] == [];
  }

  lemma OneDynamic(index: nat)
    ensures Statics([Dynamic(index)]) == []
  {
    assert [Dynamic(index)][1..] == [];
  }

  method VisitList(d: Dialect, es: seq<Expr>, ctx: Context) returns (text: string)
    modifies ctx
    ensures text == ListText(d, es, old(ctx.paramCounter))
    ensures ctx.Grew(ListSlots(d, es))
    decreases es, 3
  {
    hide Shape, ExprText, ExprSlots, ListText, ListSlots, Statics;
    text := "";
    ghost var base := ctx.paramCounter;
    EmptyList(d, base);
    for i := 0 to |es|
      invariant text == ListText(d, es[..i], base)
      invariant ctx.Grew(ListSlots(d, es[..i]))
    {
      if i > 0 { text := text + ", "; }
      var item := Visit(d, es[i], ctx);
      text := text + item;
      ListStep(d, es, i, base);
      StaticsAppend(ListSlots(d, es[..i]), ExprSlots(d, es[i]));
    }
    assert es[..|es|] == es;
  }

  lemma EmptyList(d: Dialect, base: nat)
    ensures ListText(d, [], base) == "" && ListSlots(d, []) == [] && Statics([]) == []
  {
    EmptyRow(d, base);
  }

  lemma ListStep(d: Dialect, es: seq<Expr>, i: nat, base: nat)
    requires i < |es|
    ensures ListText(d, es[..i + 1], base)
         == ListText(d, es[..i], base) + Separator(i > 0) + ExprText(d, es[i], base + |ListSlots(d, es[..i])|)
    ensures ListSlots(d, es[..i + 1]) == ListSlots(d, es[..i]) + ExprSlots(d, es[i])
  {
    hide Shape, ItemText, ItemSlots, ListItems, TreeText, Slots;
    var ts := ShapesOf(d, es[..i + 1]);
    assert ts[..i] == ShapesOf(d, es[..i]);
    TextOfListStep(d, ts, base);
  }

  /** The part of a nested SELECT after the keyword: columns, table, condition. */
  method VisitSelect(d: Dialect, q: Select, star: PlainText, ctx: Context) returns (text: string)
    modifies ctx
    ensures text == SelectText(d, q, star, old(ctx.paramCounter))
    ensures ctx.Grew(WhereSlots(d, q.where))
    decreases q, 3
  {
    hide Shape, ExprText, ExprSlots, Statics, LexText, SelectHead;
    EmptyList(d, ctx.paramCounter);
    text := SelectHeadText(d, q, star);
    if q.where.Some? {
      var condition := Visit(d, q.where.value, ctx);
      text := text + (" WHERE " + condition);
    }
  }

  method VisitOrder(d: Dialect, os: seq<Order>, ctx: Context) returns (text: string)
    modifies ctx
    ensures text == OrderText(d, os, old(ctx.paramCounter))
    ensures ctx.Grew(OrderSlots(d, os))
    decreases os, 3
  {
    hide Shape, ExprText, ExprSlots, OrderText, OrderSlots, Statics;
    text := "";
    ghost var base := ctx.paramCounter;
    NoKeys(d, base);
    for i := 0 to |os|
      invariant text == OrderText(d, os[..i], base)
      invariant ctx.Grew(OrderSlots(d, os[..i]))
    {
      if i > 0 { text := text + ", "; }
      assert os[i].expr < os[i];
      var key := Visit(d, os[i].expr, ctx);
      text := text + (key + (if os[i].descending then " DESC" else " ASC"));
      OrderStep(d, os, i, base);
      StaticsAppend(OrderSlots(d, os[..i]), ExprSlots(d, os[i].expr));
    }
    assert os[..|os|] == os;
  }

  lemma NoKeys(d: Dialect, base: nat)
    ensures OrderText(d, [], base) == "" && OrderSlots(d, []) == [] && Statics([]) == []
  {
    EmptyRow(d, base);
    EmptyOrder();
  }

  method VisitWindow(d: Dialect, e: Expr, ctx: Context) returns (text: string)
    requires e.Window?
    modifies ctx
    ensures text == ExprText(d, e, old(ctx.paramCounter))
    ensures ctx.Grew(ExprSlots(d, e))
    decreases e, 1
  {
    hide Shape, ExprText, ExprSlots, ListText, ListSlots, OrderText, OrderSlots, Statics, WindowOpening, ArgumentText, ArgumentSlots;
    ghost var base := ctx.paramCounter;
    WindowText(d, e, base);
    EmptyList(d, base);
    NoKeys(d, base);
    text := VisitCall(d, e, ctx);
    if e.partition != [] {
      var partition := VisitList(d, e.partition, ctx);
      text := text + ("PARTITION BY " + partition);
    }
    StaticsAppend(ArgumentSlots(d, e), ListSlots(d, e.partition));
    assert ctx.Grew(ArgumentSlots(d, e) + ListSlots(d, e.partition));
    if e.partition != [] && e.order != [] { text := text + " "; }
    if e.order != [] {
      var keys := VisitOrder(d, e.order, ctx);
      text := text + ("ORDER BY " + keys);
    }
    StaticsAppend(ArgumentSlots(d, e) + ListSlots(d, e.partition), OrderSlots(d, e.order));
    text := text + ")";
  }

  /** The function call of a window expression, up to the opening parenthesis of its OVER clause. */
  method VisitCall(d: Dialect, e: Expr, ctx: Context) returns (text: string)
    requires e.Window?
    modifies ctx
    ensures text == WindowOpening(e.kind) + ArgumentText(d, e, old(ctx.paramCounter)) + ") OVER ("
    ensures ctx.Grew(ArgumentSlots(d, e))
    decreases e, 0
  {
    hide Shape, ExprText, ExprSlots, Statics, WindowOpening;
    EmptyList(d, ctx.paramCounter);
    var argument := "";
    if TakesArgument(e.kind) {
      if e.arg.Some? {
        argument := Visit(d, e.arg.value, ctx);
      } else if e.kind.Count? {
        argument := "*";
      }
    }
    text := WindowOpening(e.kind) + argument + ") OVER (";
  }
}
