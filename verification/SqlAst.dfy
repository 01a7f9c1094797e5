/** Expression trees (include/cpplinq/core/expression.h) and the layout of the text generated for them. */
module SqlAst {
  import opened Values
  import opened Dialects
  import opened LayoutTree

  datatype DatePart = Year | Month | Day

  datatype WindowFunction = RowNumber | Rank | DenseRank | Sum | Avg | Min | Max | Count

  datatype Expr =
    | Column(table: string, column: string)
    | Literal(value: BoundValue)
    | Param(index: nat)
    | Compare(left: Expr, op: CompareOp, right: Expr)
    | Logic(left: Expr, isAnd: bool, right: Expr)
    | Not(operand: Expr)
    | IsNull(operand: Expr, negated: bool)
    | Between(expr: Expr, low: Expr, high: Expr, negated: bool)
    | Like(expr: Expr, pattern: Expr, negated: bool)
    | InList(expr: Expr, values: seq<Expr>, negated: bool)
    | Function(name: string, args: seq<Expr>)
    | Subquery(query: Select)
    | Exists(query: Select, negated: bool)
    | InSubquery(expr: Expr, query: Select, negated: bool)
    | Extract(part: DatePart, expr: Expr)
    | DateAdd(expr: Expr, days: Expr)
    | Window(kind: WindowFunction, arg: Option<Expr>, partition: seq<Expr>, order: seq<Order>)
    | CurrentTimestamp
    | CurrentDate
    | Missing // a null node pointer prints nothing

  datatype Select = Select(table: string, columns: seq<string>, where: Option<Expr>, distinct: bool)

  datatype Order = Order(expr: Expr, descending: bool)

  // ---------------------------------------------------------------------------------------------
  // Layout
  // ---------------------------------------------------------------------------------------------

  // The words of the generated text.
  const DISTINCT: PlainText := "DISTINCT "
  const FROM: PlainText := " FROM "
  const ALWAYS_TRUE: PlainText := "(1 = 1)"
  const ALWAYS_FALSE: PlainText := "(1 = 0)"
  const NESTED_SELECT: PlainText := "(SELECT "
  const NOT_EXISTS: PlainText := "NOT EXISTS (SELECT "
  const EXISTS: PlainText := "EXISTS (SELECT "
  const SELECT: PlainText := "SELECT "
  const EXTRACT: PlainText := "EXTRACT("
  const FROM_CAST: PlainText := " FROM CAST("
  const AS_TIMESTAMP_CLOSE: PlainText := " AS TIMESTAMP))"
  const OPEN_CAST: PlainText := "(CAST("
  const AS_TIMESTAMP_PLUS: PlainText := " AS TIMESTAMP) + ("
  const CONCATENATE: PlainText := " || "
  const TO_INTERVAL: PlainText := ")::interval)"
  const DATEADD: PlainText := "DATEADD(day, "
  const CURRENT_TIMESTAMP: PlainText := "CURRENT_TIMESTAMP"
  const CURRENT_DATE: PlainText := "CURRENT_DATE"
  const CAST_GETDATE: PlainText := "CAST(GETDATE() AS DATE)"
  const DESC: PlainText := " DESC"
  const ASC: PlainText := " ASC"
  const WHERE: PlainText := " WHERE "
  const OVER: PlainText := " OVER ("
  const SPACE: PlainText := " "
  const STAR: PlainText := "*"
  const ONE: PlainText := "1"
  const PARTITION_BY: PlainText := "PARTITION BY "
  const ORDER_BY: PlainText := "ORDER BY "

  function Toks(ls: seq<Lexeme>): (r: seq<Item>)
    ensures |r| == |ls|
    ensures forall i :: 0 <= i < |ls| ==> r[i] == Tok(ls[i])
  {
    seq(|ls|, i requires 0 <= i < |ls| => Tok(ls[i]))
  }

  function Names(ids: seq<string>): seq<Lexeme> {
    if ids == [] then []
    else Names(ids[..|ids| - 1]) + (if |ids| > 1 then [Comma] else []) + [Ident(ids[|ids| - 1])]
  }

  function ColumnPieces(table: string, column: string): seq<Lexeme> {
    if table == "" then [Ident(column)] else [Ident(table), Dot, Ident(column)]
  }

  function DatePartName(part: DatePart): PlainText {
    match part
    case Year => "YEAR"
    case Month => "MONTH"
    case Day => "DAY"
  }

  function WindowOpening(f: WindowFunction): PlainText {
    match f
    case RowNumber => "ROW_NUMBER("
    case Rank => "RANK("
    case DenseRank => "DENSE_RANK("
    case Sum => "SUM("
    case Avg => "AVG("
    case Min => "MIN("
    case Max => "MAX("
    case Count => "COUNT("
  }

  predicate TakesArgument(f: WindowFunction) { !f.RowNumber? && !f.Rank? && !f.DenseRank? }

  function SelectHead(q: Select, star: PlainText): seq<Lexeme> {
    (if q.distinct then [Raw(DISTINCT)] else [])
    + (if q.columns == [] then [Raw(star)] else Names(q.columns))
    + [Raw(FROM), Ident(q.table)]
  }

  function OptionList<T>(o: Option<T>): seq<T> { if o.Some? then [o.value] else [] }

  function Argument(f: WindowFunction, arg: Option<Expr>): seq<Expr> {
    if TakesArgument(f) then OptionList(arg) else []
  }

  /** The direct operands of an expression, subquery conditions and sort keys included, in visiting order. */
  function Operands(e: Expr): (r: seq<Expr>)
    ensures forall i :: 0 <= i < |r| ==> r[i] < e
  {
    match e
    case Column(_, _) => []
    case Literal(_) => []
    case Param(_) => []
    case Compare(left, _, right) => [left, right]
    case Logic(left, _, right) => [left, right]
    case Not(operand) => [operand]
    case IsNull(operand, _) => [operand]
    case Between(expr, low, high, _) => [expr, low, high]
    case Like(expr, pattern, _) => [expr, pattern]
    case InList(expr, values, _) => [expr] + values
    case Function(_, args) => args
    case Subquery(q) => OptionList(q.where)
    case Exists(q, _) => OptionList(q.where)
    case InSubquery(expr, q, _) => [expr] + OptionList(q.where)
    case Extract(_, expr) => [expr]
    case DateAdd(expr, days) => [expr, days]
    case Window(f, arg, partition, order) =>
      Argument(f, arg) + partition + Keys(e, order)
    case CurrentTimestamp => []
    case CurrentDate => []
    case Missing => []
  }

  function Keys(ghost owner: Expr, order: seq<Order>): (r: seq<Expr>)
    requires forall i :: 0 <= i < |order| ==> order[i] < owner
    ensures |r| == |order|
    ensures forall i :: 0 <= i < |order| ==> r[i] == order[i].expr
    ensures forall i :: 0 <= i < |r| ==> r[i] < owner
  {
    seq(|order|, i requires 0 <= i < |order| => order[i].expr)
  }

  /** The layout of the text printed for an expression. */
  function Shape(d: Dialect, e: Expr): Tree
    decreases e
  {
    var operands := Operands(e);
    Layout(d, e, seq(|operands|, i requires 0 <= i < |operands| => Shape(d, operands[i])))
  }

  /** How an expression prints, given the layouts of its operands in visiting order. */
  function Layout(d: Dialect, e: Expr, kids: seq<Tree>): Tree
    requires |kids| == |Operands(e)|
  {
    match e
    case Column(table, column) => Row(Toks(ColumnPieces(table, column)))
    case Literal(value) => Leaf(Static(value))
    case Param(index) => Leaf(Dynamic(index))
    case Compare(_, op, _) => Row(Two([LParen], kids[0], [Cmp(op)], kids[1], [RParen]))
    case Logic(_, isAnd, _) => Row(Two([LParen], kids[0], [if isAnd then AndWord else OrWord], kids[1], [RParen]))
    case Not(_) => Row(One([NotWord, LParen], kids[0], [RParen]))
    case IsNull(_, negated) => Row(One([], kids[0], [NullTest(negated)]))
    case Between(_, _, _, negated) =>
      Row(Two([LParen], kids[0], [BetweenWord(negated)], kids[1], [AndWord]) + One([], kids[2], [RParen]))
    case Like(_, _, negated) => Row(Two([LParen], kids[0], [LikeWord(negated)], kids[1], [RParen]))
    case InList(_, values, negated) =>
      if values == [] then Dropped([Raw(if negated then ALWAYS_TRUE else ALWAYS_FALSE)], kids[0])
      else Row(One([LParen], kids[0], [InWord(negated), LParen]) + ListItems(kids[1..]) + Toks([RParen, RParen]))
    case Function(name, _) => Row(Toks([Verbatim(FunctionName(d, name)), LParen]) + ListItems(kids) + Toks([RParen]))
    case Subquery(q) => Row(NestedSelect(Toks([Raw(NESTED_SELECT)]), q, STAR, kids, [RParen]))
    case Exists(q, negated) => Row(NestedSelect(Toks([Raw(if negated then NOT_EXISTS else EXISTS)]), q, ONE, kids, [RParen]))
    case InSubquery(_, q, negated) =>
      Row(NestedSelect(One([LParen], kids[0], [InWord(negated), LParen, Raw(SELECT)]), q, STAR, kids[1..], [RParen, RParen]))
    case Extract(part, _) =>
      if d.Postgres? then Row(One([Raw(EXTRACT), Raw(DatePartName(part)), Raw(FROM_CAST)], kids[0], [Raw(AS_TIMESTAMP_CLOSE)]))
      else Row(One([Raw(DatePartName(part)), LParen], kids[0], [RParen]))
    case DateAdd(_, _) =>
      if d.Postgres? then
        Row(Two([Raw(OPEN_CAST)], kids[0], [Raw(AS_TIMESTAMP_PLUS)], kids[1], [Raw(CONCATENATE), DaysConstant, Raw(TO_INTERVAL)]))
      else Swapped([Raw(DATEADD)], kids[0], [Comma], kids[1], [RParen])
    case Window(f, arg, partition, order) =>
      var a := |Argument(f, arg)|;
      Row(WindowCall(f, kids[..a]) + PartitionClause(kids[a..a + |partition|])
          + Toks(if partition != [] && order != [] then [Raw(SPACE)] else [])
          + OrderClause(kids[a + |partition|..], order) + Toks([RParen]))
    case CurrentTimestamp => Row(Toks([Raw(CURRENT_TIMESTAMP)]))
    case CurrentDate => Row(Toks([Raw(if d.Postgres? then CURRENT_DATE else CAST_GETDATE)]))
    case Missing => Row([])
  }

  function One(before: seq<Lexeme>, t: Tree, after: seq<Lexeme>): seq<Item> {
    Toks(before) + [Sub(t)] + Toks(after)
  }

  function Two(before: seq<Lexeme>, t: Tree, between: seq<Lexeme>, u: Tree, after: seq<Lexeme>): seq<Item> {
    One(before, t, between) + One([], u, after)
  }

  function ListItems(ts: seq<Tree>): seq<Item> {
    if ts == [] then []
    else ListItems(ts[..|ts| - 1]) + Toks(if |ts| > 1 then [Comma] else []) + [Sub(ts[|ts| - 1])]
  }

  function OrderItems(ts: seq<Tree>, os: seq<Order>): seq<Item>
    requires |ts| == |os|
  {
    if ts == [] then []
    else
      var n := |ts| - 1;
      OrderItems(ts[..n], os[..n]) + Toks(if |ts| > 1 then [Comma] else []) + OrderItem(ts[n], os[n].descending)
  }

  function OrderItem(t: Tree, descending: bool): seq<Item> {
    One([], t, [Raw(if descending then DESC else ASC)])
  }

  /** A nested SELECT; `where` holds the layout of its condition, if it has one. */
  function NestedSelect(before: seq<Item>, q: Select, star: PlainText, where: seq<Tree>, after: seq<Lexeme>): seq<Item> {
    before + Toks(SelectHead(q, star)) + WhereItems(where) + Toks(after)
  }

  function WhereItems(where: seq<Tree>): seq<Item> {
    if where == [] then [] else One([Raw(WHERE)], where[0], [])
  }

  function WindowCall(f: WindowFunction, arg: seq<Tree>): seq<Item> {
    Toks([Raw(WindowOpening(f))])
    + (if arg == [] then Toks(if f.Count? then [Raw(STAR)] else []) else [Sub(arg[0])])
    + Toks([RParen, Raw(OVER)])
  }

  function PartitionClause(ts: seq<Tree>): seq<Item> {
    if ts == [] then [] else Toks([Raw(PARTITION_BY)]) + ListItems(ts)
  }

  function OrderClause(ts: seq<Tree>, os: seq<Order>): seq<Item>
    requires |ts| == |os|
  {
    if os == [] then [] else Toks([Raw(ORDER_BY)]) + OrderItems(ts, os)
  }
}
