/**
 * Prepared queries (include/cpplinq/core/prepared_query.h): filling the slots of a compiled expression, and the
 * law that compiling first and binding later is the same as writing the arguments in and compiling then.
 */
module PreparedQuery {
  import opened Values
  import opened Dialects
  import opened LayoutTree
  import opened SqlAst
  import opened SqlConditions
  import opened SqlText
  import opened SqlStatements

  // ---------------------------------------------------------------------------------------------
  // Binding
  // ---------------------------------------------------------------------------------------------

  /** A prepared statement as its binder sees it: the values bound by position since the last reset. */
  class Statement {
    var bound: map<nat, BoundValue>

    constructor ()
      ensures bound == map[]
    {
      bound := map[];
    }

    method Reset()
      modifies this
      ensures bound == map[]
    {
      bound := map[];
    }

    method Bind(index: nat, value: BoundValue)
      modifies this
      ensures bound == old(bound)[index := value]
    {
      bound := bound[index := value];
    }
  }

  predicate Covered(s: Slot, args: seq<BoundValue>) { s.Static? || s.index < |args| }

  /** Every parameter the slots mention has an argument. */
  predicate Covers(slots: seq<Slot>, args: seq<BoundValue>) {
    forall i :: 0 <= i < |slots| ==> Covered(slots[i], args)
  }

  /** The value a covered slot is given. */
  function SlotValue(s: Slot, args: seq<BoundValue>): BoundValue
    requires Covered(s, args)
  {
    match s
    case Static(value) => value
    case Dynamic(index) => args[index]
  }

  function SlotValues(slots: seq<Slot>, args: seq<BoundValue>): (r: seq<BoundValue>)
    requires Covers(slots, args)
    ensures |r| == |slots|
    ensures forall i :: 0 <= i < |slots| ==> r[i] == SlotValue(slots[i], args)
  {
    seq(|slots|, i requires 0 <= i < |slots| => SlotValue(slots[i], args))
  }

  /** The bindings a sequence of values makes, from position 0. */
  function Positions(values: seq<BoundValue>): map<nat, BoundValue> {
    map i: nat | i < |values| :: values[i]
  }

  /**
   * Resets the statement and binds slot after slot. A parameter without an argument stops the loop with an
   * exception; the slots before it stay bound.
   */
  method BindSlots(stmt: Statement, slots: seq<Slot>, args: seq<BoundValue>) returns (ok: bool)
    modifies stmt
    ensures ok <==> Covers(slots, args)
    ensures ok ==> stmt.bound == Positions(SlotValues(slots, args))
    ensures !ok ==> exists n: nat ::
      n < |slots| && !Covered(slots[n], args) && Covers(slots[..n], args) && stmt.bound == Positions(SlotValues(slots[..n], args))
  {
    stmt.Reset();
    for i := 0 to |slots|
      invariant Covers(slots[..i], args)
      invariant stmt.bound == Positions(SlotValues(slots[..i], args))
    {
      assert slots[..i + 1][..i] == slots[..i];
      match slots[i]
      case Dynamic(index) =>
        if index < |args| {
          stmt.Bind(i, args[index]);
        } else {
          return false;
        }
      case Static(value) =>
        stmt.Bind(i, value);
    }
    assert slots[..|slots|] == slots;
    ok := true;
  }

  // ---------------------------------------------------------------------------------------------
  // Writing arguments into an expression
  // ---------------------------------------------------------------------------------------------

  /** The same expression with other operands, in visiting order. */
  function WithOperands(e: Expr, ops: seq<Expr>): (r: Expr)
    requires |ops| == |Operands(e)|
  {
    match e
    case Column(_, _) => e
    case Literal(_) => e
    case Param(_) => e
    case Compare(_, op, _) => Compare(ops[0], op, ops[1])
    case Logic(_, isAnd, _) => Logic(ops[0], isAnd, ops[1])
    case Not(_) => Not(ops[0])
    case IsNull(_, negated) => IsNull(ops[0], negated)
    case Between(_, _, _, negated) => Between(ops[0], ops[1], ops[2], negated)
    case Like(_, _, negated) => Like(ops[0], ops[1], negated)
    case InList(_, _, negated) => InList(ops[0], ops[1..], negated)
    case Function(name, _) => Function(name, ops)
    case Subquery(q) => Subquery(WithCondition(q, ops))
    case Exists(q, negated) => Exists(WithCondition(q, ops), negated)
    case InSubquery(_, q, negated) => InSubquery(ops[0], WithCondition(q, ops[1..]), negated)
    case Extract(part, _) => Extract(part, ops[0])
    case DateAdd(_, _) => DateAdd(ops[0], ops[1])
    case Window(kind, arg, partition, order) =>
      var a, p := |Argument(kind, arg)|, |partition|;
      Window(kind, if a == 0 then arg else Some(ops[0]), ops[a..a + p], WithKeys(order, ops[a + p..]))
    case CurrentTimestamp => e
    case CurrentDate => e
    case Missing => e
  }

  function WithCondition(q: Select, ops: seq<Expr>): Select {
    if ops == [] then q else Select(q.table, q.columns, Some(ops[0]), q.distinct)
  }

  function WithKeys(order: seq<Order>, ops: seq<Expr>): (r: seq<Order>)
    requires |ops| == |order|
    ensures |r| == |order|
    ensures forall i :: 0 <= i < |r| ==> r[i] == Order(ops[i], order[i].descending)
  {
    seq(|order|, i requires 0 <= i < |order| => Order(ops[i], order[i].descending))
  }

  /** Each parameter that has an argument becomes the literal argument. */
  function Substitute(e: Expr, args: seq<BoundValue>): Expr
    decreases e
  {
    if e.Param? then (if e.index < |args| then Literal(args[e.index]) else e)
    else
      var operands := Operands(e);
      WithOperands(e, seq(|operands|, i requires 0 <= i < |operands| => Substitute(operands[i], args)))
  }

  lemma OtherOperands(e: Expr, ops: seq<Expr>)
    requires !e.Window? && |ops| == |Operands(e)|
    ensures Operands(WithOperands(e, ops)) == ops
  {
    hide Argument, Keys, WithKeys;
  }

  lemma WindowOperands(e: Expr, ops: seq<Expr>)
    requires e.Window? && |ops| == |Operands(e)|
    ensures Operands(WithOperands(e, ops)) == ops
  {
    hide Keys, WithKeys;
    var a, p := |Argument(e.kind, e.arg)|, |e.partition|;
    var w := WithOperands(e, ops);
    assert Argument(w.kind, w.arg) == ops[..a];
    assert Keys(w, w.order) == ops[a + p..];
    assert ops == ops[..a] + ops[a..a + p] + ops[a + p..];
  }

  lemma OperandsOfWithOperands(e: Expr, ops: seq<Expr>)
    requires |ops| == |Operands(e)|
    ensures Operands(WithOperands(e, ops)) == ops
  {
    if e.Window? { WindowOperands(e, ops); } else { OtherOperands(e, ops); }
  }

  lemma LayoutOfWithOperands(d: Dialect, e: Expr, ops: seq<Expr>, kids: seq<Tree>)
    requires |ops| == |Operands(e)| == |kids|
    requires |Operands(WithOperands(e, ops))| == |kids|
    ensures Layout(d, WithOperands(e, ops), kids) == Layout(d, e, kids)
  {
    if e.Window? { WindowOfWithOperands(d, e, ops, kids); }
  }

  lemma KeysDoNotMatter(ts: seq<Tree>, os: seq<Order>, ps: seq<Order>)
    requires |ts| == |os| == |ps|
    requires forall i :: 0 <= i < |os| ==> os[i].descending == ps[i].descending
    ensures OrderClause(ts, os) == OrderClause(ts, ps) && OrderItems(ts, os) == OrderItems(ts, ps)
  {
    if ts != [] {
      var n := |ts| - 1;
      KeysDoNotMatter(ts[..n], os[..n], ps[..n]);
    }
  }

  function WindowRow(kind: WindowFunction, arg: seq<Tree>, ps: seq<Tree>, both: bool, order: seq<Item>): Tree {
    Row(WindowCall(kind, arg) + PartitionClause(ps) + Toks(if both then [Raw(SPACE)] else []) + order + Toks([RParen]))
  }

  lemma LayoutOfWindow(d: Dialect, e: Expr, kids: seq<Tree>, a: nat, p: nat)
    requires e.Window? && |kids| == |Operands(e)| && a == |Argument(e.kind, e.arg)| && p == |e.partition|
    ensures a <= 1 && a + p <= |kids| && |kids| - a - p == |e.order|
    ensures Layout(d, e, kids) == WindowRow(e.kind, kids[..a], kids[a..a + p], p > 0 && |e.order| > 0, OrderClause(kids[a + p..], e.order))
  {
    hide WindowCall, PartitionClause, OrderClause, Toks;
  }

  lemma WindowOfWithOperands(d: Dialect, e: Expr, ops: seq<Expr>, kids: seq<Tree>)
    requires e.Window? && |ops| == |Operands(e)| == |kids|
    requires |Operands(WithOperands(e, ops))| == |kids|
    ensures Layout(d, WithOperands(e, ops), kids) == Layout(d, e, kids)
  {
    hide WithOperands, Argument, WindowRow, OrderClause, Operands, Layout;
    var w, a, p := WithOperands(e, ops), |Argument(e.kind, e.arg)|, |e.partition|;
    WindowRebuilt(e, ops);
    LayoutOfWindow(d, e, kids, a, p);
    LayoutOfWindow(d, w, kids, a, p);
    KeysDoNotMatter(kids[a + p..], e.order, w.order);
  }

  lemma WindowRebuilt(e: Expr, ops: seq<Expr>)
    requires e.Window? && |ops| == |Operands(e)|
    ensures |Operands(e)| == |Argument(e.kind, e.arg)| + |e.partition| + |e.order|
    ensures var w := WithOperands(e, ops);
      && w.Window? && w.kind == e.kind && |Argument(w.kind, w.arg)| == |Argument(e.kind, e.arg)|
      && |w.partition| == |e.partition| && |w.order| == |e.order|
      && forall i :: 0 <= i < |e.order| ==> w.order[i].descending == e.order[i].descending
  {
  }

  // ---------------------------------------------------------------------------------------------
  // The layout of a substituted expression is the filled layout
  // ---------------------------------------------------------------------------------------------

  function FillKids(kids: seq<Tree>, args: seq<BoundValue>): (r: seq<Tree>)
    ensures |r| == |kids|
    ensures forall i :: 0 <= i < |kids| ==> r[i] == FillTree(kids[i], args)
  {
    seq(|kids|, i requires 0 <= i < |kids| => FillTree(kids[i], args))
  }

  lemma FillToks(ls: seq<Lexeme>, args: seq<BoundValue>)
    ensures FillItems(Toks(ls), args) == Toks(ls)
  {
    if ls != [] {
      assert Toks(ls)[1..] == Toks(ls[1..]);
      FillToks(ls[1..], args);
      assert Toks(ls) == [Toks(ls)[0]] + Toks(ls[1..]);
    }
  }

  lemma FillSub(t: Tree, args: seq<BoundValue>)
    ensures FillItems([Sub(t)], args) == [Sub(FillTree(t, args))]
  {
    assert [Sub(t)][1..] == [];
  }

  lemma FillOne(before: seq<Lexeme>, t: Tree, after: seq<Lexeme>, args: seq<BoundValue>)
    ensures FillItems(One(before, t, after), args) == One(before, FillTree(t, args), after)
  {
    hide FillItems, FillTree, Toks;
    FillToks(before, args);
    FillSub(t, args);
    FillToks(after, args);
    FillItemsAppend(Toks(before) + [Sub(t)], Toks(after), args);
    FillItemsAppend(Toks(before), [Sub(t)], args);
  }

  lemma FillTwo(before: seq<Lexeme>, t: Tree, between: seq<Lexeme>, u: Tree, after: seq<Lexeme>, args: seq<BoundValue>)
    ensures FillItems(Two(before, t, between, u, after), args) == Two(before, FillTree(t, args), between, FillTree(u, args), after)
  {
    hide FillItems, FillTree, One;
    FillOne(before, t, between, args);
    FillOne([], u, after, args);
    FillItemsAppend(One(before, t, between), One([], u, after), args);
  }

  lemma FillThree(a: seq<Item>, b: seq<Item>, c: seq<Item>, args: seq<BoundValue>)
    ensures FillItems(a + b + c, args) == FillItems(a, args) + FillItems(b, args) + FillItems(c, args)
  {
    hide FillItems;
    FillItemsAppend(a + b, c, args);
    FillItemsAppend(a, b, args);
  }

  lemma {:induction false} FillList(ts: seq<Tree>, args: seq<BoundValue>)
    ensures FillItems(ListItems(ts), args) == ListItems(FillKids(ts, args))
  {
    hide FillItems, FillTree, Toks;
    if ts == [] {
      FillNone(args);
    } else {
      var n, comma := |ts| - 1, if |ts| > 1 then [Comma] else [];
      FillList(ts[..n], args);
      FillToks(comma, args);
      FillSub(ts[n], args);
      FillThree(ListItems(ts[..n]), Toks(comma), [Sub(ts[n])], args);
      assert FillKids(ts, args)[..n] == FillKids(ts[..n], args);
    }
  }

  lemma FillNone(args: seq<BoundValue>)
    ensures FillItems([], args) == [] && ListItems([]) == [] && OrderItems([], []) == []
  {
  }

  lemma {:induction false} FillOrder(ts: seq<Tree>, os: seq<Order>, args: seq<BoundValue>)
    requires |ts| == |os|
    ensures FillItems(OrderItems(ts, os), args) == OrderItems(FillKids(ts, args), os)
  {
    hide FillItems, FillTree, Toks, One;
    if ts == [] {
      FillNone(args);
    } else {
      var n, comma := |ts| - 1, if |ts| > 1 then [Comma] else [];
      FillOrder(ts[..n], os[..n], args);
      FillToks(comma, args);
      FillOne([], ts[n], [Raw(if os[n].descending then DESC else ASC)], args);
      FillThree(OrderItems(ts[..n], os[..n]), Toks(comma), OrderItem(ts[n], os[n].descending), args);
      assert FillKids(ts, args)[..n] == FillKids(ts[..n], args);
    }
  }

  lemma FillSelect(before: seq<Item>, q: Select, star: PlainText, where: seq<Tree>, after: seq<Lexeme>, args: seq<BoundValue>)
    requires |where| <= 1
    ensures FillItems(NestedSelect(before, q, star, where, after), args)
         == NestedSelect(FillItems(before, args), q, star, FillKids(where, args), after)
  {
    hide FillItems, FillTree, Toks, SelectHead, One;
    FillToks(SelectHead(q, star), args);
    FillToks(after, args);
    FillNone(args);
    if where != [] { FillOne([Raw(WHERE)], where[0], [], args); }
    FillThree(before, Toks(SelectHead(q, star)), WhereItems(where), args);
    FillItemsAppend(before + Toks(SelectHead(q, star)) + WhereItems(where), Toks(after), args);
  }

  lemma FillCall(f: WindowFunction, arg: seq<Tree>, args: seq<BoundValue>)
    ensures FillItems(WindowCall(f, arg), args) == WindowCall(f, FillKids(arg, args))
  {
    hide FillItems, FillTree, Toks;
    var middle := if arg == [] then Toks(if f.Count? then [Raw(STAR)] else []) else [Sub(arg[0])];
    FillToks([Raw(WindowOpening(f))], args);
    FillToks([RParen, Raw(OVER)], args);
    if arg == [] { FillToks(if f.Count? then [Raw(STAR)] else [], args); } else { FillSub(arg[0], args); }
    FillThree(Toks([Raw(WindowOpening(f))]), middle, Toks([RParen, Raw(OVER)]), args);
  }

  lemma FillClauses(ps: seq<Tree>, ts: seq<Tree>, os: seq<Order>, args: seq<BoundValue>)
    requires |ts| == |os|
    ensures FillItems(PartitionClause(ps), args) == PartitionClause(FillKids(ps, args))
    ensures FillItems(OrderClause(ts, os), args) == OrderClause(FillKids(ts, args), os)
  {
    hide FillItems, FillTree, Toks, ListItems, OrderItems;
    FillNone(args);
    FillToks([Raw(PARTITION_BY)], args);
    FillList(ps, args);
    FillItemsAppend(Toks([Raw(PARTITION_BY)]), ListItems(ps), args);
    FillToks([Raw(ORDER_BY)], args);
    FillOrder(ts, os, args);
    FillItemsAppend(Toks([Raw(ORDER_BY)]), OrderItems(ts, os), args);
  }

  lemma FillWindow(f: WindowFunction, arg: seq<Tree>, ps: seq<Tree>, space: seq<Lexeme>, ts: seq<Tree>, os: seq<Order>, args: seq<BoundValue>)
    requires |ts| == |os|
    ensures FillItems(WindowCall(f, arg) + PartitionClause(ps) + Toks(space) + OrderClause(ts, os) + Toks([RParen]), args)
         == WindowCall(f, FillKids(arg, args)) + PartitionClause(FillKids(ps, args)) + Toks(space)
            + OrderClause(FillKids(ts, args), os) + Toks([RParen])
  {
    hide FillItems, FillTree, Toks, WindowCall, PartitionClause, OrderClause;
    FillCall(f, arg, args);
    FillClauses(ps, ts, os, args);
    FillToks(space, args);
    FillToks([RParen], args);
    FillThree(WindowCall(f, arg), PartitionClause(ps), Toks(space), args);
    FillThree(WindowCall(f, arg) + PartitionClause(ps) + Toks(space), OrderClause(ts, os), Toks([RParen]), args);
  }

  lemma FillPredicate(d: Dialect, e: Expr, kids: seq<Tree>, args: seq<BoundValue>)
    requires |kids| == |Operands(e)|
    requires e.Compare? || e.Logic? || e.Not? || e.IsNull? || e.Between? || e.Like?
    ensures FillTree(Layout(d, e, kids), args) == Layout(d, e, FillKids(kids, args))
  {
    hide FillItems, One, Two;
    match e
    case Compare(_, op, _) => FillTwo([LParen], kids[0], [Cmp(op)], kids[1], [RParen], args);
    case Logic(_, isAnd, _) => FillTwo([LParen], kids[0], [if isAnd then AndWord else OrWord], kids[1], [RParen], args);
    case Not(_) => FillOne([NotWord, LParen], kids[0], [RParen], args);
    case IsNull(_, n) => FillOne([], kids[0], [NullTest(n)], args);
    case Between(_, _, _, n) =>
      FillTwo([LParen], kids[0], [BetweenWord(n)], kids[1], [AndWord], args);
      FillOne([], kids[2], [RParen], args);
      FillItemsAppend(Two([LParen], kids[0], [BetweenWord(n)], kids[1], [AndWord]), One([], kids[2], [RParen]), args);
    case Like(_, _, n) => FillTwo([LParen], kids[0], [LikeWord(n)], kids[1], [RParen], args);
  }

  lemma FillQuery(d: Dialect, e: Expr, kids: seq<Tree>, args: seq<BoundValue>)
    requires |kids| == |Operands(e)|
    requires e.Subquery? || e.Exists? || e.InSubquery?
    ensures FillTree(Layout(d, e, kids), args) == Layout(d, e, FillKids(kids, args))
  {
    hide FillItems, One, Toks, NestedSelect;
    match e
    case Subquery(q) =>
      FillToks([Raw(NESTED_SELECT)], args);
      FillSelect(Toks([Raw(NESTED_SELECT)]), q, STAR, kids, [RParen], args);
    case Exists(q, n) =>
      var word := [Raw(if n then NOT_EXISTS else EXISTS)];
      FillToks(word, args);
      FillSelect(Toks(word), q, ONE, kids, [RParen], args);
    case InSubquery(_, q, n) =>
      var words := [InWord(n), LParen, Raw(SELECT)];
      FillOne([LParen], kids[0], words, args);
      FillSelect(One([LParen], kids[0], words), q, STAR, kids[1..], [RParen, RParen], args);
      assert FillKids(kids, args)[1..] == FillKids(kids[1..], args);
  }

  lemma FillDate(d: Dialect, e: Expr, kids: seq<Tree>, args: seq<BoundValue>)
    requires |kids| == |Operands(e)|
    requires e.Extract? || e.DateAdd? || e.CurrentDate? || e.CurrentTimestamp? || e.Column? || e.Missing?
    ensures FillTree(Layout(d, e, kids), args) == Layout(d, e, FillKids(kids, args))
  {
    hide FillItems, One, Two, Toks;
    match e
    case Column(table, column) => FillToks(ColumnPieces(table, column), args);
    case Extract(part, _) =>
      FillOne([Raw(EXTRACT), Raw(DatePartName(part)), Raw(FROM_CAST)], kids[0], [Raw(AS_TIMESTAMP_CLOSE)], args);
      FillOne([Raw(DatePartName(part)), LParen], kids[0], [RParen], args);
    case DateAdd(_, _) =>
      FillTwo([Raw(OPEN_CAST)], kids[0], [Raw(AS_TIMESTAMP_PLUS)], kids[1], [Raw(CONCATENATE), DaysConstant, Raw(TO_INTERVAL)], args);
    case CurrentTimestamp => FillToks([Raw(CURRENT_TIMESTAMP)], args);
    case CurrentDate => FillToks([Raw(if d.Postgres? then CURRENT_DATE else CAST_GETDATE)], args);
    case Missing => FillNone(args);
  }

  lemma FillLists(d: Dialect, e: Expr, kids: seq<Tree>, args: seq<BoundValue>)
    requires |kids| == |Operands(e)|
    requires e.Function? || e.InList?
    ensures FillTree(Layout(d, e, kids), args) == Layout(d, e, FillKids(kids, args))
  {
    hide FillItems, One, Toks, ListItems;
    if e.Function? {
      var name := [Verbatim(FunctionName(d, e.name)), LParen];
      FillToks(name, args);
      FillList(kids, args);
      FillToks([RParen], args);
      FillThree(Toks(name), ListItems(kids), Toks([RParen]), args);
    } else if e.values != [] {
      var head := One([LParen], kids[0], [InWord(e.negated), LParen]);
      FillOne([LParen], kids[0], [InWord(e.negated), LParen], args);
      FillList(kids[1..], args);
      FillToks([RParen, RParen], args);
      FillThree(head, ListItems(kids[1..]), Toks([RParen, RParen]), args);
      assert FillKids(kids, args)[1..] == FillKids(kids[1..], args);
    }
  }

  lemma FillLayout(d: Dialect, e: Expr, kids: seq<Tree>, args: seq<BoundValue>)
    requires |kids| == |Operands(e)| && !e.Literal? && !e.Param?
    ensures FillTree(Layout(d, e, kids), args) == Layout(d, e, FillKids(kids, args))
  {
    hide Layout, FillItems;
    if e.Compare? || e.Logic? || e.Not? || e.IsNull? || e.Between? || e.Like? { FillPredicate(d, e, kids, args); }
    else if e.Subquery? || e.Exists? || e.InSubquery? { FillQuery(d, e, kids, args); }
    else if e.Function? || e.InList? { FillLists(d, e, kids, args); }
    else if e.Window? { FillWindowLayout(d, e, kids, args); }
    else { FillDate(d, e, kids, args); }
  }

  lemma FillWindowLayout(d: Dialect, e: Expr, kids: seq<Tree>, args: seq<BoundValue>)
    requires |kids| == |Operands(e)| && e.Window?
    ensures FillTree(Layout(d, e, kids), args) == Layout(d, e, FillKids(kids, args))
  {
    hide FillItems, WindowCall, PartitionClause, OrderClause, Toks;
    var a, p, filled := |Argument(e.kind, e.arg)|, |e.partition|, FillKids(kids, args);
    var space := if e.partition != [] && e.order != [] then [Raw(SPACE)] else [];
    FillWindow(e.kind, kids[..a], kids[a..a + p], space, kids[a + p..], e.order, args);
    assert filled[..a] == FillKids(kids[..a], args);
    assert filled[a..a + p] == FillKids(kids[a..a + p], args);
    assert filled[a + p..] == FillKids(kids[a + p..], args);
  }

  /** Substituting arguments fills the layout in. */
  lemma {:induction false} ShapeOfSubstitute(d: Dialect, e: Expr, args: seq<BoundValue>)
    ensures Shape(d, Substitute(e, args)) == FillTree(Shape(d, e), args)
  {
    if e.Param? || e.Literal? {
      assert Operands(e) == [];
    } else {
      var ops := SubstituteAll(Operands(e), args);
      forall i | 0 <= i < |ops| ensures Shape(d, ops[i]) == FillTree(Shape(d, Operands(e)[i]), args) {
        ShapeOfSubstitute(d, Operands(e)[i], args);
      }
      SubstituteStep(e, args);
      OperandsOfWithOperands(e, ops);
      ShapeOfRebuilt(d, e, ops, args);
    }
  }

  function SubstituteAll(es: seq<Expr>, args: seq<BoundValue>): (r: seq<Expr>)
    ensures |r| == |es|
    ensures forall i :: 0 <= i < |es| ==> r[i] == Substitute(es[i], args)
  {
    seq(|es|, i requires 0 <= i < |es| => Substitute(es[i], args))
  }

  lemma SubstituteStep(e: Expr, args: seq<BoundValue>)
    requires !e.Param?
    ensures Substitute(e, args) == WithOperands(e, SubstituteAll(Operands(e), args))
  {
    var operands := Operands(e);
    assert seq(|operands|, i requires 0 <= i < |operands| => Substitute(operands[i], args)) == SubstituteAll(operands, args);
  }

  lemma ShapeOfRebuilt(d: Dialect, e: Expr, ops: seq<Expr>, args: seq<BoundValue>)
    requires !e.Param? && !e.Literal? && |ops| == |Operands(e)|
    requires Operands(WithOperands(e, ops)) == ops
    requires forall i :: 0 <= i < |ops| ==> Shape(d, ops[i]) == FillTree(Shape(d, Operands(e)[i]), args)
    ensures Shape(d, WithOperands(e, ops)) == FillTree(Shape(d, e), args)
  {
    hide Shape, Layout, FillTree, WithOperands;
    var kids := Kids(d, WithOperands(e, ops));
    assert kids == FillKids(Kids(d, e), args);
    LayoutOfWithOperands(d, e, ops, kids);
    FillLayout(d, e, Kids(d, e), args);
  }

  // ---------------------------------------------------------------------------------------------
  // Compile, then bind
  // ---------------------------------------------------------------------------------------------

  lemma FilledStatics(slots: seq<Slot>, args: seq<BoundValue>)
    requires Covers(slots, args)
    ensures Statics(FillAll(slots, args)) == SlotValues(slots, args)
    ensures forall i :: 0 <= i < |slots| ==> FillAll(slots, args)[i].Static?
  {
    if slots != [] {
      FilledStatics(slots[1..], args);
      assert FillAll(slots, args)[1..] == FillAll(slots[1..], args);
      assert SlotValues(slots, args) == [SlotValue(slots[0], args)] + SlotValues(slots[1..], args);
    }
  }

  /**
   * Compiling an expression once and binding its slots later gives the same text and the same values, in the same
   * positions, as writing the arguments into the expression and compiling that.
   */
  lemma CompileThenBind(d: Dialect, e: Expr, args: seq<BoundValue>)
    ensures ExprText(d, Substitute(e, args), 0) == ExprText(d, e, 0)
    ensures ExprSlots(d, Substitute(e, args)) == FillAll(ExprSlots(d, e), args)
    ensures Covers(ExprSlots(d, e), args) ==> SlotValues(ExprSlots(d, e), args) == Statics(ExprSlots(d, Substitute(e, args)))
  {
    hide Shape, Slots, Pieces, Statics, FillTree, Substitute, Flatten, SlotValues, Covers;
    ShapeOfSubstitute(d, e, args);
    FillTreeKeepsText(Shape(d, e), args, 0);
    if Covers(ExprSlots(d, e), args) { FilledStatics(ExprSlots(d, e), args); }
  }

  /** Without parameters the values recorded while compiling are the values binding gives. */
  lemma ParamsAreTheStaticValues(slots: seq<Slot>)
    requires Covers(slots, [])
    ensures Statics(slots) == SlotValues(slots, [])
  {
    FilledStatics(slots, []);
    assert FillAll(slots, []) == slots;
  }

  // ---------------------------------------------------------------------------------------------
  // Statements
  // ---------------------------------------------------------------------------------------------

  function SubstituteOption(e: Option<Expr>, args: seq<BoundValue>): Option<Expr> {
    match e
    case None => None
    case Some(x) => Some(Substitute(x, args))
  }

  function SubstituteNested(q: Select, args: seq<BoundValue>): Select {
    Select(q.table, q.columns, SubstituteOption(q.where, args), q.distinct)
  }

  function SubstituteCtes(ctes: seq<Cte>, args: seq<BoundValue>): (r: seq<Cte>)
    ensures |r| == |ctes|
    ensures forall i :: 0 <= i < |r| ==> r[i] == Cte(ctes[i].name, SubstituteNested(ctes[i].query, args))
  {
    seq(|ctes|, i requires 0 <= i < |ctes| => Cte(ctes[i].name, SubstituteNested(ctes[i].query, args)))
  }

  function SubstituteKeys(os: seq<Order>, args: seq<BoundValue>): (r: seq<Order>)
    ensures |r| == |os|
    ensures forall i :: 0 <= i < |r| ==> r[i] == Order(Substitute(os[i].expr, args), os[i].descending)
  {
    seq(|os|, i requires 0 <= i < |os| => Order(Substitute(os[i].expr, args), os[i].descending))
  }

  function SubstituteSelect(q: SelectQuery, args: seq<BoundValue>): SelectQuery {
    SelectQuery(SubstituteCtes(q.ctes, args), q.table, q.columns, SubstituteOption(q.where, args), SubstituteKeys(q.orderBy, args),
                q.limit, q.offset, q.distinct, SubstituteAll(q.groupBy, args), SubstituteOption(q.having, args))
  }

  function SubstituteAssignments(assignments: seq<Assignment>, args: seq<BoundValue>): (r: seq<Assignment>)
    ensures |r| == |assignments|
    ensures forall i :: 0 <= i < |r| ==> r[i] == Assignment(assignments[i].table, assignments[i].column, Substitute(assignments[i].value, args))
  {
    seq(|assignments|, i requires 0 <= i < |assignments| =>
      Assignment(assignments[i].table, assignments[i].column, Substitute(assignments[i].value, args)))
  }

  lemma FillClause(d: Dialect, word: PlainText, e: Option<Expr>, args: seq<BoundValue>)
    ensures FillItems(ClauseItems(d, word, e), args) == ClauseItems(d, word, SubstituteOption(e, args))
  {
    hide FillItems, Shape, Toks;
    FillNone(args);
    if e.Some? {
      FillToks([Raw(word)], args);
      FillSub(Shape(d, e.value), args);
      FillItemsAppend(Toks([Raw(word)]), [Sub(Shape(d, e.value))], args);
      ShapeOfSubstitute(d, e.value, args);
    }
  }

  lemma FillNested(d: Dialect, q: Select, args: seq<BoundValue>)
    ensures FillItems(NestedItems(d, q), args) == NestedItems(d, SubstituteNested(q, args))
  {
    hide FillItems, ClauseItems, Toks;
    FillToks(SelectHead(q, STAR), args);
    FillClause(d, WHERE, q.where, args);
    FillItemsAppend(Toks(SelectHead(q, STAR)), ClauseItems(d, WHERE, q.where), args);
    assert SelectHead(SubstituteNested(q, args), STAR) == SelectHead(q, STAR);
  }

  lemma FillCte(d: Dialect, cte: Cte, args: seq<BoundValue>)
    ensures FillItems(CteItem(d, cte), args) == CteItem(d, Cte(cte.name, SubstituteNested(cte.query, args)))
  {
    hide FillItems, NestedItems, Toks;
    FillToks([Ident(cte.name)], args);
    FillToks([Raw(AS_SELECT)], args);
    FillNested(d, cte.query, args);
    FillToks([RParen], args);
    FillThree(Toks([Ident(cte.name)]), Toks([Raw(AS_SELECT)]), NestedItems(d, cte.query), args);
    FillItemsAppend(Toks([Ident(cte.name)]) + Toks([Raw(AS_SELECT)]) + NestedItems(d, cte.query), Toks([RParen]), args);
  }

  lemma {:induction false} FillCtes(d: Dialect, ctes: seq<Cte>, args: seq<BoundValue>)
    ensures FillItems(CteItems(d, ctes), args) == CteItems(d, SubstituteCtes(ctes, args))
  {
    hide FillItems, CteItem, Toks, SubstituteNested;
    if ctes == [] {
      FillNone(args);
    } else {
      var n, comma := |ctes| - 1, if |ctes| > 1 then [Comma] else [];
      FillCtes(d, ctes[..n], args);
      FillToks(comma, args);
      FillCte(d, ctes[n], args);
      FillThree(CteItems(d, ctes[..n]), Toks(comma), CteItem(d, ctes[n]), args);
      assert SubstituteCtes(ctes, args)[..n] == SubstituteCtes(ctes[..n], args);
    }
  }

  lemma FillWith(d: Dialect, ctes: seq<Cte>, args: seq<BoundValue>)
    ensures FillItems(WithItems(d, ctes), args) == WithItems(d, SubstituteCtes(ctes, args))
  {
    hide FillItems, CteItems, Toks;
    FillNone(args);
    if ctes != [] {
      FillToks([Raw(WITH)], args);
      FillCtes(d, ctes, args);
      FillToks([Raw(SPACE)], args);
      FillThree(Toks([Raw(WITH)]), CteItems(d, ctes), Toks([Raw(SPACE)]), args);
    }
  }

  lemma ShapesOfSubstitutes(d: Dialect, es: seq<Expr>, args: seq<BoundValue>)
    ensures ShapesOf(d, SubstituteAll(es, args)) == FillKids(ShapesOf(d, es), args)
  {
    forall i | 0 <= i < |es| ensures Shape(d, Substitute(es[i], args)) == FillTree(Shape(d, es[i]), args) {
      ShapeOfSubstitute(d, es[i], args);
    }
  }

  lemma KeyShapesOfSubstitutes(d: Dialect, os: seq<Order>, args: seq<BoundValue>)
    ensures KeyShapes(d, SubstituteKeys(os, args)) == FillKids(KeyShapes(d, os), args)
  {
    forall i | 0 <= i < |os| ensures Shape(d, Substitute(os[i].expr, args)) == FillTree(Shape(d, os[i].expr), args) {
      ShapeOfSubstitute(d, os[i].expr, args);
    }
  }

  lemma FillGroup(d: Dialect, es: seq<Expr>, args: seq<BoundValue>)
    ensures FillItems(GroupItems(d, es), args) == GroupItems(d, SubstituteAll(es, args))
  {
    hide FillItems, ListItems, Toks, Shape, FillTree;
    FillNone(args);
    if es != [] {
      FillToks([Raw(GROUP_BY)], args);
      FillList(ShapesOf(d, es), args);
      FillItemsAppend(Toks([Raw(GROUP_BY)]), ListItems(ShapesOf(d, es)), args);
      ShapesOfSubstitutes(d, es, args);
    }
  }

  lemma FillSort(d: Dialect, os: seq<Order>, limit: Option<nat>, offset: Option<nat>, args: seq<BoundValue>)
    ensures FillItems(SortItems(d, os, limit, offset), args) == SortItems(d, SubstituteKeys(os, args), limit, offset)
  {
    hide FillItems, OrderItems, Toks, Shape, FillTree;
    if os == [] {
      FillToks(if PrintsOffset(d, limit, offset) then [Raw(ORDER_BY_NULL)] else [], args);
    } else {
      FillToks([Raw(ORDER_BY_CLAUSE)], args);
      FillOrder(KeyShapes(d, os), os, args);
      FillItemsAppend(Toks([Raw(ORDER_BY_CLAUSE)]), OrderItems(KeyShapes(d, os), os), args);
      KeyShapesOfSubstitutes(d, os, args);
      KeysDoNotMatter(FillKids(KeyShapes(d, os), args), os, SubstituteKeys(os, args));
    }
  }

  lemma FillPaging(d: Dialect, limit: Option<nat>, offset: Option<nat>, args: seq<BoundValue>)
    ensures FillItems(PagingItems(d, limit, offset), args) == PagingItems(d, limit, offset)
  {
    hide FillItems, Paging, Toks;
    FillNone(args);
    match Paging(d, limit, offset)
    case None =>
    case Some(ls) => FillToks(ls, args);
  }

  lemma FillSelectItems(d: Dialect, q: SelectQuery, args: seq<BoundValue>)
    ensures FillItems(SelectItems(d, q), args) == SelectItems(d, SubstituteSelect(q, args))
  {
    hide FillItems, WithItems, NestedItems, GroupItems, ClauseItems, SortItems, PagingItems, Toks, SubstituteOption;
    var nested := Select(q.table, q.columns, q.where, q.distinct);
    var a := WithItems(d, q.ctes) + Toks([Raw(SELECT)]) + NestedItems(d, nested);
    var b := a + GroupItems(d, q.groupBy) + ClauseItems(d, HAVING, q.having);
    FillWith(d, q.ctes, args);
    FillToks([Raw(SELECT)], args);
    FillNested(d, nested, args);
    FillGroup(d, q.groupBy, args);
    FillClause(d, HAVING, q.having, args);
    FillSort(d, q.orderBy, q.limit, q.offset, args);
    FillPaging(d, q.limit, q.offset, args);
    FillThree(WithItems(d, q.ctes), Toks([Raw(SELECT)]), NestedItems(d, nested), args);
    FillThree(a, GroupItems(d, q.groupBy), ClauseItems(d, HAVING, q.having), args);
    FillThree(b, SortItems(d, q.orderBy, q.limit, q.offset), PagingItems(d, q.limit, q.offset), args);
  }

  lemma FillAssignment(d: Dialect, a: Assignment, args: seq<BoundValue>)
    ensures FillItems(AssignmentItem(d, a), args) == AssignmentItem(d, Assignment(a.table, a.column, Substitute(a.value, args)))
  {
    hide FillItems, Shape, Toks;
    var name := [Ident(if a.column == "" then a.table else a.column)];
    FillToks(name, args);
    FillToks([Raw(EQUALS)], args);
    FillSub(Shape(d, a.value), args);
    FillThree(Toks(name), Toks([Raw(EQUALS)]), [Sub(Shape(d, a.value))], args);
    ShapeOfSubstitute(d, a.value, args);
  }

  lemma {:induction false} FillAssignments(d: Dialect, assignments: seq<Assignment>, args: seq<BoundValue>)
    ensures FillItems(AssignmentItems(d, assignments), args) == AssignmentItems(d, SubstituteAssignments(assignments, args))
  {
    hide FillItems, AssignmentItem, Toks, Substitute;
    if assignments == [] {
      FillNone(args);
    } else {
      var n, comma := |assignments| - 1, if |assignments| > 1 then [Comma] else [];
      FillAssignments(d, assignments[..n], args);
      FillToks(comma, args);
      FillAssignment(d, assignments[n], args);
      FillThree(AssignmentItems(d, assignments[..n]), Toks(comma), AssignmentItem(d, assignments[n]), args);
      assert SubstituteAssignments(assignments, args)[..n] == SubstituteAssignments(assignments[..n], args);
    }
  }

  lemma FillUpdateItems(d: Dialect, table: string, assignments: seq<Assignment>, where: Option<Expr>, args: seq<BoundValue>)
    ensures FillItems(UpdateItems(d, table, assignments, where), args)
         == UpdateItems(d, table, SubstituteAssignments(assignments, args), SubstituteOption(where, args))
  {
    hide FillItems, AssignmentItems, ClauseItems, Toks, SubstituteOption;
    var head := [Raw(UPDATE), Ident(table), Raw(SET)];
    FillToks(head, args);
    FillAssignments(d, assignments, args);
    FillClause(d, WHERE, where, args);
    FillThree(Toks(head), AssignmentItems(d, assignments), ClauseItems(d, WHERE, where), args);
  }

  /** Two statements whose layouts differ only by filled parameters: one text, and the late-bound values are the early ones. */
  lemma FilledStatement(d: Dialect, g: GeneratedSql, h: GeneratedSql, items: seq<Item>, args: seq<BoundValue>)
    requires Generates(d, g, items) && Generates(d, h, FillItems(items, args))
    ensures h.sql == g.sql && h.slots == FillAll(g.slots, args)
    ensures Covers(g.slots, args) ==> SlotValues(g.slots, args) == h.params
  {
    FillItemsKeepsText(items, args, 0);
    if Covers(g.slots, args) { FilledStatics(g.slots, args); }
  }

  /**
   * A prepared SELECT: generating it with parameters and binding them later gives the text and the values of
   * generating it with the arguments written in.
   */
  lemma PreparedSelectIsDirectSelect(d: Dialect, q: SelectQuery, args: seq<BoundValue>, g: GeneratedSql, h: GeneratedSql)
    requires Generates(d, g, SelectItems(d, q)) && Generates(d, h, SelectItems(d, SubstituteSelect(q, args)))
    ensures h.sql == g.sql && h.slots == FillAll(g.slots, args)
    ensures Covers(g.slots, args) ==> SlotValues(g.slots, args) == h.params
  {
    hide SelectItems, FillItems, SubstituteSelect, Generates;
    FillSelectItems(d, q, args);
    FilledStatement(d, g, h, SelectItems(d, q), args);
  }

  /** The same for a prepared UPDATE. */
  lemma PreparedUpdateIsDirectUpdate(d: Dialect, table: string, assignments: seq<Assignment>, where: Option<Expr>, args: seq<BoundValue>,
                                     g: GeneratedSql, h: GeneratedSql)
    requires Generates(d, g, UpdateItems(d, table, assignments, where))
    requires Generates(d, h, UpdateItems(d, table, SubstituteAssignments(assignments, args), SubstituteOption(where, args)))
    ensures h.sql == g.sql && h.slots == FillAll(g.slots, args)
    ensures Covers(g.slots, args) ==> SlotValues(g.slots, args) == h.params
  {
    hide UpdateItems, FillItems, Generates;
    FillUpdateItems(d, table, assignments, where, args);
    FilledStatement(d, g, h, UpdateItems(d, table, assignments, where), args);
  }
}
