/** Alignment of placeholders and slots for whole statements. */
module StatementProperties {
  import opened Values
  import opened Dialects
  import opened LayoutTree
  import opened SqlAst
  import opened SqlConditions
  import opened SqlText
  import opened SqlStatements
  import opened PlaceholderScanner

  /** A row whose expressions are `kids` and whose verbatim words are `words`. */
  ghost predicate Consists(items: seq<Item>, kids: seq<Tree>, words: seq<string>) {
    forall x :: x in Outline(items) <==> (match x case Sub(t) => t in kids case Tok(l) => l.Verbatim? && l.name in words)
  }

  lemma ConsistsAppend(a: seq<Item>, k: seq<Tree>, w: seq<string>, b: seq<Item>, m: seq<Tree>, v: seq<string>)
    requires Consists(a, k, w) && Consists(b, m, v)
    ensures Consists(a + b, k + m, w + v)
  {
    OutlineAppend(a, b);
    forall x ensures x in Outline(a + b) <==> (match x case Sub(t) => t in k + m case Tok(l) => l.Verbatim? && l.name in w + v) {
      assert x in Outline(a + b) <==> x in Outline(a) || x in Outline(b);
    }
  }

  lemma ToksConsist(ls: seq<Lexeme>)
    requires forall i :: 0 <= i < |ls| ==> !ls[i].Verbatim?
    ensures Consists(Toks(ls), [], [])
  {
    OutlineOfToks(ls);
  }

  lemma SubConsists(t: Tree)
    ensures Consists([Sub(t)], [t], [])
  {
    OutlineOfSub(t);
  }

  lemma ListConsists(ts: seq<Tree>)
    ensures Consists(ListItems(ts), ts, [])
  {
    OutlineOfList(ts);
    SubsMembers(ts);
  }

  lemma OrderConsists(ts: seq<Tree>, os: seq<Order>)
    requires |ts| == |os|
    ensures Consists(OrderItems(ts, os), ts, [])
  {
    OutlineOfOrder(ts, os);
    SubsMembers(ts);
  }

  lemma SubsMembers(ts: seq<Tree>)
    ensures forall x :: x in Subs(ts) <==> x.Sub? && x.tree in ts
  {
    var subs := Subs(ts);
    forall x: Item | x.Sub? && x.tree in ts ensures x in subs {
      var i :| 0 <= i < |ts| && ts[i] == x.tree;
      assert subs[i] == x;
    }
  }

  /** A statement's placeholders and slots agree exactly when all its expressions are guarded. */
  lemma StatementAligned(d: Dialect, items: seq<Item>, es: seq<Expr>, words: seq<string>)
    requires Consists(items, ShapesOf(d, es), words)
    ensures Aligned(Row(items)) <==> forall i :: 0 <= i < |es| ==> Guarded(d, es[i])
  {
    AlignedIffStraight(Row(items));
    OutlineMembers(items);
    var ts := ShapesOf(d, es);
    forall i | 0 <= i < |es| ensures Straight(ts[i]) <==> Guarded(d, es[i]) {
      StraightIffGuarded(d, es[i]);
    }
    if StraightItems(items) {
      forall i | 0 <= i < |es| ensures Guarded(d, es[i]) {
        assert ts[i] in ts;
        assert Sub(ts[i]) in Outline(items);
        var k :| 0 <= k < |items| && items[k] == Sub(ts[i]);
        assert StraightItem(items[k]);
      }
    }
    if forall i :: 0 <= i < |es| ==> Guarded(d, es[i]) {
      forall k | 0 <= k < |items| ensures StraightItem(items[k]) {
        if items[k].Sub? {
          assert items[k] in items && items[k] in Outline(items);
          var i :| 0 <= i < |ts| && ts[i] == items[k].tree;
        }
      }
    }
  }

  lemma StatementIsClean(d: Dialect, items: seq<Item>, es: seq<Expr>, words: seq<string>)
    requires Consists(items, ShapesOf(d, es), words)
    requires forall i :: 0 <= i < |es| ==> PlainNames(es[i])
    requires forall i :: 0 <= i < |words| ==> Plain(words[i])
    ensures Clean(Pieces(Row(items), 0))
  {
    OutlineMembers(items);
    var ts := ShapesOf(d, es);
    forall x | x in items ensures CleanItem(x) {
      if x.Sub? {
        assert x in Outline(items);
        var i :| 0 <= i < |ts| && ts[i] == x.tree;
        ShapeIsClean(d, es[i]);
      } else if x.lexeme.Verbatim? {
        assert x in Outline(items);
      }
    }
    ItemsAreClean(items, 0);
  }

  /** Both passes on a statement: the text PostgreSQL prepares has `$k` exactly where slot k-1 was printed. */
  lemma StatementReachesPostgres(g: GeneratedSql, items: seq<Item>, es: seq<Expr>, words: seq<string>)
    requires Generates(Postgres, g, items) && Consists(items, ShapesOf(Postgres, es), words)
    requires forall i :: 0 <= i < |es| ==> PlainNames(es[i]) && Guarded(Postgres, es[i])
    requires forall i :: 0 <= i < |words| ==> Plain(words[i])
    ensures Scan(g.sql, Outside, 1) == BySlot(ItemPieces(items, 0))
    ensures Marks(ItemPieces(items, 0)) == Iota(0, |g.slots|)
  {
    StatementAligned(Postgres, items, es, words);
    AlignedIffStraight(Row(items));
    StatementIsClean(Postgres, items, es, words);
    BothPassesAgree(Row(items));
  }

  // ---------------------------------------------------------------------------------------------
  // The expressions of each statement
  // ---------------------------------------------------------------------------------------------

  function CteExprs(ctes: seq<Cte>): seq<Expr> {
    if ctes == [] then [] else CteExprs(ctes[..|ctes| - 1]) + OptionList(ctes[|ctes| - 1].query.where)
  }

  function KeyExprs(os: seq<Order>): (r: seq<Expr>)
    ensures |r| == |os|
    ensures forall i :: 0 <= i < |os| ==> r[i] == os[i].expr
  {
    seq(|os|, i requires 0 <= i < |os| => os[i].expr)
  }

  function SelectExprs(q: SelectQuery): seq<Expr> {
    CteExprs(q.ctes) + OptionList(q.where) + q.groupBy + OptionList(q.having) + KeyExprs(q.orderBy)
  }

  function OperationExprs(ops: seq<SetOpClause>): seq<Expr> {
    if ops == [] then [] else OperationExprs(ops[..|ops| - 1]) + OptionList(ops[|ops| - 1].query.where)
  }

  /** The sort keys that are printed by visiting them. */
  function VisitedKeys(os: seq<Order>): seq<Expr> {
    if os == [] then []
    else VisitedKeys(os[..|os| - 1]) + (if os[|os| - 1].expr.Column? then [] else [os[|os| - 1].expr])
  }

  function SetExprs(q: SetQuery): seq<Expr> {
    OptionList(q.base.where) + OperationExprs(q.operations) + VisitedKeys(q.orderBy)
  }

  function JoinConditions(joins: seq<Join>): seq<Expr> {
    if joins == [] then [] else JoinConditions(joins[..|joins| - 1]) + [joins[|joins| - 1].on]
  }

  function JoinWords(joins: seq<Join>): seq<string> {
    if joins == [] then [] else JoinWords(joins[..|joins| - 1]) + [joins[|joins| - 1].words]
  }

  function JoinExprs(q: JoinQuery): seq<Expr> {
    JoinConditions(q.joins) + OptionList(q.where) + KeyExprs(q.orderBy)
  }

  function AssignedExprs(assignments: seq<Assignment>): seq<Expr> {
    if assignments == [] then [] else AssignedExprs(assignments[..|assignments| - 1]) + [assignments[|assignments| - 1].value]
  }

  function UpdateExprs(assignments: seq<Assignment>, where: Option<Expr>): seq<Expr> {
    AssignedExprs(assignments) + OptionList(where)
  }

  // ---------------------------------------------------------------------------------------------
  // Each statement's layout consists of its expressions
  // ---------------------------------------------------------------------------------------------

  /** The slots of some expressions, one after the other. */
  function AllSlots(d: Dialect, es: seq<Expr>): seq<Slot> {
    if es == [] then [] else ExprSlots(d, es[0]) + AllSlots(d, es[1..])
  }

  lemma AllSlotsAppend(d: Dialect, a: seq<Expr>, b: seq<Expr>)
    ensures AllSlots(d, a + b) == AllSlots(d, a) + AllSlots(d, b)
  {
    hide ExprSlots;
    if a == [] {
      assert a + b == b;
    } else {
      assert (a + b)[1..] == a[1..] + b;
      AllSlotsAppend(d, a[1..], b);
      Associate(ExprSlots(d, a[0]), AllSlots(d, a[1..]), AllSlots(d, b));
    }
  }

  lemma SlotsOfOne(d: Dialect, e: Expr)
    ensures AllSlots(d, [e]) == ExprSlots(d, e) && AllSlots(d, []) == []
  {
    hide ExprSlots;
    assert [e][1..] == [];
  }

  lemma {:induction false} SlotsOfList(d: Dialect, es: seq<Expr>)
    ensures ItemSlots(ListItems(ShapesOf(d, es))) == AllSlots(d, es)
    decreases |es|
  {
    hide ItemSlots, ItemText, ListItems, Shape, Slots, TreeText;
    EmptyRow(d, 0);
    if es != [] {
      var n, ts := |es| - 1, ShapesOf(d, es);
      assert ts[..n] == ShapesOf(d, es[..n]) && es == es[..n] + [es[n]];
      TextOfListStep(d, ts, 0);
      SlotsOfList(d, es[..n]);
      AllSlotsAppend(d, es[..n], [es[n]]);
      SlotsOfOne(d, es[n]);
    } else {
      assert ShapesOf(d, es) == [];
    }
  }

  lemma {:induction false} SlotsOfKeys(d: Dialect, os: seq<Order>)
    ensures OrderSlots(d, os) == AllSlots(d, KeyExprs(os))
    decreases |os|
  {
    hide ExprSlots, OrderSlots, OrderText, ExprText;
    if os == [] {
      NoKeySlots(d);
      assert KeyExprs(os) == [];
    } else {
      var n := |os| - 1;
      SlotsOfKeys(d, os[..n]);
      assert os[..n + 1] == os;
      OrderStep(d, os, n, 0);
      assert KeyExprs(os) == KeyExprs(os[..n]) + [os[n].expr];
      AllSlotsAppend(d, KeyExprs(os[..n]), [os[n].expr]);
      SlotsOfOne(d, os[n].expr);
    }
  }

  lemma NoKeySlots(d: Dialect)
    ensures OrderSlots(d, []) == []
  {
    EmptyOrder();
    EmptyRow(d, 0);
  }

  /** A row built from expressions: it consists of them, and records their slots in their order. */
  ghost predicate BuiltFrom(d: Dialect, items: seq<Item>, es: seq<Expr>, words: seq<string>) {
    Consists(items, ShapesOf(d, es), words) && ItemSlots(items) == AllSlots(d, es)
  }

  lemma BuiltAppend(d: Dialect, a: seq<Item>, es: seq<Expr>, w: seq<string>, b: seq<Item>, fs: seq<Expr>, v: seq<string>)
    requires BuiltFrom(d, a, es, w) && BuiltFrom(d, b, fs, v)
    ensures BuiltFrom(d, a + b, es + fs, w + v)
  {
    hide Consists, Shape, ItemSlots, AllSlots;
    ConsistsAppend(a, ShapesOf(d, es), w, b, ShapesOf(d, fs), v);
    ItemSlotsAppend(a, b);
    AllSlotsAppend(d, es, fs);
    assert ShapesOf(d, es + fs) == ShapesOf(d, es) + ShapesOf(d, fs);
  }

  lemma BuiltJoin(d: Dialect, a: seq<Item>, es: seq<Expr>, b: seq<Item>, fs: seq<Expr>)
    requires BuiltFrom(d, a, es, []) && BuiltFrom(d, b, fs, [])
    ensures BuiltFrom(d, a + b, es + fs, [])
  {
    hide BuiltFrom;
    var none: seq<string> := [];
    BuiltAppend(d, a, es, none, b, fs, none);
    assert none + none == none;
  }

  lemma TextThenBuilt(d: Dialect, ls: seq<Lexeme>, b: seq<Item>, fs: seq<Expr>)
    requires BuiltFrom(d, b, fs, [])
    requires forall i :: 0 <= i < |ls| ==> !ls[i].Verbatim?
    ensures BuiltFrom(d, Toks(ls) + b, fs, [])
  {
    hide BuiltFrom;
    TextBuilt(d, ls);
    BuiltJoin(d, Toks(ls), [], b, fs);
    assert [] + fs == fs;
  }

  lemma BuiltThenText(d: Dialect, a: seq<Item>, es: seq<Expr>, w: seq<string>, ls: seq<Lexeme>)
    requires BuiltFrom(d, a, es, w)
    requires forall i :: 0 <= i < |ls| ==> !ls[i].Verbatim?
    ensures BuiltFrom(d, a + Toks(ls), es, w)
  {
    hide BuiltFrom;
    TextBuilt(d, ls);
    BuiltAppend(d, a, es, w, Toks(ls), [], []);
    assert es + [] == es && w + [] == w;
  }

  lemma TextBuilt(d: Dialect, ls: seq<Lexeme>)
    requires forall i :: 0 <= i < |ls| ==> !ls[i].Verbatim?
    ensures BuiltFrom(d, Toks(ls), [], [])
  {
    ToksConsist(ls);
    ToksPieces(ls, 0);
    assert ShapesOf(d, []) == [];
  }

  lemma NothingBuilt(d: Dialect)
    ensures BuiltFrom(d, [], [], [])
  {
    TextBuilt(d, []);
    assert Toks([]) == [];
  }

  lemma ExprBuilt(d: Dialect, e: Expr)
    ensures BuiltFrom(d, [Sub(Shape(d, e))], [e], [])
  {
    hide Shape, Consists, ItemSlots;
    SubConsists(Shape(d, e));
    TextOfSub(d, Shape(d, e), 0);
    SlotsOfOne(d, e);
    assert ShapesOf(d, [e]) == [Shape(d, e)];
  }

  lemma ClauseBuilt(d: Dialect, word: PlainText, e: Option<Expr>)
    ensures BuiltFrom(d, ClauseItems(d, word, e), OptionList(e), [])
  {
    hide BuiltFrom, Shape;
    NothingBuilt(d);
    if e.Some? {
        ExprBuilt(d, e.value);
      TextThenBuilt(d, [Raw(word)], [Sub(Shape(d, e.value))], [e.value]);
    }
  }

  lemma NestedBuilt(d: Dialect, q: Select)
    ensures BuiltFrom(d, NestedItems(d, q), OptionList(q.where), [])
  {
    hide BuiltFrom, ClauseItems, SelectHead;
    HeadIsQuoted(q);
    ClauseBuilt(d, WHERE, q.where);
    TextThenBuilt(d, SelectHead(q, STAR), ClauseItems(d, WHERE, q.where), OptionList(q.where));
  }

  lemma HeadIsQuoted(q: Select)
    ensures forall i :: 0 <= i < |SelectHead(q, STAR)| ==> !SelectHead(q, STAR)[i].Verbatim?
  {
    NamesAreQuoted(q.columns);
  }

  lemma CteBuilt(d: Dialect, cte: Cte)
    ensures BuiltFrom(d, CteItem(d, cte), OptionList(cte.query.where), [])
  {
    hide BuiltFrom, NestedItems;
    var es := OptionList(cte.query.where);
    TextBuilt(d, [Ident(cte.name)]);
    BuiltThenText(d, Toks([Ident(cte.name)]), [], [], [Raw(AS_SELECT)]);
    NestedBuilt(d, cte.query);
    BuiltJoin(d, Toks([Ident(cte.name)]) + Toks([Raw(AS_SELECT)]), [], NestedItems(d, cte.query), es);
    assert [] + es == es;
    BuiltThenText(d, Toks([Ident(cte.name)]) + Toks([Raw(AS_SELECT)]) + NestedItems(d, cte.query), es, [], [RParen]);
  }

  lemma {:induction false} CtesBuilt(d: Dialect, ctes: seq<Cte>)
    ensures BuiltFrom(d, CteItems(d, ctes), CteExprs(ctes), [])
  {
    hide BuiltFrom, CteItem;
    if ctes == [] {
      NothingBuilt(d);
    } else {
      var n := |ctes| - 1;
      var comma := if |ctes| > 1 then [Comma] else [];
      CtesBuilt(d, ctes[..n]);
      BuiltThenText(d, CteItems(d, ctes[..n]), CteExprs(ctes[..n]), [], comma);
      CteBuilt(d, ctes[n]);
      BuiltJoin(d, CteItems(d, ctes[..n]) + Toks(comma), CteExprs(ctes[..n]), CteItem(d, ctes[n]), OptionList(ctes[n].query.where));
    }
  }

  lemma WithBuilt(d: Dialect, ctes: seq<Cte>)
    ensures BuiltFrom(d, WithItems(d, ctes), CteExprs(ctes), [])
  {
    hide BuiltFrom;
    if ctes == [] {
      NothingBuilt(d);
    } else {
      CtesBuilt(d, ctes);
      TextThenBuilt(d, [Raw(WITH)], CteItems(d, ctes), CteExprs(ctes));
      BuiltThenText(d, Toks([Raw(WITH)]) + CteItems(d, ctes), CteExprs(ctes), [], [Raw(SPACE)]);
    }
  }

  lemma GroupBuilt(d: Dialect, es: seq<Expr>)
    ensures BuiltFrom(d, GroupItems(d, es), es, [])
  {
    hide Consists, Shape, ItemSlots, AllSlots, ListItems;
    if es == [] {
      NothingBuilt(d);
    } else {
      ListConsists(ShapesOf(d, es));
      SlotsOfList(d, es);
      TextThenBuilt(d, [Raw(GROUP_BY)], ListItems(ShapesOf(d, es)), es);
    }
  }

  lemma SortBuilt(d: Dialect, os: seq<Order>, limit: Option<nat>, offset: Option<nat>)
    ensures BuiltFrom(d, SortItems(d, os, limit, offset), KeyExprs(os), [])
  {
    hide Consists, Shape, OrderItems, ItemSlots, AllSlots;
    if os == [] {
      TextBuilt(d, if PrintsOffset(d, limit, offset) then [Raw(ORDER_BY_NULL)] else []);
      assert KeyExprs(os) == [];
    } else {
      OrderConsists(KeyShapes(d, os), os);
      SlotsOfKeys(d, os);
      assert ShapesOf(d, KeyExprs(os)) == KeyShapes(d, os);
      TextThenBuilt(d, [Raw(ORDER_BY_CLAUSE)], OrderItems(KeyShapes(d, os), os), KeyExprs(os));
    }
  }

  lemma PagingIsQuoted(d: Dialect, limit: Option<nat>, offset: Option<nat>)
    ensures Paging(d, limit, offset).Some? ==> forall i :: 0 <= i < |Paging(d, limit, offset).value| ==> !Paging(d, limit, offset).value[i].Verbatim?
  {
  }

  lemma ThenPagingBuilt(d: Dialect, a: seq<Item>, es: seq<Expr>, w: seq<string>, limit: Option<nat>, offset: Option<nat>)
    requires BuiltFrom(d, a, es, w)
    ensures BuiltFrom(d, a + PagingItems(d, limit, offset), es, w)
  {
    hide BuiltFrom, Paging;
    PagingIsQuoted(d, limit, offset);
    match Paging(d, limit, offset)
    case None => assert a + [] == a;
    case Some(ls) => BuiltThenText(d, a, es, w, ls);
  }

  lemma SelectBuilt(d: Dialect, q: SelectQuery)
    ensures BuiltFrom(d, SelectItems(d, q), SelectExprs(q), [])
  {
    hide BuiltFrom, WithItems, NestedItems, GroupItems, ClauseItems, SortItems, PagingItems, CteExprs;
    var nested := Select(q.table, q.columns, q.where, q.distinct);
    var a := WithItems(d, q.ctes) + Toks([Raw(SELECT)]);
    var b := a + NestedItems(d, nested);
    var c := b + GroupItems(d, q.groupBy);
    var h := c + ClauseItems(d, HAVING, q.having);
    WithBuilt(d, q.ctes);
    BuiltThenText(d, WithItems(d, q.ctes), CteExprs(q.ctes), [], [Raw(SELECT)]);
    NestedBuilt(d, nested);
    BuiltJoin(d, a, CteExprs(q.ctes), NestedItems(d, nested), OptionList(q.where));
    GroupBuilt(d, q.groupBy);
    BuiltJoin(d, b, CteExprs(q.ctes) + OptionList(q.where), GroupItems(d, q.groupBy), q.groupBy);
    ClauseBuilt(d, HAVING, q.having);
    BuiltJoin(d, c, CteExprs(q.ctes) + OptionList(q.where) + q.groupBy, ClauseItems(d, HAVING, q.having), OptionList(q.having));
    SortBuilt(d, q.orderBy, q.limit, q.offset);
    BuiltJoin(d, h, CteExprs(q.ctes) + OptionList(q.where) + q.groupBy + OptionList(q.having),
              SortItems(d, q.orderBy, q.limit, q.offset), KeyExprs(q.orderBy));
    ThenPagingBuilt(d, h + SortItems(d, q.orderBy, q.limit, q.offset), SelectExprs(q), [], q.limit, q.offset);
  }

  lemma OperationBuilt(d: Dialect, op: SetOpClause)
    ensures BuiltFrom(d, Toks([Raw(SetOpWord(op.op))]) + Toks([Raw(SELECT)]) + NestedItems(d, op.query), OptionList(op.query.where), [])
  {
    hide BuiltFrom, NestedItems;
    NestedBuilt(d, op.query);
    TextThenBuilt(d, [Raw(SetOpWord(op.op)), Raw(SELECT)], NestedItems(d, op.query), OptionList(op.query.where));
    assert Toks([Raw(SetOpWord(op.op)), Raw(SELECT)]) == Toks([Raw(SetOpWord(op.op))]) + Toks([Raw(SELECT)]);
  }

  lemma {:induction false} OperationsBuilt(d: Dialect, ops: seq<SetOpClause>)
    ensures BuiltFrom(d, OperationItems(d, ops), OperationExprs(ops), [])
  {
    hide BuiltFrom, NestedItems;
    if ops == [] {
      NothingBuilt(d);
    } else {
      var n := |ops| - 1;
      OperationsBuilt(d, ops[..n]);
      OperationBuilt(d, ops[n]);
      BuiltJoin(d, OperationItems(d, ops[..n]), OperationExprs(ops[..n]),
                Toks([Raw(SetOpWord(ops[n].op))]) + Toks([Raw(SELECT)]) + NestedItems(d, ops[n].query), OptionList(ops[n].query.where));
    }
  }

  lemma SetKeyBuilt(d: Dialect, o: Order)
    ensures BuiltFrom(d, SetKeyItems(d, o), if o.expr.Column? then [] else [o.expr], [])
  {
    hide BuiltFrom, Shape;
    var direction := [Raw(if o.descending then DESC else ASC)];
    if o.expr.Column? {
      TextBuilt(d, [Ident(o.expr.column)]);
      BuiltThenText(d, Toks([Ident(o.expr.column)]), [], [], direction);
    } else {
      ExprBuilt(d, o.expr);
      BuiltThenText(d, [Sub(Shape(d, o.expr))], [o.expr], [], direction);
    }
  }

  lemma {:induction false} SetKeysBuilt(d: Dialect, os: seq<Order>)
    ensures BuiltFrom(d, SetKeys(d, os), VisitedKeys(os), [])
  {
    hide BuiltFrom, SetKeyItems;
    if os == [] {
      NothingBuilt(d);
    } else {
      var n := |os| - 1;
      var comma := if |os| > 1 then [Comma] else [];
      SetKeysBuilt(d, os[..n]);
      BuiltThenText(d, SetKeys(d, os[..n]), VisitedKeys(os[..n]), [], comma);
      SetKeyBuilt(d, os[n]);
      BuiltJoin(d, SetKeys(d, os[..n]) + Toks(comma), VisitedKeys(os[..n]), SetKeyItems(d, os[n]), if os[n].expr.Column? then [] else [os[n].expr]);
    }
  }

  lemma SetSortBuilt(d: Dialect, q: SetQuery)
    ensures BuiltFrom(d, SetSortItems(d, q), VisitedKeys(q.orderBy), [])
  {
    hide BuiltFrom, SetKeys, SortItems;
    if q.orderBy == [] {
      SortBuilt(d, [], q.limit, q.offset);
      assert KeyExprs([]) == VisitedKeys([]);
    } else {
      SetKeysBuilt(d, q.orderBy);
      TextThenBuilt(d, [Raw(ORDER_BY_CLAUSE)], SetKeys(d, q.orderBy), VisitedKeys(q.orderBy));
    }
  }

  lemma SetBuilt(d: Dialect, q: SetQuery)
    ensures BuiltFrom(d, SetItems(d, q), SetExprs(q), [])
  {
    hide BuiltFrom, NestedItems, OperationItems, SetSortItems, PagingItems, OperationExprs, VisitedKeys;
    var a := Toks([Raw(SELECT)]) + NestedItems(d, q.base);
    NestedBuilt(d, q.base);
    TextThenBuilt(d, [Raw(SELECT)], NestedItems(d, q.base), OptionList(q.base.where));
    OperationsBuilt(d, q.operations);
    BuiltJoin(d, a, OptionList(q.base.where), OperationItems(d, q.operations), OperationExprs(q.operations));
    SetSortBuilt(d, q);
    BuiltJoin(d, a + OperationItems(d, q.operations), OptionList(q.base.where) + OperationExprs(q.operations), SetSortItems(d, q), VisitedKeys(q.orderBy));
    ThenPagingBuilt(d, a + OperationItems(d, q.operations) + SetSortItems(d, q), SetExprs(q), [], q.limit, q.offset);
  }

  lemma QualifiedIsQuoted(table: string, ids: seq<string>, first: bool)
    ensures forall i :: 0 <= i < |Qualified(table, ids, first)| ==> !Qualified(table, ids, first)[i].Verbatim?
  {
    if ids != [] { QualifiedIsQuoted(table, ids[..|ids| - 1], first); }
  }

  lemma JoinedIsQuoted(groups: seq<(string, seq<string>)>, first: bool)
    ensures forall i :: 0 <= i < |JoinedColumns(groups, first)| ==> !JoinedColumns(groups, first)[i].Verbatim?
  {
    if groups != [] {
      QualifiedIsQuoted(groups[0].0, groups[0].1, first);
      JoinedIsQuoted(groups[1..], first && groups[0].1 == []);
    }
  }

  lemma JoinSlots(d: Dialect, j: Join)
    ensures ItemSlots(JoinItem(d, j)) == AllSlots(d, [j.on])
  {
    hide Shape, ItemSlots;
    var words := [Raw(SPACE), Verbatim(j.words), Raw(SPACE), Ident(j.table), Raw(ON)];
    ItemSlotsAppend(Toks(words), [Sub(Shape(d, j.on))]);
    ToksPieces(words, 0);
    TextOfSub(d, Shape(d, j.on), 0);
    SlotsOfOne(d, j.on);
  }

  lemma JoinBuilt(d: Dialect, j: Join)
    ensures BuiltFrom(d, JoinItem(d, j), [j.on], [j.words])
  {
    hide Shape, ItemSlots;
    JoinSlots(d, j);
    var before, after := [Raw(SPACE)], [Raw(SPACE), Ident(j.table), Raw(ON)];
    var word := [Tok(Verbatim(j.words))];
    assert word[1..] == [];
    assert Outline(word) == word;
    OutlineOfToks(before);
    OutlineOfToks(after);
    OutlineOfSub(Shape(d, j.on));
    OutlineOfThree(Toks(before), word, Toks(after));
    OutlineAppend(Toks(before) + word + Toks(after), [Sub(Shape(d, j.on))]);
    assert JoinItem(d, j) == Toks(before) + word + Toks(after) + [Sub(Shape(d, j.on))];
    assert Outline(JoinItem(d, j)) == [Tok(Verbatim(j.words)), Sub(Shape(d, j.on))];
    assert ShapesOf(d, [j.on]) == [Shape(d, j.on)];
  }

  lemma {:induction false} JoinsBuilt(d: Dialect, joins: seq<Join>)
    ensures BuiltFrom(d, JoinItems(d, joins), JoinConditions(joins), JoinWords(joins))
  {
    hide BuiltFrom, JoinItem;
    if joins == [] {
      NothingBuilt(d);
    } else {
      var n := |joins| - 1;
      JoinsBuilt(d, joins[..n]);
      JoinBuilt(d, joins[n]);
      BuiltAppend(d, JoinItems(d, joins[..n]), JoinConditions(joins[..n]), JoinWords(joins[..n]), JoinItem(d, joins[n]), [joins[n].on], [joins[n].words]);
    }
  }

  lemma JoinHeadIsQuoted(q: JoinQuery)
    ensures forall i :: 0 <= i < |JoinHead(q)| ==> !JoinHead(q)[i].Verbatim?
  {
    QualifiedIsQuoted(q.table, q.columns, true);
    JoinedIsQuoted(q.joinedColumns, q.columns == []);
  }

  lemma JoinedBuilt(d: Dialect, q: JoinQuery)
    ensures BuiltFrom(d, JoinedItems(d, q), JoinExprs(q), JoinWords(q.joins))
  {
    hide BuiltFrom, JoinHead, JoinItems, ClauseItems, SortItems, PagingItems, JoinConditions, JoinWords;
    var words, a := JoinWords(q.joins), Toks(JoinHead(q)) + JoinItems(d, q.joins);
    JoinHeadIsQuoted(q);
    TextBuilt(d, JoinHead(q));
    JoinsBuilt(d, q.joins);
    BuiltAppend(d, Toks(JoinHead(q)), [], [], JoinItems(d, q.joins), JoinConditions(q.joins), words);
    assert [] + JoinConditions(q.joins) == JoinConditions(q.joins) && [] + words == words && words + [] == words;
    ClauseBuilt(d, WHERE, q.where);
    BuiltAppend(d, a, JoinConditions(q.joins), words, ClauseItems(d, WHERE, q.where), OptionList(q.where), []);
    SortBuilt(d, q.orderBy, q.limit, q.offset);
    BuiltAppend(d, a + ClauseItems(d, WHERE, q.where), JoinConditions(q.joins) + OptionList(q.where), words,
                SortItems(d, q.orderBy, q.limit, q.offset), KeyExprs(q.orderBy), []);
    ThenPagingBuilt(d, a + ClauseItems(d, WHERE, q.where) + SortItems(d, q.orderBy, q.limit, q.offset), JoinExprs(q), words, q.limit, q.offset);
  }

  lemma AssignmentBuilt(d: Dialect, a: Assignment)
    ensures BuiltFrom(d, AssignmentItem(d, a), [a.value], [])
  {
    hide BuiltFrom, Shape;
    var words := [Ident(if a.column == "" then a.table else a.column), Raw(EQUALS)];
    ExprBuilt(d, a.value);
    TextThenBuilt(d, words, [Sub(Shape(d, a.value))], [a.value]);
    assert Toks(words) == Toks([words[0]]) + Toks([Raw(EQUALS)]);
  }

  lemma {:induction false} AssignmentsBuilt(d: Dialect, assignments: seq<Assignment>)
    ensures BuiltFrom(d, AssignmentItems(d, assignments), AssignedExprs(assignments), [])
  {
    hide BuiltFrom, AssignmentItem;
    if assignments == [] {
      NothingBuilt(d);
    } else {
      var n := |assignments| - 1;
      var comma := if |assignments| > 1 then [Comma] else [];
      AssignmentsBuilt(d, assignments[..n]);
      BuiltThenText(d, AssignmentItems(d, assignments[..n]), AssignedExprs(assignments[..n]), [], comma);
      AssignmentBuilt(d, assignments[n]);
      BuiltJoin(d, AssignmentItems(d, assignments[..n]) + Toks(comma), AssignedExprs(assignments[..n]), AssignmentItem(d, assignments[n]), [assignments[n].value]);
    }
  }

  lemma UpdateBuilt(d: Dialect, table: string, assignments: seq<Assignment>, where: Option<Expr>)
    ensures BuiltFrom(d, UpdateItems(d, table, assignments, where), UpdateExprs(assignments, where), [])
  {
    hide BuiltFrom, AssignmentItems, ClauseItems, AssignedExprs;
    var head := [Raw(UPDATE), Ident(table), Raw(SET)];
    AssignmentsBuilt(d, assignments);
    TextThenBuilt(d, head, AssignmentItems(d, assignments), AssignedExprs(assignments));
    ClauseBuilt(d, WHERE, where);
    BuiltJoin(d, Toks(head) + AssignmentItems(d, assignments), AssignedExprs(assignments), ClauseItems(d, WHERE, where), OptionList(where));
  }

  /** The values of an INSERT, which are printed as literals are. */
  function ValueExprs(values: seq<BoundValue>): (r: seq<Expr>)
    ensures |r| == |values|
  {
    seq(|values|, i requires 0 <= i < |values| => Literal(values[i]))
  }

  lemma ValueBuilt(d: Dialect, value: BoundValue)
    ensures BuiltFrom(d, [Sub(Leaf(Static(value)))], [Literal(value)], [])
  {
    ExprBuilt(d, Literal(value));
  }

  lemma {:induction false} ValuesBuilt(d: Dialect, values: seq<BoundValue>)
    ensures BuiltFrom(d, ValueItems(values), ValueExprs(values), [])
  {
    hide BuiltFrom;
    if values == [] {
      NothingBuilt(d);
    } else {
      var n := |values| - 1;
      var comma := if |values| > 1 then [Comma] else [];
      ValuesBuilt(d, values[..n]);
      BuiltThenText(d, ValueItems(values[..n]), ValueExprs(values[..n]), [], comma);
      ValueBuilt(d, values[n]);
      BuiltJoin(d, ValueItems(values[..n]) + Toks(comma), ValueExprs(values[..n]), [Sub(Leaf(Static(values[n])))], [Literal(values[n])]);
      assert ValueExprs(values) == ValueExprs(values[..n]) + [Literal(values[n])];
    }
  }

  lemma WordsBuilt(d: Dialect, a: seq<Lexeme>, b: seq<Lexeme>)
    requires forall i :: 0 <= i < |a| ==> !a[i].Verbatim?
    requires forall i :: 0 <= i < |b| ==> !b[i].Verbatim?
    ensures BuiltFrom(d, Toks(a) + Toks(b), [], [])
  {
    hide BuiltFrom;
    TextBuilt(d, a);
    BuiltThenText(d, Toks(a), [], [], b);
  }

  lemma TextsBuilt(d: Dialect, a: seq<Item>, b: seq<Item>)
    requires BuiltFrom(d, a, [], []) && BuiltFrom(d, b, [], [])
    ensures BuiltFrom(d, a + b, [], [])
  {
    hide BuiltFrom;
    var none: seq<Expr> := [];
    BuiltJoin(d, a, none, b, none);
    assert none + none == none;
  }

  lemma InsertHeadBuilt(d: Dialect, table: string, columns: seq<string>, returning: string)
    ensures BuiltFrom(d, InsertHead(d, table, columns, returning), [], [])
  {
    hide BuiltFrom;
    NothingBuilt(d);
    NamesAreQuoted(columns);
    WordsBuilt(d, [Raw(INSERT_INTO)], [Ident(table)]);
    WordsBuilt(d, [Raw(OPEN_COLUMNS)], Names(columns));
    BuiltThenText(d, Toks([Raw(OPEN_COLUMNS)]) + Toks(Names(columns)), [], [], [RParen]);
    WordsBuilt(d, [Raw(OUTPUT_INSERTED)], [Ident(returning)]);
    var list := if columns == [] then [] else Toks([Raw(OPEN_COLUMNS)]) + Toks(Names(columns)) + Toks([RParen]);
    var output := if returning != "" && d.Mssql? then Toks([Raw(OUTPUT_INSERTED)]) + Toks([Ident(returning)]) else [];
    TextsBuilt(d, Toks([Raw(INSERT_INTO)]) + Toks([Ident(table)]), list);
    TextsBuilt(d, Toks([Raw(INSERT_INTO)]) + Toks([Ident(table)]) + list, output);
  }

  function InsertedExprs(columns: seq<string>, values: seq<BoundValue>): seq<Expr> { if columns == [] then [] else ValueExprs(values) }

  lemma InsertBodyBuilt(d: Dialect, columns: seq<string>, values: seq<BoundValue>, returning: string)
    ensures BuiltFrom(d, InsertBody(d, columns, values, returning), InsertedExprs(columns, values), [])
  {
    hide BuiltFrom, ValueItems;
    NothingBuilt(d);
    TextBuilt(d, [Raw(DEFAULT_VALUES)]);
    ValuesBuilt(d, values);
    TextThenBuilt(d, [Raw(VALUES_OPEN)], ValueItems(values), ValueExprs(values));
    BuiltThenText(d, Toks([Raw(VALUES_OPEN)]) + ValueItems(values), ValueExprs(values), [], [RParen]);
    WordsBuilt(d, [Raw(RETURNING)], [Ident(returning)]);
    var front := if columns == [] then Toks([Raw(DEFAULT_VALUES)]) else Toks([Raw(VALUES_OPEN)]) + ValueItems(values) + Toks([RParen]);
    var clause := if returning != "" && d.Postgres? then Toks([Raw(RETURNING)]) + Toks([Ident(returning)]) else [];
    BuiltJoin(d, front, InsertedExprs(columns, values), clause, []);
    assert InsertedExprs(columns, values) + [] == InsertedExprs(columns, values);
  }

  lemma InsertBuilt(d: Dialect, table: string, columns: seq<string>, values: seq<BoundValue>, returning: string)
    ensures BuiltFrom(d, InsertItems(d, table, columns, values, returning), InsertedExprs(columns, values), [])
  {
    hide BuiltFrom, InsertHead, InsertBody;
    InsertHeadBuilt(d, table, columns, returning);
    InsertBodyBuilt(d, columns, values, returning);
    BuiltJoin(d, InsertHead(d, table, columns, returning), [], InsertBody(d, columns, values, returning), InsertedExprs(columns, values));
    assert [] + InsertedExprs(columns, values) == InsertedExprs(columns, values);
  }

  // ---------------------------------------------------------------------------------------------
  // The main results for statements
  // ---------------------------------------------------------------------------------------------

  ghost predicate AllGuarded(d: Dialect, es: seq<Expr>) { forall i :: 0 <= i < |es| ==> Guarded(d, es[i]) }

  ghost predicate AllPlain(es: seq<Expr>) { forall i :: 0 <= i < |es| ==> PlainNames(es[i]) }

  /** Placeholders and slots agree in a SELECT exactly when every expression in it is guarded. */
  lemma SelectAlignedIffGuarded(d: Dialect, q: SelectQuery)
    ensures Aligned(Row(SelectItems(d, q))) <==> AllGuarded(d, SelectExprs(q))
  {
    hide Consists, Aligned, SelectItems;
    SelectBuilt(d, q);
    StatementAligned(d, SelectItems(d, q), SelectExprs(q), []);
  }

  /** The same for a set operation. */
  lemma SetOperationAlignedIffGuarded(d: Dialect, q: SetQuery)
    ensures Aligned(Row(SetItems(d, q))) <==> AllGuarded(d, SetExprs(q))
  {
    hide Consists, Aligned, SetItems;
    SetBuilt(d, q);
    StatementAligned(d, SetItems(d, q), SetExprs(q), []);
  }

  /** The same for a SELECT with joins. */
  lemma JoinAlignedIffGuarded(d: Dialect, q: JoinQuery)
    ensures Aligned(Row(JoinedItems(d, q))) <==> AllGuarded(d, JoinExprs(q))
  {
    hide Consists, Aligned, JoinedItems;
    JoinedBuilt(d, q);
    StatementAligned(d, JoinedItems(d, q), JoinExprs(q), JoinWords(q.joins));
  }

  /** The same for an UPDATE. */
  lemma UpdateAlignedIffGuarded(d: Dialect, table: string, assignments: seq<Assignment>, where: Option<Expr>)
    ensures Aligned(Row(UpdateItems(d, table, assignments, where))) <==> AllGuarded(d, UpdateExprs(assignments, where))
  {
    hide Consists, Aligned, UpdateItems;
    UpdateBuilt(d, table, assignments, where);
    StatementAligned(d, UpdateItems(d, table, assignments, where), UpdateExprs(assignments, where), []);
  }

  /** The text PostgreSQL is given for a SELECT has `$k` exactly where slot k-1 was printed. */
  lemma SelectReachesPostgres(g: GeneratedSql, q: SelectQuery)
    requires Generates(Postgres, g, SelectItems(Postgres, q))
    requires AllGuarded(Postgres, SelectExprs(q)) && AllPlain(SelectExprs(q))
    ensures Scan(g.sql, Outside, 1) == BySlot(ItemPieces(SelectItems(Postgres, q), 0))
    ensures Marks(ItemPieces(SelectItems(Postgres, q), 0)) == Iota(0, |g.slots|)
  {
    hide Consists, SelectItems, Scan, BySlot, Marks, ItemPieces;
    SelectBuilt(Postgres, q);
    StatementReachesPostgres(g, SelectItems(Postgres, q), SelectExprs(q), []);
  }

  lemma SetOperationReachesPostgres(g: GeneratedSql, q: SetQuery)
    requires Generates(Postgres, g, SetItems(Postgres, q))
    requires AllGuarded(Postgres, SetExprs(q)) && AllPlain(SetExprs(q))
    ensures Scan(g.sql, Outside, 1) == BySlot(ItemPieces(SetItems(Postgres, q), 0))
    ensures Marks(ItemPieces(SetItems(Postgres, q), 0)) == Iota(0, |g.slots|)
  {
    hide Consists, SetItems, Scan, BySlot, Marks, ItemPieces;
    SetBuilt(Postgres, q);
    StatementReachesPostgres(g, SetItems(Postgres, q), SetExprs(q), []);
  }

  lemma JoinReachesPostgres(g: GeneratedSql, q: JoinQuery)
    requires Generates(Postgres, g, JoinedItems(Postgres, q))
    requires AllGuarded(Postgres, JoinExprs(q)) && AllPlain(JoinExprs(q))
    requires forall i :: 0 <= i < |JoinWords(q.joins)| ==> Plain(JoinWords(q.joins)[i])
    ensures Scan(g.sql, Outside, 1) == BySlot(ItemPieces(JoinedItems(Postgres, q), 0))
    ensures Marks(ItemPieces(JoinedItems(Postgres, q), 0)) == Iota(0, |g.slots|)
  {
    hide Consists, JoinedItems, Scan, BySlot, Marks, ItemPieces;
    JoinedBuilt(Postgres, q);
    StatementReachesPostgres(g, JoinedItems(Postgres, q), JoinExprs(q), JoinWords(q.joins));
  }

  lemma UpdateReachesPostgres(g: GeneratedSql, table: string, assignments: seq<Assignment>, where: Option<Expr>)
    requires Generates(Postgres, g, UpdateItems(Postgres, table, assignments, where))
    requires AllGuarded(Postgres, UpdateExprs(assignments, where)) && AllPlain(UpdateExprs(assignments, where))
    ensures Scan(g.sql, Outside, 1) == BySlot(ItemPieces(UpdateItems(Postgres, table, assignments, where), 0))
    ensures Marks(ItemPieces(UpdateItems(Postgres, table, assignments, where), 0)) == Iota(0, |g.slots|)
  {
    hide Consists, UpdateItems, Scan, BySlot, Marks, ItemPieces;
    UpdateBuilt(Postgres, table, assignments, where);
    StatementReachesPostgres(g, UpdateItems(Postgres, table, assignments, where), UpdateExprs(assignments, where), []);
  }

  /** An INSERT needs no guard: `$k` always stands where slot k-1 was printed. */
  lemma InsertReachesPostgres(g: GeneratedSql, table: string, columns: seq<string>, values: seq<BoundValue>, returning: string)
    requires Generates(Postgres, g, InsertItems(Postgres, table, columns, values, returning))
    ensures Scan(g.sql, Outside, 1) == BySlot(ItemPieces(InsertItems(Postgres, table, columns, values, returning), 0))
    ensures Marks(ItemPieces(InsertItems(Postgres, table, columns, values, returning), 0)) == Iota(0, |g.slots|)
  {
    hide Consists, InsertItems, Scan, BySlot, Marks, ItemPieces;
    InsertBuilt(Postgres, table, columns, values, returning);
    StatementReachesPostgres(g, InsertItems(Postgres, table, columns, values, returning), InsertedExprs(columns, values), []);
  }

  function AllStatic(values: seq<BoundValue>): (r: seq<Slot>)
    ensures |r| == |values|
  {
    seq(|values|, i requires 0 <= i < |values| => Static(values[i]))
  }

  lemma NoValueSlots()
    ensures ItemSlots(ValueItems([])) == [] && AllStatic([]) == [] && Statics([]) == []
  {
  }

  lemma LastValueSlot(values: seq<BoundValue>)
    requires values != []
    ensures ItemSlots(ValueItems(values)) == ItemSlots(ValueItems(values[..|values| - 1])) + [Static(values[|values| - 1])]
  {
    hide ItemSlots, Toks;
    var n := |values| - 1;
    var comma := if |values| > 1 then [Comma] else [];
    var front, last := ValueItems(values[..n]), Static(values[n]);
    ItemSlotsAppend(front + Toks(comma), [Sub(Leaf(last))]);
    ItemSlotsAppend(front, Toks(comma));
    TextOfToks(Postgres, comma, 0);
    LeafSlots(last);
    assert ItemSlots(front) + [] == ItemSlots(front);
  }

  lemma {:induction false} ValueSlots(values: seq<BoundValue>)
    ensures ItemSlots(ValueItems(values)) == AllStatic(values) && Statics(AllStatic(values)) == values
  {
    hide ItemSlots, Statics, ValueItems;
    NoValueSlots();
    if values != [] {
      var n := |values| - 1;
      ValueSlots(values[..n]);
      LastValueSlot(values);
      LeafSlots(Static(values[n]));
      StaticsAppend(AllStatic(values[..n]), [Static(values[n])]);
      assert AllStatic(values) == AllStatic(values[..n]) + [Static(values[n])];
    }
  }

  lemma LeafSlots(slot: Slot)
    requires slot.Static?
    ensures ItemSlots([Sub(Leaf(slot))]) == [slot] && Statics([slot]) == [slot.value]
  {
    TextOfSub(Postgres, Leaf(slot), 0);
    assert [slot][1..] == [] && Statics([slot]) == [slot.value] + Statics([]);
  }

  lemma WordsHaveNoSlots(ls: seq<Lexeme>, ks: seq<Lexeme>)
    ensures ItemSlots(Toks(ls) + Toks(ks)) == [] && ItemSlots(Toks(ls)) == []
  {
    ItemSlotsAppend(Toks(ls), Toks(ks));
    TextOfToks(Postgres, ls, 0);
    TextOfToks(Postgres, ks, 0);
  }

  lemma InsertHeadHasNoSlots(d: Dialect, table: string, columns: seq<string>, returning: string)
    ensures ItemSlots(InsertHead(d, table, columns, returning)) == []
  {
    hide ItemSlots, Toks;
    EmptyRow(d, 0);
    WordsHaveNoSlots([Raw(INSERT_INTO)], [Ident(table)]);
    WordsHaveNoSlots([Raw(OPEN_COLUMNS)], Names(columns));
    WordsHaveNoSlots([RParen], []);
    WordsHaveNoSlots([Raw(OUTPUT_INSERTED)], [Ident(returning)]);
    ItemSlotsAppend(Toks([Raw(OPEN_COLUMNS)]) + Toks(Names(columns)), Toks([RParen]));
    var list := if columns == [] then [] else Toks([Raw(OPEN_COLUMNS)]) + Toks(Names(columns)) + Toks([RParen]);
    var output := if returning != "" && d.Mssql? then Toks([Raw(OUTPUT_INSERTED)]) + Toks([Ident(returning)]) else [];
    ItemSlotsAppend(Toks([Raw(INSERT_INTO)]) + Toks([Ident(table)]), list);
    ItemSlotsAppend(Toks([Raw(INSERT_INTO)]) + Toks([Ident(table)]) + list, output);
  }

  /** What an INSERT binds are its values in order, or nothing when it has no columns. */
  lemma InsertBindsItsValues(d: Dialect, g: GeneratedSql, table: string, columns: seq<string>, values: seq<BoundValue>, returning: string)
    requires Generates(d, g, InsertItems(d, table, columns, values, returning))
    ensures g.slots == (if columns == [] then [] else AllStatic(values)) && g.params == if columns == [] then [] else values
  {
    hide ItemSlots, Toks, InsertHead, ValueItems, Statics, ItemText;
    EmptyRow(d, 0);
    InsertHeadHasNoSlots(d, table, columns, returning);
    ValueSlots(values);
    WordsHaveNoSlots([Raw(VALUES_OPEN)], [RParen]);
    WordsHaveNoSlots([RParen], []);
    WordsHaveNoSlots([Raw(DEFAULT_VALUES)], []);
    WordsHaveNoSlots([Raw(RETURNING)], [Ident(returning)]);
    ItemSlotsAppend(Toks([Raw(VALUES_OPEN)]), ValueItems(values));
    ItemSlotsAppend(Toks([Raw(VALUES_OPEN)]) + ValueItems(values), Toks([RParen]));
    var front := if columns == [] then Toks([Raw(DEFAULT_VALUES)]) else Toks([Raw(VALUES_OPEN)]) + ValueItems(values) + Toks([RParen]);
    var clause := if returning != "" && d.Postgres? then Toks([Raw(RETURNING)]) + Toks([Ident(returning)]) else [];
    ItemSlotsAppend(front, clause);
    ItemSlotsAppend(InsertHead(d, table, columns, returning), InsertBody(d, columns, values, returning));
  }

  // Two statements that go wrong.

  /** `? IN ()` prints no placeholder but records a slot. */
  lemma EmptyInListMisaligns(d: Dialect)
    ensures var e := InList(Param(0), [], false);
      !Guarded(d, e) && !Aligned(Shape(d, e)) && Slots(Shape(d, e)) == [Dynamic(0)] && Marks(Pieces(Shape(d, e), 0)) == []
  {
    var e := InList(Param(0), [], false);
    assert Operands(e) == [Param(0)];
    assert CarriesSlot(Param(0));
    AlignedIffGuarded(d, e);
    assert Kids(d, e) == [Leaf(Dynamic(0))];
    LexesHaveNoMarks([Raw(ALWAYS_FALSE)]);
  }

  lemma DateAddOfParams()
    ensures var e := DateAdd(Param(0), Param(1)); var t := Shape(Mssql, e);
      t.Swapped? && t.first == Leaf(Dynamic(0)) && t.second == Leaf(Dynamic(1))
  {
    var e := DateAdd(Param(0), Param(1));
    assert Operands(e) == [Param(0), Param(1)];
    assert Kids(Mssql, e) == [Leaf(Dynamic(0)), Leaf(Dynamic(1))];
  }

  /** On SQL Server a date parameter and a day count change places. */
  lemma SqlServerDateAddMisaligns()
    ensures var e := DateAdd(Param(0), Param(1));
      && !Guarded(Mssql, e) && Guarded(Postgres, e)
      && Slots(Shape(Mssql, e)) == [Dynamic(0), Dynamic(1)] && Marks(Pieces(Shape(Mssql, e), 0)) == [1, 0]
  {
    var e := DateAdd(Param(0), Param(1));
    DateAddOfParams();
    SwappedMarks(Shape(Mssql, e), 0);
    assert [Mark(0)][1..] == [] && [Mark(1)][1..] == [];
    assert Marks([Mark(0)]) == [0] && Marks([Mark(1)]) == [1];
  }
}
