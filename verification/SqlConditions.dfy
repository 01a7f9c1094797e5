/** When generated placeholders agree with recorded slots: conditions a caller can check on the expression. */
module SqlConditions {
  import opened Dialects
  import opened LayoutTree
  import opened SqlAst
  import opened PlaceholderScanner

  /** Whether a literal or a parameter occurs anywhere in the expression. */
  predicate CarriesSlot(e: Expr) {
    e.Literal? || e.Param? || exists i :: 0 <= i < |Operands(e)| && CarriesSlot(Operands(e)[i])
  }

  /** No empty IN list hides a slot, and no SQL Server date arithmetic has slots on both sides. */
  predicate Guarded(d: Dialect, e: Expr) {
    && (e.InList? && e.values == [] ==> !CarriesSlot(e.expr))
    && (d.Mssql? && e.DateAdd? ==> !CarriesSlot(e.expr) || !CarriesSlot(e.days))
    && forall i :: 0 <= i < |Operands(e)| ==> Guarded(d, Operands(e)[i])
  }

  /** Function names are the only expression text copied unquoted from the caller. */
  predicate PlainNames(e: Expr) {
    && (e.Function? ==> Plain(e.name))
    && forall i :: 0 <= i < |Operands(e)| ==> PlainNames(Operands(e)[i])
  }

  // ---------------------------------------------------------------------------------------------
  // A row's outline is its verbatim text followed by the shapes of the operands, in visiting order
  // ---------------------------------------------------------------------------------------------

  predicate Outlined(item: Item) { item.Sub? || item.lexeme.Verbatim? }

  function Outline(items: seq<Item>): seq<Item> {
    if items == [] then []
    else (if Outlined(items[0]) then [items[0]] else []) + Outline(items[1..])
  }

  function Subs(ts: seq<Tree>): (r: seq<Item>)
    ensures |r| == |ts|
    ensures forall i :: 0 <= i < |ts| ==> r[i] == Sub(ts[i])
  {
    seq(|ts|, i requires 0 <= i < |ts| => Sub(ts[i]))
  }

  lemma OutlineAppend(a: seq<Item>, b: seq<Item>)
    ensures Outline(a + b) == Outline(a) + Outline(b)
  {
    if a == [] {
      assert a + b == b;
      assert [] + Outline(b) == Outline(b);
    } else {
      assert (a + b)[0] == a[0] && (a + b)[1..] == a[1..] + b;
      OutlineAppend(a[1..], b);
      Associate(if Outlined(a[0]) then [a[0]] else [], Outline(a[1..]), Outline(b));
    }
  }

  lemma OutlineOfThree(a: seq<Item>, b: seq<Item>, c: seq<Item>)
    ensures Outline(a + b + c) == Outline(a) + Outline(b) + Outline(c)
  {
    OutlineAppend(a + b, c);
    OutlineAppend(a, b);
  }

  lemma OutlineOfToks(ls: seq<Lexeme>)
    requires forall i :: 0 <= i < |ls| ==> !ls[i].Verbatim?
    ensures Outline(Toks(ls)) == []
  {
    if ls != [] {
      assert Toks(ls)[1..] == Toks(ls[1..]);
      OutlineOfToks(ls[1..]);
    }
  }

  lemma OutlineOfSub(t: Tree)
    ensures Outline([Sub(t)]) == [Sub(t)]
  {
    assert [Sub(t)][1..] == [];
  }

  lemma OutlineOfOne(before: seq<Lexeme>, t: Tree, after: seq<Lexeme>)
    requires forall i :: 0 <= i < |before| ==> !before[i].Verbatim?
    requires forall i :: 0 <= i < |after| ==> !after[i].Verbatim?
    ensures Outline(One(before, t, after)) == [Sub(t)]
  {
    OutlineOfToks(before);
    OutlineOfSub(t);
    OutlineOfToks(after);
    OutlineOfThree(Toks(before), [Sub(t)], Toks(after));
  }

  lemma OutlineOfTwo(before: seq<Lexeme>, t: Tree, between: seq<Lexeme>, u: Tree, after: seq<Lexeme>)
    requires forall i :: 0 <= i < |before| ==> !before[i].Verbatim?
    requires forall i :: 0 <= i < |between| ==> !between[i].Verbatim?
    requires forall i :: 0 <= i < |after| ==> !after[i].Verbatim?
    ensures Outline(Two(before, t, between, u, after)) == [Sub(t), Sub(u)]
  {
    OutlineOfOne(before, t, between);
    OutlineOfOne([], u, after);
    OutlineAppend(One(before, t, between), One([], u, after));
  }

  lemma {:induction false} OutlineOfList(ts: seq<Tree>)
    ensures Outline(ListItems(ts)) == Subs(ts)
  {
    hide Outline, Toks;
    OutlineOfEmpty();
    if ts != [] {
      var n := |ts| - 1;
      var comma := if |ts| > 1 then [Comma] else [];
      OutlineOfList(ts[..n]);
      OutlineOfToks(comma);
      OutlineOfSub(ts[n]);
      OutlineOfThree(ListItems(ts[..n]), Toks(comma), [Sub(ts[n])]);
      SubsLast(ts);
    }
  }

  lemma OutlineOfEmpty()
    ensures Outline([]) == []
  {
  }

  lemma OutlineOfKey(t: Tree, descending: bool)
    ensures Outline(OrderItem(t, descending)) == [Sub(t)]
  {
    hide Outline, Toks, One;
    OutlineOfOne([], t, [Raw(if descending then DESC else ASC)]);
  }

  lemma SubsLast(ts: seq<Tree>)
    requires ts != []
    ensures Subs(ts[..|ts| - 1]) + [] + [Sub(ts[|ts| - 1])] == Subs(ts)
  {
  }

  lemma {:induction false} OutlineOfOrder(ts: seq<Tree>, os: seq<Order>)
    requires |ts| == |os|
    ensures Outline(OrderItems(ts, os)) == Subs(ts)
  {
    hide Outline, Toks, One, OrderItem;
    OutlineOfEmpty();
    if ts != [] {
      var n := |ts| - 1;
      var comma := if |ts| > 1 then [Comma] else [];
      OutlineOfOrder(ts[..n], os[..n]);
      OutlineOfToks(comma);
      OutlineOfKey(ts[n], os[n].descending);
      OutlineOfThree(OrderItems(ts[..n], os[..n]), Toks(comma), OrderItem(ts[n], os[n].descending));
      SubsLast(ts);
    }
  }

  lemma OutlineOfClauses(ps: seq<Tree>, ts: seq<Tree>, os: seq<Order>)
    requires |ts| == |os|
    ensures Outline(PartitionClause(ps)) == Subs(ps)
    ensures Outline(OrderClause(ts, os)) == Subs(ts)
  {
    OutlineOfToks([Raw(PARTITION_BY)]);
    OutlineOfList(ps);
    OutlineAppend(Toks([Raw(PARTITION_BY)]), ListItems(ps));
    OutlineOfToks([Raw(ORDER_BY)]);
    OutlineOfOrder(ts, os);
    OutlineAppend(Toks([Raw(ORDER_BY)]), OrderItems(ts, os));
  }

  lemma OutlineOfCall(f: WindowFunction, arg: seq<Tree>)
    requires |arg| <= 1
    ensures Outline(WindowCall(f, arg)) == Subs(arg)
  {
    OutlineOfToks([Raw(WindowOpening(f))]);
    OutlineOfToks([RParen, Raw(OVER)]);
    if arg == [] {
      var star := if f.Count? then [Raw(STAR)] else [];
      OutlineOfToks(star);
      OutlineOfThree(Toks([Raw(WindowOpening(f))]), Toks(star), Toks([RParen, Raw(OVER)]));
    } else {
      OutlineOfSub(arg[0]);
      OutlineOfThree(Toks([Raw(WindowOpening(f))]), [Sub(arg[0])], Toks([RParen, Raw(OVER)]));
    }
  }

  lemma OutlineOfFive(a: seq<Item>, b: seq<Item>, c: seq<Item>, x: seq<Item>, y: seq<Item>)
    ensures Outline(a + b + c + x + y) == Outline(a) + Outline(b) + Outline(c) + Outline(x) + Outline(y)
  {
    OutlineOfThree(a, b, c);
    OutlineOfThree(a + b + c, x, y);
  }

  lemma SubsSplit(kids: seq<Tree>, a: nat, b: nat)
    requires a <= b <= |kids|
    ensures Subs(kids) == Subs(kids[..a]) + Subs(kids[a..b]) + Subs(kids[b..])
  {
  }

  lemma DropEmpty<T>(a: seq<T>, b: seq<T>, c: seq<T>)
    ensures a + b + [] + c + [] == a + b + c && [] + a == a && a + [] == a
  {
  }

  lemma OutlineOfWindow(f: WindowFunction, arg: seq<Tree>, ps: seq<Tree>, space: seq<Lexeme>, ts: seq<Tree>, os: seq<Order>)
    requires |arg| <= 1 && |ts| == |os|
    requires forall i :: 0 <= i < |space| ==> !space[i].Verbatim?
    ensures Outline(WindowCall(f, arg) + PartitionClause(ps) + Toks(space) + OrderClause(ts, os) + Toks([RParen]))
         == Subs(arg) + Subs(ps) + Subs(ts)
  {
    hide Outline, Toks, WindowCall, PartitionClause, OrderClause, Subs;
    OutlineOfFive(WindowCall(f, arg), PartitionClause(ps), Toks(space), OrderClause(ts, os), Toks([RParen]));
    OutlineOfToks(space);
    OutlineOfToks([RParen]);
    OutlineOfCall(f, arg);
    OutlineOfClauses(ps, ts, os);
    DropEmpty(Subs(arg), Subs(ps), Subs(ts));
  }

  lemma NamesAreQuoted(ids: seq<string>)
    ensures forall i :: 0 <= i < |Names(ids)| ==> !Names(ids)[i].Verbatim?
  {
    if ids != [] { NamesAreQuoted(ids[..|ids| - 1]); }
  }

  lemma OutlineOfWhere(where: seq<Tree>)
    requires |where| <= 1
    ensures Outline(WhereItems(where)) == Subs(where)
  {
    if where != [] { OutlineOfOne([Raw(WHERE)], where[0], []); }
  }

  lemma OutlineOfSelect(before: seq<Item>, q: Select, star: PlainText, where: seq<Tree>, after: seq<Lexeme>)
    requires forall i :: 0 <= i < |after| ==> !after[i].Verbatim?
    requires |where| <= 1
    ensures Outline(NestedSelect(before, q, star, where, after)) == Outline(before) + Subs(where)
  {
    NamesAreQuoted(q.columns);
    OutlineOfToks(SelectHead(q, star));
    OutlineOfWhere(where);
    OutlineOfToks(after);
    OutlineOfThree(before, Toks(SelectHead(q, star)), WhereItems(where));
    OutlineAppend(before + Toks(SelectHead(q, star)) + WhereItems(where), Toks(after));
  }

  lemma OutlineOfName(name: string)
    ensures Outline(Toks([Verbatim(name), LParen])) == [Tok(Verbatim(name))]
  {
    var word := Tok(Verbatim(name));
    OutlineOfToks([LParen]);
    assert [word][1..] == [];
    OutlineAppend([word], Toks([LParen]));
    assert [word] + Toks([LParen]) == Toks([Verbatim(name), LParen]);
  }

  lemma OutlineOfFunction(name: string, kids: seq<Tree>)
    ensures Outline(Toks([Verbatim(name), LParen]) + ListItems(kids) + Toks([RParen])) == [Tok(Verbatim(name))] + Subs(kids)
  {
    hide Outline, ListItems, Subs;
    OutlineOfName(name);
    OutlineOfList(kids);
    OutlineOfToks([RParen]);
    OutlineOfThree(Toks([Verbatim(name), LParen]), ListItems(kids), Toks([RParen]));
    DropEmpty([Tok(Verbatim(name))], Subs(kids), []);
    assert [Tok(Verbatim(name))] + Subs(kids) + [] == [Tok(Verbatim(name))] + Subs(kids);
  }

  lemma OutlineOfInList(first: Tree, rest: seq<Tree>, negated: bool)
    ensures Outline(One([LParen], first, [InWord(negated), LParen]) + ListItems(rest) + Toks([RParen, RParen])) == [Sub(first)] + Subs(rest)
  {
    OutlineOfOne([LParen], first, [InWord(negated), LParen]);
    OutlineOfList(rest);
    OutlineOfToks([RParen, RParen]);
    OutlineOfThree(One([LParen], first, [InWord(negated), LParen]), ListItems(rest), Toks([RParen, RParen]));
  }

  lemma OutlineOfPredicate(d: Dialect, e: Expr, kids: seq<Tree>)
    requires e.Compare? || e.Logic? || e.Not? || e.IsNull? || e.Between? || e.Like?
    requires |kids| == |Operands(e)|
    ensures Outline(Layout(d, e, kids).items) == Subs(kids)
  {
    match e
    case Compare(_, op, _) => OutlineOfTwo([LParen], kids[0], [Cmp(op)], kids[1], [RParen]);
    case Logic(_, isAnd, _) => OutlineOfTwo([LParen], kids[0], [if isAnd then AndWord else OrWord], kids[1], [RParen]);
    case Not(_) => OutlineOfOne([NotWord, LParen], kids[0], [RParen]);
    case IsNull(_, n) => OutlineOfOne([], kids[0], [NullTest(n)]);
    case Between(_, _, _, n) =>
      OutlineOfTwo([LParen], kids[0], [BetweenWord(n)], kids[1], [AndWord]);
      OutlineOfOne([], kids[2], [RParen]);
      OutlineAppend(Two([LParen], kids[0], [BetweenWord(n)], kids[1], [AndWord]), One([], kids[2], [RParen]));
    case Like(_, _, n) => OutlineOfTwo([LParen], kids[0], [LikeWord(n)], kids[1], [RParen]);
  }

  lemma OutlineOfQuery(d: Dialect, e: Expr, kids: seq<Tree>)
    requires e.Subquery? || e.Exists? || e.InSubquery?
    requires |kids| == |Operands(e)|
    ensures Outline(Layout(d, e, kids).items) == Subs(kids)
  {
    hide Outline, Toks, One, Subs, NestedSelect;
    match e
    case Subquery(q) =>
      OutlineOfToks([Raw(NESTED_SELECT)]);
      OutlineOfSelect(Toks([Raw(NESTED_SELECT)]), q, STAR, kids, [RParen]);
      DropEmpty([], Subs(kids), []);
    case Exists(q, n) =>
      var head := [Raw(if n then NOT_EXISTS else EXISTS)];
      OutlineOfToks(head);
      OutlineOfSelect(Toks(head), q, ONE, kids, [RParen]);
      DropEmpty([], Subs(kids), []);
    case InSubquery(_, q, n) =>
      var head := [InWord(n), LParen, Raw(SELECT)];
      OutlineOfOne([LParen], kids[0], head);
      OutlineOfSelect(One([LParen], kids[0], head), q, STAR, kids[1..], [RParen, RParen]);
      FirstSub(kids);
      DropEmpty(Subs(kids), [], []);
  }

  lemma OutlineOfDate(d: Dialect, e: Expr, kids: seq<Tree>)
    requires e.Extract? || (e.DateAdd? && d.Postgres?) || e.CurrentDate? || e.CurrentTimestamp?
    requires |kids| == |Operands(e)|
    ensures Outline(Layout(d, e, kids).items) == Subs(kids)
  {
    match e
    case Extract(part, _) =>
      OutlineOfOne([Raw(EXTRACT), Raw(DatePartName(part)), Raw(FROM_CAST)], kids[0], [Raw(AS_TIMESTAMP_CLOSE)]);
      OutlineOfOne([Raw(DatePartName(part)), LParen], kids[0], [RParen]);
    case DateAdd(_, _) =>
      OutlineOfTwo([Raw(OPEN_CAST)], kids[0], [Raw(AS_TIMESTAMP_PLUS)], kids[1], [Raw(CONCATENATE), DaysConstant, Raw(TO_INTERVAL)]);
    case CurrentTimestamp => OutlineOfToks([Raw(CURRENT_TIMESTAMP)]);
    case CurrentDate => OutlineOfToks([Raw(if d.Postgres? then CURRENT_DATE else CAST_GETDATE)]);
  }

  function NameItems(d: Dialect, e: Expr): seq<Item> {
    if e.Function? then [Tok(Verbatim(FunctionName(d, e.name)))] else []
  }

  lemma OutlineOfLayout(d: Dialect, e: Expr, kids: seq<Tree>)
    requires |kids| == |Operands(e)| && Layout(d, e, kids).Row?
    ensures Outline(Layout(d, e, kids).items) == NameItems(d, e) + Subs(kids)
  {
    hide Layout, Outline, NameItems, Subs, Operands;
    NoNames(d, e, kids);
    KindsOfRow(d, e, kids);
    if e.Compare? || e.Logic? || e.Not? || e.IsNull? || e.Between? || e.Like? { OutlineOfPredicate(d, e, kids); }
    else if e.Subquery? || e.Exists? || e.InSubquery? { OutlineOfQuery(d, e, kids); }
    else if e.Function? { OutlineOfCallLayout(d, e, kids); }
    else if e.InList? { OutlineOfListLayout(d, e, kids); }
    else if e.Window? { OutlineOfWindowLayout(d, e, kids); }
    else if e.Column? || e.Missing? { OutlineOfFixed(d, e, kids); }
    else { OutlineOfDate(d, e, kids); }
  }

  lemma KindsOfRow(d: Dialect, e: Expr, kids: seq<Tree>)
    requires |kids| == |Operands(e)| && Layout(d, e, kids).Row?
    ensures !e.Literal? && !e.Param? && (e.DateAdd? ==> d.Postgres?)
  {
  }

  lemma NoNames(d: Dialect, e: Expr, kids: seq<Tree>)
    ensures !e.Function? ==> NameItems(d, e) + Subs(kids) == Subs(kids)
  {
  }

  lemma OutlineOfCallLayout(d: Dialect, e: Expr, kids: seq<Tree>)
    requires e.Function? && |kids| == |Operands(e)|
    ensures Layout(d, e, kids).Row? && Outline(Layout(d, e, kids).items) == NameItems(d, e) + Subs(kids)
  {
    hide Outline, Toks, ListItems, Subs;
    OutlineOfFunction(FunctionName(d, e.name), kids);
  }

  lemma OutlineOfListLayout(d: Dialect, e: Expr, kids: seq<Tree>)
    requires e.InList? && |kids| == |Operands(e)| && Layout(d, e, kids).Row?
    ensures Outline(Layout(d, e, kids).items) == NameItems(d, e) + Subs(kids)
  {
    hide Outline, Toks, ListItems, Subs, One;
    OutlineOfInList(kids[0], kids[1..], e.negated);
    FirstSub(kids);
  }

  lemma FirstSub(kids: seq<Tree>)
    requires kids != []
    ensures [] + Subs(kids) == [Sub(kids[0])] + Subs(kids[1..])
  {
  }

  lemma OutlineOfWindowLayout(d: Dialect, e: Expr, kids: seq<Tree>)
    requires e.Window? && |kids| == |Operands(e)|
    ensures Layout(d, e, kids).Row? && Outline(Layout(d, e, kids).items) == NameItems(d, e) + Subs(kids)
  {
    hide Outline, Toks, Subs, WindowCall, PartitionClause, OrderClause;
    var a, p := |Argument(e.kind, e.arg)|, |e.partition|;
    var space := if e.partition != [] && e.order != [] then [Raw(SPACE)] else [];
    OutlineOfWindow(e.kind, kids[..a], kids[a..a + p], space, kids[a + p..], e.order);
    SubsSplit(kids, a, a + p);
    assert [] + Subs(kids) == Subs(kids);
  }

  lemma OutlineOfFixed(d: Dialect, e: Expr, kids: seq<Tree>)
    requires (e.Column? || e.Missing?) && |kids| == |Operands(e)|
    ensures Layout(d, e, kids).Row? && Outline(Layout(d, e, kids).items) == NameItems(d, e) + Subs(kids)
  {
    OutlineOfNothing();
    if e.Column? { OutlineOfToks(ColumnPieces(e.table, e.column)); }
  }

  lemma OutlineOfNothing()
    ensures Outline([]) == [] && Subs([]) == []
  {
  }

  ghost function Kids(d: Dialect, e: Expr): (r: seq<Tree>)
    ensures |r| == |Operands(e)|
    ensures forall i :: 0 <= i < |r| ==> r[i] == Shape(d, Operands(e)[i])
    ensures Shape(d, e) == Layout(d, e, r)
  {
    var operands := Operands(e);
    seq(|operands|, i requires 0 <= i < |operands| => Shape(d, operands[i]))
  }

  // ---------------------------------------------------------------------------------------------
  // From outlines to conditions
  // ---------------------------------------------------------------------------------------------

  ghost predicate RowOf(items: seq<Item>, names: seq<Item>, kids: seq<Tree>) {
    && Outline(items) == names + Subs(kids)
    && forall x :: x in names ==> x.Tok?
  }

  lemma OutlineMembers(items: seq<Item>)
    ensures forall x :: x in Outline(items) <==> x in items && Outlined(x)
  {
    if items != [] {
      OutlineMembers(items[1..]);
      assert items == [items[0]] + items[1..];
    }
  }

  lemma RowMembers(items: seq<Item>, names: seq<Item>, kids: seq<Tree>)
    requires RowOf(items, names, kids)
    ensures forall t :: t in kids <==> Sub(t) in items
    ensures forall x :: x in items && x.Tok? && x.lexeme.Verbatim? ==> x in names
  {
    OutlineMembers(items);
    var subs := Subs(kids);
    forall t ensures t in kids <==> Sub(t) in items {
      if i :| 0 <= i < |kids| && kids[i] == t { assert subs[i] == Sub(t) && Sub(t) in Outline(items); }
      if Sub(t) in items {
        assert Sub(t) in names + subs;
        var i :| 0 <= i < |subs| && subs[i] == Sub(t);
      }
    }
    forall x | x in items && x.Tok? && x.lexeme.Verbatim? ensures x in names {
      assert x in names + subs;
    }
  }

  lemma SlotsOfItems(items: seq<Item>)
    ensures |ItemSlots(items)| > 0 <==> exists x :: x in items && |OneSlots(x)| > 0
  {
    if items != [] {
      SlotsOfItems(items[1..]);
      assert items == [items[0]] + items[1..];
      assert items[0] in items;
    }
  }

  lemma SlotsOfRow(items: seq<Item>, names: seq<Item>, kids: seq<Tree>)
    requires RowOf(items, names, kids)
    ensures |ItemSlots(items)| > 0 <==> exists t :: t in kids && |Slots(t)| > 0
  {
    RowMembers(items, names, kids);
    SlotsOfItems(items);
    if t :| t in kids && |Slots(t)| > 0 { assert |OneSlots(Sub(t))| > 0; }
    if x :| x in items && |OneSlots(x)| > 0 { assert x.tree in kids; }
  }

  lemma StraightRow(items: seq<Item>, names: seq<Item>, kids: seq<Tree>)
    requires RowOf(items, names, kids)
    ensures StraightItems(items) <==> forall t :: t in kids ==> Straight(t)
  {
    RowMembers(items, names, kids);
    if StraightItems(items) {
      forall t | t in kids ensures Straight(t) {
        var i :| 0 <= i < |items| && items[i] == Sub(t);
        assert StraightItem(items[i]);
      }
    }
  }

  ghost predicate CleanTree(t: Tree) { forall base: nat :: Clean(Pieces(t, base)) }

  ghost predicate CleanItem(x: Item) {
    match x
    case Tok(l) => CleanPiece(Lex(l))
    case Sub(t) => CleanTree(t)
  }

  lemma {:induction false} ItemsAreClean(items: seq<Item>, base: nat)
    requires forall x :: x in items ==> CleanItem(x)
    ensures Clean(ItemPieces(items, base))
  {
    if items != [] {
      assert items[0] in items;
      assert forall x :: x in items[1..] ==> x in items;
      ItemsAreClean(items[1..], base + |OneSlots(items[0])|);
      assert Clean(OnePieces(items[0], base)) by { assert CleanItem(items[0]); }
    }
  }

  lemma RowIsClean(items: seq<Item>, names: seq<Item>, kids: seq<Tree>)
    requires RowOf(items, names, kids)
    requires forall x :: x in names ==> CleanItem(x)
    requires forall t :: t in kids ==> CleanTree(t)
    ensures CleanTree(Row(items))
  {
    RowMembers(items, names, kids);
    forall base: nat ensures Clean(Pieces(Row(items), base)) {
      ItemsAreClean(items, base);
    }
  }

  /** All that the conditions need to know of a layout. */
  ghost predicate LaidOut(d: Dialect, e: Expr, kids: seq<Tree>, t: Tree)
    requires |kids| == |Operands(e)|
  {
    match t
    case Leaf(_) => e.Literal? || e.Param?
    case Row(items) => !e.Literal? && !e.Param? && !(d.Mssql? && e.DateAdd?) && !(e.InList? && e.values == []) && RowOf(items, NameItems(d, e), kids)
    case Dropped(text, hidden) => e.InList? && e.values == [] && kids == [hidden] && Clean(Lexes(text))
    case Swapped(open, first, mid, second, close) =>
      d.Mssql? && e.DateAdd? && kids == [first, second] && Clean(Lexes(open)) && Clean(Lexes(mid)) && Clean(Lexes(close))
  }

  lemma LayoutIsLaidOut(d: Dialect, e: Expr, kids: seq<Tree>)
    requires |kids| == |Operands(e)|
    ensures LaidOut(d, e, kids, Layout(d, e, kids))
  {
    if Layout(d, e, kids).Row? { OutlineOfLayout(d, e, kids); }
  }

  /** A slot is recorded for an expression exactly when a literal or parameter occurs in it. */
  lemma {:induction false} SlotsOfShape(d: Dialect, e: Expr)
    ensures |Slots(Shape(d, e))| > 0 <==> CarriesSlot(e)
  {
    forall i | 0 <= i < |Operands(e)| ensures |Slots(Shape(d, Operands(e)[i]))| > 0 <==> CarriesSlot(Operands(e)[i]) {
      SlotsOfShape(d, Operands(e)[i]);
    }
    LayoutIsLaidOut(d, e, Kids(d, e));
    SlotsOfLayout(d, e, Kids(d, e), Shape(d, e));
  }

  ghost predicate SlotsMatch(es: seq<Expr>, kids: seq<Tree>)
    requires |kids| == |es|
  {
    forall i :: 0 <= i < |es| ==> (|Slots(kids[i])| > 0 <==> CarriesSlot(es[i]))
  }

  lemma SlotsOfRowLayout(es: seq<Expr>, items: seq<Item>, names: seq<Item>, kids: seq<Tree>)
    requires |kids| == |es| && SlotsMatch(es, kids) && RowOf(items, names, kids)
    ensures |ItemSlots(items)| > 0 <==> exists i :: 0 <= i < |es| && CarriesSlot(es[i])
  {
    SlotsOfRow(items, names, kids);
    if i :| 0 <= i < |es| && CarriesSlot(es[i]) { assert kids[i] in kids; }
  }

  lemma SlotsOfLayout(d: Dialect, e: Expr, kids: seq<Tree>, t: Tree)
    requires |kids| == |Operands(e)| && SlotsMatch(Operands(e), kids) && LaidOut(d, e, kids, t)
    ensures |Slots(t)| > 0 <==> CarriesSlot(e)
  {
    match t
    case Leaf(_) =>
    case Row(items) => SlotsOfRowLayout(Operands(e), items, NameItems(d, e), kids);
    case Dropped(_, _) => assert CarriesSlot(Operands(e)[0]) <==> CarriesSlot(e);
    case Swapped(_, _, _, _, _) => assert CarriesSlot(Operands(e)[0]) || CarriesSlot(Operands(e)[1]) <==> CarriesSlot(e);
  }

  lemma {:induction false} NoSlotsIsGuarded(d: Dialect, e: Expr)
    requires !CarriesSlot(e)
    ensures Guarded(d, e)
  {
    forall i | 0 <= i < |Operands(e)| ensures !CarriesSlot(Operands(e)[i]) && Guarded(d, Operands(e)[i]) {
      NoSlotsIsGuarded(d, Operands(e)[i]);
    }
    if e.InList? || e.DateAdd? { assert Operands(e)[0] == e.expr; }
  }

  ghost predicate ConditionsMatch(d: Dialect, es: seq<Expr>, kids: seq<Tree>)
    requires |kids| == |es|
  {
    forall i :: 0 <= i < |es| ==> (Straight(kids[i]) <==> Guarded(d, es[i]))
  }

  /** The checkable condition is the layout condition. */
  lemma {:induction false} StraightIffGuarded(d: Dialect, e: Expr)
    ensures Straight(Shape(d, e)) <==> Guarded(d, e)
  {
    forall i | 0 <= i < |Operands(e)| ensures Straight(Shape(d, Operands(e)[i])) <==> Guarded(d, Operands(e)[i]) {
      StraightIffGuarded(d, Operands(e)[i]);
    }
    forall i | 0 <= i < |Operands(e)| ensures |Slots(Shape(d, Operands(e)[i]))| > 0 <==> CarriesSlot(Operands(e)[i]) {
      SlotsOfShape(d, Operands(e)[i]);
    }
    LayoutIsLaidOut(d, e, Kids(d, e));
    StraightLayout(d, e, Kids(d, e), Shape(d, e));
  }

  lemma StraightRowLayout(d: Dialect, es: seq<Expr>, items: seq<Item>, names: seq<Item>, kids: seq<Tree>)
    requires |kids| == |es| && ConditionsMatch(d, es, kids) && RowOf(items, names, kids)
    ensures StraightItems(items) <==> forall i :: 0 <= i < |es| ==> Guarded(d, es[i])
  {
    StraightRow(items, names, kids);
    assert forall i :: 0 <= i < |kids| ==> kids[i] in kids;
  }

  lemma StraightLayout(d: Dialect, e: Expr, kids: seq<Tree>, t: Tree)
    requires |kids| == |Operands(e)| && SlotsMatch(Operands(e), kids) && ConditionsMatch(d, Operands(e), kids)
    requires LaidOut(d, e, kids, t)
    ensures Straight(t) <==> Guarded(d, e)
  {
    match t
    case Leaf(_) =>
    case Row(items) =>
      hide StraightItems;
      StraightRowLayout(d, Operands(e), items, NameItems(d, e), kids);
    case Dropped(_, _) =>
      assert Operands(e) == [e.expr];
      assert Operands(e)[0] == e.expr;
      if !CarriesSlot(e.expr) { NoSlotsIsGuarded(d, e.expr); }
    case Swapped(_, _, _, _, _) =>
      assert Operands(e) == [e.expr, e.days];
      assert Operands(e)[0] == e.expr && Operands(e)[1] == e.days;
  }

  /**
   * Placeholder alignment: in the text generated for an expression the k-th placeholder is the one printed
   * for slot k, for all k, exactly when the expression is guarded.
   */
  lemma AlignedIffGuarded(d: Dialect, e: Expr)
    ensures Aligned(Shape(d, e)) <==> Guarded(d, e)
  {
    AlignedIffStraight(Shape(d, e));
    StraightIffGuarded(d, e);
  }

  lemma SwappedIsClean(t: Tree)
    requires t.Swapped? && CleanTree(t.first) && CleanTree(t.second)
    requires Clean(Lexes(t.open)) && Clean(Lexes(t.mid)) && Clean(Lexes(t.close))
    ensures CleanTree(t)
  {
    forall base: nat ensures Clean(Pieces(t, base)) {
      assert Clean(Pieces(t.second, base + |Slots(t.first)|)) && Clean(Pieces(t.first, base));
    }
  }

  lemma {:induction false} ShapeIsClean(d: Dialect, e: Expr)
    requires PlainNames(e)
    ensures CleanTree(Shape(d, e))
  {
    forall i | 0 <= i < |Operands(e)| ensures CleanTree(Shape(d, Operands(e)[i])) {
      ShapeIsClean(d, Operands(e)[i]);
    }
    LayoutIsLaidOut(d, e, Kids(d, e));
    LayoutIsClean(d, e, Kids(d, e), Shape(d, e));
  }

  lemma LayoutIsClean(d: Dialect, e: Expr, kids: seq<Tree>, t: Tree)
    requires |kids| == |Operands(e)| && LaidOut(d, e, kids, t)
    requires forall i :: 0 <= i < |kids| ==> CleanTree(kids[i])
    requires e.Function? ==> Plain(e.name)
    ensures CleanTree(t)
  {
    match t
    case Leaf(_) =>
    case Row(items) => RowIsClean(items, NameItems(d, e), kids);
    case Dropped(_, _) =>
    case Swapped(_, first, _, second, _) =>
      assert CleanTree(kids[0]) && CleanTree(kids[1]);
      SwappedIsClean(t);
  }

  /** Both passes on an expression: PostgreSQL's `$k` stands exactly where slot k-1 was printed. */
  lemma GeneratedExpressionReachesPostgres(e: Expr)
    requires PlainNames(e) && Guarded(Postgres, e)
    ensures Scan(Flatten(Postgres, Pieces(Shape(Postgres, e), 0)), Outside, 1) == BySlot(Pieces(Shape(Postgres, e), 0))
    ensures Marks(Pieces(Shape(Postgres, e), 0)) == Iota(0, |Slots(Shape(Postgres, e))|)
  {
    StraightIffGuarded(Postgres, e);
    ShapeIsClean(Postgres, e);
    BothPassesAgree(Shape(Postgres, e));
  }
}
