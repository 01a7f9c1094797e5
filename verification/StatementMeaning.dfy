/**
 * The expressions inside finished statements. The reader leaves them as tokens; here the parser of predicates reads
 * them with the slots the statement carries, taking for each expression as many slots as it has placeholders.
 */
module StatementMeaning {
  import opened Values
  import opened Dialects
  import opened LayoutTree
  import opened SqlAst
  import opened SqlConditions
  import opened SqlText
  import opened SqlStatements
  import opened StatementProperties
  import opened SqlLexer
  import opened SqlReader
  import opened SqlTokens
  import opened ClauseReader
  import opened SelectReader
  import opened SetOperationReader
  import opened JoinReader
  import opened UpdateReader
  import opened PredicateParser
  import opened PredicateTokens
  import PredicateText

  // ---------------------------------------------------------------------------------------------
  // Reading expressions
  // ---------------------------------------------------------------------------------------------

  function MarkCount(ts: seq<Token>): nat { if ts == [] then 0 else (if ts[0] == Sign('?') then 1 else 0) + MarkCount(ts[1..]) }

  /** Each expression with the slots of its own placeholders; all slots are used. */
  function ReadExprs(parts: seq<seq<Token>>, slots: seq<Slot>): Option<seq<Expr>> {
    if parts == [] then (if slots == [] then Some([]) else None)
    else if MarkCount(parts[0]) > |slots| then None
    else
      var n := MarkCount(parts[0]);
      match (ReadTokens(parts[0], slots[..n]), ReadExprs(parts[1..], slots[n..]))
      case (Some(e), Some(es)) => Some([e] + es)
      case _ => None
  }

  predicate AllInFragment(es: seq<Expr>) { forall i :: 0 <= i < |es| ==> InFragment(es[i]) }

  predicate AllWellPlaced(es: seq<Expr>) { forall i :: 0 <= i < |es| ==> WellPlaced(es[i]) }

  // ---------------------------------------------------------------------------------------------
  // Predicates have as many placeholders as slots
  // ---------------------------------------------------------------------------------------------

  lemma FragmentOperands(e: Expr)
    requires InFragment(e)
    ensures AllInFragment(Operands(e)) && (e.InList? ==> e.values != []) && !e.Function? && !e.DateAdd?
  {
  }

  lemma {:induction false} FragmentIsPlain(d: Dialect, e: Expr)
    requires InFragment(e)
    ensures Guarded(d, e) && OrdinaryNames(e)
    decreases e
  {
    hide InFragment;
    FragmentOperands(e);
    forall i | 0 <= i < |Operands(e)| ensures Guarded(d, Operands(e)[i]) && OrdinaryNames(Operands(e)[i]) {
      FragmentIsPlain(d, Operands(e)[i]);
    }
  }

  lemma MarkCountJoin(a: seq<Token>, b: seq<Token>)
    ensures MarkCount(a + b) == MarkCount(a) + MarkCount(b)
  {
    if a == [] {
      assert a + b == b;
    } else {
      assert (a + b)[1..] == a[1..] + b;
      MarkCountJoin(a[1..], b);
    }
  }

  lemma MarksOfPiece(p: Piece)
    requires Known(p)
    ensures MarkCount(PieceTokens(p)) == if p.Mark? then 1 else 0
  {
    var ts := PieceTokens(p);
    if |ts| == 1 {
      assert ts[1..] == [];
    } else if |ts| == 2 {
      assert ts[1..] == [ts[1]] && [ts[1]][1..] == [];
    } else {
      assert ts == [Word("IS"), Word("NOT"), Word("NULL")];
      assert ts[1..] == [Word("NOT"), Word("NULL")] && [Word("NOT"), Word("NULL")][1..] == [Word("NULL")] && [Word("NULL")][1..] == [];
      assert MarkCount([Word("NULL")]) == 0 && MarkCount([Word("NOT"), Word("NULL")]) == 0;
    }
  }

  lemma {:induction false} MarksOfPieces(ps: seq<Piece>)
    requires forall i :: 0 <= i < |ps| ==> Known(ps[i])
    ensures MarkCount(PiecesTokens(ps)) == |Marks(ps)|
    decreases |ps|
  {
    hide PieceTokens, Known;
    if ps != [] {
      MarksOfPieces(ps[1..]);
      MarksOfPiece(ps[0]);
      MarkCountJoin(PieceTokens(ps[0]), PiecesTokens(ps[1..]));
    }
  }

  lemma {:induction false} MarksErased(ps: seq<Piece>)
    ensures |Marks(Erase(ps))| == |Marks(ps)|
    decreases |ps|
  {
    if ps != [] {
      assert Erase(ps)[1..] == Erase(ps[1..]);
      MarksErased(ps[1..]);
    }
  }

  lemma TidyIsKnown(ps: seq<Piece>)
    requires Tidy(ps)
    ensures forall i :: 0 <= i < |ps| ==> Known(ps[i])
  {
  }

  lemma TokensOfFragment(d: Dialect, e: Expr)
    requires InFragment(e)
    ensures Tidy(Printed(e, Unnumbered)) && ExprTokens(d, e) == PiecesTokens(Printed(e, Unnumbered)) == Tokenize(d, ExprText(d, e, 0))
  {
    hide Tokenize, ExprTokens, ExprText, PiecesTokens, Printed, Tidy, Spells, Guarded, OrdinaryNames, Known;
    FragmentIsPlain(d, e);
    ExprSpells(d, e, 0);
    TokensAre(d, ExprText(d, e, 0), ExprTokens(d, e), false);
    TokensOfPredicate(d, e);
  }

  lemma MarksAreSlots(d: Dialect, e: Expr)
    requires InFragment(e)
    ensures MarkCount(ExprTokens(d, e)) == |ExprSlots(d, e)|
  {
    hide ExprTokens, PiecesTokens, Printed, Tidy, Known, Marks, Erase, Shape, Pieces, Slots, PredicateParser.LeafSlots, Iota, Straight, Guarded, OrdinaryNames,
      MarksAreRight, Tokenize, ExprText, Within;
    var printed := Printed(e, Unnumbered);
    TokensOfFragment(d, e);
    TidyIsKnown(printed);
    MarksOfPieces(printed);
    PredicateText.GeneratesPrinted(d, e, 0);
    ErasePrinted(e, 0);
    MarksErased(Printed(e, From(0)));
    FragmentIsPlain(d, e);
    StraightIffGuarded(d, e);
    MarksOfStraight(Shape(d, e));
    Texts(d, e, 0);
  }

  lemma MarksOfStraight(t: Tree)
    requires Straight(t)
    ensures |Marks(Pieces(t, 0))| == |Slots(t)|
  {
    MarksOfTree(t, 0);
  }

  lemma FragmentReadsBack(d: Dialect, e: Expr)
    requires InFragment(e)
    ensures ReadTokens(ExprTokens(d, e), ExprSlots(d, e)) == Some(e) <==> WellPlaced(e)
  {
    hide ExprTokens, ExprText, ExprSlots, ReadTokens, Tokenize, PiecesTokens, Printed, Tidy;
    TokensOfFragment(d, e);
    TextReadsBack(d, e);
  }

  /** All the expressions of a statement come back, in their order, exactly when they are well placed. */
  lemma {:induction false} ExpressionsReadBack(d: Dialect, es: seq<Expr>)
    requires AllInFragment(es)
    ensures ReadExprs(AllTokens(d, es), AllSlots(d, es)) == Some(es) <==> AllWellPlaced(es)
    decreases |es|
  {
    hide ExprTokens, ExprSlots, ReadTokens, InFragment, WellPlaced, MarkCount;
    if es != [] {
      var slots, rest := ExprSlots(d, es[0]), AllSlots(d, es[1..]);
      MarksAreSlots(d, es[0]);
      FragmentReadsBack(d, es[0]);
      ExpressionsReadBack(d, es[1..]);
      assert (slots + rest)[..|slots|] == slots && (slots + rest)[|slots|..] == rest;
      assert AllTokens(d, es)[1..] == AllTokens(d, es[1..]);
      assert es == [es[0]] + es[1..];
      if ReadExprs(AllTokens(d, es), AllSlots(d, es)) == Some(es) {
        var first, others := ReadTokens(ExprTokens(d, es[0]), slots).value, ReadExprs(AllTokens(d, es[1..]), rest).value;
        assert ([first] + others)[0] == first && ([first] + others)[1..] == others;
      }
    }
  }

  // ---------------------------------------------------------------------------------------------
  // The expressions among the clauses
  // ---------------------------------------------------------------------------------------------

  function Listed(o: Option<seq<Token>>): seq<seq<Token>> { if o.Some? then [o.value] else [] }

  function CteConditions(ctes: seq<(string, Source)>): seq<seq<Token>> {
    if ctes == [] then [] else CteConditions(ctes[..|ctes| - 1]) + Listed(ctes[|ctes| - 1].1.where)
  }

  function OperationConditions(ops: seq<(SetOp, Source)>): seq<seq<Token>> {
    if ops == [] then [] else OperationConditions(ops[..|ops| - 1]) + Listed(ops[|ops| - 1].1.where)
  }

  /** The sort keys that were asked for, which have a direction. */
  function KeyTexts(keys: seq<SortKey>): seq<seq<Token>> {
    if keys == [] then [] else KeyTexts(keys[..|keys| - 1]) + (if keys[|keys| - 1].descending.Some? then [keys[|keys| - 1].key] else [])
  }

  function JoinTexts(joins: seq<JoinClause>): seq<seq<Token>> {
    if joins == [] then [] else JoinTexts(joins[..|joins| - 1]) + [joins[|joins| - 1].on]
  }

  function ValueTexts(assignments: seq<(string, seq<Token>)>): seq<seq<Token>> {
    if assignments == [] then [] else ValueTexts(assignments[..|assignments| - 1]) + [assignments[|assignments| - 1].1]
  }

  function SelectParts(c: SelectClauses): seq<seq<Token>> {
    CteConditions(c.ctes) + Listed(c.source.where) + c.groupBy + Listed(c.having) + KeyTexts(c.tail.orderBy)
  }

  function SetParts(c: SetClauses): seq<seq<Token>> {
    Listed(c.base.where) + OperationConditions(c.operations) + KeyTexts(c.tail.orderBy)
  }

  function JoinParts(c: JoinClauses): seq<seq<Token>> { JoinTexts(c.joins) + Listed(c.where) + KeyTexts(c.tail.orderBy) }

  function UpdateParts(c: UpdateClauses): seq<seq<Token>> { ValueTexts(c.assignments) + Listed(c.where) }

  lemma {:induction false} TokensJoin(d: Dialect, a: seq<Expr>, b: seq<Expr>)
    ensures AllTokens(d, a + b) == AllTokens(d, a) + AllTokens(d, b)
    decreases |a|
  {
    hide ExprTokens;
    if a == [] {
      assert a + b == b;
    } else {
      assert (a + b)[1..] == a[1..] + b;
      TokensJoin(d, a[1..], b);
    }
  }

  lemma TokensOfOption(d: Dialect, e: Option<Expr>)
    ensures AllTokens(d, OptionList(e)) == Listed(WhereTokens(d, e))
  {
    hide ExprTokens;
    if e.Some? { assert [e.value][1..] == []; }
  }

  lemma {:induction false} TokensOfCtes(d: Dialect, ctes: seq<Cte>)
    ensures AllTokens(d, CteExprs(ctes)) == CteConditions(CteSources(d, ctes))
    decreases |ctes|
  {
    hide ExprTokens, AllTokens, WhereTokens;
    NoTokens(d);
    if ctes != [] {
      var n := |ctes| - 1;
      TokensOfCtes(d, ctes[..n]);
      assert CteSources(d, ctes)[..n] == CteSources(d, ctes[..n]);
      TokensOfOption(d, ctes[n].query.where);
      TokensJoin(d, CteExprs(ctes[..n]), OptionList(ctes[n].query.where));
    }
  }

  lemma NoTokens(d: Dialect)
    ensures AllTokens(d, []) == []
  {
  }

  lemma {:induction false} TokensOfOperations(d: Dialect, ops: seq<SetOpClause>)
    ensures AllTokens(d, OperationExprs(ops)) == OperationConditions(OperationsOf(d, ops))
    decreases |ops|
  {
    hide ExprTokens, AllTokens, WhereTokens;
    NoTokens(d);
    if ops != [] {
      var n := |ops| - 1;
      TokensOfOperations(d, ops[..n]);
      assert OperationsOf(d, ops)[..n] == OperationsOf(d, ops[..n]);
      TokensOfOption(d, ops[n].query.where);
      TokensJoin(d, OperationExprs(ops[..n]), OptionList(ops[n].query.where));
    }
  }

  lemma OneToken(d: Dialect, e: Expr)
    ensures AllTokens(d, [e]) == [ExprTokens(d, e)]
  {
    hide ExprTokens;
    assert [e][1..] == [];
  }

  lemma {:induction false} TokensOfSortKeys(d: Dialect, os: seq<Order>)
    ensures AllTokens(d, KeyExprs(os)) == KeyTexts(KeysOf(d, os))
    decreases |os|
  {
    hide ExprTokens, AllTokens;
    NoTokens(d);
    if os != [] {
      var n := |os| - 1;
      TokensOfSortKeys(d, os[..n]);
      assert KeysOf(d, os)[..n] == KeysOf(d, os[..n]);
      assert KeyExprs(os) == KeyExprs(os[..n]) + [os[n].expr];
      OneToken(d, os[n].expr);
      TokensJoin(d, KeyExprs(os[..n]), [os[n].expr]);
    } else {
      assert KeyExprs(os) == [] && KeysOf(d, os) == [];
    }
  }

  lemma {:induction false} TokensOfJoins(d: Dialect, joins: seq<Join>)
    ensures AllTokens(d, JoinConditions(joins)) == JoinTexts(JoinsOf(d, joins))
    decreases |joins|
  {
    hide ExprTokens, AllTokens;
    NoTokens(d);
    if joins != [] {
      var n := |joins| - 1;
      TokensOfJoins(d, joins[..n]);
      assert JoinsOf(d, joins)[..n] == JoinsOf(d, joins[..n]);
      OneToken(d, joins[n].on);
      TokensJoin(d, JoinConditions(joins[..n]), [joins[n].on]);
    }
  }

  lemma {:induction false} TokensOfAssignments(d: Dialect, assignments: seq<Assignment>)
    ensures AllTokens(d, AssignedExprs(assignments)) == ValueTexts(AssignmentsOf(d, assignments))
    decreases |assignments|
  {
    hide ExprTokens, AllTokens, AssignedColumn;
    NoTokens(d);
    if assignments != [] {
      var n := |assignments| - 1;
      TokensOfAssignments(d, assignments[..n]);
      assert AssignmentsOf(d, assignments)[..n] == AssignmentsOf(d, assignments[..n]);
      OneToken(d, assignments[n].value);
      TokensJoin(d, AssignedExprs(assignments[..n]), [assignments[n].value]);
    }
  }

  /** The order that is made up when none is asked for has no direction and no expression. */
  lemma OrderTexts(d: Dialect, os: seq<Order>, limit: Option<nat>, offset: Option<nat>)
    ensures KeyTexts(OrderOf(d, KeysOf(d, os), limit, offset)) == KeyTexts(KeysOf(d, os))
  {
    hide ExprTokens;
    if os == [] {
      var made := OrderOf(d, KeysOf(d, os), limit, offset);
      if made != [] { assert made[..|made| - 1] == []; }
    }
  }

  lemma SelectPartsAre(d: Dialect, q: SelectQuery)
    ensures SelectParts(SelectOutline(d, q)) == AllTokens(d, SelectExprs(q))
  {
    hide ExprTokens, AllTokens, CteConditions, CteSources, CteExprs, KeyTexts, KeysOf, KeyExprs, WhereTokens, Listed, OrderOf, PageOf, OptionList;
    var a, b := CteExprs(q.ctes) + OptionList(q.where), CteExprs(q.ctes) + OptionList(q.where) + q.groupBy;
    TokensOfCtes(d, q.ctes);
    TokensOfOption(d, q.where);
    TokensOfOption(d, q.having);
    TokensOfSortKeys(d, q.orderBy);
    OrderTexts(d, q.orderBy, q.limit, q.offset);
    TokensJoin(d, CteExprs(q.ctes), OptionList(q.where));
    TokensJoin(d, a, q.groupBy);
    TokensJoin(d, b, OptionList(q.having));
    TokensJoin(d, b + OptionList(q.having), KeyExprs(q.orderBy));
  }

  /** The keys of a set operation, as they are read: columns without their tables. */
  function SetExprsRead(q: SetQuery): seq<Expr> {
    OptionList(q.base.where) + OperationExprs(q.operations) + KeyExprs(SetKeyOrders(q.orderBy))
  }

  lemma SetPartsAre(d: Dialect, q: SetQuery)
    ensures SetParts(SetOutline(d, q)) == AllTokens(d, SetExprsRead(q))
  {
    hide ExprTokens, AllTokens, OperationConditions, OperationsOf, OperationExprs, KeyTexts, KeysOf, KeyExprs, WhereTokens, Listed, OrderOf, PageOf,
      OptionList, SetKeyOrders;
    TokensOfOption(d, q.base.where);
    TokensOfOperations(d, q.operations);
    TokensOfSortKeys(d, SetKeyOrders(q.orderBy));
    OrderTexts(d, SetKeyOrders(q.orderBy), q.limit, q.offset);
    TokensJoin(d, OptionList(q.base.where), OperationExprs(q.operations));
    TokensJoin(d, OptionList(q.base.where) + OperationExprs(q.operations), KeyExprs(SetKeyOrders(q.orderBy)));
  }

  lemma JoinPartsAre(d: Dialect, q: JoinQuery)
    ensures JoinParts(JoinOutline(d, q)) == AllTokens(d, JoinExprs(q))
  {
    hide ExprTokens, AllTokens, JoinTexts, JoinsOf, JoinConditions, KeyTexts, KeysOf, KeyExprs, WhereTokens, Listed, OrderOf, PageOf, OptionList,
      ColumnsOf, GroupColumns;
    TokensOfJoins(d, q.joins);
    TokensOfOption(d, q.where);
    TokensOfSortKeys(d, q.orderBy);
    OrderTexts(d, q.orderBy, q.limit, q.offset);
    TokensJoin(d, JoinConditions(q.joins), OptionList(q.where));
    TokensJoin(d, JoinConditions(q.joins) + OptionList(q.where), KeyExprs(q.orderBy));
  }

  lemma UpdatePartsAre(d: Dialect, table: string, assignments: seq<Assignment>, where: Option<Expr>)
    ensures UpdateParts(UpdateOutline(d, table, assignments, where)) == AllTokens(d, UpdateExprs(assignments, where))
  {
    hide ExprTokens, AllTokens, ValueTexts, AssignmentsOf, AssignedExprs, WhereTokens, Listed, OptionList;
    TokensOfAssignments(d, assignments);
    TokensOfOption(d, where);
    TokensJoin(d, AssignedExprs(assignments), OptionList(where));
  }

  // ---------------------------------------------------------------------------------------------
  // Fragment and ordinary names
  // ---------------------------------------------------------------------------------------------

  lemma FragmentIsOrdinary(d: Dialect, es: seq<Expr>)
    requires AllInFragment(es)
    ensures AllOrdinary(es)
  {
    hide InFragment, OrdinaryNames, Guarded;
    forall i | 0 <= i < |es| ensures OrdinaryNames(es[i]) { FragmentIsPlain(d, es[i]); }
  }

  lemma FragmentSplits(a: seq<Expr>, b: seq<Expr>)
    requires AllInFragment(a + b)
    ensures AllInFragment(a) && AllInFragment(b)
  {
    hide InFragment;
    forall i | 0 <= i < |a| ensures InFragment(a[i]) { assert (a + b)[i] == a[i]; }
    forall i | 0 <= i < |b| ensures InFragment(b[i]) { assert (a + b)[|a| + i] == b[i]; }
  }

  lemma OptionIsOrdinary(d: Dialect, e: Option<Expr>)
    requires AllInFragment(OptionList(e))
    ensures e.Some? ==> OrdinaryNames(e.value)
  {
    hide InFragment, OrdinaryNames, Guarded;
    if e.Some? {
      assert OptionList(e)[0] == e.value;
      FragmentIsPlain(d, e.value);
    }
  }

  lemma KeysAreOrdinary(d: Dialect, os: seq<Order>)
    requires AllInFragment(KeyExprs(os))
    ensures KeysOrdinary(os)
  {
    hide InFragment, OrdinaryNames, Guarded;
    forall i | 0 <= i < |os| ensures OrdinaryNames(os[i].expr) {
      assert KeyExprs(os)[i] == os[i].expr;
      FragmentIsPlain(d, os[i].expr);
    }
  }

  lemma {:induction false} CtesAreOrdinary(d: Dialect, ctes: seq<Cte>)
    requires AllInFragment(CteExprs(ctes))
    ensures CtesOrdinary(ctes)
    decreases |ctes|
  {
    hide InFragment, OrdinaryNames, AllInFragment;
    if ctes != [] {
      var n := |ctes| - 1;
      FragmentSplits(CteExprs(ctes[..n]), OptionList(ctes[n].query.where));
      CtesAreOrdinary(d, ctes[..n]);
      OptionIsOrdinary(d, ctes[n].query.where);
    }
  }

  lemma {:induction false} OperationsAreOrdinary(d: Dialect, ops: seq<SetOpClause>)
    requires AllInFragment(OperationExprs(ops))
    ensures OperationsOrdinary(ops)
    decreases |ops|
  {
    hide InFragment, OrdinaryNames, AllInFragment;
    if ops != [] {
      var n := |ops| - 1;
      FragmentSplits(OperationExprs(ops[..n]), OptionList(ops[n].query.where));
      OperationsAreOrdinary(d, ops[..n]);
      OptionIsOrdinary(d, ops[n].query.where);
    }
  }

  lemma {:induction false} JoinsAreOrdinary(d: Dialect, joins: seq<Join>)
    requires AllInFragment(JoinConditions(joins)) && forall i :: 0 <= i < |joins| ==> KnownJoin(joins[i].words)
    ensures JoinsOrdinary(joins)
    decreases |joins|
  {
    hide InFragment, OrdinaryNames, AllInFragment, KnownJoin;
    if joins != [] {
      var n := |joins| - 1;
      FragmentSplits(JoinConditions(joins[..n]), [joins[n].on]);
      JoinsAreOrdinary(d, joins[..n]);
      OneIsOrdinary(d, joins[n].on);
    }
  }

  lemma OneIsOrdinary(d: Dialect, e: Expr)
    requires AllInFragment([e])
    ensures OrdinaryNames(e)
  {
    hide InFragment, OrdinaryNames, Guarded;
    assert [e][0] == e;
    FragmentIsPlain(d, e);
  }

  lemma {:induction false} AssignmentsAreOrdinary(d: Dialect, assignments: seq<Assignment>)
    requires AllInFragment(AssignedExprs(assignments))
    ensures AssignmentsOrdinary(assignments)
    decreases |assignments|
  {
    hide InFragment, OrdinaryNames, AllInFragment;
    if assignments != [] {
      var n := |assignments| - 1;
      FragmentSplits(AssignedExprs(assignments[..n]), [assignments[n].value]);
      AssignmentsAreOrdinary(d, assignments[..n]);
      OneIsOrdinary(d, assignments[n].value);
    }
  }

  // ---------------------------------------------------------------------------------------------
  // Text and slots of a statement give back the statement
  // ---------------------------------------------------------------------------------------------

  lemma SlotsOfStatement(d: Dialect, g: GeneratedSql, items: seq<Item>, es: seq<Expr>, words: seq<string>)
    requires Generates(d, g, items) && BuiltFrom(d, items, es, words)
    ensures g.slots == AllSlots(d, es)
  {
  }

  /**
   * From the characters and the slots of a generated SELECT over predicates: its clauses are those asked for, and its
   * expressions come back exactly when they are well placed.
   */
  lemma SelectMeansItsQuery(d: Dialect, g: GeneratedSql, q: SelectQuery)
    requires Generates(d, g, SelectItems(d, q)) && AllInFragment(SelectExprs(q)) && !Refused(d, q.limit)
    ensures ReadSelect(Tokenize(d, g.sql)) == Some(SelectOutline(d, q))
    ensures ReadExprs(SelectParts(SelectOutline(d, q)), g.slots) == Some(SelectExprs(q)) <==> AllWellPlaced(SelectExprs(q))
  {
    hide Tokenize, ReadSelect, SelectOutline, SelectItems, AllInFragment, AllWellPlaced, ReadExprs, SelectParts, AllTokens, AllSlots, BuiltFrom,
      Generates, CteExprs, KeyExprs, OptionList, CtesOrdinary, AllOrdinary, KeysOrdinary, OrdinaryNames;
    var a, b := CteExprs(q.ctes) + OptionList(q.where), CteExprs(q.ctes) + OptionList(q.where) + q.groupBy;
    FragmentSplits(b + OptionList(q.having), KeyExprs(q.orderBy));
    FragmentSplits(b, OptionList(q.having));
    FragmentSplits(a, q.groupBy);
    FragmentSplits(CteExprs(q.ctes), OptionList(q.where));
    CtesAreOrdinary(d, q.ctes);
    OptionIsOrdinary(d, q.where);
    FragmentIsOrdinary(d, q.groupBy);
    OptionIsOrdinary(d, q.having);
    KeysAreOrdinary(d, q.orderBy);
    SelectReadsBack(d, g, q);
    SelectBuilt(d, q);
    SlotsOfStatement(d, g, SelectItems(d, q), SelectExprs(q), []);
    SelectPartsAre(d, q);
    ExpressionsReadBack(d, SelectExprs(q));
  }

  lemma {:induction false} ColumnKeysHaveNoSlots(d: Dialect, os: seq<Order>)
    ensures AllSlots(d, VisitedKeys(os)) == AllSlots(d, KeyExprs(SetKeyOrders(os)))
    decreases |os|
  {
    hide ExprSlots, AllSlots;
    if os != [] {
      var n := |os| - 1;
      var key := SetKeyExpr(os[n]);
      ColumnKeysHaveNoSlots(d, os[..n]);
      assert KeyExprs(SetKeyOrders(os)) == KeyExprs(SetKeyOrders(os[..n])) + [key];
      AllSlotsAppend(d, KeyExprs(SetKeyOrders(os[..n])), [key]);
      SlotsOfOne(d, key);
      if os[n].expr.Column? {
        FixedTexts(d, key, 0);
        assert VisitedKeys(os) == VisitedKeys(os[..n]);
      } else {
        AllSlotsAppend(d, VisitedKeys(os[..n]), [os[n].expr]);
      }
    } else {
      assert KeyExprs(SetKeyOrders(os)) == [];
    }
  }

  lemma SetSlots(d: Dialect, q: SetQuery)
    ensures AllSlots(d, SetExprs(q)) == AllSlots(d, SetExprsRead(q))
  {
    hide AllSlots, OptionList, OperationExprs, VisitedKeys, KeyExprs, SetKeyOrders;
    var front := OptionList(q.base.where) + OperationExprs(q.operations);
    ColumnKeysHaveNoSlots(d, q.orderBy);
    AllSlotsAppend(d, front, VisitedKeys(q.orderBy));
    AllSlotsAppend(d, front, KeyExprs(SetKeyOrders(q.orderBy)));
  }

  lemma SetKeysInFragment(d: Dialect, os: seq<Order>)
    requires AllInFragment(KeyExprs(SetKeyOrders(os)))
    ensures KeysOrdinary(os)
  {
    hide InFragment, Guarded;
    forall i | 0 <= i < |os| ensures OrdinaryNames(os[i].expr) {
      assert KeyExprs(SetKeyOrders(os))[i] == SetKeyExpr(os[i]);
      FragmentIsPlain(d, SetKeyExpr(os[i]));
    }
  }

  /** The same for a set operation, whose sort keys are read without tables. */
  lemma SetOperationMeansItsQuery(d: Dialect, g: GeneratedSql, q: SetQuery)
    requires Generates(d, g, SetItems(d, q)) && AllInFragment(SetExprsRead(q)) && !Refused(d, q.limit)
    ensures ReadSetOperation(Tokenize(d, g.sql)) == Some(SetOutline(d, q))
    ensures ReadExprs(SetParts(SetOutline(d, q)), g.slots) == Some(SetExprsRead(q)) <==> AllWellPlaced(SetExprsRead(q))
  {
    hide Tokenize, ReadSetOperation, SetOutline, SetItems, AllInFragment, AllWellPlaced, ReadExprs, SetParts, AllTokens, AllSlots, BuiltFrom,
      Generates, OperationExprs, KeyExprs, OptionList, OperationsOrdinary, KeysOrdinary, OrdinaryNames, SetKeyOrders;
    var front := OptionList(q.base.where) + OperationExprs(q.operations);
    FragmentSplits(front, KeyExprs(SetKeyOrders(q.orderBy)));
    FragmentSplits(OptionList(q.base.where), OperationExprs(q.operations));
    OptionIsOrdinary(d, q.base.where);
    OperationsAreOrdinary(d, q.operations);
    SetKeysInFragment(d, q.orderBy);
    SetOperationReadsBack(d, g, q);
    SetBuilt(d, q);
    SlotsOfStatement(d, g, SetItems(d, q), SetExprs(q), []);
    SetSlots(d, q);
    SetPartsAre(d, q);
    ExpressionsReadBack(d, SetExprsRead(q));
  }

  /** The same for a SELECT with joins. */
  lemma JoinMeansItsQuery(d: Dialect, g: GeneratedSql, q: JoinQuery)
    requires Generates(d, g, JoinedItems(d, q)) && AllInFragment(JoinExprs(q)) && !Refused(d, q.limit)
    requires forall i :: 0 <= i < |q.joins| ==> KnownJoin(q.joins[i].words)
    ensures ReadJoinedSelect(Tokenize(d, g.sql)) == Some(JoinOutline(d, q))
    ensures ReadExprs(JoinParts(JoinOutline(d, q)), g.slots) == Some(JoinExprs(q)) <==> AllWellPlaced(JoinExprs(q))
  {
    hide Tokenize, ReadJoinedSelect, JoinOutline, JoinedItems, AllInFragment, AllWellPlaced, ReadExprs, JoinParts, AllTokens, AllSlots, BuiltFrom,
      Generates, JoinConditions, KeyExprs, OptionList, JoinsOrdinary, KeysOrdinary, OrdinaryNames, KnownJoin;
    FragmentSplits(JoinConditions(q.joins) + OptionList(q.where), KeyExprs(q.orderBy));
    FragmentSplits(JoinConditions(q.joins), OptionList(q.where));
    JoinsAreOrdinary(d, q.joins);
    OptionIsOrdinary(d, q.where);
    KeysAreOrdinary(d, q.orderBy);
    JoinReadsBack(d, g, q);
    JoinedBuilt(d, q);
    SlotsOfStatement(d, g, JoinedItems(d, q), JoinExprs(q), JoinWords(q.joins));
    JoinPartsAre(d, q);
    ExpressionsReadBack(d, JoinExprs(q));
  }

  /** The same for an UPDATE. */
  lemma UpdateMeansItsQuery(d: Dialect, g: GeneratedSql, table: string, assignments: seq<Assignment>, where: Option<Expr>)
    requires Generates(d, g, UpdateItems(d, table, assignments, where)) && AllInFragment(UpdateExprs(assignments, where))
    ensures ReadUpdate(Tokenize(d, g.sql)) == Some(UpdateOutline(d, table, assignments, where))
    ensures ReadExprs(UpdateParts(UpdateOutline(d, table, assignments, where)), g.slots) == Some(UpdateExprs(assignments, where))
       <==> AllWellPlaced(UpdateExprs(assignments, where))
  {
    hide Tokenize, ReadUpdate, UpdateOutline, UpdateItems, AllInFragment, AllWellPlaced, ReadExprs, UpdateParts, AllTokens, AllSlots, BuiltFrom,
      Generates, AssignedExprs, OptionList, AssignmentsOrdinary, OrdinaryNames;
    FragmentSplits(AssignedExprs(assignments), OptionList(where));
    AssignmentsAreOrdinary(d, assignments);
    OptionIsOrdinary(d, where);
    UpdateReadsBack(d, g, table, assignments, where);
    UpdateBuilt(d, table, assignments, where);
    SlotsOfStatement(d, g, UpdateItems(d, table, assignments, where), UpdateExprs(assignments, where), []);
    UpdatePartsAre(d, table, assignments, where);
    ExpressionsReadBack(d, UpdateExprs(assignments, where));
  }
}
