/** A generated set operation is read back. */
module SetOperationReader {
  import opened Values
  import opened Dialects
  import opened LayoutTree
  import opened SqlAst
  import opened SqlText
  import opened SqlStatements
  import opened SqlLexer
  import opened SqlReader
  import opened SqlTokens
  import opened StatementRows
  import opened ClauseReader
  import opened SelectReader

  // ---------------------------------------------------------------------------------------------
  // Set operations
  // ---------------------------------------------------------------------------------------------

  /** A set operator stands between two queries, alone but for UNION ALL. */
  function OperatorSection(op: SetOp): Section {
    match op
    case Union => Section("UNION", [])
    case UnionAll => Section("UNION", [Word("ALL")])
    case Intersect => Section("INTERSECT", [])
    case Except => Section("EXCEPT", [])
  }

  function OperationSections(d: Dialect, ops: seq<SetOpClause>): seq<Section> {
    if ops == [] then []
    else [OperatorSection(ops[0].op)] + SourceSections(d, ops[0].query) + OperationSections(d, ops[1..])
  }

  function OperationsOf(d: Dialect, ops: seq<SetOpClause>): (r: seq<(SetOp, Source)>)
    ensures |r| == |ops|
  {
    seq(|ops|, i requires 0 <= i < |ops| => (ops[i].op, SourceOf(d, ops[i].query)))
  }

  predicate OperationsOrdinary(ops: seq<SetOpClause>) {
    forall i :: 0 <= i < |ops| ==> ops[i].query.where.Some? ==> OrdinaryNames(ops[i].query.where.value)
  }

  /** A sort key of a set operation names a column without its table. */
  function SetKeyExpr(o: Order): Expr { if o.expr.Column? then Column("", o.expr.column) else o.expr }

  function SetKeyOrders(os: seq<Order>): (r: seq<Order>)
    ensures |r| == |os|
  {
    seq(|os|, i requires 0 <= i < |os| => Order(SetKeyExpr(os[i]), os[i].descending))
  }

  lemma OperatorsSpell(d: Dialect)
    ensures Spells(d, UNION, [Word("UNION")], true) && Spells(d, UNION_ALL, [Word("UNION"), Word("ALL")], true)
    ensures Spells(d, INTERSECT, [Word("INTERSECT")], true) && Spells(d, EXCEPT, [Word("EXCEPT")], true)
  {
    hide Spells;
    OneWord(d, "UNION");
    TwoWords(d, "UNION", "ALL");
    OneWord(d, "INTERSECT");
    OneWord(d, "EXCEPT");
    assert " " + "UNION" + " " == UNION && " " + "UNION" + (" " + "ALL") + " " == UNION_ALL;
    assert " " + "INTERSECT" + " " == INTERSECT && " " + "EXCEPT" + " " == EXCEPT;
  }

  lemma OperatorRow(d: Dialect, op: SetOp)
    ensures RowSpells(d, Toks([Raw(SetOpWord(op))]), Lay([OperatorSection(op)]), true)
    ensures SetOpWord(op) != "" && SetOpWord(op)[0] == ' '
  {
    hide RowSpells, Spells;
    OperatorsSpell(d);
    var s := OperatorSection(op);
    LayOne(s.head, s.body);
    assert [Word(s.head)] + s.body == (if op.UnionAll? then [Word("UNION"), Word("ALL")] else [Word(s.head)]);
    RawRow(d, SetOpWord(op), Lay([s]), true);
  }

  lemma {:induction false} OperationsSnoc(d: Dialect, ops: seq<SetOpClause>)
    requires ops != []
    ensures var last := ops[|ops| - 1];
      OperationSections(d, ops)
      == OperationSections(d, ops[..|ops| - 1]) + ([OperatorSection(last.op)] + SourceSections(d, last.query))
    decreases |ops|
  {
    hide SourceSections, OperatorSection;
    var n := |ops| - 1;
    if n == 0 {
      assert ops[1..] == [] && ops[..0] == [];
    } else {
      OperationsSnoc(d, ops[1..]);
      assert ops[1..][..n - 1] == ops[..n][1..];
      var last := [OperatorSection(ops[n].op)] + SourceSections(d, ops[n].query);
      var first := [OperatorSection(ops[0].op)] + SourceSections(d, ops[0].query);
      assert first + (OperationSections(d, ops[..n][1..]) + last) == first + OperationSections(d, ops[..n][1..]) + last;
    }
  }

  lemma {:induction false} OperationsRow(d: Dialect, ops: seq<SetOpClause>)
    requires OperationsOrdinary(ops)
    ensures RowSpells(d, OperationItems(d, ops), Lay(OperationSections(d, ops)), false)
    ensures OperationItems(d, ops) == [] ==> Lay(OperationSections(d, ops)) == []
    ensures OperationItems(d, ops) != [] ==> Starts(d, OperationItems(d, ops))
    decreases |ops|
  {
    hide RowSpells, Starts, NestedItems, OrdinaryNames, SourceSections, OperatorSection, SetOpWord, Lay;
    NoRow(d);
    LayOne("", []);
    if ops != [] {
      var n, last := |ops| - 1, ops[|ops| - 1];
      var word, query := Toks([Raw(SetOpWord(last.op))]), Toks([Raw(SELECT)]) + NestedItems(d, last.query);
      OperationsRow(d, ops[..n]);
      OperatorRow(d, last.op);
      SourceRow(d, last.query);
      RowThen(d, word, Lay([OperatorSection(last.op)]), true, query, Lay(SourceSections(d, last.query)), false);
      LayJoin([OperatorSection(last.op)], SourceSections(d, last.query));
      RawStarts(d, SetOpWord(last.op), query);
      MaybeThen(d, OperationItems(d, ops[..n]), Lay(OperationSections(d, ops[..n])), word + query,
                Lay([OperatorSection(last.op)] + SourceSections(d, last.query)));
      LayJoin(OperationSections(d, ops[..n]), [OperatorSection(last.op)] + SourceSections(d, last.query));
      OperationsSnoc(d, ops);
      assert word + query == word + Toks([Raw(SELECT)]) + NestedItems(d, last.query);
    }
  }

  lemma OperatorReads(op: SetOp, rest: seq<Section>)
    ensures ReadOperator([OperatorSection(op)] + rest) == Some(op)
    ensures Avoids([OperatorSection(op)], "WHERE")
  {
  }

  /** Neither an operator nor a condition comes next. */
  predicate EndsOperations(rest: seq<Section>) { ReadOperator(rest) == None && BeginsOther(rest, "WHERE") }

  lemma NoOperations(d: Dialect, rest: seq<Section>)
    requires EndsOperations(rest)
    ensures ReadOperations(rest) == Some((OperationsOf(d, []), rest))
  {
  }

  lemma OperationsCons(d: Dialect, ops: seq<SetOpClause>)
    requires ops != []
    ensures OperationsOf(d, ops) == [(ops[0].op, SourceOf(d, ops[0].query))] + OperationsOf(d, ops[1..])
  {
    hide SourceOf;
  }

  lemma RegroupOperation(a: seq<Section>, b: seq<Section>, c: seq<Section>, rest: seq<Section>)
    ensures a + b + c + rest == a + (b + (c + rest))
  {
  }

  /** One operator and its query, before others. */
  lemma OperationReads(d: Dialect, op: SetOpClause, after: seq<Section>, more: seq<(SetOp, Source)>, rest: seq<Section>)
    requires ReadOperations(after) == Some((more, rest)) && BeginsOther(after, "WHERE")
    ensures var ss := [OperatorSection(op.op)] + (SourceSections(d, op.query) + after);
      ReadOperations(ss) == Some(([(op.op, SourceOf(d, op.query))] + more, rest)) && BeginsOther(ss, "WHERE")
  {
    hide SourceSections, SourceOf, ReadSource, OperatorSection, ReadOperator;
    var ss := [OperatorSection(op.op)] + (SourceSections(d, op.query) + after);
    OperatorReads(op.op, SourceSections(d, op.query) + after);
    assert ss[1..] == SourceSections(d, op.query) + after;
    SourceReadsBack(d, op.query, after);
    assert ss[0] == [OperatorSection(op.op)][0];
  }

  lemma {:induction false} OperationsReadBack(d: Dialect, ops: seq<SetOpClause>, rest: seq<Section>)
    requires EndsOperations(rest)
    ensures ReadOperations(OperationSections(d, ops) + rest) == Some((OperationsOf(d, ops), rest))
    ensures BeginsOther(OperationSections(d, ops) + rest, "WHERE")
    decreases |ops|
  {
    hide SourceSections, SourceOf, ReadSource, OperatorSection, ReadOperator, ReadOperations, OperationsOf;
    if ops == [] {
      assert OperationSections(d, ops) + rest == rest;
      NoOperations(d, rest);
    } else {
      var after := OperationSections(d, ops[1..]) + rest;
      OperationsReadBack(d, ops[1..], rest);
      OperationReads(d, ops[0], after, OperationsOf(d, ops[1..]), rest);
      OperationsCons(d, ops);
      RegroupOperation([OperatorSection(ops[0].op)], SourceSections(d, ops[0].query), OperationSections(d, ops[1..]), rest);
    }
  }

  lemma {:induction false} OperationsAreProper(d: Dialect, ops: seq<SetOpClause>)
    requires OperationsOrdinary(ops)
    ensures AllProper(OperationSections(d, ops))
    decreases |ops|
  {
    hide SourceSections, OrdinaryNames, OperatorSection, Proper;
    if ops != [] {
      OperationsAreProper(d, ops[1..]);
      SourceIsProper(d, ops[0].query);
      OperatorIsProper(ops[0].op);
    }
  }

  lemma OperatorIsProper(op: SetOp)
    ensures Proper(OperatorSection(op))
  {
    hide IsHead, Solid;
    OperatorHeads();
    JoinIsNoHead();
    NothingIsSolid(false);
    OneIsSolid(Word("ALL"), false);
  }

  lemma OperatorHeads()
    ensures IsHead("UNION") && IsHead("INTERSECT") && IsHead("EXCEPT")
  {
  }

  lemma SetKeyRow(d: Dialect, o: Order)
    requires OrdinaryNames(o.expr)
    ensures RowSpells(d, SetKeyItems(d, o), KeyTokens(d, Order(SetKeyExpr(o), o.descending)), false)
  {
    hide RowSpells, Spells, Starts, ExprTokens, OrdinaryNames, Shape;
    var word, key := Toks([Raw(if o.descending then DESC else ASC)]), SetKeyExpr(o);
    DirectionSpells(d, o.descending);
    RawRow(d, if o.descending then DESC else ASC, DirectionTokens(o.descending), false);
    RawStarts(d, if o.descending then DESC else ASC, []);
    assert word + [] == word;
    if o.expr.Column? {
      NameRow(d, o.expr.column);
      ColumnIs(d, o.expr.column);
      RowThen(d, Toks([Ident(o.expr.column)]), ExprTokens(d, key), false, word, DirectionTokens(o.descending), false);
    } else {
      ExprRow(d, o.expr);
      RowThen(d, [Sub(Shape(d, o.expr))], ExprTokens(d, o.expr), false, word, DirectionTokens(o.descending), false);
    }
  }

  lemma ColumnIs(d: Dialect, column: string)
    ensures ExprTokens(d, Column("", column)) == [Name(column)]
  {
  }

  lemma {:induction false} SetKeysRow(d: Dialect, os: seq<Order>)
    requires KeysOrdinary(os)
    ensures RowSpells(d, SetKeys(d, os), Commaed(AllKeys(d, SetKeyOrders(os))), false)
    decreases |os|
  {
    hide RowSpells, KeyTokens, SetKeyItems, Commaed, OrdinaryNames, Toks;
    NoRow(d);
    NoCommas();
    if os != [] {
      var n, keys := |os| - 1, SetKeyOrders(os);
      SetKeysRow(d, os[..n]);
      SetKeyRow(d, os[n]);
      AllKeysSnoc(d, keys);
      assert keys[..n] == SetKeyOrders(os[..n]);
      CommaedSnoc(AllKeys(d, keys[..n]), KeyTokens(d, keys[n]));
      if n == 0 { assert os[..n] == [] && AllKeys(d, keys[..n]) == []; }
      NextRow(d, SetKeys(d, os[..n]), Commaed(AllKeys(d, keys[..n])), n > 0, SetKeyItems(d, os[n]), KeyTokens(d, keys[n]));
    }
  }

  function SetSections(d: Dialect, q: SetQuery): seq<Section> {
    SourceSections(d, q.base) + (OperationSections(d, q.operations) + TailSections(d, AllKeys(d, SetKeyOrders(q.orderBy)), q.limit, q.offset))
  }

  predicate SetOrdinary(q: SetQuery) {
    && (q.base.where.Some? ==> OrdinaryNames(q.base.where.value)) && OperationsOrdinary(q.operations) && KeysOrdinary(q.orderBy)
  }

  lemma SetTailRow(d: Dialect, q: SetQuery)
    requires KeysOrdinary(q.orderBy) && !Refused(d, q.limit)
    ensures var items := SetSortItems(d, q) + PagingItems(d, q.limit, q.offset);
      var ts := Lay(TailSections(d, AllKeys(d, SetKeyOrders(q.orderBy)), q.limit, q.offset));
      RowSpells(d, items, ts, false) && (items == [] ==> ts == []) && (items != [] ==> Starts(d, items))
  {
    hide RowSpells, Starts, Commaed, KeysOrdinary, SetKeys, Lay, OrderBody, PagingItems, SortItems, Toks, TailSections;
    SetKeysRow(d, q.orderBy);
    SortRow(d, SetKeys(d, q.orderBy), AllKeys(d, SetKeyOrders(q.orderBy)), q.limit, q.offset);
    TailRow(d, SetSortItems(d, q), AllKeys(d, SetKeyOrders(q.orderBy)), q.limit, q.offset);
  }

  lemma SetRow(d: Dialect, q: SetQuery)
    requires SetOrdinary(q) && !Refused(d, q.limit)
    ensures RowSpells(d, SetItems(d, q), Lay(SetSections(d, q)), false)
  {
    hide RowSpells, Starts, Lay, NestedItems, OperationItems, SetSortItems, PagingItems, Toks, SourceSections, TailSections, OperationSections,
      AllKeys, OperationsOrdinary, KeysOrdinary, OrdinaryNames, Refused;
    var body, operations := Toks([Raw(SELECT)]) + NestedItems(d, q.base), OperationItems(d, q.operations);
    var tail := SetSortItems(d, q) + PagingItems(d, q.limit, q.offset);
    var tailText := Lay(TailSections(d, AllKeys(d, SetKeyOrders(q.orderBy)), q.limit, q.offset));
    SetTailRow(d, q);
    OperationsRow(d, q.operations);
    MaybeThen(d, operations, Lay(OperationSections(d, q.operations)), tail, tailText);
    SourceRow(d, q.base);
    RowMaybe(d, body, Lay(SourceSections(d, q.base)), operations + tail, Lay(OperationSections(d, q.operations)) + tailText);
    LayJoin(OperationSections(d, q.operations), TailSections(d, AllKeys(d, SetKeyOrders(q.orderBy)), q.limit, q.offset));
    LayJoin(SourceSections(d, q.base), OperationSections(d, q.operations) + TailSections(d, AllKeys(d, SetKeyOrders(q.orderBy)), q.limit, q.offset));
    assert SetItems(d, q) == body + (operations + tail);
  }

  function SetOutline(d: Dialect, q: SetQuery): SetClauses {
    SetClauses(SourceOf(d, q.base), OperationsOf(d, q.operations),
               Tail(OrderOf(d, KeysOf(d, SetKeyOrders(q.orderBy)), q.limit, q.offset), PageOf(d, q.limit, q.offset)))
  }

  lemma SetKeysAreOrdinary(os: seq<Order>)
    requires KeysOrdinary(os)
    ensures KeysOrdinary(SetKeyOrders(os))
  {
    forall i | 0 <= i < |os| ensures OrdinaryNames(SetKeyOrders(os)[i].expr) {
      assert OrdinaryNames(Column("", if os[i].expr.Column? then os[i].expr.column else ""));
    }
  }

  lemma TailEndsOperations(d: Dialect, parts: seq<seq<Token>>, limit: Option<nat>, offset: Option<nat>)
    ensures EndsOperations(TailSections(d, parts, limit, offset))
  {
    hide PageSections, OrderBody;
    TailAvoids(d, parts, limit, offset, "UNION");
    TailAvoids(d, parts, limit, offset, "INTERSECT");
    TailAvoids(d, parts, limit, offset, "EXCEPT");
    TailAvoids(d, parts, limit, offset, "WHERE");
  }

  lemma SetSectionsReadBack(d: Dialect, q: SetQuery)
    requires SetOrdinary(q)
    ensures AllProper(SetSections(d, q)) && ReadSetOperation(Lay(SetSections(d, q))) == Some(SetOutline(d, q))
  {
    hide Solid, Lay, SourceSections, TailSections, OperationSections, ReadSource, ReadOperations, ReadTail, Sections, OperationsOrdinary,
      OrdinaryNames, KeysOrdinary, SourceOf, OperationsOf, EndsOperations, Proper, ReadKeys;
    var parts := AllKeys(d, SetKeyOrders(q.orderBy));
    var tail := TailSections(d, parts, q.limit, q.offset);
    SetKeysAreOrdinary(q.orderBy);
    KeysAreSolid(d, SetKeyOrders(q.orderBy));
    TailReadsBack(d, parts, q.limit, q.offset);
    KeysReadBack(d, SetKeyOrders(q.orderBy));
    TailEndsOperations(d, parts, q.limit, q.offset);
    OperationsReadBack(d, q.operations, tail);
    OperationsAreProper(d, q.operations);
    SourceReadsBack(d, q.base, OperationSections(d, q.operations) + tail);
    SourceIsProper(d, q.base);
    SectionsOfLay(SetSections(d, q));
  }

  /** A generated set operation is read back: every query, the operators between them, the order and the page. */
  lemma SetOperationReadsBack(d: Dialect, g: GeneratedSql, q: SetQuery)
    requires Generates(d, g, SetItems(d, q)) && SetOrdinary(q) && !Refused(d, q.limit)
    ensures ReadSetOperation(Tokenize(d, g.sql)) == Some(SetOutline(d, q))
  {
    hide RowSpells, ItemText, ItemSlots, SetItems, SetSections, ReadSetOperation, SetOutline, SetOrdinary, Lay, Tokenize;
    SetRow(d, q);
    RowTokens(d, SetItems(d, q), Lay(SetSections(d, q)));
    SetSectionsReadBack(d, q);
  }
}
