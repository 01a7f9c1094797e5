/** A generated SELECT is read back: every clause, from the characters of the finished text. */
module SelectReader {
  import opened Values
  import opened Dialects
  import opened LayoutTree
  import opened SqlAst
  import opened SqlText
  import opened SqlStatements
  import opened SqlLexer
  import opened SqlReader
  import opened SqlTokens
  import opened StatementRows
  import opened ClauseReader
  import PredicateTokens

  // ---------------------------------------------------------------------------------------------
  // SELECT
  // ---------------------------------------------------------------------------------------------

  function CteTokens(d: Dialect, cte: Cte): seq<Token> {
    [Name(cte.name), Word("AS")] + InParentheses(QueryTokens(d, cte.query, [Sign('*')]))
  }

  function AllCtes(d: Dialect, ctes: seq<Cte>): (r: seq<seq<Token>>)
    ensures |r| == |ctes|
  {
    seq(|ctes|, i requires 0 <= i < |ctes| => CteTokens(d, ctes[i]))
  }

  function CteSources(d: Dialect, ctes: seq<Cte>): (r: seq<(string, Source)>)
    ensures |r| == |ctes|
  {
    seq(|ctes|, i requires 0 <= i < |ctes| => (ctes[i].name, SourceOf(d, ctes[i].query)))
  }

  predicate CtesOrdinary(ctes: seq<Cte>) {
    forall i :: 0 <= i < |ctes| ==> ctes[i].query.where.Some? ==> OrdinaryNames(ctes[i].query.where.value)
  }

  lemma CteReadsBack(d: Dialect, cte: Cte)
    requires cte.query.where.Some? ==> OrdinaryNames(cte.query.where.value)
    ensures ReadCte(CteTokens(d, cte)) == Some((cte.name, SourceOf(d, cte.query)))
  {
    hide Sections, QueryTokens, ReadSource, OrdinaryNames, SourceSections;
    var ts, body := CteTokens(d, cte), QueryTokens(d, cte.query, [Sign('*')]);
    assert |ts| == |body| + 4 && ts[0] == Name(cte.name) && ts[1] == Word("AS") && ts[2] == Sign('(') && ts[|ts| - 1] == Sign(')');
    assert ts[3..|ts| - 1] == body;
    SourceText(d, cte.query);
    SourceIsProper(d, cte.query);
    SectionsOfLay(SourceSections(d, cte.query));
    SourceReadsBack(d, cte.query, []);
    assert SourceSections(d, cte.query) + [] == SourceSections(d, cte.query);
  }

  lemma {:induction false} CtesReadBack(d: Dialect, ctes: seq<Cte>)
    requires CtesOrdinary(ctes)
    ensures ReadCtes(AllCtes(d, ctes)) == Some(CteSources(d, ctes))
    decreases |ctes|
  {
    hide ReadCte, CteTokens, SourceOf, OrdinaryNames;
    if ctes != [] {
      CteReadsBack(d, ctes[0]);
      assert AllCtes(d, ctes)[1..] == AllCtes(d, ctes[1..]);
      CtesReadBack(d, ctes[1..]);
      assert CteSources(d, ctes) == [(ctes[0].name, SourceOf(d, ctes[0].query))] + CteSources(d, ctes[1..]);
    }
  }

  lemma CteIsSolid(d: Dialect, cte: Cte)
    requires cte.query.where.Some? ==> OrdinaryNames(cte.query.where.value)
    ensures Solid(CteTokens(d, cte), true)
  {
    hide Solid, Nested, QueryTokens, OrdinaryNames, IsHead, ExprTokens, InParentheses;
    if cte.query.where.Some? { ExprIsSolid(d, cte.query.where.value); }
    StarIsFlat();
    QueryNests(d, cte.query, [Sign('*')]);
    DistinctIsNoHead();
    OneIsSolid(Name(cte.name), true);
    CallIsSolid("AS", QueryTokens(d, cte.query, [Sign('*')]));
    SolidJoin([Name(cte.name)], [Word("AS")] + InParentheses(QueryTokens(d, cte.query, [Sign('*')])), true);
    var inner := InParentheses(QueryTokens(d, cte.query, [Sign('*')]));
    assert [Name(cte.name)] + ([Word("AS")] + inner) == [Name(cte.name), Word("AS")] + inner;
  }

  lemma CtesAreSolid(d: Dialect, ctes: seq<Cte>)
    requires CtesOrdinary(ctes)
    ensures AllSolid(AllCtes(d, ctes))
  {
    hide Solid, CteTokens, OrdinaryNames;
    forall i | 0 <= i < |ctes| ensures Solid(AllCtes(d, ctes)[i], true) { CteIsSolid(d, ctes[i]); }
  }

  lemma AsSelectSpells(d: Dialect)
    ensures Spells(d, AS_SELECT, [Word("AS"), Sign('('), Word("SELECT")], true)
  {
    hide Spells;
    OneWord(d, "AS");
    SelectOpening(d, " " + "AS" + " ", [Word("AS")]);
    assert " " + "AS" + " " + "(SELECT " == AS_SELECT;
    assert [Word("AS")] + [Sign('(')] + [Word("SELECT")] == [Word("AS"), Sign('('), Word("SELECT")];
  }

  lemma CloseRow(d: Dialect)
    ensures RowSpells(d, Toks([RParen]), [Sign(')')], true) && Starts(d, Toks([RParen]))
  {
    Parentheses(d);
    WordRow(d, RParen, [Sign(')')], true);
  }

  lemma CteRow(d: Dialect, cte: Cte)
    requires cte.query.where.Some? ==> OrdinaryNames(cte.query.where.value)
    ensures RowSpells(d, CteItem(d, cte), CteTokens(d, cte), false)
  {
    hide RowSpells, Spells, Starts, NestedItems, HeadTokens, OrdinaryNames, QueryTokens, WhereTokens;
    var body := HeadTokens(cte.query, [Sign('*')]) + [Word("FROM"), Name(cte.query.table)] + Lay(Clause("WHERE", WhereTokens(d, cte.query.where)));
    var open := [Word("AS"), Sign('('), Word("SELECT")];
    NameRow(d, cte.name);
    AsSelectSpells(d);
    RawRow(d, AS_SELECT, open, true);
    RawStarts(d, AS_SELECT, []);
    assert Toks([Raw(AS_SELECT)]) + [] == Toks([Raw(AS_SELECT)]);
    RowThen(d, Toks([Ident(cte.name)]), [Name(cte.name)], false, Toks([Raw(AS_SELECT)]), open, true);
    NestedRow(d, cte.query);
    RowThen(d, Toks([Ident(cte.name)]) + Toks([Raw(AS_SELECT)]), [Name(cte.name)] + open, true, NestedItems(d, cte.query), body, false);
    CloseRow(d);
    RowThen(d, Toks([Ident(cte.name)]) + Toks([Raw(AS_SELECT)]) + NestedItems(d, cte.query), [Name(cte.name)] + open + body, false,
            Toks([RParen]), [Sign(')')], true);
    SourceText(d, cte.query);
    assert [Name(cte.name)] + open + body + [Sign(')')] == CteTokens(d, cte);
    RowLoosely(d, CteItem(d, cte), CteTokens(d, cte));
  }

  /** A list row grows by a comma, if one is needed, and what comes next. */
  lemma NextRow(d: Dialect, front: seq<Item>, tf: seq<Token>, needed: bool, item: seq<Item>, ti: seq<Token>)
    requires RowSpells(d, front, tf, false) && RowSpells(d, item, ti, false) && (!needed ==> front == [] && tf == [])
    ensures RowSpells(d, front + Toks(if needed then [Comma] else []) + item, tf + (if needed then [Sign(',')] else []) + ti, false)
  {
    hide RowSpells, Starts;
    NoToks();
    if needed {
      CommaRow(d);
      RowThen(d, front, tf, false, Toks([Comma]), [Sign(',')], true);
      RowThen(d, front + Toks([Comma]), tf + [Sign(',')], true, item, ti, false);
    } else {
      assert front + [] + item == item && tf + [] + ti == ti;
    }
  }

  lemma CommaRow(d: Dialect)
    ensures RowSpells(d, Toks([Comma]), [Sign(',')], true) && Starts(d, Toks([Comma]))
  {
    Parentheses(d);
    PredicateTokens.CommaSpells(d);
    WordRow(d, Comma, [Sign(',')], true);
  }

  lemma {:induction false} CtesRow(d: Dialect, ctes: seq<Cte>)
    requires CtesOrdinary(ctes)
    ensures RowSpells(d, CteItems(d, ctes), Commaed(AllCtes(d, ctes)), false)
    decreases |ctes|
  {
    hide RowSpells, CteTokens, CteItem, Commaed, OrdinaryNames, Toks;
    NoRow(d);
    NoCommas();
    if ctes != [] {
      var n := |ctes| - 1;
      CtesRow(d, ctes[..n]);
      CteRow(d, ctes[n]);
      assert AllCtes(d, ctes) == AllCtes(d, ctes[..n]) + [CteTokens(d, ctes[n])];
      CommaedSnoc(AllCtes(d, ctes[..n]), CteTokens(d, ctes[n]));
      if n == 0 { assert ctes[..n] == [] && AllCtes(d, ctes[..n]) == []; }
      NextRow(d, CteItems(d, ctes[..n]), Commaed(AllCtes(d, ctes[..n])), n > 0, CteItem(d, ctes[n]), CteTokens(d, ctes[n]));
    } else {
      assert AllCtes(d, ctes) == [];
    }
  }

  lemma NoCommas()
    ensures Commaed([]) == []
  {
  }

  function WithBody(d: Dialect, ctes: seq<Cte>): Option<seq<Token>> { if ctes == [] then None else Some(Commaed(AllCtes(d, ctes))) }

  lemma WithRow(d: Dialect, ctes: seq<Cte>)
    requires CtesOrdinary(ctes)
    ensures RowSpells(d, WithItems(d, ctes), Lay(Clause("WITH", WithBody(d, ctes))), true)
  {
    hide RowSpells, Spells, Starts, CteItems, Commaed, AllCtes, CtesOrdinary, Toks;
    NoRow(d);
    LayOne("WITH", Commaed(AllCtes(d, ctes)));
    if ctes != [] {
      OneWord(d, "WITH");
      assert "WITH" + " " == WITH;
      RawRow(d, WITH, [Word("WITH")], true);
      CtesRow(d, ctes);
      RowThen(d, Toks([Raw(WITH)]), [Word("WITH")], true, CteItems(d, ctes), Commaed(AllCtes(d, ctes)), false);
      SpellsBlank(d);
      RawRow(d, SPACE, [], true);
      RawStarts(d, SPACE, []);
      assert Toks([Raw(SPACE)]) + [] == Toks([Raw(SPACE)]);
      RowThen(d, Toks([Raw(WITH)]) + CteItems(d, ctes), [Word("WITH")] + Commaed(AllCtes(d, ctes)), false, Toks([Raw(SPACE)]), [], true);
      assert [Word("WITH")] + Commaed(AllCtes(d, ctes)) + [] == [Word("WITH")] + Commaed(AllCtes(d, ctes));
    }
  }

  lemma GroupRow(d: Dialect, es: seq<Expr>)
    requires AllOrdinary(es)
    ensures RowSpells(d, GroupItems(d, es), Lay(Clause("GROUP", ByBody(AllTokens(d, es)))), false)
    ensures GroupItems(d, es) == [] ==> Lay(Clause("GROUP", ByBody(AllTokens(d, es)))) == []
    ensures GroupItems(d, es) != [] ==> Starts(d, GroupItems(d, es))
  {
    hide RowSpells, Spells, Starts, Commaed, AllTokens, ListItems, AllOrdinary, Toks;
    NoRow(d);
    LayOne("GROUP", []);
    if es != [] {
      OrderWords(d);
      ListOfRow(d, es);
      HeadedRow(d, GROUP_BY, [Word("GROUP"), Word("BY")], ListItems(ShapesOf(d, es)), Commaed(AllTokens(d, es)));
      LayBy("GROUP", AllTokens(d, es));
    }
  }

  function SelectSections(d: Dialect, q: SelectQuery): seq<Section> {
    Clause("WITH", WithBody(d, q.ctes))
    + (SourceSections(d, Select(q.table, q.columns, q.where, q.distinct))
       + (Clause("GROUP", ByBody(AllTokens(d, q.groupBy)))
          + (Clause("HAVING", WhereTokens(d, q.having)) + TailSections(d, AllKeys(d, q.orderBy), q.limit, q.offset))))
  }

  predicate SelectOrdinary(q: SelectQuery) {
    && CtesOrdinary(q.ctes) && (q.where.Some? ==> OrdinaryNames(q.where.value)) && AllOrdinary(q.groupBy)
    && (q.having.Some? ==> OrdinaryNames(q.having.value)) && KeysOrdinary(q.orderBy)
  }

  lemma OrderRow(d: Dialect, os: seq<Order>, limit: Option<nat>, offset: Option<nat>)
    requires KeysOrdinary(os) && !Refused(d, limit)
    ensures var items := SortItems(d, os, limit, offset) + PagingItems(d, limit, offset);
      var ts := Lay(TailSections(d, AllKeys(d, os), limit, offset));
      RowSpells(d, items, ts, false) && (items == [] ==> ts == []) && (items != [] ==> Starts(d, items))
  {
    hide RowSpells, Starts, Commaed, KeysOrdinary, OrderItems, Lay, OrderBody, PagingItems, PrintsOffset, Toks, TailSections;
    KeysRow(d, os);
    SortRow(d, OrderItems(KeyShapes(d, os), os), AllKeys(d, os), limit, offset);
    TailRow(d, SortItems(d, os, limit, offset), AllKeys(d, os), limit, offset);
  }

  /** Two rows after another, the first of which may be missing. */
  lemma MaybeThen(d: Dialect, a: seq<Item>, ta: seq<Token>, b: seq<Item>, tb: seq<Token>)
    requires RowSpells(d, a, ta, false) && RowSpells(d, b, tb, false)
    requires (a == [] ==> ta == []) && (a != [] ==> Starts(d, a)) && (b == [] ==> tb == []) && (b != [] ==> Starts(d, b))
    ensures RowSpells(d, a + b, ta + tb, false) && (a + b == [] ==> ta + tb == []) && (a + b != [] ==> Starts(d, a + b))
  {
    hide RowSpells, LexemeText, BreakChar;
    RowMaybe(d, a, ta, b, tb);
    if a == [] { assert a + b == b && ta + tb == tb; }
  }

  lemma SelectRow(d: Dialect, q: SelectQuery)
    requires SelectOrdinary(q) && !Refused(d, q.limit)
    ensures RowSpells(d, SelectItems(d, q), Lay(SelectSections(d, q)), false)
  {
    hide RowSpells, Starts, Lay, WithItems, NestedItems, GroupItems, ClauseItems, SortItems, PagingItems, Toks, SourceSections, TailSections,
      ByBody, WithBody, AllTokens, AllKeys, WhereTokens, CtesOrdinary, AllOrdinary, KeysOrdinary, OrdinaryNames, Refused;
    var source := Select(q.table, q.columns, q.where, q.distinct);
    var tail := SortItems(d, q.orderBy, q.limit, q.offset) + PagingItems(d, q.limit, q.offset);
    var tailText := Lay(TailSections(d, AllKeys(d, q.orderBy), q.limit, q.offset));
    var having, havingText := ClauseItems(d, HAVING, q.having), Lay(Clause("HAVING", WhereTokens(d, q.having)));
    var group, groupText := GroupItems(d, q.groupBy), Lay(Clause("GROUP", ByBody(AllTokens(d, q.groupBy))));
    OrderRow(d, q.orderBy, q.limit, q.offset);
    WhereWord();
    ClauseRow(d, HAVING, "HAVING", q.having);
    NoClause(d, HAVING, "HAVING", q.having);
    MaybeThen(d, having, havingText, tail, tailText);
    GroupRow(d, q.groupBy);
    MaybeThen(d, group, groupText, having + tail, havingText + tailText);
    SourceRow(d, source);
    var body, bodyText := Toks([Raw(SELECT)]) + NestedItems(d, source), Lay(SourceSections(d, source));
    RowMaybe(d, body, bodyText, group + (having + tail), groupText + (havingText + tailText));
    WithRow(d, q.ctes);
    RowThen(d, WithItems(d, q.ctes), Lay(Clause("WITH", WithBody(d, q.ctes))), true,
            body + (group + (having + tail)), bodyText + (groupText + (havingText + tailText)), false);
    SelectParts(d, q);
    LayJoin(Clause("HAVING", WhereTokens(d, q.having)), TailSections(d, AllKeys(d, q.orderBy), q.limit, q.offset));
    LayFour(Clause("WITH", WithBody(d, q.ctes)), SourceSections(d, source), Clause("GROUP", ByBody(AllTokens(d, q.groupBy))),
            Clause("HAVING", WhereTokens(d, q.having)) + TailSections(d, AllKeys(d, q.orderBy), q.limit, q.offset));
  }

  lemma SelectParts(d: Dialect, q: SelectQuery)
    ensures SelectItems(d, q)
         == WithItems(d, q.ctes)
            + ((Toks([Raw(SELECT)]) + NestedItems(d, Select(q.table, q.columns, q.where, q.distinct)))
               + (GroupItems(d, q.groupBy)
                  + (ClauseItems(d, HAVING, q.having) + (SortItems(d, q.orderBy, q.limit, q.offset) + PagingItems(d, q.limit, q.offset)))))
  {
    hide WithItems, NestedItems, GroupItems, ClauseItems, SortItems, PagingItems, Toks;
  }

  lemma LayFour(a: seq<Section>, b: seq<Section>, c: seq<Section>, x: seq<Section>)
    ensures Lay(a + (b + (c + x))) == Lay(a) + (Lay(b) + (Lay(c) + Lay(x)))
  {
    hide Lay;
    LayJoin(a, b + (c + x));
    LayJoin(b, c + x);
    LayJoin(c, x);
  }

  /** The clauses a caller asks for. */
  function SelectOutline(d: Dialect, q: SelectQuery): SelectClauses {
    SelectClauses(CteSources(d, q.ctes), SourceOf(d, Select(q.table, q.columns, q.where, q.distinct)), AllTokens(d, q.groupBy),
                  WhereTokens(d, q.having), Tail(OrderOf(d, KeysOf(d, q.orderBy), q.limit, q.offset), PageOf(d, q.limit, q.offset)))
  }

  lemma KeysReadBack(d: Dialect, os: seq<Order>)
    ensures ReadKeys(AllKeys(d, os)) == KeysOf(d, os)
  {
    hide ExprTokens;
    TokensOfKeys(d, os);
    forall i | 0 <= i < |os| ensures ReadKey(AllKeys(d, os)[i]) == SortKey(ExprTokens(d, os[i].expr), Some(os[i].descending)) {
      var x := ExprTokens(d, os[i].expr);
      assert AllKeys(d, os)[i] == x + DirectionTokens(os[i].descending);
      assert (x + DirectionTokens(os[i].descending))[..|x|] == x;
    }
  }

  lemma GroupingReadsBack(d: Dialect, q: SelectQuery)
    requires SelectOrdinary(q)
    ensures var ss := Clause("GROUP", ByBody(AllTokens(d, q.groupBy)))
                      + (Clause("HAVING", WhereTokens(d, q.having)) + TailSections(d, AllKeys(d, q.orderBy), q.limit, q.offset));
      && ReadGrouping(CteSources(d, q.ctes), SourceOf(d, Select(q.table, q.columns, q.where, q.distinct)), ss) == Some(SelectOutline(d, q))
      && AllProper(ss) && Avoids(ss, "WHERE")
  {
    hide Solid, ByBody, ReadBy, ReadTail, TailSections, AllTokens, AllKeys, WhereTokens, ReadKeys, CtesOrdinary, OrdinaryNames, AllOrdinary,
      KeysOrdinary, IsHead, SourceOf, CteSources;
    var tail := TailSections(d, AllKeys(d, q.orderBy), q.limit, q.offset);
    var having := Clause("HAVING", WhereTokens(d, q.having));
    AllAreSolid(d, q.groupBy);
    KeysAreSolid(d, q.orderBy);
    ByReadsBack(AllTokens(d, q.groupBy));
    TailReadsBack(d, AllKeys(d, q.orderBy), q.limit, q.offset);
    KeysReadBack(d, q.orderBy);
    TailAvoids(d, AllKeys(d, q.orderBy), q.limit, q.offset, "GROUP");
    TailAvoids(d, AllKeys(d, q.orderBy), q.limit, q.offset, "HAVING");
    TailAvoids(d, AllKeys(d, q.orderBy), q.limit, q.offset, "WHERE");
    AvoidsJoin(having, tail, "GROUP");
    TakeClause("GROUP", ByBody(AllTokens(d, q.groupBy)), having + tail);
    TakeClause("HAVING", WhereTokens(d, q.having), tail);
    QueryHeads();
    HavingIsSolid(d, q.having);
    ByOfParts(AllTokens(d, q.groupBy));
  }

  lemma ByOfParts(parts: seq<seq<Token>>)
    ensures ByBody(parts).Some? <==> parts != []
  {
  }

  lemma HavingIsSolid(d: Dialect, e: Option<Expr>)
    requires e.Some? ==> OrdinaryNames(e.value)
    ensures WhereTokens(d, e).Some? ==> Solid(WhereTokens(d, e).value, false)
  {
    hide Solid, ExprTokens, OrdinaryNames;
    if e.Some? {
      ExprIsSolid(d, e.value);
      SolidInLists(ExprTokens(d, e.value));
    }
  }

  lemma SelectSectionsReadBack(d: Dialect, q: SelectQuery)
    requires SelectOrdinary(q)
    ensures AllProper(SelectSections(d, q)) && ReadSelect(Lay(SelectSections(d, q))) == Some(SelectOutline(d, q))
  {
    hide Solid, Lay, SourceSections, TailSections, ByBody, ReadSource, ReadGrouping, ReadCtes, SplitCommas, Sections, CtesOrdinary, OrdinaryNames,
      AllOrdinary, KeysOrdinary, IsHead, SourceOf, CteSources, SelectOutline, AllCtes, Commaed, WhereTokens;
    var source := Select(q.table, q.columns, q.where, q.distinct);
    var rest := Clause("GROUP", ByBody(AllTokens(d, q.groupBy)))
                + (Clause("HAVING", WhereTokens(d, q.having)) + TailSections(d, AllKeys(d, q.orderBy), q.limit, q.offset));
    GroupingReadsBack(d, q);
    SourceReadsBack(d, source, rest);
    SourceIsProper(d, source);
    SourceBegins(d, source, rest);
    TakeClause("WITH", WithBody(d, q.ctes), SourceSections(d, source) + rest);
    CtesReadBack(d, q.ctes);
    CtesAreSolid(d, q.ctes);
    QueryHeads();
    if q.ctes != [] { SplitOfCommaed(AllCtes(d, q.ctes)); } else { NoSources(d); }
    SectionsOfLay(SelectSections(d, q));
  }

  lemma NoSources(d: Dialect)
    ensures CteSources(d, []) == []
  {
  }

  lemma SourceBegins(d: Dialect, q: Select, rest: seq<Section>)
    ensures BeginsOther(SourceSections(d, q) + rest, "WITH")
  {
  }

  /**
   * A generated SELECT is read back as the query it was generated from: its common table expressions, DISTINCT, columns,
   * table, conditions, groups, sort keys with their directions, limit and offset.
   */
  lemma SelectReadsBack(d: Dialect, g: GeneratedSql, q: SelectQuery)
    requires Generates(d, g, SelectItems(d, q)) && SelectOrdinary(q) && !Refused(d, q.limit)
    ensures ReadSelect(Tokenize(d, g.sql)) == Some(SelectOutline(d, q))
  {
    hide RowSpells, ItemText, ItemSlots, SelectItems, SelectSections, ReadSelect, SelectOutline, SelectOrdinary, Lay, Tokenize;
    SelectRow(d, q);
    RowTokens(d, SelectItems(d, q), Lay(SelectSections(d, q)));
    SelectSectionsReadBack(d, q);
  }
}
