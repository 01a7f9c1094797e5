/** The clauses statements share are read back: the query itself, ORDER BY, and the page. */
module ClauseReader {
  import opened Values
  import opened Dialects
  import opened LayoutTree
  import opened SqlAst
  import opened SqlText
  import opened SqlStatements
  import opened SqlLexer
  import opened SqlReader
  import opened SqlTokens
  import opened StatementRows
  import Decimal

  // Queries
  // ---------------------------------------------------------------------------------------------

  function SourceOf(d: Dialect, q: Select): Source { Source(q.distinct, q.columns, q.table, WhereTokens(d, q.where)) }

  function SourceSections(d: Dialect, q: Select): seq<Section> {
    [Section("SELECT", HeadTokens(q, [Sign('*')])), Section("FROM", [Name(q.table)])] + Clause("WHERE", WhereTokens(d, q.where))
  }

  lemma SourceText(d: Dialect, q: Select)
    ensures Lay(SourceSections(d, q))
         == [Word("SELECT")] + (HeadTokens(q, [Sign('*')]) + [Word("FROM"), Name(q.table)] + Lay(Clause("WHERE", WhereTokens(d, q.where))))
    ensures Lay(SourceSections(d, q)) == QueryTokens(d, q, [Sign('*')])
  {
    hide HeadTokens, ExprTokens;
    var head, where := HeadTokens(q, [Sign('*')]), Clause("WHERE", WhereTokens(d, q.where));
    LayJoin([Section("SELECT", head)], [Section("FROM", [Name(q.table)])] + where);
    LayJoin([Section("FROM", [Name(q.table)])], where);
    LayOne("SELECT", head);
    LayOne("FROM", [Name(q.table)]);
    assert SourceSections(d, q) == [Section("SELECT", head)] + ([Section("FROM", [Name(q.table)])] + where);
    assert [Word("FROM")] + [Name(q.table)] == [Word("FROM"), Name(q.table)];
    Regroup([Word("SELECT")], head, [Word("FROM"), Name(q.table)], Lay(where));
    QueryIs(d, q, [Sign('*')]);
    if q.where.Some? { LayOne("WHERE", ExprTokens(d, q.where.value)); } else { LayOne("WHERE", []); }
  }

  lemma Regroup(a: seq<Token>, b: seq<Token>, c: seq<Token>, x: seq<Token>)
    ensures a + b + (c + x) == a + (b + c + x)
  {
  }

  lemma NestedRow(d: Dialect, q: Select)
    requires q.where.Some? ==> OrdinaryNames(q.where.value)
    ensures RowSpells(d, NestedItems(d, q), HeadTokens(q, [Sign('*')]) + [Word("FROM"), Name(q.table)] + Lay(Clause("WHERE", WhereTokens(d, q.where))), false)
  {
    hide RowSpells, Starts, HeadTokens, SelectHead, LexText, OrdinaryNames, ClauseItems;
    StarSpells(d);
    HeadSpells(d, q, STAR, [Sign('*')]);
    WordsRow(d, SelectHead(q, STAR), HeadTokens(q, [Sign('*')]) + [Word("FROM"), Name(q.table)], false);
    WhereWord();
    ClauseRow(d, WHERE, "WHERE", q.where);
    NoClause(d, WHERE, "WHERE", q.where);
    RowMaybe(d, Toks(SelectHead(q, STAR)), HeadTokens(q, [Sign('*')]) + [Word("FROM"), Name(q.table)],
             ClauseItems(d, WHERE, q.where), Lay(Clause("WHERE", WhereTokens(d, q.where))));
  }

  lemma WhereWord()
    ensures IsWord("WHERE") && WHERE == " " + "WHERE" + " "
    ensures IsWord("HAVING") && HAVING == " " + "HAVING" + " "
  {
  }

  lemma NoClause(d: Dialect, word: PlainText, head: string, e: Option<Expr>)
    ensures ClauseItems(d, word, e) == [] ==> Lay(Clause(head, WhereTokens(d, e))) == []
  {
  }

  /** SELECT and a query after it. */
  lemma SourceRow(d: Dialect, q: Select)
    requires q.where.Some? ==> OrdinaryNames(q.where.value)
    ensures RowSpells(d, Toks([Raw(SELECT)]) + NestedItems(d, q), Lay(SourceSections(d, q)), false)
  {
    hide RowSpells, Spells, NestedItems, HeadTokens, OrdinaryNames;
    OneWord(d, "SELECT");
    assert "SELECT" + " " == SELECT;
    RawRow(d, SELECT, [Word("SELECT")], true);
    NestedRow(d, q);
    RowThen(d, Toks([Raw(SELECT)]), [Word("SELECT")], true, NestedItems(d, q),
            HeadTokens(q, [Sign('*')]) + [Word("FROM"), Name(q.table)] + Lay(Clause("WHERE", WhereTokens(d, q.where))), false);
    SourceText(d, q);
  }

  // Reading a query.

  lemma QueryHeads()
    ensures IsHead("SELECT") && IsHead("FROM") && IsHead("WHERE") && IsHead("WITH") && IsHead("GROUP") && IsHead("HAVING") && IsHead("ORDER")
  {
  }

  lemma NamesAreSolid(ids: seq<string>)
    ensures AllSolid(NameTokens(ids))
  {
    forall i | 0 <= i < |ids| ensures Solid(NameTokens(ids)[i], true) { OneIsSolid(Name(ids[i]), true); }
  }

  lemma DistinctIsNoHead()
    ensures !IsHead("DISTINCT") && !IsHead("BY") && !IsHead("AS")
  {
  }

  lemma JoinIsNoHead()
    ensures !IsHead("ALL") && !IsHead("JOIN") && !IsHead("INTO") && !IsHead("INSERTED")
  {
  }

  lemma HeadIsSolid(q: Select)
    ensures Solid(HeadTokens(q, [Sign('*')]), false)
  {
    hide Solid, Commaed, IsHead;
    NamesAreSolid(q.columns);
    if q.columns != [] { SplitOfCommaed(NameTokens(q.columns)); }
    OneIsSolid(Sign('*'), false);
    DistinctIsNoHead();
    OneIsSolid(Word("DISTINCT"), false);
    var list := if q.columns == [] then [Sign('*')] else Commaed(NameTokens(q.columns));
    assert [] + list == list;
    SolidJoin([Word("DISTINCT")], list, false);
  }

  lemma SourceIsProper(d: Dialect, q: Select)
    requires q.where.Some? ==> OrdinaryNames(q.where.value)
    ensures AllProper(SourceSections(d, q))
  {
    hide Solid, IsHead, HeadTokens, ExprTokens, OrdinaryNames;
    QueryHeads();
    HeadIsSolid(q);
    OneIsSolid(Name(q.table), false);
    if q.where.Some? {
      ExprIsSolid(d, q.where.value);
      SolidInLists(ExprTokens(d, q.where.value));
    }
  }

  lemma {:induction false} NamesReadBack(ids: seq<string>)
    ensures NamesOf(NameTokens(ids)) == Some(ids)
    decreases |ids|
  {
    if ids != [] {
      assert NameTokens(ids)[1..] == NameTokens(ids[1..]);
      NamesReadBack(ids[1..]);
      assert ids == [ids[0]] + ids[1..];
    }
  }

  /** How a list of names begins. */
  lemma FirstName(ids: seq<string>)
    requires ids != []
    ensures Commaed(NameTokens(ids)) != [] && Commaed(NameTokens(ids))[0] == Name(ids[0])
  {
    var parts := NameTokens(ids);
    if |ids| == 1 {
      assert parts == [parts[0]];
      CommaedOne(parts[0]);
    } else {
      CommaedFirst(parts);
    }
  }

  lemma HeadReadsBack(q: Select)
    ensures var (distinct, list) := ReadDistinct(HeadTokens(q, [Sign('*')]));
      distinct == q.distinct && ReadColumns(list) == Some(q.columns)
  {
    hide Commaed, SplitCommas, NamesOf;
    var list := if q.columns == [] then [Sign('*')] else Commaed(NameTokens(q.columns));
    if q.columns != [] {
      FirstName(q.columns);
      NamesAreSolid(q.columns);
      SplitOfCommaed(NameTokens(q.columns));
      NamesReadBack(q.columns);
    }
    assert ([Word("DISTINCT")] + list)[1..] == list;
    assert [] + list == list;
  }

  lemma TakeFirst(s: Section, rest: seq<Section>)
    ensures Take([s] + rest, s.head) == (Some(s.body), rest)
  {
    assert ([s] + rest)[1..] == rest;
  }

  lemma SourceReadsBack(d: Dialect, q: Select, rest: seq<Section>)
    requires BeginsOther(rest, "WHERE")
    ensures ReadSource(SourceSections(d, q) + rest) == Some((SourceOf(d, q), rest))
  {
    hide HeadTokens, ExprTokens, ReadDistinct, ReadColumns;
    var head, where := Section("SELECT", HeadTokens(q, [Sign('*')])), Clause("WHERE", WhereTokens(d, q.where));
    var from := Section("FROM", [Name(q.table)]);
    assert SourceSections(d, q) + rest == [head] + ([from] + (where + rest));
    TakeFirst(head, [from] + (where + rest));
    TakeFirst(from, where + rest);
    TakeClause("WHERE", WhereTokens(d, q.where), rest);
    HeadReadsBack(q);
  }

  // ---------------------------------------------------------------------------------------------
  // Order and page
  // ---------------------------------------------------------------------------------------------

  /** The keys asked for; paging that mentions OFFSET needs an order, so that an arbitrary one is given without. */
  function OrderOf(d: Dialect, keys: seq<SortKey>, limit: Option<nat>, offset: Option<nat>): seq<SortKey> {
    if keys != [] then keys
    else if offset.Some? || (d.Mssql? && limit.Some?) then [SortKey([Sign('('), Word("SELECT"), Word("NULL"), Sign(')')], None)]
    else []
  }

  function KeysOf(d: Dialect, os: seq<Order>): (keys: seq<SortKey>)
    ensures |keys| == |os|
  {
    seq(|os|, i requires 0 <= i < |os| => SortKey(ExprTokens(d, os[i].expr), Some(os[i].descending)))
  }

  /** SQL Server has no limit without an offset, so it is told to skip no row. */
  function PageOf(d: Dialect, limit: Option<nat>, offset: Option<nat>): Page {
    Page(limit, if d.Mssql? && limit.Some? && offset == None then Some(0) else offset)
  }

  predicate Refused(d: Dialect, limit: Option<nat>) { d.Mssql? && limit == Some(0) }

  function NumberToken(n: nat): Token { Word(Decimal.ToString(n)) }

  lemma NumberReads(n: nat)
    ensures ReadNumber([NumberToken(n)]) == Some(n) && !Stops(NumberToken(n), false) && IsWord(Decimal.ToString(n))
  {
    var s := Decimal.ToString(n);
    assert Decimal.IsDigit(s[0]);
  }

  function PageSections(d: Dialect, limit: Option<nat>, offset: Option<nat>): seq<Section> {
    if d.Postgres? then
      Clause("LIMIT", if limit.Some? then Some([NumberToken(limit.value)]) else None)
      + Clause("OFFSET", if offset.Some? then Some([NumberToken(offset.value)]) else None)
    else if limit == None && offset == None then []
    else
      [Section("OFFSET", [NumberToken(if offset.Some? then offset.value else 0), Word("ROWS")])]
      + Clause("FETCH", if limit.Some? then Some([Word("NEXT"), NumberToken(limit.value), Word("ROWS"), Word("ONLY")]) else None)
  }

  lemma PageReadsBack(d: Dialect, limit: Option<nat>, offset: Option<nat>)
    ensures ReadPage(PageSections(d, limit, offset)) == Some(PageOf(d, limit, offset))
  {
    hide ReadNumber, NumberToken;
    if limit.Some? { NumberReads(limit.value); }
    if offset.Some? { NumberReads(offset.value); }
    NumberReads(0);
    if d.Postgres? { PostgresPageReads(limit, offset); } else { MssqlPageReads(limit, offset); }
  }

  lemma PostgresPageReads(limit: Option<nat>, offset: Option<nat>)
    ensures ReadPage(PageSections(Postgres, limit, offset)) == Some(Page(limit, offset))
  {
    hide ReadNumber, NumberToken;
    var l, o := if limit.Some? then Some([NumberToken(limit.value)]) else None, if offset.Some? then Some([NumberToken(offset.value)]) else None;
    if limit.Some? { NumberReads(limit.value); }
    if offset.Some? { NumberReads(offset.value); }
    TakeClause("LIMIT", l, Clause("OFFSET", o));
    TakeClause("OFFSET", o, []);
    assert Clause("OFFSET", o) + [] == Clause("OFFSET", o);
  }

  lemma MssqlPageReads(limit: Option<nat>, offset: Option<nat>)
    ensures ReadPage(PageSections(Mssql, limit, offset)) == Some(PageOf(Mssql, limit, offset))
  {
    hide ReadNumber, NumberToken;
    if limit.Some? { NumberReads(limit.value); }
    var skipped := if offset.Some? then offset.value else 0;
    NumberReads(skipped);
    if limit.Some? || offset.Some? {
      var rows := [NumberToken(skipped), Word("ROWS")];
      var fetch := if limit.Some? then Some([Word("NEXT"), NumberToken(limit.value), Word("ROWS"), Word("ONLY")]) else None;
      TakeFirst(Section("OFFSET", rows), Clause("FETCH", fetch));
      TakeClause("FETCH", fetch, []);
      assert Clause("FETCH", fetch) + [] == Clause("FETCH", fetch);
      assert rows[..1] == [NumberToken(skipped)];
      if limit.Some? { assert fetch.value[1..2] == [NumberToken(limit.value)]; }
    }
  }

  lemma PageIsProper(d: Dialect, limit: Option<nat>, offset: Option<nat>)
    ensures AllProper(PageSections(d, limit, offset))
  {
    hide Solid, IsHead, NumberToken;
    PagingHeads();
    NumbersAreSolid(0);
    if limit.Some? { NumbersAreSolid(limit.value); }
    if offset.Some? { NumbersAreSolid(offset.value); }
  }

  lemma PagingHeads()
    ensures IsHead("LIMIT") && IsHead("OFFSET") && IsHead("FETCH")
  {
  }

  lemma PagingIsNoHead()
    ensures !Stops(Word("ROWS"), false) && !Stops(Word("NEXT"), false) && !Stops(Word("ONLY"), false)
  {
  }

  lemma NumbersAreSolid(n: nat)
    ensures Solid([NumberToken(n)], false) && Solid([NumberToken(n), Word("ROWS")], false)
    ensures Solid([Word("NEXT"), NumberToken(n), Word("ROWS"), Word("ONLY")], false)
  {
    hide Solid, IsHead, Stops;
    NumberReads(n);
    PagingIsNoHead();
    OneIsSolid(NumberToken(n), false);
    OneIsSolid(Word("ROWS"), false);
    OneIsSolid(Word("NEXT"), false);
    OneIsSolid(Word("ONLY"), false);
    SolidJoin([NumberToken(n)], [Word("ROWS")], false);
    SolidJoin([NumberToken(n)] + [Word("ROWS")], [Word("ONLY")], false);
    SolidJoin([Word("NEXT")], [NumberToken(n)] + [Word("ROWS")] + [Word("ONLY")], false);
    assert [NumberToken(n)] + [Word("ROWS")] == [NumberToken(n), Word("ROWS")];
    assert [Word("NEXT")] + ([NumberToken(n)] + [Word("ROWS")] + [Word("ONLY")]) == [Word("NEXT"), NumberToken(n), Word("ROWS"), Word("ONLY")];
  }

  // The printed page.

  lemma NumeralSpells(d: Dialect, n: nat)
    ensures Spells(d, LexemeText(d, Numeral(n)), [NumberToken(n)], false)
  {
    hide Spells;
    NumberReads(n);
    SpellsWord(d, Decimal.ToString(n));
  }

  /** A word and a number. */
  lemma CountSpells(d: Dialect, word: PlainText, ts: seq<Token>, n: nat)
    requires Spells(d, word, ts, true)
    ensures Spells(d, LexText(d, [Raw(word), Numeral(n)]), ts + [NumberToken(n)], false)
  {
    hide Spells, LexText, Numeral;
    LexTwo(d, Raw(word), Numeral(n));
    RawText(d, word);
    NumeralSpells(d, n);
    SpellsThen(d, word, ts, true, LexemeText(d, Numeral(n)), [NumberToken(n)], false);
  }

  lemma PagingWords(d: Dialect)
    ensures Spells(d, LIMIT, [Word("LIMIT")], true) && Spells(d, OFFSET, [Word("OFFSET")], true) && Spells(d, ROWS, [Word("ROWS")], false)
    ensures Spells(d, ROWS_ONLY, [Word("ROWS"), Word("ONLY")], false)
  {
    hide Spells;
    OneWord(d, "LIMIT");
    OneWord(d, "OFFSET");
    OneWord(d, "ROWS");
    TwoWords(d, "ROWS", "ONLY");
    assert " " + "LIMIT" + " " == LIMIT && " " + "OFFSET" + " " == OFFSET && " " + "ROWS" == ROWS;
    assert " " + "ROWS" + (" " + "ONLY") == ROWS_ONLY;
  }

  lemma FetchNextSpells(d: Dialect)
    ensures Spells(d, FETCH_NEXT, [Word("ROWS"), Word("FETCH"), Word("NEXT")], true)
  {
    hide Spells;
    TwoWords(d, "ROWS", "FETCH");
    ThenWord(d, " " + "ROWS" + (" " + "FETCH"), [Word("ROWS"), Word("FETCH")], "NEXT");
    WordThenBlank(d, " " + "ROWS" + (" " + "FETCH") + (" " + "NEXT"), [Word("ROWS"), Word("FETCH")] + [Word("NEXT")]);
    assert " " + "ROWS" + (" " + "FETCH") + (" " + "NEXT") + " " == FETCH_NEXT;
    assert [Word("ROWS"), Word("FETCH")] + [Word("NEXT")] == [Word("ROWS"), Word("FETCH"), Word("NEXT")];
  }

  lemma OffsetIsWord()
    ensures IsWord("OFFSET") && IsWord("0")
  {
  }

  lemma BlankBreaks(d: Dialect)
    ensures FETCH_NEXT != "" && BreakChar(d, FETCH_NEXT[0])
  {
    Parentheses(d);
  }

  lemma OffsetZeroSpells(d: Dialect)
    ensures Spells(d, OFFSET_ZERO, [Word("OFFSET"), NumberToken(0)] + [Word("ROWS"), Word("FETCH"), Word("NEXT")], true)
  {
    hide Spells, NumberToken, IsWord;
    TokenOfZero();
    FetchNextSpells(d);
    OffsetIsWord();
    TwoWords(d, "OFFSET", "0");
    BlankBreaks(d);
    SpellsThen(d, " " + "OFFSET" + (" " + "0"), [Word("OFFSET"), Word("0")], false, FETCH_NEXT, [Word("ROWS"), Word("FETCH"), Word("NEXT")], true);
    assert " " + "OFFSET" + (" " + "0") + FETCH_NEXT == OFFSET_ZERO;
  }

  lemma TokenOfZero()
    ensures NumberToken(0) == Word("0")
  {
  }

  lemma PostgresPageRow(limit: Option<nat>, offset: Option<nat>)
    ensures RowSpells(Postgres, PagingItems(Postgres, limit, offset), Lay(PageSections(Postgres, limit, offset)), false)
  {
    hide RowSpells, Spells, Numeral, LexText, Starts, NumberToken, Lay, Toks;
    PagingWords(Postgres);
    NoRow(Postgres);
    var l := if limit.Some? then [Raw(LIMIT), Numeral(limit.value)] else [];
    var o := if offset.Some? then [Raw(OFFSET), Numeral(offset.value)] else [];
    var tl := Lay(Clause("LIMIT", if limit.Some? then Some([NumberToken(limit.value)]) else None));
    var to := Lay(Clause("OFFSET", if offset.Some? then Some([NumberToken(offset.value)]) else None));
    NoToks();
    LayOne("LIMIT", if limit.Some? then [NumberToken(limit.value)] else []);
    LayOne("OFFSET", if offset.Some? then [NumberToken(offset.value)] else []);
    if limit.Some? {
      CountSpells(Postgres, LIMIT, [Word("LIMIT")], limit.value);
      WordsRow(Postgres, l, [Word("LIMIT")] + [NumberToken(limit.value)], false);
    }
    if offset.Some? {
      CountSpells(Postgres, OFFSET, [Word("OFFSET")], offset.value);
      WordsRow(Postgres, o, [Word("OFFSET")] + [NumberToken(offset.value)], false);
      CountStarts(Postgres, OFFSET, offset.value);
    }
    RowMaybe(Postgres, Toks(l), tl, Toks(o), to);
    ToksJoin(l, o);
    LayJoin(Clause("LIMIT", if limit.Some? then Some([NumberToken(limit.value)]) else None),
            Clause("OFFSET", if offset.Some? then Some([NumberToken(offset.value)]) else None));
  }

  lemma NoToks()
    ensures Toks([]) == []
  {
  }

  lemma ToksJoin(a: seq<Lexeme>, b: seq<Lexeme>)
    ensures Toks(a + b) == Toks(a) + Toks(b)
  {
  }

  lemma CountStarts(d: Dialect, word: PlainText, n: nat)
    requires word != "" && word[0] == ' '
    ensures Starts(d, Toks([Raw(word), Numeral(n)]))
  {
    hide Numeral;
  }

  lemma MssqlPageRow(limit: Option<nat>, offset: Option<nat>)
    requires limit != Some(0)
    ensures RowSpells(Mssql, PagingItems(Mssql, limit, offset), Lay(PageSections(Mssql, limit, offset)), false)
  {
    hide RowSpells, Spells, Numeral, LexText, NumberToken, Lay, Toks, PageSections;
    PagingWords(Mssql);
    MssqlPageText(limit, offset);
    if offset.Some? {
      CountSpells(Mssql, OFFSET, [Word("OFFSET")], offset.value);
      if limit.Some? {
        FetchNextSpells(Mssql);
        BothSpell(limit.value, offset.value);
        WordsRow(Mssql, [Raw(OFFSET), Numeral(offset.value), Raw(FETCH_NEXT), Numeral(limit.value), Raw(ROWS_ONLY)],
                 Lay(PageSections(Mssql, limit, offset)), false);
      } else {
        OffsetSpells(offset.value);
        var ts := [Word("OFFSET"), NumberToken(offset.value), Word("ROWS")];
        assert ts + [] == ts;
        WordsRow(Mssql, [Raw(OFFSET), Numeral(offset.value), Raw(ROWS)], ts, false);
      }
    } else if limit.Some? {
      OffsetZeroSpells(Mssql);
      FetchSpells(limit.value);
      WordsRow(Mssql, [Raw(OFFSET_ZERO), Numeral(limit.value), Raw(ROWS_ONLY)], Lay(PageSections(Mssql, limit, offset)), false);
    } else {
      NoToks();
      NoRow(Mssql);
    }
  }

  lemma MssqlPageText(limit: Option<nat>, offset: Option<nat>)
    ensures Lay(PageSections(Mssql, limit, offset))
         == if limit == None && offset == None then []
            else [Word("OFFSET"), NumberToken(if offset.Some? then offset.value else 0), Word("ROWS")]
                 + (if limit.Some? then [Word("FETCH"), Word("NEXT"), NumberToken(limit.value), Word("ROWS"), Word("ONLY")] else [])
  {
    hide NumberToken;
    var rows := [NumberToken(if offset.Some? then offset.value else 0), Word("ROWS")];
    var fetch := if limit.Some? then Some([Word("NEXT"), NumberToken(limit.value), Word("ROWS"), Word("ONLY")]) else None;
    LayJoin([Section("OFFSET", rows)], Clause("FETCH", fetch));
    LayOne("OFFSET", rows);
    if limit.Some? { LayOne("FETCH", fetch.value); }
  }

  lemma OffsetSpells(n: nat)
    requires Spells(Mssql, ROWS, [Word("ROWS")], false) && Spells(Mssql, LexText(Mssql, [Raw(OFFSET), Numeral(n)]), [Word("OFFSET")] + [NumberToken(n)], false)
    ensures Spells(Mssql, LexText(Mssql, [Raw(OFFSET), Numeral(n), Raw(ROWS)]), [Word("OFFSET"), NumberToken(n), Word("ROWS")], false)
  {
    hide Spells, Numeral, LexText, NumberToken;
    assert [Raw(OFFSET), Numeral(n), Raw(ROWS)] == [Raw(OFFSET), Numeral(n)] + [Raw(ROWS)];
    LexAppend(Mssql, [Raw(OFFSET), Numeral(n)], [Raw(ROWS)]);
    LexOne(Mssql, Raw(ROWS));
    Parentheses(Mssql);
    SpellsThen(Mssql, LexText(Mssql, [Raw(OFFSET), Numeral(n)]), [Word("OFFSET")] + [NumberToken(n)], false, ROWS, [Word("ROWS")], false);
    assert [Word("OFFSET")] + [NumberToken(n)] + [Word("ROWS")] == [Word("OFFSET"), NumberToken(n), Word("ROWS")];
  }

  /** A text before a number, and ROWS ONLY after it. */
  lemma ThenRowsOnly(front: seq<Lexeme>, ts: seq<Token>, n: nat)
    requires Spells(Mssql, LexText(Mssql, front), ts, true) && Spells(Mssql, ROWS_ONLY, [Word("ROWS"), Word("ONLY")], false)
    ensures Spells(Mssql, LexText(Mssql, front + [Numeral(n), Raw(ROWS_ONLY)]), ts + [NumberToken(n)] + [Word("ROWS"), Word("ONLY")], false)
  {
    hide Spells, Numeral, LexText, NumberToken;
    LexAppend(Mssql, front, [Numeral(n), Raw(ROWS_ONLY)]);
    LexTwo(Mssql, Numeral(n), Raw(ROWS_ONLY));
    NumeralSpells(Mssql, n);
    Parentheses(Mssql);
    Around(Mssql, LexText(Mssql, front), ts, LexemeText(Mssql, Numeral(n)), [NumberToken(n)], ROWS_ONLY, [Word("ROWS"), Word("ONLY")], false);
    var a, b, c := LexText(Mssql, front), LexemeText(Mssql, Numeral(n)), ROWS_ONLY;
    JoinThree(a, b, c);
    RawText(Mssql, ROWS_ONLY);
  }

  lemma BothSpell(limit: nat, offset: nat)
    requires Spells(Mssql, LexText(Mssql, [Raw(OFFSET), Numeral(offset)]), [Word("OFFSET")] + [NumberToken(offset)], false)
    requires Spells(Mssql, FETCH_NEXT, [Word("ROWS"), Word("FETCH"), Word("NEXT")], true)
    requires Spells(Mssql, ROWS_ONLY, [Word("ROWS"), Word("ONLY")], false)
    ensures Spells(Mssql, LexText(Mssql, [Raw(OFFSET), Numeral(offset), Raw(FETCH_NEXT), Numeral(limit), Raw(ROWS_ONLY)]),
                   [Word("OFFSET"), NumberToken(offset), Word("ROWS")]
                   + [Word("FETCH"), Word("NEXT"), NumberToken(limit), Word("ROWS"), Word("ONLY")], false)
  {
    hide Spells, Numeral, LexText, NumberToken;
    var front := [Raw(OFFSET), Numeral(offset)] + [Raw(FETCH_NEXT)];
    LexAppend(Mssql, [Raw(OFFSET), Numeral(offset)], [Raw(FETCH_NEXT)]);
    LexOne(Mssql, Raw(FETCH_NEXT));
    Parentheses(Mssql);
    SpellsThen(Mssql, LexText(Mssql, [Raw(OFFSET), Numeral(offset)]), [Word("OFFSET")] + [NumberToken(offset)], false,
               FETCH_NEXT, [Word("ROWS"), Word("FETCH"), Word("NEXT")], true);
    var ts := [Word("OFFSET")] + [NumberToken(offset)] + [Word("ROWS"), Word("FETCH"), Word("NEXT")];
    ThenRowsOnly(front, ts, limit);
    assert front + [Numeral(limit), Raw(ROWS_ONLY)] == [Raw(OFFSET), Numeral(offset), Raw(FETCH_NEXT), Numeral(limit), Raw(ROWS_ONLY)];
    assert ts + [NumberToken(limit)] + [Word("ROWS"), Word("ONLY")]
        == [Word("OFFSET"), NumberToken(offset), Word("ROWS")] + [Word("FETCH"), Word("NEXT"), NumberToken(limit), Word("ROWS"), Word("ONLY")];
  }

  lemma FetchSpells(limit: nat)
    requires Spells(Mssql, OFFSET_ZERO, [Word("OFFSET"), NumberToken(0)] + [Word("ROWS"), Word("FETCH"), Word("NEXT")], true)
    requires Spells(Mssql, ROWS_ONLY, [Word("ROWS"), Word("ONLY")], false)
    ensures Spells(Mssql, LexText(Mssql, [Raw(OFFSET_ZERO), Numeral(limit), Raw(ROWS_ONLY)]),
                   [Word("OFFSET"), NumberToken(0), Word("ROWS")]
                   + [Word("FETCH"), Word("NEXT"), NumberToken(limit), Word("ROWS"), Word("ONLY")], false)
  {
    hide Spells, Numeral, LexText, NumberToken;
    var ts := [Word("OFFSET"), NumberToken(0)] + [Word("ROWS"), Word("FETCH"), Word("NEXT")];
    LexOne(Mssql, Raw(OFFSET_ZERO));
    ThenRowsOnly([Raw(OFFSET_ZERO)], ts, limit);
    assert [Raw(OFFSET_ZERO)] + [Numeral(limit), Raw(ROWS_ONLY)] == [Raw(OFFSET_ZERO), Numeral(limit), Raw(ROWS_ONLY)];
    assert ts + [NumberToken(limit)] + [Word("ROWS"), Word("ONLY")]
        == [Word("OFFSET"), NumberToken(0), Word("ROWS")] + [Word("FETCH"), Word("NEXT"), NumberToken(limit), Word("ROWS"), Word("ONLY")];
  }

  lemma PageRow(d: Dialect, limit: Option<nat>, offset: Option<nat>)
    requires !Refused(d, limit)
    ensures RowSpells(d, PagingItems(d, limit, offset), Lay(PageSections(d, limit, offset)), false)
    ensures PagingItems(d, limit, offset) == [] ==> Lay(PageSections(d, limit, offset)) == []
    ensures PagingItems(d, limit, offset) != [] ==> Starts(d, PagingItems(d, limit, offset))
  {
    hide RowSpells, Numeral;
    if d.Postgres? { PostgresPageRow(limit, offset); } else { MssqlPageRow(limit, offset); }
  }

  // ---------------------------------------------------------------------------------------------
  // Clauses with lists
  // ---------------------------------------------------------------------------------------------

  /** None of these clauses has this head. */
  predicate Avoids(ss: seq<Section>, head: string) { forall i :: 0 <= i < |ss| ==> ss[i].head != head }

  lemma AvoidsJoin(a: seq<Section>, b: seq<Section>, head: string)
    requires Avoids(a, head) && Avoids(b, head)
    ensures Avoids(a + b, head)
  {
  }

  /** BY and a list, when there is one. */
  function ByBody(parts: seq<seq<Token>>): Option<seq<Token>> { if parts == [] then None else Some([Word("BY")] + Commaed(parts)) }

  lemma ByReadsBack(parts: seq<seq<Token>>)
    requires AllSolid(parts)
    ensures ReadBy(ByBody(parts)) == Some(parts) && (parts != [] ==> Solid(ByBody(parts).value, false))
  {
    hide Solid, Commaed, SplitCommas, IsHead;
    if parts != [] {
      SplitOfCommaed(parts);
      assert ([Word("BY")] + Commaed(parts))[1..] == Commaed(parts);
      DistinctIsNoHead();
      OneIsSolid(Word("BY"), false);
      SolidJoin([Word("BY")], Commaed(parts), false);
    }
  }

  function OrderBody(d: Dialect, parts: seq<seq<Token>>, limit: Option<nat>, offset: Option<nat>): Option<seq<Token>> {
    if parts != [] then ByBody(parts)
    else if offset.Some? || (d.Mssql? && limit.Some?) then ByBody([NullTokensInParentheses()])
    else None
  }

  function NullTokensInParentheses(): seq<Token> { [Sign('('), Word("SELECT"), Word("NULL"), Sign(')')] }

  lemma NullIsSolid()
    ensures AllSolid([NullTokensInParentheses()]) && ReadKeys([NullTokensInParentheses()]) == [SortKey(NullTokensInParentheses(), None)]
  {
    FlatNests([Word("SELECT"), Word("NULL")]);
    ParenthesesAreSolid([Word("SELECT"), Word("NULL")], true);
    assert [Sign('(')] + [Word("SELECT"), Word("NULL")] + [Sign(')')] == NullTokensInParentheses();
  }

  function TailSections(d: Dialect, parts: seq<seq<Token>>, limit: Option<nat>, offset: Option<nat>): seq<Section> {
    Clause("ORDER", OrderBody(d, parts, limit, offset)) + PageSections(d, limit, offset)
  }

  lemma TailReadsBack(d: Dialect, parts: seq<seq<Token>>, limit: Option<nat>, offset: Option<nat>)
    requires AllSolid(parts)
    ensures ReadTail(TailSections(d, parts, limit, offset))
         == Some(Tail(OrderOf(d, ReadKeys(parts), limit, offset), PageOf(d, limit, offset)))
    ensures AllProper(TailSections(d, parts, limit, offset))
  {
    hide Solid, ByBody, PageSections, ReadPage, ReadBy, IsHead, NullTokensInParentheses, ReadKey;
    ByReadsBack(parts);
    NullIsSolid();
    ByReadsBack([NullTokensInParentheses()]);
    PageReadsBack(d, limit, offset);
    PageIsProper(d, limit, offset);
    QueryHeads();
    PageAvoids(d, limit, offset, "ORDER");
    ByOfNothing();
    NullTokensAre();
    var body := OrderBody(d, parts, limit, offset);
    TakeClause("ORDER", body, PageSections(d, limit, offset));
    assert body.Some? ==> Solid(body.value, false);
  }

  lemma NullTokensAre()
    ensures NullTokensInParentheses() == [Sign('('), Word("SELECT"), Word("NULL"), Sign(')')]
  {
  }

  lemma ByOfNothing()
    ensures ReadBy(None) == Some([]) && ReadKeys([]) == [] && (forall parts :: parts != [] ==> ByBody(parts).Some?)
  {
  }

  lemma PageAvoids(d: Dialect, limit: Option<nat>, offset: Option<nat>, head: string)
    requires head != "LIMIT" && head != "OFFSET" && head != "FETCH"
    ensures Avoids(PageSections(d, limit, offset), head)
  {
    hide NumberToken;
  }

  lemma TailAvoids(d: Dialect, parts: seq<seq<Token>>, limit: Option<nat>, offset: Option<nat>, head: string)
    requires head != "ORDER" && head != "LIMIT" && head != "OFFSET" && head != "FETCH"
    ensures Avoids(TailSections(d, parts, limit, offset), head)
  {
    hide PageSections, OrderBody;
    PageAvoids(d, limit, offset, head);
  }

  // The printed order.

  lemma OrderWords(d: Dialect)
    ensures Spells(d, ORDER_BY_CLAUSE, [Word("ORDER"), Word("BY")], true) && Spells(d, GROUP_BY, [Word("GROUP"), Word("BY")], true)
  {
    hide Spells;
    TwoWords(d, "ORDER", "BY");
    TwoWords(d, "GROUP", "BY");
    assert " " + "ORDER" + (" " + "BY") + " " == ORDER_BY_CLAUSE && " " + "GROUP" + (" " + "BY") + " " == GROUP_BY;
  }

  lemma NullOrderSpells(d: Dialect)
    ensures Spells(d, ORDER_BY_NULL, [Word("ORDER"), Word("BY")] + NullTokensInParentheses(), true)
  {
    hide Spells;
    OrderWords(d);
    SelectOpening(d, ORDER_BY_CLAUSE, [Word("ORDER"), Word("BY")]);
    var s, ts := ORDER_BY_CLAUSE + "(SELECT ", [Word("ORDER"), Word("BY")] + [Sign('(')] + [Word("SELECT")];
    ThenClosedWord(d, s, ts, "NULL");
    Parentheses(d);
    ThenSign(d, s + "NULL", ts + [Word("NULL")], false, ')');
    assert s + "NULL" + ")" == ORDER_BY_NULL;
    assert ts + [Word("NULL")] + [Sign(')')] == [Word("ORDER"), Word("BY")] + NullTokensInParentheses();
  }

  lemma LayBy(head: string, parts: seq<seq<Token>>)
    requires parts != []
    ensures Lay(Clause(head, ByBody(parts))) == [Word(head), Word("BY")] + Commaed(parts)
  {
    hide Commaed;
    LayOne(head, [Word("BY")] + Commaed(parts));
    assert [Word(head)] + ([Word("BY")] + Commaed(parts)) == [Word(head), Word("BY")] + Commaed(parts);
  }

  /** A clause of words and a row after them. */
  lemma HeadedRow(d: Dialect, text: PlainText, words: seq<Token>, list: seq<Item>, ts: seq<Token>)
    requires Spells(d, text, words, true) && RowSpells(d, list, ts, false) && text != "" && text[0] == ' '
    ensures RowSpells(d, Toks([Raw(text)]) + list, words + ts, false) && Starts(d, Toks([Raw(text)]) + list)
  {
    hide RowSpells, Spells, Starts;
    RawRow(d, text, words, true);
    RowThen(d, Toks([Raw(text)]), words, true, list, ts, false);
    RawStarts(d, text, list);
  }

  lemma SortRow(d: Dialect, list: seq<Item>, parts: seq<seq<Token>>, limit: Option<nat>, offset: Option<nat>)
    requires parts != [] ==> RowSpells(d, list, Commaed(parts), false)
    ensures var items := if parts != [] then Toks([Raw(ORDER_BY_CLAUSE)]) + list else SortItems(d, [], limit, offset);
      && RowSpells(d, items, Lay(Clause("ORDER", OrderBody(d, parts, limit, offset))), false)
      && (items == [] ==> Lay(Clause("ORDER", OrderBody(d, parts, limit, offset))) == []) && (items != [] ==> Starts(d, items))
  {
    hide RowSpells, Spells, Starts, Commaed, NullTokensInParentheses, Lay, ByBody;
    OrderWords(d);
    if parts != [] {
      HeadedRow(d, ORDER_BY_CLAUSE, [Word("ORDER"), Word("BY")], list, Commaed(parts));
      LayBy("ORDER", parts);
    } else if PrintsOffset(d, limit, offset) {
      NullOrderSpells(d);
      NoRow(d);
      RawRow(d, ORDER_BY_NULL, [Word("ORDER"), Word("BY")] + NullTokensInParentheses(), true);
      RowLoosely(d, Toks([Raw(ORDER_BY_NULL)]), [Word("ORDER"), Word("BY")] + NullTokensInParentheses());
      RawStarts(d, ORDER_BY_NULL, []);
      assert Toks([Raw(ORDER_BY_NULL)]) + [] == Toks([Raw(ORDER_BY_NULL)]);
      LayBy("ORDER", [NullTokensInParentheses()]);
      CommaedOne(NullTokensInParentheses());
    } else {
      NoRow(d);
      NoToks();
      LayOne("", []);
    }
  }

  /** The end of a query: its order and its page. */
  lemma TailRow(d: Dialect, sort: seq<Item>, parts: seq<seq<Token>>, limit: Option<nat>, offset: Option<nat>)
    requires !Refused(d, limit)
    requires RowSpells(d, sort, Lay(Clause("ORDER", OrderBody(d, parts, limit, offset))), false)
    requires sort == [] ==> Lay(Clause("ORDER", OrderBody(d, parts, limit, offset))) == []
    requires sort != [] ==> Starts(d, sort)
    ensures var items := sort + PagingItems(d, limit, offset); var ts := Lay(TailSections(d, parts, limit, offset));
      && RowSpells(d, items, ts, false) && (items == [] ==> ts == []) && (items != [] ==> Starts(d, items))
  {
    hide RowSpells, PagingItems, OrderBody, PageSections, Lay, LexemeText, BreakChar;
    PageRow(d, limit, offset);
    RowMaybe(d, sort, Lay(Clause("ORDER", OrderBody(d, parts, limit, offset))), PagingItems(d, limit, offset), Lay(PageSections(d, limit, offset)));
    LayJoin(Clause("ORDER", OrderBody(d, parts, limit, offset)), PageSections(d, limit, offset));
    if sort == [] { assert sort + PagingItems(d, limit, offset) == PagingItems(d, limit, offset); }
  }
}
