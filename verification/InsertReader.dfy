/** A generated INSERT is read back. */
module InsertReader {
  import opened Values
  import opened Dialects
  import opened LayoutTree
  import opened SqlAst
  import opened SqlText
  import opened SqlStatements
  import opened SqlLexer
  import opened SqlReader
  import opened SqlTokens
  import opened StatementRows
  import opened ClauseReader
  import opened SelectReader
  import opened JoinReader

  // ---------------------------------------------------------------------------------------------
  // INSERT
  // ---------------------------------------------------------------------------------------------

  function MarkTokens(n: nat): (r: seq<seq<Token>>)
    ensures |r| == n
  {
    seq(n, _ => [Sign('?')])
  }

  function IntoBody(table: string, columns: seq<string>): seq<Token> {
    [Word("INTO"), Name(table)] + (if columns == [] then [] else InParentheses(Commaed(NameTokens(columns))))
  }

  function OutputBody(d: Dialect, returning: string): Option<seq<Token>> {
    if returning != "" && d.Mssql? then Some([Word("INSERTED"), Sign('.'), Name(returning)]) else None
  }

  function ReturningBody(d: Dialect, returning: string): Option<seq<Token>> {
    if returning != "" && d.Postgres? then Some([Name(returning)]) else None
  }

  function ValuesSections(columns: seq<string>, n: nat): seq<Section> {
    if columns == [] then [Section("DEFAULT", []), Section("VALUES", [])]
    else [Section("VALUES", InParentheses(Commaed(MarkTokens(n))))]
  }

  function InsertSections(d: Dialect, table: string, columns: seq<string>, n: nat, returning: string): seq<Section> {
    [Section("INSERT", IntoBody(table, columns))]
    + (Clause("OUTPUT", OutputBody(d, returning)) + (ValuesSections(columns, n) + Clause("RETURNING", ReturningBody(d, returning))))
  }

  /** What an INSERT asks for: a placeholder for each value, and the new key by the clause the dialect has for it. */
  function InsertOutline(d: Dialect, table: string, columns: seq<string>, n: nat, returning: string): InsertClauses {
    InsertClauses(table, columns, if columns == [] then None else Some(MarkTokens(n)),
                  if returning != "" && d.Mssql? then Some(returning) else None,
                  if returning != "" && d.Postgres? then Some(returning) else None)
  }

  lemma MarkRow(d: Dialect, slot: Slot)
    ensures RowSpells(d, [Sub(Leaf(slot))], [Sign('?')], false)
  {
    hide Spells, ItemText;
    SpellsSign(d, '?');
    SpellsLoosely(d, "?", [Sign('?')], true);
    forall base: nat ensures ItemText(d, [Sub(Leaf(slot))], base) == "?" {
      TextOfSub(d, Leaf(slot), base);
      MarkText(d, base);
    }
  }

  lemma {:induction false} ValuesRow(d: Dialect, values: seq<BoundValue>)
    ensures RowSpells(d, ValueItems(values), Commaed(MarkTokens(|values|)), false)
    decreases |values|
  {
    hide RowSpells, Commaed, Toks;
    NoRow(d);
    NoCommas();
    if values != [] {
      var n := |values| - 1;
      ValuesRow(d, values[..n]);
      MarkRow(d, Static(values[n]));
      assert MarkTokens(|values|) == MarkTokens(n) + [[Sign('?')]];
      CommaedSnoc(MarkTokens(n), [Sign('?')]);
      if n == 0 { assert values[..n] == [] && MarkTokens(n) == []; }
      NextRow(d, ValueItems(values[..n]), Commaed(MarkTokens(n)), n > 0, [Sub(Leaf(Static(values[n])))], [Sign('?')]);
    } else {
      assert MarkTokens(|values|) == [];
    }
  }

  /** A text that opens a parenthesis, a list, and the closing one. */
  lemma EnclosedRow(d: Dialect, text: PlainText, words: seq<Token>, list: seq<Item>, ts: seq<Token>)
    requires Spells(d, text, words + [Sign('(')], true) && RowSpells(d, list, ts, false) && text != "" && text[0] == ' '
    ensures RowSpells(d, Toks([Raw(text)]) + list + Toks([RParen]), words + InParentheses(ts), false)
    ensures Starts(d, Toks([Raw(text)]) + list + Toks([RParen]))
  {
    hide RowSpells, Spells, Starts;
    RawRow(d, text, words + [Sign('(')], true);
    RowThen(d, Toks([Raw(text)]), words + [Sign('(')], true, list, ts, false);
    CloseRow(d);
    RowThen(d, Toks([Raw(text)]) + list, words + [Sign('(')] + ts, false, Toks([RParen]), [Sign(')')], true);
    assert words + [Sign('(')] + ts + [Sign(')')] == words + InParentheses(ts);
    RowLoosely(d, Toks([Raw(text)]) + list + Toks([RParen]), words + InParentheses(ts));
    RawStarts(d, text, list + Toks([RParen]));
    assert Toks([Raw(text)]) + (list + Toks([RParen])) == Toks([Raw(text)]) + list + Toks([RParen]);
  }

  lemma InsertWords(d: Dialect)
    ensures Spells(d, INSERT_INTO, [Word("INSERT"), Word("INTO")], true) && Spells(d, OPEN_COLUMNS, [] + [Sign('(')], true)
    ensures Spells(d, VALUES_OPEN, [Word("VALUES")] + [Sign('(')], true)
  {
    hide Spells;
    TwoWords(d, "INSERT", "INTO");
    assert "INSERT" + (" " + "INTO") + " " == INSERT_INTO;
    SpellsBlank(d);
    Parentheses(d);
    SpellsThen(d, " ", [], true, "(", [Sign('(')], true);
    assert " " + "(" == OPEN_COLUMNS;
    OneWord(d, "VALUES");
    SpellsThen(d, " " + "VALUES" + " ", [Word("VALUES")], true, "(", [Sign('(')], true);
    assert " " + "VALUES" + " " + "(" == VALUES_OPEN;
  }

  lemma DefaultWords(d: Dialect)
    ensures Spells(d, DEFAULT_VALUES, [Word("DEFAULT"), Word("VALUES")], false)
  {
    hide Spells;
    TwoWords(d, "DEFAULT", "VALUES");
    assert " " + "DEFAULT" + (" " + "VALUES") == DEFAULT_VALUES;
  }

  lemma ReturningWords(d: Dialect)
    ensures Spells(d, DEFAULT_VALUES, [Word("DEFAULT"), Word("VALUES")], false) && Spells(d, RETURNING, [Word("RETURNING")], true)
    ensures Spells(d, OUTPUT_INSERTED, [Word("OUTPUT"), Word("INSERTED"), Sign('.')], true)
  {
    hide Spells;
    DefaultWords(d);
    OneWord(d, "RETURNING");
    assert " " + "RETURNING" + " " == RETURNING;
    TwoWords(d, "OUTPUT", "INSERTED");
    ThenSign(d, " " + "OUTPUT" + (" " + "INSERTED"), [Word("OUTPUT"), Word("INSERTED")], false, '.');
    assert " " + "OUTPUT" + (" " + "INSERTED") + "." == OUTPUT_INSERTED;
    assert [Word("OUTPUT"), Word("INSERTED")] + [Sign('.')] == [Word("OUTPUT"), Word("INSERTED"), Sign('.')];
  }

  lemma ColumnListRow(d: Dialect, columns: seq<string>)
    requires columns != []
    ensures var list := Toks([Raw(OPEN_COLUMNS)]) + Toks(Names(columns)) + Toks([RParen]);
      RowSpells(d, list, InParentheses(Commaed(NameTokens(columns))), false) && Starts(d, list)
  {
    hide RowSpells, Spells, Starts, Commaed, Names, LexText;
    InsertWords(d);
    NamesSpell(d, columns);
    WordsRow(d, Names(columns), Commaed(NameTokens(columns)), false);
    EnclosedRow(d, OPEN_COLUMNS, [], Toks(Names(columns)), Commaed(NameTokens(columns)));
    assert [] + InParentheses(Commaed(NameTokens(columns))) == InParentheses(Commaed(NameTokens(columns)));
  }

  lemma TargetRow(d: Dialect, table: string)
    ensures RowSpells(d, Toks([Raw(INSERT_INTO)]) + Toks([Ident(table)]), [Word("INSERT"), Word("INTO")] + [Name(table)], false)
  {
    hide RowSpells, Spells, Starts, LexText;
    InsertWords(d);
    NameRow(d, table);
    RawRow(d, INSERT_INTO, [Word("INSERT"), Word("INTO")], true);
    RowThen(d, Toks([Raw(INSERT_INTO)]), [Word("INSERT"), Word("INTO")], true, Toks([Ident(table)]), [Name(table)], false);
  }

  lemma IntoRow(d: Dialect, table: string, columns: seq<string>)
    ensures var list := if columns == [] then [] else Toks([Raw(OPEN_COLUMNS)]) + Toks(Names(columns)) + Toks([RParen]);
      RowSpells(d, Toks([Raw(INSERT_INTO)]) + Toks([Ident(table)]) + list, Lay([Section("INSERT", IntoBody(table, columns))]), false)
  {
    hide RowSpells, Starts, Commaed, Names, Toks, InParentheses, Lay;
    var list := if columns == [] then [] else Toks([Raw(OPEN_COLUMNS)]) + Toks(Names(columns)) + Toks([RParen]);
    var tl := if columns == [] then [] else InParentheses(Commaed(NameTokens(columns)));
    TargetRow(d, table);
    NoRow(d);
    if columns != [] { ColumnListRow(d, columns); }
    RowMaybe(d, Toks([Raw(INSERT_INTO)]) + Toks([Ident(table)]), [Word("INSERT"), Word("INTO")] + [Name(table)], list, tl);
    LayOne("INSERT", IntoBody(table, columns));
    assert [Word("INSERT"), Word("INTO")] + [Name(table)] + tl == [Word("INSERT")] + IntoBody(table, columns);
  }

  lemma OutputRow(d: Dialect, returning: string)
    ensures var items := if returning != "" && d.Mssql? then Toks([Raw(OUTPUT_INSERTED)]) + Toks([Ident(returning)]) else [];
      var ts := Lay(Clause("OUTPUT", OutputBody(d, returning)));
      RowSpells(d, items, ts, false) && (items == [] ==> ts == []) && (items != [] ==> Starts(d, items))
  {
    hide RowSpells, Spells, Starts;
    NoRow(d);
    LayOne("OUTPUT", [Word("INSERTED"), Sign('.'), Name(returning)]);
    if returning != "" && d.Mssql? {
      ReturningWords(d);
      NameRow(d, returning);
      HeadedRow(d, OUTPUT_INSERTED, [Word("OUTPUT"), Word("INSERTED"), Sign('.')], Toks([Ident(returning)]), [Name(returning)]);
      assert [Word("OUTPUT"), Word("INSERTED"), Sign('.')] + [Name(returning)]
          == [Word("OUTPUT")] + [Word("INSERTED"), Sign('.'), Name(returning)];
    }
  }

  lemma ReturningRow(d: Dialect, returning: string)
    ensures var items := if returning != "" && d.Postgres? then Toks([Raw(RETURNING)]) + Toks([Ident(returning)]) else [];
      var ts := Lay(Clause("RETURNING", ReturningBody(d, returning)));
      RowSpells(d, items, ts, false) && (items == [] ==> ts == []) && (items != [] ==> Starts(d, items))
  {
    hide RowSpells, Spells, Starts;
    NoRow(d);
    LayOne("RETURNING", [Name(returning)]);
    if returning != "" && d.Postgres? {
      ReturningWords(d);
      NameRow(d, returning);
      HeadedRow(d, RETURNING, [Word("RETURNING")], Toks([Ident(returning)]), [Name(returning)]);
    }
  }

  lemma ValuesClauseRow(d: Dialect, columns: seq<string>, values: seq<BoundValue>)
    ensures var items := if columns == [] then Toks([Raw(DEFAULT_VALUES)]) else Toks([Raw(VALUES_OPEN)]) + ValueItems(values) + Toks([RParen]);
      RowSpells(d, items, Lay(ValuesSections(columns, |values|)), false) && Starts(d, items) && items != []
  {
    hide RowSpells, Spells, Starts, Commaed, ValueItems, InParentheses;
    var list := InParentheses(Commaed(MarkTokens(|values|)));
    LayOne("VALUES", list);
    LayOne("VALUES", []);
    LayOne("DEFAULT", []);
    if columns == [] {
      ReturningWords(d);
      RawRow(d, DEFAULT_VALUES, [Word("DEFAULT"), Word("VALUES")], false);
      RawStarts(d, DEFAULT_VALUES, []);
      assert Toks([Raw(DEFAULT_VALUES)]) + [] == Toks([Raw(DEFAULT_VALUES)]);
      LayJoin([Section("DEFAULT", [])], [Section("VALUES", [])]);
      assert [Section("DEFAULT", [])] + [Section("VALUES", [])] == ValuesSections(columns, |values|);
      assert [Word("DEFAULT")] + [] + ([Word("VALUES")] + []) == [Word("DEFAULT"), Word("VALUES")];
    } else {
      InsertWords(d);
      ValuesRow(d, values);
      EnclosedRow(d, VALUES_OPEN, [Word("VALUES")], ValueItems(values), Commaed(MarkTokens(|values|)));
    }
  }

  lemma InsertRow(d: Dialect, table: string, columns: seq<string>, values: seq<BoundValue>, returning: string)
    ensures RowSpells(d, InsertItems(d, table, columns, values, returning), Lay(InsertSections(d, table, columns, |values|, returning)), false)
  {
    hide RowSpells, Starts, Lay, Toks, ValueItems, Names, IntoBody, OutputBody, ReturningBody, ValuesSections;
    var into := Toks([Raw(INSERT_INTO)]) + Toks([Ident(table)])
                + (if columns == [] then [] else Toks([Raw(OPEN_COLUMNS)]) + Toks(Names(columns)) + Toks([RParen]));
    var output := if returning != "" && d.Mssql? then Toks([Raw(OUTPUT_INSERTED)]) + Toks([Ident(returning)]) else [];
    var list := if columns == [] then Toks([Raw(DEFAULT_VALUES)]) else Toks([Raw(VALUES_OPEN)]) + ValueItems(values) + Toks([RParen]);
    var key := if returning != "" && d.Postgres? then Toks([Raw(RETURNING)]) + Toks([Ident(returning)]) else [];
    var si, so, sl, sk := [Section("INSERT", IntoBody(table, columns))], Clause("OUTPUT", OutputBody(d, returning)),
                          ValuesSections(columns, |values|), Clause("RETURNING", ReturningBody(d, returning));
    IntoRow(d, table, columns);
    OutputRow(d, returning);
    ValuesClauseRow(d, columns, values);
    ReturningRow(d, returning);
    MaybeThen(d, list, Lay(sl), key, Lay(sk));
    MaybeThen(d, output, Lay(so), list + key, Lay(sl) + Lay(sk));
    RowMaybe(d, into, Lay(si), output + (list + key), Lay(so) + (Lay(sl) + Lay(sk)));
    LayFour(si, so, sl, sk);
    assert InsertItems(d, table, columns, values, returning) == into + (output + (list + key));
  }

  lemma InsertHeads()
    ensures IsHead("INSERT") && IsHead("OUTPUT") && IsHead("DEFAULT") && IsHead("VALUES") && IsHead("RETURNING")
  {
  }

  lemma MarksAreSolid(n: nat)
    ensures AllSolid(MarkTokens(n))
  {
    hide Solid;
    OneIsSolid(Sign('?'), true);
  }

  /** A list in parentheses is read as its elements. */
  lemma ListReadsBack(parts: seq<seq<Token>>)
    requires AllSolid(parts) && (forall i :: 0 <= i < |parts| ==> parts[i] != [])
    ensures ReadList(InParentheses(Commaed(parts))) == Some(parts) && Solid(InParentheses(Commaed(parts)), false)
  {
    hide Solid, Commaed, SplitCommas, Nested;
    var list := Commaed(parts);
    var ts := InParentheses(list);
    NoCommas();
    ListNests(parts);
    ParenthesesAreSolid(list, false);
    assert ts[1..|ts| - 1] == list;
    if parts != [] {
      SplitOfCommaed(parts);
      CommaedBegins(parts);
    }
  }

  lemma TargetReadsBack(table: string, columns: seq<string>)
    ensures ReadTarget(IntoBody(table, columns)) == Some((table, columns)) && Solid(IntoBody(table, columns), false)
  {
    hide Solid, Commaed, ReadList, NamesOf, IsHead;
    var into, list := [Word("INTO"), Name(table)], InParentheses(Commaed(NameTokens(columns)));
    JoinIsNoHead();
    OneIsSolid(Word("INTO"), false);
    OneIsSolid(Name(table), false);
    SolidJoin([Word("INTO")], [Name(table)], false);
    assert [Word("INTO")] + [Name(table)] == into && into + [] == into;
    if columns != [] {
      NamesAreSolid(columns);
      ListReadsBack(NameTokens(columns));
      NamesReadBack(columns);
      SolidJoin(into, list, false);
      assert (into + list)[2..] == list;
    }
  }

  lemma OutputReadsBack(d: Dialect, returning: string)
    ensures ReadOutput(OutputBody(d, returning)) == Some(if returning != "" && d.Mssql? then Some(returning) else None)
    ensures ReadReturning(ReturningBody(d, returning)) == Some(if returning != "" && d.Postgres? then Some(returning) else None)
    ensures OutputBody(d, returning).Some? ==> Solid(OutputBody(d, returning).value, false)
    ensures ReturningBody(d, returning).Some? ==> Solid(ReturningBody(d, returning).value, false)
  {
    hide Solid, IsHead;
    JoinIsNoHead();
    OneIsSolid(Word("INSERTED"), false);
    OneIsSolid(Sign('.'), false);
    OneIsSolid(Name(returning), false);
    SolidJoin([Word("INSERTED")], [Sign('.')], false);
    SolidJoin([Word("INSERTED")] + [Sign('.')], [Name(returning)], false);
    assert [Word("INSERTED")] + [Sign('.')] + [Name(returning)] == [Word("INSERTED"), Sign('.'), Name(returning)];
  }

  lemma InsertIsProper(d: Dialect, table: string, columns: seq<string>, n: nat, returning: string)
    ensures AllProper(InsertSections(d, table, columns, n, returning))
  {
    hide Solid, IsHead, Commaed, IntoBody, OutputBody, ReturningBody, InParentheses;
    InsertHeads();
    TargetReadsBack(table, columns);
    OutputReadsBack(d, returning);
    NothingIsSolid(false);
    MarksAreSolid(n);
    ListReadsBack(MarkTokens(n));
  }

  lemma ValuesReadBack(columns: seq<string>, n: nat, rest: seq<Section>)
    ensures BeginsOther(ValuesSections(columns, n) + rest, "OUTPUT")
    ensures var (byDefault, r3) := Take(ValuesSections(columns, n) + rest, "DEFAULT"); var (values, r4) := Take(r3, "VALUES");
      ReadValues(byDefault, values) == Some(if columns == [] then None else Some(MarkTokens(n))) && r4 == rest
  {
    hide Commaed, InParentheses, ReadList;
    var list := InParentheses(Commaed(MarkTokens(n)));
    if columns == [] {
      TakeFirst(Section("DEFAULT", []), [Section("VALUES", [])] + rest);
      TakeFirst(Section("VALUES", []), rest);
      assert ValuesSections(columns, n) + rest == [Section("DEFAULT", [])] + ([Section("VALUES", [])] + rest);
    } else {
      MarksAreSolid(n);
      ListReadsBack(MarkTokens(n));
      TakeFirst(Section("VALUES", list), rest);
    }
  }

  /** Clause by clause: the target, what to output, the values `vs`, and what to return. */
  lemma ReadInsertFrom(ts: seq<Token>, into: seq<Token>, output: Option<seq<Token>>, vs: seq<Section>, returning: Option<seq<Token>>,
                       list: Option<seq<seq<Token>>>)
    requires Sections(ts) == Some([Section("INSERT", into)] + (Clause("OUTPUT", output) + (vs + Clause("RETURNING", returning))))
    requires BeginsOther(vs + Clause("RETURNING", returning), "OUTPUT")
    requires var (byDefault, r3) := Take(vs + Clause("RETURNING", returning), "DEFAULT"); var (values, r4) := Take(r3, "VALUES");
      ReadValues(byDefault, values) == Some(list) && r4 == Clause("RETURNING", returning)
    requires ReadTarget(into).Some? && ReadOutput(output).Some? && ReadReturning(returning).Some?
    ensures var (table, columns) := ReadTarget(into).value;
      ReadInsert(ts) == Some(InsertClauses(table, columns, list, ReadOutput(output).value, ReadReturning(returning).value))
  {
    hide Sections, ReadTarget, ReadOutput, ReadReturning, ReadValues, Take, Clause, BeginsOther;
    var sk := Clause("RETURNING", returning);
    TakeFirst(Section("INSERT", into), Clause("OUTPUT", output) + (vs + sk));
    TakeClause("OUTPUT", output, vs + sk);
    NothingFollows();
    TakeClause("RETURNING", returning, []);
    assert sk + [] == sk;
  }

  lemma NothingFollows()
    ensures BeginsOther([], "RETURNING")
  {
  }

  lemma InsertSectionsReadBack(d: Dialect, table: string, columns: seq<string>, n: nat, returning: string)
    ensures ReadInsert(Lay(InsertSections(d, table, columns, n, returning))) == Some(InsertOutline(d, table, columns, n, returning))
  {
    hide Solid, Lay, Sections, ReadTarget, ReadOutput, ReadReturning, ReadValues, IntoBody, OutputBody, ReturningBody, ValuesSections,
      ReadInsert, Take, Clause, BeginsOther, MarkTokens, AllProper;
    var ss := InsertSections(d, table, columns, n, returning);
    TargetReadsBack(table, columns);
    OutputReadsBack(d, returning);
    ValuesReadBack(columns, n, Clause("RETURNING", ReturningBody(d, returning)));
    InsertIsProper(d, table, columns, n, returning);
    SectionsOfLay(ss);
    ReadInsertFrom(Lay(ss), IntoBody(table, columns), OutputBody(d, returning), ValuesSections(columns, n), ReturningBody(d, returning),
                   if columns == [] then None else Some(MarkTokens(n)));
  }

  /** A generated INSERT is read back: table, columns, one placeholder for each value or DEFAULT VALUES, and the key asked for. */
  lemma InsertReadsBack(d: Dialect, g: GeneratedSql, table: string, columns: seq<string>, values: seq<BoundValue>, returning: string)
    requires Generates(d, g, InsertItems(d, table, columns, values, returning))
    ensures ReadInsert(Tokenize(d, g.sql)) == Some(InsertOutline(d, table, columns, |values|, returning))
  {
    hide RowSpells, ItemText, ItemSlots, InsertItems, InsertSections, ReadInsert, InsertOutline, Lay, Tokenize;
    InsertRow(d, table, columns, values, returning);
    RowTokens(d, InsertItems(d, table, columns, values, returning), Lay(InsertSections(d, table, columns, |values|, returning)));
    InsertSectionsReadBack(d, table, columns, |values|, returning);
  }
}
