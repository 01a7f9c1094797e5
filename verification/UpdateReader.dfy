/** A generated UPDATE is read back. */
module UpdateReader {
  import opened Values
  import opened Dialects
  import opened LayoutTree
  import opened SqlAst
  import opened SqlText
  import opened SqlStatements
  import opened SqlLexer
  import opened SqlReader
  import opened SqlTokens
  import opened StatementRows
  import opened ClauseReader
  import opened SelectReader
  import opened JoinReader
  import PredicateTokens

  // ---------------------------------------------------------------------------------------------
  // UPDATE
  // ---------------------------------------------------------------------------------------------

  /** The column to assign; a builder may have left its name in the place of the table. */
  function AssignedColumn(a: Assignment): string { if a.column != "" then a.column else a.table }

  function AssignmentTokens(d: Dialect, assignments: seq<Assignment>): (r: seq<seq<Token>>)
    ensures |r| == |assignments|
  {
    seq(|assignments|, i requires 0 <= i < |assignments| =>
      [Name(AssignedColumn(assignments[i])), Sign('=')] + ExprTokens(d, assignments[i].value))
  }

  function AssignmentsOf(d: Dialect, assignments: seq<Assignment>): (r: seq<(string, seq<Token>)>)
    ensures |r| == |assignments|
  {
    seq(|assignments|, i requires 0 <= i < |assignments| => (AssignedColumn(assignments[i]), ExprTokens(d, assignments[i].value)))
  }

  predicate AssignmentsOrdinary(assignments: seq<Assignment>) {
    forall i :: 0 <= i < |assignments| ==> OrdinaryNames(assignments[i].value)
  }

  function UpdateSections(d: Dialect, table: string, assignments: seq<Assignment>, where: Option<Expr>): seq<Section> {
    [Section("UPDATE", [Name(table)])] + ([Section("SET", Commaed(AssignmentTokens(d, assignments)))] + Clause("WHERE", WhereTokens(d, where)))
  }

  function UpdateOutline(d: Dialect, table: string, assignments: seq<Assignment>, where: Option<Expr>): UpdateClauses {
    UpdateClauses(table, AssignmentsOf(d, assignments), WhereTokens(d, where))
  }

  lemma AssignmentRow(d: Dialect, a: Assignment)
    requires OrdinaryNames(a.value)
    ensures RowSpells(d, AssignmentItem(d, a), [Name(AssignedColumn(a)), Sign('=')] + ExprTokens(d, a.value), false)
  {
    hide RowSpells, Spells, Starts, ExprTokens, OrdinaryNames, Shape;
    var name := AssignedColumn(a);
    NameRow(d, name);
    PredicateTokens.CmpSpells(d, Eq);
    RawRow(d, EQUALS, [Sign('=')], true);
    RawStarts(d, EQUALS, []);
    assert Toks([Raw(EQUALS)]) + [] == Toks([Raw(EQUALS)]);
    RowThen(d, Toks([Ident(name)]), [Name(name)], false, Toks([Raw(EQUALS)]), [Sign('=')], true);
    ExprRow(d, a.value);
    RowThen(d, Toks([Ident(name)]) + Toks([Raw(EQUALS)]), [Name(name)] + [Sign('=')], true, [Sub(Shape(d, a.value))], ExprTokens(d, a.value), false);
    assert [Name(name)] + [Sign('=')] == [Name(name), Sign('=')];
  }

  lemma {:induction false} AssignmentsRow(d: Dialect, assignments: seq<Assignment>)
    requires AssignmentsOrdinary(assignments)
    ensures RowSpells(d, AssignmentItems(d, assignments), Commaed(AssignmentTokens(d, assignments)), false)
    decreases |assignments|
  {
    hide RowSpells, Commaed, Toks, AssignmentItem, OrdinaryNames, ExprTokens;
    NoRow(d);
    NoCommas();
    if assignments != [] {
      var n := |assignments| - 1;
      var front, last := AssignmentTokens(d, assignments[..n]), [Name(AssignedColumn(assignments[n])), Sign('=')] + ExprTokens(d, assignments[n].value);
      AssignmentsRow(d, assignments[..n]);
      AssignmentRow(d, assignments[n]);
      assert AssignmentTokens(d, assignments) == front + [last];
      CommaedSnoc(front, last);
      if n == 0 { assert assignments[..n] == [] && front == []; }
      NextRow(d, AssignmentItems(d, assignments[..n]), Commaed(front), n > 0, AssignmentItem(d, assignments[n]), last);
    } else {
      assert AssignmentTokens(d, assignments) == [];
    }
  }

  lemma UpdateHeadRow(d: Dialect, table: string)
    ensures RowSpells(d, Toks([Raw(UPDATE), Ident(table), Raw(SET)]), Lay([Section("UPDATE", [Name(table)])]) + [Word("SET")], true)
  {
    hide RowSpells, Spells, Starts;
    OneWord(d, "UPDATE");
    OneWord(d, "SET");
    assert "UPDATE" + " " == UPDATE && " " + "SET" + " " == SET;
    RawRow(d, UPDATE, [Word("UPDATE")], true);
    NameRow(d, table);
    RowThen(d, Toks([Raw(UPDATE)]), [Word("UPDATE")], true, Toks([Ident(table)]), [Name(table)], false);
    RawRow(d, SET, [Word("SET")], true);
    RawStarts(d, SET, []);
    assert Toks([Raw(SET)]) + [] == Toks([Raw(SET)]);
    RowThen(d, Toks([Raw(UPDATE)]) + Toks([Ident(table)]), [Word("UPDATE")] + [Name(table)], false, Toks([Raw(SET)]), [Word("SET")], true);
    LayOne("UPDATE", [Name(table)]);
    ToksJoin([Raw(UPDATE)], [Ident(table)]);
    ToksJoin([Raw(UPDATE)] + [Ident(table)], [Raw(SET)]);
    assert [Raw(UPDATE)] + [Ident(table)] + [Raw(SET)] == [Raw(UPDATE), Ident(table), Raw(SET)];
  }

  lemma UpdateRow(d: Dialect, table: string, assignments: seq<Assignment>, where: Option<Expr>)
    requires AssignmentsOrdinary(assignments) && (where.Some? ==> OrdinaryNames(where.value))
    ensures RowSpells(d, UpdateItems(d, table, assignments, where), Lay(UpdateSections(d, table, assignments, where)), false)
  {
    hide RowSpells, Starts, Lay, Toks, AssignmentItems, ClauseItems, OrdinaryNames, AssignmentsOrdinary, AssignmentTokens, Commaed, WhereTokens;
    var head, list := Toks([Raw(UPDATE), Ident(table), Raw(SET)]), AssignmentItems(d, assignments);
    var th, tl := Lay([Section("UPDATE", [Name(table)])]) + [Word("SET")], Commaed(AssignmentTokens(d, assignments));
    UpdateHeadRow(d, table);
    AssignmentsRow(d, assignments);
    RowThen(d, head, th, true, list, tl, false);
    WhereWord();
    ClauseRow(d, WHERE, "WHERE", where);
    NoClause(d, WHERE, "WHERE", where);
    RowMaybe(d, head + list, th + tl, ClauseItems(d, WHERE, where), Lay(Clause("WHERE", WhereTokens(d, where))));
    var changes, condition := [Section("SET", tl)], Clause("WHERE", WhereTokens(d, where));
    LayJoin([Section("UPDATE", [Name(table)])], changes + condition);
    LayJoin(changes, condition);
    LayOne("SET", tl);
    RegroupUpdate(Lay([Section("UPDATE", [Name(table)])]), Word("SET"), tl, Lay(condition));
  }

  lemma RegroupUpdate(a: seq<Token>, word: Token, b: seq<Token>, c: seq<Token>)
    ensures a + [word] + b + c == a + ([word] + b + c)
  {
  }

  lemma {:induction false} AssignmentsReadBack(d: Dialect, assignments: seq<Assignment>)
    ensures ReadAssignments(AssignmentTokens(d, assignments)) == Some(AssignmentsOf(d, assignments))
    decreases |assignments|
  {
    hide ExprTokens, AssignedColumn;
    if assignments != [] {
      var parts := AssignmentTokens(d, assignments);
      assert parts[1..] == AssignmentTokens(d, assignments[1..]);
      AssignmentsReadBack(d, assignments[1..]);
      assert parts[0][2..] == ExprTokens(d, assignments[0].value);
      assert AssignmentsOf(d, assignments)
          == [(AssignedColumn(assignments[0]), ExprTokens(d, assignments[0].value))] + AssignmentsOf(d, assignments[1..]);
    }
  }

  lemma AssignmentsAreSolid(d: Dialect, assignments: seq<Assignment>)
    requires AssignmentsOrdinary(assignments)
    ensures AllSolid(AssignmentTokens(d, assignments))
  {
    hide Solid, ExprTokens, OrdinaryNames, AssignedColumn;
    forall i | 0 <= i < |assignments| ensures Solid(AssignmentTokens(d, assignments)[i], true) {
      var name, x := AssignedColumn(assignments[i]), ExprTokens(d, assignments[i].value);
      ExprIsSolid(d, assignments[i].value);
      OneIsSolid(Name(name), true);
      OneIsSolid(Sign('='), true);
      SolidJoin([Name(name)], [Sign('=')], true);
      SolidJoin([Name(name)] + [Sign('=')], x, true);
      assert [Name(name)] + [Sign('=')] + x == [Name(name), Sign('=')] + x;
    }
  }

  lemma UpdateHeads()
    ensures IsHead("UPDATE") && IsHead("SET")
  {
  }

  lemma UpdateSectionsReadBack(d: Dialect, table: string, assignments: seq<Assignment>, where: Option<Expr>)
    requires AssignmentsOrdinary(assignments) && (where.Some? ==> OrdinaryNames(where.value))
    ensures ReadUpdate(Lay(UpdateSections(d, table, assignments, where))) == Some(UpdateOutline(d, table, assignments, where))
  {
    hide Solid, Lay, Sections, SplitCommas, Commaed, OrdinaryNames, AssignmentsOrdinary, AssignmentTokens, AssignmentsOf, IsHead, WhereTokens, ReadAssignments;
    var parts := AssignmentTokens(d, assignments);
    var condition := Clause("WHERE", WhereTokens(d, where));
    TakeFirst(Section("UPDATE", [Name(table)]), [Section("SET", Commaed(parts))] + condition);
    TakeFirst(Section("SET", Commaed(parts)), condition);
    TakeClause("WHERE", WhereTokens(d, where), []);
    assert condition + [] == condition;
    AssignmentsReadBack(d, assignments);
    AssignmentsAreSolid(d, assignments);
    NoAssignments(d, assignments);
    NothingIsSolid(false);
    if assignments != [] {
      SplitOfCommaed(parts);
      CommaedBegins(parts);
    }
    UpdateHeads();
    QueryHeads();
    HavingIsSolid(d, where);
    OneIsSolid(Name(table), false);
    SectionsOfLay(UpdateSections(d, table, assignments, where));
  }

  lemma NoAssignments(d: Dialect, assignments: seq<Assignment>)
    ensures assignments == [] ==> AssignmentsOf(d, assignments) == [] && Commaed(AssignmentTokens(d, assignments)) == []
    ensures forall i :: 0 <= i < |assignments| ==> AssignmentTokens(d, assignments)[i] != []
  {
    if assignments == [] { assert AssignmentTokens(d, assignments) == []; }
  }

  /** A generated UPDATE is read back: the table, every assigned column with its expression, and the condition. */
  lemma UpdateReadsBack(d: Dialect, g: GeneratedSql, table: string, assignments: seq<Assignment>, where: Option<Expr>)
    requires Generates(d, g, UpdateItems(d, table, assignments, where))
    requires AssignmentsOrdinary(assignments) && (where.Some? ==> OrdinaryNames(where.value))
    ensures ReadUpdate(Tokenize(d, g.sql)) == Some(UpdateOutline(d, table, assignments, where))
  {
    hide RowSpells, ItemText, ItemSlots, UpdateItems, UpdateSections, ReadUpdate, UpdateOutline, AssignmentsOrdinary, OrdinaryNames, Lay, Tokenize;
    UpdateRow(d, table, assignments, where);
    RowTokens(d, UpdateItems(d, table, assignments, where), Lay(UpdateSections(d, table, assignments, where)));
    UpdateSectionsReadBack(d, table, assignments, where);
  }
}
