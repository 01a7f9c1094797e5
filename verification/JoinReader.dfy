/** A generated SELECT with joins is read back. */
module JoinReader {
  import opened Values
  import opened Dialects
  import opened LayoutTree
  import opened SqlAst
  import opened SqlText
  import opened SqlStatements
  import opened SqlLexer
  import opened SqlReader
  import opened SqlTokens
  import opened StatementRows
  import opened ClauseReader
  import opened SelectReader
  import PredicateTokens

  // ---------------------------------------------------------------------------------------------
  // Joins
  // ---------------------------------------------------------------------------------------------

  /** The two kinds of join the query builder makes. */
  predicate KnownJoin(words: string) { words == "INNER JOIN" || words == "LEFT JOIN" }

  predicate JoinsOrdinary(joins: seq<Join>) {
    forall i :: 0 <= i < |joins| ==> KnownJoin(joins[i].words) && OrdinaryNames(joins[i].on)
  }

  function JoinSections(d: Dialect, joins: seq<Join>): seq<Section> {
    if joins == [] then [] else OneJoin(d, joins[0]) + JoinSections(d, joins[1..])
  }

  function OneJoin(d: Dialect, j: Join): seq<Section> {
    [Section(if j.words == "LEFT JOIN" then "LEFT" else "INNER", [Word("JOIN"), Name(j.table)]), Section("ON", ExprTokens(d, j.on))]
  }

  function JoinsOf(d: Dialect, joins: seq<Join>): (r: seq<JoinClause>)
    ensures |r| == |joins|
  {
    seq(|joins|, i requires 0 <= i < |joins| => JoinClause(joins[i].words, joins[i].table, ExprTokens(d, joins[i].on)))
  }

  lemma JoinWordsSpell(d: Dialect, words: string)
    requires KnownJoin(words)
    ensures Spells(d, " " + words + " ", [Word(if words == "LEFT JOIN" then "LEFT" else "INNER"), Word("JOIN")], true)
  {
    hide Spells;
    var kind := if words == "LEFT JOIN" then "LEFT" else "INNER";
    TwoWords(d, kind, "JOIN");
    assert " " + kind + (" " + "JOIN") + " " == " " + words + " ";
  }

  lemma JoinRow(d: Dialect, j: Join)
    requires KnownJoin(j.words) && OrdinaryNames(j.on)
    ensures RowSpells(d, JoinItem(d, j), Lay(OneJoin(d, j)), false) && Starts(d, JoinItem(d, j)) && JoinItem(d, j) != []
  {
    hide RowSpells, Spells, ExprTokens, OrdinaryNames, Shape, LexText, KnownJoin, QuoteId;
    var words := [Raw(SPACE), Verbatim(j.words), Raw(SPACE), Ident(j.table), Raw(ON)];
    var kind := Word(if j.words == "LEFT JOIN" then "LEFT" else "INNER");
    JoinText(d, j);
    JoinWordsSpell(d, j.words);
    SpellsName(d, j.table);
    OneWord(d, "ON");
    assert " " + "ON" + " " == " ON ";
    Parentheses(d);
    SpellsThen(d, QuoteId(d, j.table), [Name(j.table)], false, " ON ", [Word("ON")], true);
    SpellsThen(d, " " + j.words + " ", [kind, Word("JOIN")], true, QuoteId(d, j.table) + " ON ", [Name(j.table)] + [Word("ON")], true);
    WordsRow(d, words, [kind, Word("JOIN")] + ([Name(j.table)] + [Word("ON")]), true);
    ExprRow(d, j.on);
    RowThen(d, Toks(words), [kind, Word("JOIN")] + ([Name(j.table)] + [Word("ON")]), true, [Sub(Shape(d, j.on))], ExprTokens(d, j.on), false);
    OneJoinText(d, j);
    assert [kind, Word("JOIN")] + ([Name(j.table)] + [Word("ON")]) == [kind, Word("JOIN"), Name(j.table), Word("ON")];
  }

  lemma OneJoinText(d: Dialect, j: Join)
    ensures Lay(OneJoin(d, j))
         == [Word(if j.words == "LEFT JOIN" then "LEFT" else "INNER"), Word("JOIN"), Name(j.table), Word("ON")] + ExprTokens(d, j.on)
  {
    hide ExprTokens;
    var ss := OneJoin(d, j);
    LayJoin([ss[0]], [ss[1]]);
    LayOne(ss[0].head, ss[0].body);
    LayOne(ss[1].head, ss[1].body);
    assert ss == [ss[0]] + [ss[1]];
  }

  lemma {:induction false} JoinSectionsSnoc(d: Dialect, joins: seq<Join>)
    requires joins != []
    ensures JoinSections(d, joins) == JoinSections(d, joins[..|joins| - 1]) + OneJoin(d, joins[|joins| - 1])
    decreases |joins|
  {
    hide OneJoin;
    var n := |joins| - 1;
    if n == 0 {
      assert joins[1..] == [] && joins[..0] == [];
    } else {
      JoinSectionsSnoc(d, joins[1..]);
      assert joins[1..][..n - 1] == joins[..n][1..];
    }
  }

  lemma {:induction false} JoinsRow(d: Dialect, joins: seq<Join>)
    requires JoinsOrdinary(joins)
    ensures RowSpells(d, JoinItems(d, joins), Lay(JoinSections(d, joins)), false)
    ensures JoinItems(d, joins) == [] ==> Lay(JoinSections(d, joins)) == []
    ensures JoinItems(d, joins) != [] ==> Starts(d, JoinItems(d, joins))
    decreases |joins|
  {
    hide RowSpells, Starts, JoinItem, OneJoin, OrdinaryNames, KnownJoin, Lay;
    NoRow(d);
    LayOne("", []);
    if joins != [] {
      var n, last := |joins| - 1, joins[|joins| - 1];
      JoinsRow(d, joins[..n]);
      JoinRow(d, last);
      MaybeThen(d, JoinItems(d, joins[..n]), Lay(JoinSections(d, joins[..n])), JoinItem(d, last), Lay(OneJoin(d, last)));
      JoinSectionsSnoc(d, joins);
      LayJoin(JoinSections(d, joins[..n]), OneJoin(d, last));
    }
  }

  lemma NoJoins(d: Dialect, rest: seq<Section>)
    requires BeginsOther(rest, "INNER") && BeginsOther(rest, "LEFT")
    ensures ReadJoins(rest) == (JoinsOf(d, []), rest)
  {
  }

  lemma JoinsCons(d: Dialect, joins: seq<Join>)
    requires joins != []
    ensures JoinsOf(d, joins) == [JoinClause(joins[0].words, joins[0].table, ExprTokens(d, joins[0].on))] + JoinsOf(d, joins[1..])
  {
    hide ExprTokens;
  }

  lemma JoinReads(d: Dialect, j: Join, after: seq<Section>)
    requires KnownJoin(j.words)
    ensures ReadJoins(OneJoin(d, j) + after)
         == ([JoinClause(j.words, j.table, ExprTokens(d, j.on))] + ReadJoins(after).0, ReadJoins(after).1)
  {
    hide ExprTokens;
    var ss := OneJoin(d, j) + after;
    assert ss[2..] == after && ss[0] == OneJoin(d, j)[0] && ss[1] == OneJoin(d, j)[1];
    KindOfJoin(j.words);
  }

  lemma {:induction false} JoinsReadBack(d: Dialect, joins: seq<Join>, rest: seq<Section>)
    requires JoinsOrdinary(joins) && BeginsOther(rest, "INNER") && BeginsOther(rest, "LEFT")
    ensures ReadJoins(JoinSections(d, joins) + rest) == (JoinsOf(d, joins), rest)
    decreases |joins|
  {
    hide ExprTokens, OrdinaryNames, OneJoin, ReadJoins, JoinsOf, KnownJoin;
    if joins == [] {
      assert JoinSections(d, joins) + rest == rest;
      NoJoins(d, rest);
    } else {
      var after := JoinSections(d, joins[1..]) + rest;
      JoinsReadBack(d, joins[1..], rest);
      JoinReads(d, joins[0], after);
      JoinsCons(d, joins);
      assert JoinSections(d, joins) + rest == OneJoin(d, joins[0]) + after;
    }
  }

  lemma KindOfJoin(words: string)
    requires KnownJoin(words)
    ensures (if words == "LEFT JOIN" then "LEFT" else "INNER") + " JOIN" == words
  {
  }

  lemma {:induction false} JoinsAreProper(d: Dialect, joins: seq<Join>)
    requires JoinsOrdinary(joins)
    ensures AllProper(JoinSections(d, joins)) && Avoids(JoinSections(d, joins), "FROM")
    decreases |joins|
  {
    hide OneJoin, OrdinaryNames, KnownJoin, Proper;
    if joins != [] {
      JoinsAreProper(d, joins[1..]);
      JoinIsProper(d, joins[0]);
    }
  }

  lemma JoinIsProper(d: Dialect, j: Join)
    requires OrdinaryNames(j.on)
    ensures AllProper(OneJoin(d, j)) && Avoids(OneJoin(d, j), "FROM")
  {
    hide Solid, IsHead, ExprTokens, OrdinaryNames;
    JoinHeads();
    JoinIsNoHead();
    OneIsSolid(Word("JOIN"), false);
    OneIsSolid(Name(j.table), false);
    SolidJoin([Word("JOIN")], [Name(j.table)], false);
    assert [Word("JOIN")] + [Name(j.table)] == [Word("JOIN"), Name(j.table)];
    ExprIsSolid(d, j.on);
    SolidInLists(ExprTokens(d, j.on));
  }

  lemma JoinHeads()
    ensures IsHead("INNER") && IsHead("LEFT") && IsHead("ON")
  {
  }

  // Qualified columns.

  function QualifiedTokens(table: string, ids: seq<string>): (r: seq<seq<Token>>)
    ensures |r| == |ids|
  {
    seq(|ids|, i requires 0 <= i < |ids| => [Name(table), Sign('.'), Name(ids[i])])
  }

  function ColumnsOf(table: string, ids: seq<string>): (r: seq<(string, string)>)
    ensures |r| == |ids|
  {
    seq(|ids|, i requires 0 <= i < |ids| => (table, ids[i]))
  }

  /** The columns of the joined tables, table after table. */
  function GroupTokens(groups: seq<(string, seq<string>)>): seq<seq<Token>> {
    if groups == [] then [] else QualifiedTokens(groups[0].0, groups[0].1) + GroupTokens(groups[1..])
  }

  function GroupColumns(groups: seq<(string, seq<string>)>): seq<(string, string)> {
    if groups == [] then [] else ColumnsOf(groups[0].0, groups[0].1) + GroupColumns(groups[1..])
  }

  /** A list goes on: with a comma before each element, unless none came before. */
  function Continued(parts: seq<seq<Token>>, first: bool): seq<Token> {
    if parts == [] || first then Commaed(parts) else [Sign(',')] + Commaed(parts)
  }

  lemma RegroupSnoc(a: seq<Token>, b: seq<Token>, x: seq<Token>)
    ensures a + b + [Sign(',')] + x == a + (b + [Sign(',')] + x)
    ensures a + ([Sign(',')] + b) + [Sign(',')] + x == a + ([Sign(',')] + (b + [Sign(',')] + x))
    ensures a + [Sign(',')] + x == a + ([Sign(',')] + x) && a + [] + x == a + x && [] + [] + x == x && [] + x == x && a + [] == a
  {
  }

  lemma {:induction false} CommaedJoin(a: seq<seq<Token>>, b: seq<seq<Token>>)
    ensures Commaed(a + b) == Commaed(a) + Continued(b, a == [])
    decreases |b|
  {
    hide Commaed;
    NoCommas();
    if b == [] {
      assert a + b == a;
    } else {
      var n := |b| - 1;
      CommaedJoin(a, b[..n]);
      assert b == b[..n] + [b[n]] && a + b == (a + b[..n]) + [b[n]];
      CommaedSnoc(b[..n], b[n]);
      CommaedSnoc(a + b[..n], b[n]);
      RegroupSnoc(Commaed(a), Commaed(b[..n]), b[n]);
      if n == 0 { assert b[..n] == [] && a + b[..n] == a; }
    }
  }

  lemma ContinuedJoin(a: seq<seq<Token>>, b: seq<seq<Token>>, first: bool)
    ensures Continued(a + b, first) == Continued(a, first) + Continued(b, first && a == [])
  {
    hide Commaed;
    CommaedJoin(a, b);
    NoCommas();
    if a == [] { assert a + b == b; }
    if b == [] { assert a + b == a; }
  }

  lemma QualifiedName(d: Dialect, table: string, id: string)
    ensures Spells(d, QuoteId(d, table) + "." + QuoteId(d, id), [Name(table), Sign('.'), Name(id)], false)
  {
    hide Spells, QuoteId;
    SpellsName(d, table);
    SpellsName(d, id);
    ThenSign(d, QuoteId(d, table), [Name(table)], false, '.');
    SpellsThen(d, QuoteId(d, table) + ".", [Name(table)] + [Sign('.')], true, QuoteId(d, id), [Name(id)], false);
    assert [Name(table)] + [Sign('.')] + [Name(id)] == [Name(table), Sign('.'), Name(id)];
  }

  /** A list that began before may go on with a comma. */
  lemma ContinuedSpells(d: Dialect, front: string, parts: seq<seq<Token>>, first: bool, x: string, tx: seq<Token>)
    requires Spells(d, front, Continued(parts, first), false) && Spells(d, x, tx, false) && (parts == [] ==> front == "")
    ensures Spells(d, front + (if first && parts == [] then "" else ", ") + x, Continued(parts + [tx], first), false)
  {
    hide Spells, Commaed;
    ContinuedJoin(parts, [tx], first);
    CommaedOne(tx);
    Parentheses(d);
    PredicateTokens.CommaSpells(d);
    var tf := Continued(parts, first);
    if first && parts == [] {
      assert front + "" + x == x && tf + tx == tx;
    } else {
      SpellsThen(d, front, tf, false, ", ", [Sign(',')], true);
      SpellsThen(d, front + ", ", tf + [Sign(',')], true, x, tx, false);
      assert tf + [Sign(',')] + tx == tf + ([Sign(',')] + tx);
    }
  }

  lemma {:induction false} QualifiedSpells(d: Dialect, table: string, ids: seq<string>, first: bool)
    ensures Spells(d, LexText(d, Qualified(table, ids, first)), Continued(QualifiedTokens(table, ids), first), false)
    ensures ids == [] ==> LexText(d, Qualified(table, ids, first)) == ""
    decreases |ids|
  {
    hide Spells, LexText, QuoteId, Commaed;
    LexNone(d);
    NoCommas();
    if ids == [] {
      SpellsNothing(d);
      SpellsLoosely(d, "", [], true);
    } else {
      var n := |ids| - 1;
      QualifiedSpells(d, table, ids[..n], first);
      assert ids[..n + 1] == ids;
      QualifiedStep(d, table, ids, n, first);
      QualifiedName(d, table, ids[n]);
      var parts, last := QualifiedTokens(table, ids[..n]), [Name(table), Sign('.'), Name(ids[n])];
      assert QualifiedTokens(table, ids) == parts + [last];
      assert n == 0 ==> ids[..n] == [];
      ContinuedSpells(d, LexText(d, Qualified(table, ids[..n], first)), parts, first, QuoteId(d, table) + "." + QuoteId(d, ids[n]), last);
    }
  }

  /** The text of a list that goes on begins with its comma. */
  lemma {:induction false} QualifiedStarts(table: string, ids: seq<string>)
    requires ids != []
    ensures Qualified(table, ids, false) != [] && Qualified(table, ids, false)[0] == Comma
    decreases |ids|
  {
    var n := |ids| - 1;
    if n > 0 { QualifiedStarts(table, ids[..n]); } else { assert ids[..n] == []; }
  }

  lemma QualifiedRow(d: Dialect, table: string, ids: seq<string>, first: bool)
    ensures var items, ts := Toks(Qualified(table, ids, first)), Continued(QualifiedTokens(table, ids), first);
      && RowSpells(d, items, ts, false) && (items == [] ==> ts == []) && (!first && items != [] ==> Starts(d, items))
  {
    hide RowSpells, Spells, LexText;
    QualifiedSpells(d, table, ids, first);
    WordsRow(d, Qualified(table, ids, first), Continued(QualifiedTokens(table, ids), first), false);
    if ids != [] && !first {
      QualifiedStarts(table, ids);
      CommaBreaks(d);
    }
  }

  lemma CommaBreaks(d: Dialect)
    ensures LexemeText(d, Comma) != "" && BreakChar(d, LexemeText(d, Comma)[0])
  {
  }

  /** What goes on after a list, or begins it. */
  lemma ThenContinued(d: Dialect, a: seq<Item>, ta: seq<Token>, b: seq<Item>, tb: seq<Token>, first: bool)
    requires RowSpells(d, a, ta, false) && RowSpells(d, b, tb, false) && (b == [] ==> tb == [])
    requires a == [] || b == [] || Starts(d, b)
    requires a == [] ==> ta == []
    ensures RowSpells(d, a + b, ta + tb, false)
  {
    hide RowSpells, Starts;
    if a == [] { assert a + b == b && ta + tb == tb; } else { RowMaybe(d, a, ta, b, tb); }
  }

  lemma {:induction false} JoinedColumnsRow(d: Dialect, groups: seq<(string, seq<string>)>, first: bool)
    ensures var items, ts := Toks(JoinedColumns(groups, first)), Continued(GroupTokens(groups), first);
      && RowSpells(d, items, ts, false) && (items == [] ==> ts == []) && (!first && items != [] ==> Starts(d, items))
    decreases |groups|
  {
    hide RowSpells, Continued, Qualified, LexemeText, BreakChar, QualifiedTokens;
    NoRow(d);
    NoToks();
    ContinuedNothing();
    if groups != [] {
      var next := first && groups[0].1 == [];
      var a, b := Qualified(groups[0].0, groups[0].1, first), JoinedColumns(groups[1..], next);
      var ta, tb := QualifiedTokens(groups[0].0, groups[0].1), GroupTokens(groups[1..]);
      QualifiedRow(d, groups[0].0, groups[0].1, first);
      JoinedColumnsRow(d, groups[1..], next);
      QualifiedIsEmpty(groups[0].0, groups[0].1, first);
      ThenContinued(d, Toks(a), Continued(ta, first), Toks(b), Continued(tb, next), first);
      ToksJoin(a, b);
      ContinuedJoin(ta, tb, first);
      assert JoinedColumns(groups, first) == a + b;
    }
  }

  lemma ContinuedNothing()
    ensures Continued([], true) == [] && Continued([], false) == []
  {
  }

  lemma QualifiedIsEmpty(table: string, ids: seq<string>, first: bool)
    ensures Qualified(table, ids, first) == [] <==> ids == []
    ensures Toks(Qualified(table, ids, first)) == [] <==> ids == []
  {
  }

  /** The columns of the first table, and those of the joined ones. */
  function JoinedParts(q: JoinQuery): seq<seq<Token>> { QualifiedTokens(q.table, q.columns) + GroupTokens(q.joinedColumns) }

  lemma ColumnsRow(d: Dialect, q: JoinQuery)
    ensures RowSpells(d, Toks(Qualified(q.table, q.columns, true)) + Toks(JoinedColumns(q.joinedColumns, q.columns == [])), Commaed(JoinedParts(q)), false)
  {
    hide RowSpells, Continued, Qualified, JoinedColumns, LexemeText, BreakChar, Starts, QualifiedTokens, GroupTokens;
    QualifiedRow(d, q.table, q.columns, true);
    JoinedColumnsRow(d, q.joinedColumns, q.columns == []);
    QualifiedIsEmpty(q.table, q.columns, true);
    ThenContinued(d, Toks(Qualified(q.table, q.columns, true)), Continued(QualifiedTokens(q.table, q.columns), true),
                  Toks(JoinedColumns(q.joinedColumns, q.columns == [])), Continued(GroupTokens(q.joinedColumns), q.columns == []), true);
    ContinuedJoin(QualifiedTokens(q.table, q.columns), GroupTokens(q.joinedColumns), true);
    ContinuedFirst(JoinedParts(q));
  }

  lemma ContinuedFirst(parts: seq<seq<Token>>)
    ensures Continued(parts, true) == Commaed(parts)
  {
  }

  function JoinedHead(q: JoinQuery): seq<Token> { (if q.distinct then [Word("DISTINCT")] else []) + Commaed(JoinedParts(q)) }

  function JoinedSections(d: Dialect, q: JoinQuery): seq<Section> {
    [Section("SELECT", JoinedHead(q))]
    + ([Section("FROM", [Name(q.table)])]
       + (JoinSections(d, q.joins)
          + (Clause("WHERE", WhereTokens(d, q.where)) + TailSections(d, AllKeys(d, q.orderBy), q.limit, q.offset))))
  }

  predicate JoinQueryOrdinary(q: JoinQuery) {
    JoinsOrdinary(q.joins) && (q.where.Some? ==> OrdinaryNames(q.where.value)) && KeysOrdinary(q.orderBy)
  }

  lemma RegroupHead<T>(a: seq<T>, b: seq<T>, c: seq<T>, x: T, y: T)
    ensures a + (b + c) + ([x] + [y]) == a + b + c + [x, y]
  {
  }

  lemma JoinHeadParts(q: JoinQuery)
    ensures Toks(JoinHead(q))
         == Toks([Raw(SELECT)]) + Toks(if q.distinct then [Raw(DISTINCT)] else [])
            + (Toks(Qualified(q.table, q.columns, true)) + Toks(JoinedColumns(q.joinedColumns, q.columns == [])))
            + (Toks([Raw(FROM)]) + Toks([Ident(q.table)]))
  {
    hide Qualified, JoinedColumns, Toks;
    var select, distinct := [Raw(SELECT)], if q.distinct then [Raw(DISTINCT)] else [];
    var own, others := Qualified(q.table, q.columns, true), JoinedColumns(q.joinedColumns, q.columns == []);
    ToksJoin(select, distinct);
    ToksJoin(own, others);
    ToksJoin([Raw(FROM)], [Ident(q.table)]);
    ToksJoin(select + distinct, own + others);
    ToksJoin(select + distinct + (own + others), [Raw(FROM)] + [Ident(q.table)]);
    RegroupHead(select + distinct, own, others, Raw(FROM), Ident(q.table));
  }

  lemma SelectDistinctRow(d: Dialect, distinct: bool)
    ensures RowSpells(d, Toks([Raw(SELECT)]) + Toks(if distinct then [Raw(DISTINCT)] else []),
                      [Word("SELECT")] + (if distinct then [Word("DISTINCT")] else []), true)
  {
    hide RowSpells, Spells;
    OneWord(d, "SELECT");
    OneWord(d, "DISTINCT");
    assert "SELECT" + " " == SELECT && "DISTINCT" + " " == DISTINCT;
    RawRow(d, SELECT, [Word("SELECT")], true);
    RawRow(d, DISTINCT, [Word("DISTINCT")], true);
    NoRow(d);
    NoToks();
    RowThen(d, Toks([Raw(SELECT)]), [Word("SELECT")], true, Toks(if distinct then [Raw(DISTINCT)] else []),
            if distinct then [Word("DISTINCT")] else [], true);
  }

  lemma FromRow(d: Dialect, table: string)
    ensures RowSpells(d, Toks([Raw(FROM)]) + Toks([Ident(table)]), [Word("FROM"), Name(table)], false)
    ensures Starts(d, Toks([Raw(FROM)]) + Toks([Ident(table)]))
  {
    hide RowSpells, Spells, Starts;
    OneWord(d, "FROM");
    assert " " + "FROM" + " " == FROM;
    NameRow(d, table);
    HeadedRow(d, FROM, [Word("FROM")], Toks([Ident(table)]), [Name(table)]);
    assert [Word("FROM")] + [Name(table)] == [Word("FROM"), Name(table)];
  }

  lemma JoinHeadRow(d: Dialect, q: JoinQuery)
    ensures RowSpells(d, Toks(JoinHead(q)), Lay([Section("SELECT", JoinedHead(q)), Section("FROM", [Name(q.table)])]), false)
  {
    hide RowSpells, Starts, Qualified, JoinedColumns, JoinedParts, Commaed, JoinHead;
    var front, columns := Toks([Raw(SELECT)]) + Toks(if q.distinct then [Raw(DISTINCT)] else []),
                          Toks(Qualified(q.table, q.columns, true)) + Toks(JoinedColumns(q.joinedColumns, q.columns == []));
    var tf, tc := [Word("SELECT")] + (if q.distinct then [Word("DISTINCT")] else []), Commaed(JoinedParts(q));
    JoinHeadParts(q);
    SelectDistinctRow(d, q.distinct);
    ColumnsRow(d, q);
    RowThen(d, front, tf, true, columns, tc, false);
    FromRow(d, q.table);
    RowThen(d, front + columns, tf + tc, false, Toks([Raw(FROM)]) + Toks([Ident(q.table)]), [Word("FROM"), Name(q.table)], false);
    var select, from := Section("SELECT", JoinedHead(q)), Section("FROM", [Name(q.table)]);
    LayJoin([select], [from]);
    LayOne("SELECT", JoinedHead(q));
    LayOne("FROM", [Name(q.table)]);
    assert [select, from] == [select] + [from] && [Word("FROM")] + [Name(q.table)] == [Word("FROM"), Name(q.table)];
    assert tf + tc == [Word("SELECT")] + JoinedHead(q);
  }

  lemma JoinedRow(d: Dialect, q: JoinQuery)
    requires JoinQueryOrdinary(q) && !Refused(d, q.limit)
    ensures RowSpells(d, JoinedItems(d, q), Lay(JoinedSections(d, q)), false)
  {
    hide RowSpells, Starts, Lay, JoinItems, ClauseItems, SortItems, PagingItems, Toks, TailSections, JoinSections, JoinedHead, JoinHead,
      AllKeys, WhereTokens, JoinsOrdinary, KeysOrdinary, OrdinaryNames, Refused;
    var tail := SortItems(d, q.orderBy, q.limit, q.offset) + PagingItems(d, q.limit, q.offset);
    var tailText := Lay(TailSections(d, AllKeys(d, q.orderBy), q.limit, q.offset));
    var where, whereText := ClauseItems(d, WHERE, q.where), Lay(Clause("WHERE", WhereTokens(d, q.where)));
    var joins, joinsText := JoinItems(d, q.joins), Lay(JoinSections(d, q.joins));
    var head := [Section("SELECT", JoinedHead(q)), Section("FROM", [Name(q.table)])];
    OrderRow(d, q.orderBy, q.limit, q.offset);
    WhereWord();
    ClauseRow(d, WHERE, "WHERE", q.where);
    NoClause(d, WHERE, "WHERE", q.where);
    MaybeThen(d, where, whereText, tail, tailText);
    JoinsRow(d, q.joins);
    MaybeThen(d, joins, joinsText, where + tail, whereText + tailText);
    JoinHeadRow(d, q);
    RowMaybe(d, Toks(JoinHead(q)), Lay(head), joins + (where + tail), joinsText + (whereText + tailText));
    LayFour(head, JoinSections(d, q.joins), Clause("WHERE", WhereTokens(d, q.where)), TailSections(d, AllKeys(d, q.orderBy), q.limit, q.offset));
    JoinedRegroup(d, q);
    assert JoinedItems(d, q) == Toks(JoinHead(q)) + (joins + (where + tail));
  }

  lemma JoinedRegroup(d: Dialect, q: JoinQuery)
    ensures JoinedSections(d, q)
         == [Section("SELECT", JoinedHead(q)), Section("FROM", [Name(q.table)])]
            + (JoinSections(d, q.joins) + (Clause("WHERE", WhereTokens(d, q.where)) + TailSections(d, AllKeys(d, q.orderBy), q.limit, q.offset)))
  {
    hide JoinSections, TailSections, JoinedHead, Clause;
  }

  function JoinOutline(d: Dialect, q: JoinQuery): JoinClauses {
    JoinClauses(q.distinct, ColumnsOf(q.table, q.columns) + GroupColumns(q.joinedColumns), q.table, JoinsOf(d, q.joins), WhereTokens(d, q.where),
                Tail(OrderOf(d, KeysOf(d, q.orderBy), q.limit, q.offset), PageOf(d, q.limit, q.offset)))
  }

  // Reading the columns back.

  lemma {:induction false} QualifiedJoin(a: seq<seq<Token>>, b: seq<seq<Token>>)
    requires QualifiedNames(a).Some? && QualifiedNames(b).Some?
    ensures QualifiedNames(a + b) == Some(QualifiedNames(a).value + QualifiedNames(b).value)
    decreases |a|
  {
    if a == [] {
      assert a + b == b && [] + QualifiedNames(b).value == QualifiedNames(b).value;
    } else {
      assert (a + b)[0] == a[0] && (a + b)[1..] == a[1..] + b;
      QualifiedJoin(a[1..], b);
      var first, rest := (a[0][0].id, a[0][2].id), QualifiedNames(a[1..]).value;
      assert QualifiedNames(a).value == [first] + rest;
      assert [first] + rest + QualifiedNames(b).value == [first] + (rest + QualifiedNames(b).value);
    }
  }

  lemma {:induction false} QualifiedReadsBack(table: string, ids: seq<string>)
    ensures QualifiedNames(QualifiedTokens(table, ids)) == Some(ColumnsOf(table, ids))
    decreases |ids|
  {
    if ids != [] {
      assert QualifiedTokens(table, ids)[1..] == QualifiedTokens(table, ids[1..]);
      QualifiedReadsBack(table, ids[1..]);
      assert ColumnsOf(table, ids) == [(table, ids[0])] + ColumnsOf(table, ids[1..]);
    }
  }

  lemma {:induction false} GroupsReadBack(groups: seq<(string, seq<string>)>)
    ensures QualifiedNames(GroupTokens(groups)) == Some(GroupColumns(groups))
    decreases |groups|
  {
    hide QualifiedTokens, ColumnsOf;
    if groups != [] {
      GroupsReadBack(groups[1..]);
      QualifiedReadsBack(groups[0].0, groups[0].1);
      QualifiedJoin(QualifiedTokens(groups[0].0, groups[0].1), GroupTokens(groups[1..]));
    }
  }

  lemma QualifiedAreSolid(table: string, ids: seq<string>)
    ensures AllSolid(QualifiedTokens(table, ids))
  {
    hide Solid;
    forall i | 0 <= i < |ids| ensures Solid(QualifiedTokens(table, ids)[i], true) {
      OneIsSolid(Name(table), true);
      OneIsSolid(Sign('.'), true);
      OneIsSolid(Name(ids[i]), true);
      SolidJoin([Name(table)], [Sign('.')], true);
      SolidJoin([Name(table)] + [Sign('.')], [Name(ids[i])], true);
      assert [Name(table)] + [Sign('.')] + [Name(ids[i])] == [Name(table), Sign('.'), Name(ids[i])];
    }
  }

  lemma {:induction false} GroupsAreSolid(groups: seq<(string, seq<string>)>)
    ensures AllSolid(GroupTokens(groups))
    decreases |groups|
  {
    hide Solid, QualifiedTokens;
    if groups != [] {
      QualifiedAreSolid(groups[0].0, groups[0].1);
      GroupsAreSolid(groups[1..]);
    }
  }

  /** Every element of the list begins with a name. */
  lemma {:induction false} GroupsBeginWithNames(groups: seq<(string, seq<string>)>)
    ensures forall i :: 0 <= i < |GroupTokens(groups)| ==> GroupTokens(groups)[i] != [] && GroupTokens(groups)[i][0].Name?
    decreases |groups|
  {
    if groups != [] { GroupsBeginWithNames(groups[1..]); }
  }

  lemma ColumnsReadBack(q: JoinQuery)
    ensures var parts := JoinedParts(q); var columns := ColumnsOf(q.table, q.columns) + GroupColumns(q.joinedColumns);
      && ReadQualified(Commaed(parts)) == Some(columns) && Solid(Commaed(parts), false)
      && (parts != [] ==> Commaed(parts) != [] && Commaed(parts)[0].Name?) && (parts == [] ==> Commaed(parts) == [])
  {
    hide Solid, Commaed, SplitCommas, QualifiedNames, GroupTokens, GroupColumns;
    var parts := JoinedParts(q);
    QualifiedReadsBack(q.table, q.columns);
    GroupsReadBack(q.joinedColumns);
    QualifiedJoin(QualifiedTokens(q.table, q.columns), GroupTokens(q.joinedColumns));
    QualifiedAreSolid(q.table, q.columns);
    GroupsAreSolid(q.joinedColumns);
    GroupsBeginWithNames(q.joinedColumns);
    NoCommas();
    NoQualified();
    NothingIsSolid(false);
    if parts != [] {
      SplitOfCommaed(parts);
      CommaedBegins(parts);
    }
  }

  lemma NoQualified()
    ensures QualifiedNames([]) == Some([])
  {
  }

  lemma CommaedBegins(parts: seq<seq<Token>>)
    requires parts != [] && parts[0] != []
    ensures Commaed(parts) != [] && Commaed(parts)[0] == parts[0][0]
  {
    if |parts| == 1 {
      assert parts == [parts[0]];
      CommaedOne(parts[0]);
    } else {
      CommaedFirst(parts);
    }
  }

  lemma JoinedHeadReadsBack(q: JoinQuery)
    ensures var (distinct, list) := ReadDistinct(JoinedHead(q));
      distinct == q.distinct && ReadQualified(list) == Some(ColumnsOf(q.table, q.columns) + GroupColumns(q.joinedColumns))
    ensures Solid(JoinedHead(q), false)
  {
    hide Solid, Commaed, ReadQualified, JoinedParts, IsHead;
    ColumnsReadBack(q);
    var list := Commaed(JoinedParts(q));
    assert ([Word("DISTINCT")] + list)[1..] == list && [] + list == list;
    DistinctIsNoHead();
    OneIsSolid(Word("DISTINCT"), false);
    SolidJoin([Word("DISTINCT")], list, false);
  }

  lemma JoinedSectionsReadBack(d: Dialect, q: JoinQuery)
    requires JoinQueryOrdinary(q)
    ensures AllProper(JoinedSections(d, q)) && ReadJoinedSelect(Lay(JoinedSections(d, q))) == Some(JoinOutline(d, q))
  {
    hide Solid, Lay, TailSections, JoinSections, ReadJoins, ReadTail, Sections, JoinsOrdinary, OrdinaryNames, KeysOrdinary, JoinsOf, ReadKeys,
      JoinedHead, ReadDistinct, ReadQualified, IsHead, WhereTokens, ColumnsOf, GroupColumns, Avoids;
    var tail := TailSections(d, AllKeys(d, q.orderBy), q.limit, q.offset);
    var where := Clause("WHERE", WhereTokens(d, q.where));
    KeysAreSolid(d, q.orderBy);
    TailReadsBack(d, AllKeys(d, q.orderBy), q.limit, q.offset);
    KeysReadBack(d, q.orderBy);
    JoinRestBegins(d, q);
    TakeClause("WHERE", WhereTokens(d, q.where), tail);
    JoinsReadBack(d, q.joins, where + tail);
    JoinsAreProper(d, q.joins);
    TakeFirst(Section("FROM", [Name(q.table)]), JoinSections(d, q.joins) + (where + tail));
    TakeFirst(Section("SELECT", JoinedHead(q)), [Section("FROM", [Name(q.table)])] + (JoinSections(d, q.joins) + (where + tail)));
    JoinedHeadReadsBack(q);
    QueryHeads();
    HavingIsSolid(d, q.where);
    OneIsSolid(Name(q.table), false);
    SectionsOfLay(JoinedSections(d, q));
  }

  lemma JoinRestBegins(d: Dialect, q: JoinQuery)
    ensures var tail := TailSections(d, AllKeys(d, q.orderBy), q.limit, q.offset); var rest := Clause("WHERE", WhereTokens(d, q.where)) + tail;
      BeginsOther(rest, "INNER") && BeginsOther(rest, "LEFT") && BeginsOther(tail, "WHERE")
  {
    hide TailSections, WhereTokens;
    TailAvoids(d, AllKeys(d, q.orderBy), q.limit, q.offset, "INNER");
    TailAvoids(d, AllKeys(d, q.orderBy), q.limit, q.offset, "LEFT");
    TailAvoids(d, AllKeys(d, q.orderBy), q.limit, q.offset, "WHERE");
  }

  /** A generated SELECT with joins is read back: the qualified columns of every table, the joins with their conditions, and the rest. */
  lemma JoinReadsBack(d: Dialect, g: GeneratedSql, q: JoinQuery)
    requires Generates(d, g, JoinedItems(d, q)) && JoinQueryOrdinary(q) && !Refused(d, q.limit)
    ensures ReadJoinedSelect(Tokenize(d, g.sql)) == Some(JoinOutline(d, q))
  {
    hide RowSpells, ItemText, ItemSlots, JoinedItems, JoinedSections, ReadJoinedSelect, JoinOutline, JoinQueryOrdinary, Lay, Tokenize;
    JoinedRow(d, q);
    RowTokens(d, JoinedItems(d, q), Lay(JoinedSections(d, q)));
    JoinedSectionsReadBack(d, q);
  }
}
