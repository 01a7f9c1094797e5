/** The statement a batched update prepares once, read back from its characters, and the rows it is bound to. */
module BatchUpdates {
  import opened Values
  import opened Dialects
  import opened SqlLexer
  import opened SqlReader
  import opened SqlTokens
  import B = BatchContext
  import opened StatementRows
  import L = LayoutTree
  import PredicateTokens

  // ---------------------------------------------------------------------------------------------
  // The text
  // ---------------------------------------------------------------------------------------------

  /** Each column equated with a placeholder, with a separator between them. */
  function Pairs(d: Dialect, ids: seq<string>, separator: string): string {
    if ids == [] then ""
    else
      var n := |ids| - 1;
      Pairs(d, ids[..n], separator) + (if n > 0 then separator else "") + (QuoteId(d, ids[n]) + " = ?")
  }

  function UpdateText(d: Dialect, table: string, columns: seq<string>, keys: seq<string>): string {
    "UPDATE " + QuoteId(d, table) + " SET " + Pairs(d, columns, ", ") + " WHERE " + Pairs(d, keys, " AND ")
  }

  method PutPairs(d: Dialect, ids: seq<string>, separator: string) returns (text: string)
    ensures text == Pairs(d, ids, separator)
  {
    hide QuoteId;
    text := "";
    for i := 0 to |ids|
      invariant text == Pairs(d, ids[..i], separator)
    {
      assert ids[..i + 1][..i] == ids[..i];
      if i > 0 { text := text + separator; }
      var id := QuoteIdentifier(d, ids[i]);
      text := text + (id + " = ?");
    }
    assert ids[..|ids|] == ids;
  }

  /** The statement of `update_many`: the columns that are no keys are set, the keys are the condition. */
  method GenerateUpdateMany(d: Dialect, table: string, columns: seq<B.Column>) returns (text: string)
    ensures text == UpdateText(d, table, B.Names(B.Updating, columns, false), B.Names(B.Updating, columns, true))
  {
    hide QuoteId, Pairs;
    var updateCols: seq<string>, pkCols: seq<string> := [], [];
    for i := 0 to |columns|
      invariant updateCols == B.Names(B.Updating, columns[..i], false) && pkCols == B.Names(B.Updating, columns[..i], true)
    {
      assert columns[..i + 1][..i] == columns[..i];
      if columns[i].isPrimaryKey { pkCols := pkCols + [columns[i].name]; } else { updateCols := updateCols + [columns[i].name]; }
    }
    assert columns[..|columns|] == columns;
    var quoted := QuoteIdentifier(d, table);
    var list := PutPairs(d, updateCols, ", ");
    var condition := PutPairs(d, pkCols, " AND ");
    text := "UPDATE " + quoted + " SET " + list + " WHERE " + condition;
  }

  // ---------------------------------------------------------------------------------------------
  // Reading it
  // ---------------------------------------------------------------------------------------------

  /** The columns that placeholders are equated with, in the order of the placeholders; none if one stands elsewhere. */
  function MarkedColumns(ts: seq<Token>): Option<seq<string>> {
    if ts == [] then Some([])
    else if |ts| >= 3 && ts[0].Name? && ts[1] == Sign('=') && ts[2] == Sign('?') then
      match MarkedColumns(ts[3..])
      case None => None
      case Some(rest) => Some([ts[0].id] + rest)
    else if ts[0] == Sign('?') then None
    else MarkedColumns(ts[1..])
  }

  function PairTokens(ids: seq<string>, separator: Token): seq<Token> {
    if ids == [] then []
    else
      var n := |ids| - 1;
      PairTokens(ids[..n], separator) + (if n > 0 then [separator] else []) + [Name(ids[n]), Sign('='), Sign('?')]
  }

  lemma PairSpells(d: Dialect, id: string)
    ensures Spells(d, QuoteId(d, id) + " = ?", [Name(id), Sign('='), Sign('?')], false)
  {
    hide Spells, QuoteId;
    SpellsName(d, id);
    PredicateTokens.CmpSpells(d, L.Eq);
    PredicateTokens.SignSpells(d, '?');
    Parentheses(d);
    SpellsThen(d, " = ", [Sign('=')], true, "?", [Sign('?')], true);
    SpellsThen(d, QuoteId(d, id), [Name(id)], false, " = " + "?", [Sign('=')] + [Sign('?')], true);
    assert " = " + "?" == " = ?" && [Name(id)] + ([Sign('=')] + [Sign('?')]) == [Name(id), Sign('='), Sign('?')];
    SpellsLoosely(d, QuoteId(d, id) + " = ?", [Name(id), Sign('='), Sign('?')], true);
  }

  lemma {:induction false} PairsSpell(d: Dialect, ids: seq<string>, separator: string, t: Token)
    requires Spells(d, separator, [t], true) && separator != "" && BreakChar(d, separator[0])
    ensures Spells(d, Pairs(d, ids, separator), PairTokens(ids, t), false)
    decreases |ids|
  {
    hide Spells, QuoteId, BreakChar;
    SpellsNothing(d);
    SpellsLoosely(d, "", [], true);
    if ids != [] {
      var n := |ids| - 1;
      var front, tf := Pairs(d, ids[..n], separator), PairTokens(ids[..n], t);
      var last, tl := QuoteId(d, ids[n]) + " = ?", [Name(ids[n]), Sign('='), Sign('?')];
      PairsSpell(d, ids[..n], separator, t);
      PairSpells(d, ids[n]);
      if n > 0 {
        SpellsThen(d, front, tf, false, separator, [t], true);
        SpellsThen(d, front + separator, tf + [t], true, last, tl, false);
      } else {
        assert front + "" + last == last && tf + [] + tl == tl;
      }
    }
  }

  lemma {:induction false} PairsFirst(ids: seq<string>, t: Token)
    requires ids != []
    ensures PairTokens(ids, t)
         == [Name(ids[0]), Sign('='), Sign('?')] + (if |ids| > 1 then [t] + PairTokens(ids[1..], t) else [])
    decreases |ids|
  {
    var n := |ids| - 1;
    if n == 0 {
      assert ids[..0] == [];
    } else {
      PairsFirst(ids[..n], t);
      assert ids[..n][1..] == ids[1..][..n - 1];
      var first, last := [Name(ids[0]), Sign('='), Sign('?')], [Name(ids[n]), Sign('='), Sign('?')];
      var mid := PairTokens(ids[..n][1..], t);
      if n > 1 {
        assert first + ([t] + mid) + [t] + last == first + ([t] + (mid + [t] + last));
      } else {
        assert ids[1..][..0] == [];
        assert first + [] + [t] + last == first + ([t] + ([] + [] + last));
      }
    }
  }

  lemma MarkedOne(id: string, rest: seq<Token>)
    ensures MarkedColumns([Name(id), Sign('='), Sign('?')] + rest)
         == (match MarkedColumns(rest) case None => None case Some(more) => Some([id] + more))
  {
    assert ([Name(id), Sign('='), Sign('?')] + rest)[3..] == rest;
  }

  lemma MarkedSkips(t: Token, rest: seq<Token>)
    requires !t.Name? && t != Sign('?')
    ensures MarkedColumns([t] + rest) == MarkedColumns(rest)
  {
    assert ([t] + rest)[1..] == rest;
  }

  lemma {:induction false} MarkedOfPairs(ids: seq<string>, t: Token, rest: seq<Token>)
    requires !t.Name? && t != Sign('?')
    ensures MarkedColumns(PairTokens(ids, t) + rest)
         == (match MarkedColumns(rest) case None => None case Some(more) => Some(ids + more))
    decreases |ids|
  {
    hide MarkedColumns;
    if ids == [] {
      assert [] + rest == rest;
      assert MarkedColumns(rest).Some? ==> [] + MarkedColumns(rest).value == MarkedColumns(rest).value;
    } else {
      var first, tail := [Name(ids[0]), Sign('='), Sign('?')], PairTokens(ids[1..], t) + rest;
      PairsFirst(ids, t);
      MarkedOfPairs(ids[1..], t, rest);
      MarkedSkips(t, tail);
      assert ids == [ids[0]] + ids[1..];
      if |ids| > 1 {
        assert PairTokens(ids, t) + rest == first + ([t] + tail);
        MarkedOne(ids[0], [t] + tail);
      } else {
        assert PairTokens(ids, t) + rest == first + rest && tail == rest;
        MarkedOne(ids[0], rest);
      }
      assert MarkedColumns(rest).Some? ==> [ids[0]] + (ids[1..] + MarkedColumns(rest).value) == ids + MarkedColumns(rest).value;
    }
  }

  lemma {:induction false} PairsAreSolid(ids: seq<string>, t: Token)
    requires Solid([t], false)
    ensures Solid(PairTokens(ids, t), false)
    decreases |ids|
  {
    hide Solid;
    NothingIsSolid(false);
    if ids != [] {
      var n := |ids| - 1;
      PairsAreSolid(ids[..n], t);
      PairIsSolid(ids[n]);
      SolidJoin(PairTokens(ids[..n], t), if n > 0 then [t] else [], false);
      SolidJoin(PairTokens(ids[..n], t) + (if n > 0 then [t] else []), [Name(ids[n]), Sign('='), Sign('?')], false);
    }
  }

  lemma PairIsSolid(id: string)
    ensures Solid([Name(id), Sign('='), Sign('?')], false)
  {
    hide Solid;
    OneIsSolid(Name(id), false);
    OneIsSolid(Sign('='), false);
    OneIsSolid(Sign('?'), false);
    SolidJoin([Name(id)], [Sign('=')], false);
    SolidJoin([Name(id)] + [Sign('=')], [Sign('?')], false);
    assert [Name(id)] + [Sign('=')] + [Sign('?')] == [Name(id), Sign('='), Sign('?')];
  }

  /** The table, the columns set and the columns of the condition, each list in the order of its placeholders. */
  function ReadUpdateMany(ts: seq<Token>): Option<(string, seq<string>, seq<string>)> {
    match Sections(ts)
    case None => None
    case Some(ss) =>
      if |ss| != 3 || ss[0].head != "UPDATE" || ss[1].head != "SET" || ss[2].head != "WHERE" then None
      else match (ReadName(ss[0].body), MarkedColumns(ss[1].body), MarkedColumns(ss[2].body))
        case (Some(table), Some(columns), Some(keys)) => Some((table, columns, keys))
        case _ => None
  }

  function UpdateTokens(table: string, columns: seq<string>, keys: seq<string>): seq<Token> {
    [Word("UPDATE"), Name(table), Word("SET")] + PairTokens(columns, Sign(',')) + [Word("WHERE")] + PairTokens(keys, Word("AND"))
  }

  lemma SeparatorsSpell(d: Dialect)
    ensures Spells(d, ", ", [Sign(',')], true) && Spells(d, " AND ", [Word("AND")], true) && Spells(d, " WHERE ", [Word("WHERE")], true)
    ensures Spells(d, "UPDATE ", [Word("UPDATE")], true) && Spells(d, " SET ", [Word("SET")], true)
  {
    hide Spells;
    PredicateTokens.CommaSpells(d);
    OneWord(d, "AND");
    OneWord(d, "WHERE");
    OneWord(d, "UPDATE");
    OneWord(d, "SET");
    assert " " + "AND" + " " == " AND " && " " + "WHERE" + " " == " WHERE " && "UPDATE" + " " == "UPDATE " && " " + "SET" + " " == " SET ";
  }

  lemma UpdateTextTokens(d: Dialect, table: string, columns: seq<string>, keys: seq<string>)
    ensures Tokenize(d, UpdateText(d, table, columns, keys)) == UpdateTokens(table, columns, keys)
  {
    hide Spells, QuoteId, Pairs, PairTokens, Tokenize;
    var list, condition := Pairs(d, columns, ", "), Pairs(d, keys, " AND ");
    var tl, tc := PairTokens(columns, Sign(',')), PairTokens(keys, Word("AND"));
    SeparatorsSpell(d);
    Parentheses(d);
    PairsSpell(d, columns, ", ", Sign(','));
    PairsSpell(d, keys, " AND ", Word("AND"));
    SpellsName(d, table);
    SpellsThen(d, "UPDATE ", [Word("UPDATE")], true, QuoteId(d, table), [Name(table)], false);
    SpellsThen(d, "UPDATE " + QuoteId(d, table), [Word("UPDATE")] + [Name(table)], false, " SET ", [Word("SET")], true);
    var s, ts := "UPDATE " + QuoteId(d, table) + " SET ", [Word("UPDATE")] + [Name(table)] + [Word("SET")];
    Around(d, s, ts, list, tl, " WHERE ", [Word("WHERE")], true);
    SpellsThen(d, s + list + " WHERE ", ts + tl + [Word("WHERE")], true, condition, tc, false);
    assert ts == [Word("UPDATE"), Name(table), Word("SET")];
    TokensAre(d, UpdateText(d, table, columns, keys), ts + tl + [Word("WHERE")] + tc, false);
  }

  lemma AndIsNoHead()
    ensures !IsHead("AND") && IsHead("UPDATE") && IsHead("SET") && IsHead("WHERE")
  {
  }

  lemma UpdateTokensLaid(table: string, columns: seq<string>, keys: seq<string>)
    ensures var ss := [Section("UPDATE", [Name(table)]), Section("SET", PairTokens(columns, Sign(','))), Section("WHERE", PairTokens(keys, Word("AND")))];
      Lay(ss) == UpdateTokens(table, columns, keys) && Sections(UpdateTokens(table, columns, keys)) == Some(ss)
  {
    hide Solid, PairTokens, Lay, Sections, IsHead;
    var list, condition := PairTokens(columns, Sign(',')), PairTokens(keys, Word("AND"));
    var update, changes, where := Section("UPDATE", [Name(table)]), Section("SET", list), Section("WHERE", condition);
    LayJoin([update], [changes] + [where]);
    LayJoin([changes], [where]);
    LayOne("UPDATE", [Name(table)]);
    LayOne("SET", list);
    LayOne("WHERE", condition);
    assert [update] + ([changes] + [where]) == [update, changes, where];
    RegroupUpdateTokens(Name(table), list, condition);
    AndIsNoHead();
    OneIsSolid(Name(table), false);
    OneIsSolid(Sign(','), false);
    OneIsSolid(Word("AND"), false);
    PairsAreSolid(columns, Sign(','));
    PairsAreSolid(keys, Word("AND"));
    SectionsOfLay([update, changes, where]);
  }

  lemma RegroupUpdateTokens(name: Token, list: seq<Token>, condition: seq<Token>)
    ensures [Word("UPDATE")] + [name] + ([Word("SET")] + list + ([Word("WHERE")] + condition))
         == [Word("UPDATE"), name, Word("SET")] + list + [Word("WHERE")] + condition
  {
  }

  /** The statement is read back: its table, what it sets, and its condition. */
  lemma UpdateManyReadsBack(d: Dialect, table: string, columns: seq<string>, keys: seq<string>)
    ensures ReadUpdateMany(Tokenize(d, UpdateText(d, table, columns, keys))) == Some((table, columns, keys))
    ensures MarkedColumns(Tokenize(d, UpdateText(d, table, columns, keys))) == Some(columns + keys)
  {
    hide Tokenize, UpdateText, PairTokens, MarkedColumns, Sections;
    var list, condition := PairTokens(columns, Sign(',')), PairTokens(keys, Word("AND"));
    UpdateTextTokens(d, table, columns, keys);
    UpdateTokensLaid(table, columns, keys);
    NoMarks();
    MarkedOfPairs(columns, Sign(','), []);
    MarkedOfPairs(keys, Word("AND"), []);
    assert list + [] == list && condition + [] == condition && columns + [] == columns && keys + [] == keys;
    MarkedSkips(Word("WHERE"), condition);
    MarkedOfPairs(columns, Sign(','), [Word("WHERE")] + condition);
    MarkedBeginning(table, list + ([Word("WHERE")] + condition));
    assert [Word("UPDATE"), Name(table), Word("SET")] + (list + ([Word("WHERE")] + condition)) == UpdateTokens(table, columns, keys);
  }

  lemma NoMarks()
    ensures MarkedColumns([]) == Some([])
  {
  }

  lemma MarkedBeginning(table: string, rest: seq<Token>)
    ensures MarkedColumns([Word("UPDATE"), Name(table), Word("SET")] + rest) == MarkedColumns(rest)
  {
    var ts := [Word("UPDATE"), Name(table), Word("SET")] + rest;
    assert ts[1..] == [Name(table), Word("SET")] + rest && ts[1..][1..] == [Word("SET")] + rest;
    MarkedSkips(Word("SET"), rest);
    assert ts[1..][1] == Word("SET");
    assert MarkedColumns(ts[1..]) == MarkedColumns(ts[1..][1..]);
  }

  /**
   * The statement `update_many` prepares, and the row it binds for an entity: the value at the `p`-th placeholder of the
   * text is the entity's value of the column named beside that placeholder. The columns set come first, and none of
   * them is a key; then come the keys.
   */
  lemma UpdateManyBindsEntities(d: Dialect, table: string, columns: seq<B.Column>, entity: seq<BoundValue>, text: string, p: nat) returns (i: nat)
    requires |entity| == |columns| && p < |B.RowOf(B.Updating, columns, entity)|
    requires text == UpdateText(d, table, B.Names(B.Updating, columns, false), B.Names(B.Updating, columns, true))
    ensures var marked := MarkedColumns(Tokenize(d, text)); var read := ReadUpdateMany(Tokenize(d, text));
      && marked.Some? && read.Some? && marked.value == read.value.1 + read.value.2
      && |marked.value| == |B.RowOf(B.Updating, columns, entity)|
      && i < |columns| && columns[i].name == marked.value[p] && B.RowOf(B.Updating, columns, entity)[p] == entity[i]
      && (columns[i].isPrimaryKey <==> p >= |read.value.1|)
  {
    hide Tokenize, UpdateText, MarkedColumns, ReadUpdateMany, B.Group, B.Names;
    var names, keys := B.Names(B.Updating, columns, false), B.Names(B.Updating, columns, true);
    UpdateManyReadsBack(d, table, names, keys);
    B.GroupLength(B.Updating, columns, entity, false);
    B.GroupLength(B.Updating, columns, entity, true);
    if p < |names| {
      i := B.ValuesMeetTheirPlaceholders(B.Updating, columns, entity, false, p);
    } else {
      i := B.ValuesMeetTheirPlaceholders(B.Updating, columns, entity, true, p - |names|);
    }
  }
}
