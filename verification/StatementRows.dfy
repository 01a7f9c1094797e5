/** The rows of a statement's layout as tokens, and how optional clauses print. */
module StatementRows {
  import opened Values
  import opened Dialects
  import opened LayoutTree
  import opened SqlAst
  import opened SqlText
  import opened SqlStatements
  import opened SqlLexer
  import opened SqlReader
  import opened SqlTokens
  import PredicateTokens

  // ---------------------------------------------------------------------------------------------
  // The tokens of rows
  // ---------------------------------------------------------------------------------------------

  /** A row is cut into these tokens wherever it stands. */
  ghost predicate RowSpells(d: Dialect, items: seq<Item>, ts: seq<Token>, closed: bool) {
    forall base: nat :: Spells(d, ItemText(d, items, base), ts, closed)
  }

  /** A row that begins with a break. */
  predicate Starts(d: Dialect, items: seq<Item>) {
    items != [] && items[0].Tok? && LexemeText(d, items[0].lexeme) != "" && BreakChar(d, LexemeText(d, items[0].lexeme)[0])
  }

  lemma StartsWithBreak(d: Dialect, items: seq<Item>, base: nat)
    requires Starts(d, items)
    ensures ItemText(d, items, base) != "" && BreakChar(d, ItemText(d, items, base)[0])
  {
    hide LexemeText, BreakChar;
    var rest := ItemPieces(items[1..], base);
    assert ItemPieces(items, base) == [Lex(items[0].lexeme)] + rest;
    assert Flatten(d, [Lex(items[0].lexeme)] + rest) == LexemeText(d, items[0].lexeme) + Flatten(d, rest) by {
      assert ([Lex(items[0].lexeme)] + rest)[1..] == rest;
    }
  }

  lemma RowThen(d: Dialect, a: seq<Item>, ta: seq<Token>, ca: bool, b: seq<Item>, tb: seq<Token>, cb: bool)
    requires RowSpells(d, a, ta, ca) && RowSpells(d, b, tb, cb) && (ca || Starts(d, b))
    ensures RowSpells(d, a + b, ta + tb, cb)
  {
    hide Spells, ItemText, Starts, BreakChar;
    forall base: nat ensures Spells(d, ItemText(d, a + b, base), ta + tb, cb) {
      var next := base + |ItemSlots(a)|;
      TextOfAppend(d, a, b, base);
      if !ca { StartsWithBreak(d, b, next); }
      SpellsThen(d, ItemText(d, a, base), ta, ca, ItemText(d, b, next), tb, cb);
    }
  }

  /** A row, and another that may be missing. */
  lemma RowMaybe(d: Dialect, a: seq<Item>, ta: seq<Token>, b: seq<Item>, tb: seq<Token>)
    requires RowSpells(d, a, ta, false) && RowSpells(d, b, tb, false) && (b == [] ==> tb == []) && (b != [] ==> Starts(d, b))
    ensures RowSpells(d, a + b, ta + tb, false)
  {
    hide RowSpells, Starts;
    if b == [] { assert a + b == a && ta + tb == ta; } else { RowThen(d, a, ta, false, b, tb, false); }
  }

  lemma NoRow(d: Dialect)
    ensures RowSpells(d, [], [], true) && RowSpells(d, [], [], false)
  {
    SpellsNothing(d);
    SpellsLoosely(d, "", [], true);
    forall base: nat ensures ItemText(d, [], base) == "" { EmptyRow(d, base); }
  }

  lemma RowLoosely(d: Dialect, items: seq<Item>, ts: seq<Token>)
    requires RowSpells(d, items, ts, true)
    ensures RowSpells(d, items, ts, false)
  {
    forall base: nat ensures Spells(d, ItemText(d, items, base), ts, false) { SpellsLoosely(d, ItemText(d, items, base), ts, true); }
  }

  lemma WordsRow(d: Dialect, ls: seq<Lexeme>, ts: seq<Token>, closed: bool)
    requires Spells(d, LexText(d, ls), ts, closed)
    ensures RowSpells(d, Toks(ls), ts, closed)
  {
    hide Spells, ItemText, LexText;
    forall base: nat ensures Spells(d, ItemText(d, Toks(ls), base), ts, closed) { TextOfToks(d, ls, base); }
  }

  lemma WordRow(d: Dialect, l: Lexeme, ts: seq<Token>, closed: bool)
    requires Spells(d, LexemeText(d, l), ts, closed)
    ensures RowSpells(d, Toks([l]), ts, closed)
  {
    hide Spells, LexemeText, LexText;
    LexOne(d, l);
    WordsRow(d, [l], ts, closed);
  }

  lemma NameRow(d: Dialect, id: string)
    ensures RowSpells(d, Toks([Ident(id)]), [Name(id)], false)
  {
    hide Spells, LexemeText, QuoteId;
    SpellsName(d, id);
    PredicateTokens.TextOfIdent(d, id);
    WordRow(d, Ident(id), [Name(id)], false);
  }

  lemma ExprRow(d: Dialect, e: Expr)
    requires OrdinaryNames(e)
    ensures RowSpells(d, [Sub(Shape(d, e))], ExprTokens(d, e), false)
  {
    hide Spells, ItemText, TreeText, Shape, ExprTokens, OrdinaryNames;
    forall base: nat ensures Spells(d, ItemText(d, [Sub(Shape(d, e))], base), ExprTokens(d, e), false) {
      TextOfSub(d, Shape(d, e), base);
      Texts(d, e, base);
      ExprSpells(d, e, base);
    }
  }

  lemma ListOfRow(d: Dialect, es: seq<Expr>)
    requires AllOrdinary(es)
    ensures RowSpells(d, ListItems(ShapesOf(d, es)), Commaed(AllTokens(d, es)), false)
  {
    hide Spells, ItemText, ListItems, AllTokens, Commaed, AllOrdinary;
    forall base: nat ensures Spells(d, ItemText(d, ListItems(ShapesOf(d, es)), base), Commaed(AllTokens(d, es)), false) {
      ListTexts(d, es, base);
      ListSpells(d, es, base);
    }
  }

  lemma KeysRow(d: Dialect, os: seq<Order>)
    requires KeysOrdinary(os)
    ensures RowSpells(d, OrderItems(KeyShapes(d, os), os), Commaed(AllKeys(d, os)), false)
  {
    hide Spells, ItemText, OrderItems, AllKeys, Commaed, KeysOrdinary;
    forall base: nat ensures Spells(d, ItemText(d, OrderItems(KeyShapes(d, os), os), base), Commaed(AllKeys(d, os)), false) {
      KeysSpell(d, os, base);
    }
  }

  /** The text of a whole row. */
  lemma RowTokens(d: Dialect, items: seq<Item>, ts: seq<Token>)
    requires RowSpells(d, items, ts, false)
    ensures Tokenize(d, ItemText(d, items, 0)) == ts
  {
    hide Tokenize, Spells;
    TokensAre(d, ItemText(d, items, 0), ts, false);
  }

  // ---------------------------------------------------------------------------------------------
  // The words of statements
  // ---------------------------------------------------------------------------------------------

  /** A raw text that begins with a blank. */
  lemma RawStarts(d: Dialect, text: PlainText, rest: seq<Item>)
    requires text != "" && text[0] == ' '
    ensures Starts(d, Toks([Raw(text)]) + rest)
  {
  }

  lemma RawRow(d: Dialect, text: PlainText, ts: seq<Token>, closed: bool)
    requires Spells(d, text, ts, closed)
    ensures RowSpells(d, Toks([Raw(text)]), ts, closed)
  {
    hide Spells;
    RawText(d, text);
    WordRow(d, Raw(text), ts, closed);
  }

  /** A clause of one head and an expression. */
  lemma ClauseRow(d: Dialect, word: PlainText, head: string, e: Option<Expr>)
    requires IsWord(head) && word == " " + head + " " && (e.Some? ==> OrdinaryNames(e.value))
    ensures RowSpells(d, ClauseItems(d, word, e), Lay(Clause(head, WhereTokens(d, e))), false)
    ensures ClauseItems(d, word, e) == [] || Starts(d, ClauseItems(d, word, e))
  {
    hide RowSpells, ExprTokens, Starts, OrdinaryNames, Shape, IsWord;
    NoRow(d);
    if e.Some? {
      OneWord(d, head);
      RawRow(d, word, [Word(head)], true);
      ExprRow(d, e.value);
      RowThen(d, Toks([Raw(word)]), [Word(head)], true, [Sub(Shape(d, e.value))], ExprTokens(d, e.value), false);
      LayOne(head, ExprTokens(d, e.value));
      RawStarts(d, word, [Sub(Shape(d, e.value))]);
    }
  }

  lemma LayOne(head: string, body: seq<Token>)
    ensures Lay([Section(head, body)]) == [Word(head)] + body && Lay([]) == []
  {
    assert [Section(head, body)][1..] == [];
  }

  // ---------------------------------------------------------------------------------------------
}
