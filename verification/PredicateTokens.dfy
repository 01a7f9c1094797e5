/** From the tokens of a predicate to its lexemes, and reading a predicate back from its characters and slots. */
module PredicateTokens {
  import opened Values
  import opened Dialects
  import opened LayoutTree
  import opened SqlAst
  import opened SqlText
  import opened SqlLexer
  import opened PredicateParser
  import PredicateText

  // ---------------------------------------------------------------------------------------------
  // Lexemes of several tokens
  // ---------------------------------------------------------------------------------------------

  /** The lexeme at the start, and how many tokens it takes: `<=` is two signs, IS NOT NULL three words. */
  function NextLexeme(ts: seq<Token>): (r: Option<(Piece, nat)>)
    requires ts != []
    ensures r.Some? ==> 1 <= r.value.1 <= |ts|
  {
    match ts[0]
    case Name(id) => Some((Lex(Ident(id)), 1))
    case Constant(_) => None
    case Sign(c) =>
      if c == '?' then Some((Mark(0), 1))
      else if c == '(' then Some((Lex(LParen), 1))
      else if c == ')' then Some((Lex(RParen), 1))
      else if c == ',' then Some((Lex(Comma), 1))
      else if c == '.' then Some((Lex(Dot), 1))
      else if c == '=' then Some((Lex(Cmp(Eq)), 1))
      else if c == '<' then
        if Follows(ts, Sign('>')) then Some((Lex(Cmp(Ne)), 2))
        else if Follows(ts, Sign('=')) then Some((Lex(Cmp(Le)), 2))
        else Some((Lex(Cmp(Lt)), 1))
      else if c == '>' then
        if Follows(ts, Sign('=')) then Some((Lex(Cmp(Ge)), 2)) else Some((Lex(Cmp(Gt)), 1))
      else None
    case Word(w) =>
      if w == "AND" then Some((Lex(AndWord), 1))
      else if w == "OR" then Some((Lex(OrWord), 1))
      else if w == "BETWEEN" then Some((Lex(BetweenWord(false)), 1))
      else if w == "LIKE" then Some((Lex(LikeWord(false)), 1))
      else if w == "IN" then Some((Lex(InWord(false)), 1))
      else if w == "NOT" then
        if Follows(ts, Word("BETWEEN")) then Some((Lex(BetweenWord(true)), 2))
        else if Follows(ts, Word("LIKE")) then Some((Lex(LikeWord(true)), 2))
        else if Follows(ts, Word("IN")) then Some((Lex(InWord(true)), 2))
        else Some((Lex(NotWord), 1))
      else if w == "IS" then
        if Follows(ts, Word("NULL")) then Some((Lex(NullTest(false)), 2))
        else if |ts| > 2 && ts[1] == Word("NOT") && ts[2] == Word("NULL") then Some((Lex(NullTest(true)), 3))
        else None
      else None
  }

  predicate Follows(ts: seq<Token>, t: Token) { |ts| > 1 && ts[1] == t }

  function Cons(p: Piece, rest: Option<seq<Piece>>): Option<seq<Piece>> { if rest == None then None else Some([p] + rest.value) }

  /** The lexemes the tokens make; a placeholder says nothing of its number. */
  function Compound(ts: seq<Token>): Option<seq<Piece>> {
    if ts == [] then Some([])
    else match NextLexeme(ts)
      case None => None
      case Some((p, n)) => Cons(p, Compound(ts[n..]))
  }

  /** Reading a predicate: lexemes, then the parser, then the slots for the placeholders. */
  function ReadTokens(ts: seq<Token>, slots: seq<Slot>): Option<Expr> {
    match Compound(ts)
    case None => None
    case Some(ps) => Parse(ps, slots)
  }

  function ReadText(d: Dialect, text: string, slots: seq<Slot>): Option<Expr> { ReadTokens(Tokenize(d, text), slots) }

  // ---------------------------------------------------------------------------------------------
  // Cutting inverts printing
  // ---------------------------------------------------------------------------------------------

  /** The words and signs of predicates. */
  predicate Connects(l: Lexeme) { !l.Raw? && !l.DaysConstant? && !l.Verbatim? && !l.Ident? }

  function WordTokens(l: Lexeme): seq<Token>
    requires Connects(l)
  {
    match l
    case Dot => [Sign('.')]
    case LParen => [Sign('(')]
    case RParen => [Sign(')')]
    case Comma => [Sign(',')]
    case Cmp(op) => CmpTokens(op)
    case AndWord => [Word("AND")]
    case OrWord => [Word("OR")]
    case NotWord => [Word("NOT")]
    case NullTest(negated) => if negated then [Word("IS"), Word("NOT"), Word("NULL")] else [Word("IS"), Word("NULL")]
    case BetweenWord(negated) => Negatable(negated, "BETWEEN")
    case LikeWord(negated) => Negatable(negated, "LIKE")
    case InWord(negated) => Negatable(negated, "IN")
  }

  function Negatable(negated: bool, word: string): seq<Token> { (if negated then [Word("NOT")] else []) + [Word(word)] }

  function CmpTokens(op: CompareOp): seq<Token> {
    match op
    case Eq => [Sign('=')]
    case Ne => [Sign('<'), Sign('>')]
    case Lt => [Sign('<')]
    case Le => [Sign('<'), Sign('=')]
    case Gt => [Sign('>')]
    case Ge => [Sign('>'), Sign('=')]
  }

  function PieceTokens(p: Piece): seq<Token>
    requires Known(p)
  {
    match p
    case Mark(_) => [Sign('?')]
    case Lex(l) => if l.Ident? then [Name(l.id)] else WordTokens(l)
  }

  function PiecesTokens(ps: seq<Piece>): seq<Token>
    requires forall i :: 0 <= i < |ps| ==> Known(ps[i])
  {
    if ps == [] then [] else PieceTokens(ps[0]) + PiecesTokens(ps[1..])
  }

  predicate IsIdent(p: Piece) { p.Lex? && p.lexeme.Ident? }

  predicate IsCmp(p: Piece) { p.Lex? && p.lexeme.Cmp? }

  predicate Known(p: Piece) { p == Mark(0) || (p.Lex? && (p.lexeme.Ident? || Connects(p.lexeme))) }

  /** Ends in a word or a quote, so that the next piece must not begin with one. */
  predicate Open(p: Piece) { p.Lex? && (p.lexeme.Ident? || p.lexeme.NullTest?) }

  predicate Negated(p: Piece) { p.Lex? && (p.lexeme.BetweenWord? || p.lexeme.LikeWord? || p.lexeme.InWord?) }

  /** Neighbours that do not run together. */
  predicate Fits(p: Piece, q: Piece) {
    !(Open(p) && (IsIdent(q) || q == Lex(NotWord))) && !(p == Lex(NotWord) && Negated(q)) && !(IsCmp(p) && IsCmp(q))
  }

  predicate Tidy(ps: seq<Piece>) {
    && (forall i :: 0 <= i < |ps| ==> Known(ps[i]))
    && (forall i :: 0 < i < |ps| ==> Fits(ps[i - 1], ps[i]))
  }

  lemma CmpSpells(d: Dialect, op: CompareOp)
    ensures Spells(d, CmpText(op), CmpTokens(op), true)
  {
    hide Spells;
    var first := CmpTokens(op)[0].c;
    SpellsBlank(d);
    ThenSign(d, " ", [], true, first);
    var s, ts := " " + [first], [] + [Sign(first)];
    if |CmpTokens(op)| == 2 {
      ThenSign(d, s, ts, true, CmpTokens(op)[1].c);
      s, ts := s + [CmpTokens(op)[1].c], ts + [CmpTokens(op)[1]];
    }
    SpellsThen(d, s, ts, true, " ", [], true);
    assert ts + [] == CmpTokens(op) && s + " " == CmpText(op);
  }

  lemma NegatableSpells(d: Dialect, negated: bool, word: string)
    requires IsWord(word)
    ensures Spells(d, (if negated then " NOT " else " ") + (word + " "), Negatable(negated, word), true)
  {
    hide Spells, IsWord;
    SpellsWord(d, word);
    WordThenBlank(d, word, [Word(word)]);
    SpellsBlank(d);
    assert IsWord("NOT") by { NotIsWord(); }
    BlankThenWord(d, "NOT");
    WordThenBlank(d, " " + "NOT", [Word("NOT")]);
    assert " " + "NOT" + " " == " NOT ";
    SpellsThen(d, if negated then " NOT " else " ", if negated then [Word("NOT")] else [], true, word + " ", [Word(word)], true);
  }

  lemma NotIsWord()
    ensures IsWord("NOT") && IsWord("AND") && IsWord("OR") && IsWord("IS") && IsWord("NULL")
    ensures IsWord("BETWEEN") && IsWord("LIKE") && IsWord("IN")
  {
  }

  lemma NullTestSpells(d: Dialect, negated: bool)
    ensures Spells(d, if negated then " IS NOT NULL" else " IS NULL", WordTokens(NullTest(negated)), false)
  {
    hide Spells, IsWord;
    NotIsWord();
    BlankThenWord(d, "IS");
    if negated {
      ThenWord(d, " " + "IS", [Word("IS")], "NOT");
      ThenWord(d, " " + "IS" + (" " + "NOT"), [Word("IS")] + [Word("NOT")], "NULL");
      assert " " + "IS" + (" " + "NOT") + (" " + "NULL") == " IS NOT NULL";
      assert [Word("IS")] + [Word("NOT")] + [Word("NULL")] == WordTokens(NullTest(true));
    } else {
      ThenWord(d, " " + "IS", [Word("IS")], "NULL");
      assert " " + "IS" + (" " + "NULL") == " IS NULL";
      assert [Word("IS")] + [Word("NULL")] == WordTokens(NullTest(false));
    }
  }

  lemma SignSpells(d: Dialect, c: char)
    requires c in "().?"
    ensures Spells(d, [c], [Sign(c)], true)
  {
    SpellsSign(d, c);
  }

  lemma CommaSpells(d: Dialect)
    ensures Spells(d, ", ", [Sign(',')], true)
  {
    hide Spells;
    SpellsSign(d, ',');
    SpellsBlank(d);
    SpellsThen(d, [','], [Sign(',')], true, " ", [], true);
    assert [','] + " " == ", " && [Sign(',')] + [] == [Sign(',')];
  }

  lemma JunctionSpells(d: Dialect, word: string)
    requires IsWord(word)
    ensures Spells(d, " " + word + " ", [Word(word)], true) && Spells(d, word + " ", [Word(word)], true)
  {
    hide Spells, IsWord;
    BlankThenWord(d, word);
    SpellsWord(d, word);
    WordThenBlank(d, " " + word, [Word(word)]);
    WordThenBlank(d, word, [Word(word)]);
  }

  /** What each word of a predicate is cut into. */
  lemma WordSpells(d: Dialect, l: Lexeme)
    requires Connects(l)
    ensures Spells(d, LexemeText(d, l), WordTokens(l), !l.NullTest?)
  {
    hide Spells, IsWord;
    NotIsWord();
    match l
    case Dot => SignSpells(d, '.');
    case LParen => SignSpells(d, '(');
    case RParen => SignSpells(d, ')');
    case Comma => CommaSpells(d);
    case Cmp(op) => CmpSpells(d, op);
    case AndWord => JunctionSpells(d, "AND"); assert " " + "AND" + " " == " AND ";
    case OrWord => JunctionSpells(d, "OR"); assert " " + "OR" + " " == " OR ";
    case NotWord => JunctionSpells(d, "NOT"); assert "NOT" + " " == "NOT ";
    case NullTest(negated) => NullTestSpells(d, negated);
    case BetweenWord(negated) =>
      NegatableSpells(d, negated, "BETWEEN");
      assert (if negated then " NOT " else " ") + ("BETWEEN" + " ") == LexemeText(d, l);
    case LikeWord(negated) =>
      NegatableSpells(d, negated, "LIKE");
      assert (if negated then " NOT " else " ") + ("LIKE" + " ") == LexemeText(d, l);
    case InWord(negated) =>
      NegatableSpells(d, negated, "IN");
      assert (if negated then " NOT " else " ") + ("IN" + " ") == LexemeText(d, l);
  }

  lemma PieceSpells(d: Dialect, p: Piece)
    requires Known(p)
    ensures Spells(d, Render(d, p), PieceTokens(p), !Open(p))
  {
    hide Spells, LexemeText, WordTokens;
    match p
    case Mark(_) => SignSpells(d, '?');
    case Lex(l) =>
      if l.Ident? {
        TextOfIdent(d, l.id);
        SpellsName(d, l.id);
      } else {
        WordSpells(d, l);
      }
  }

  lemma TextOfIdent(d: Dialect, id: string)
    ensures LexemeText(d, Ident(id)) == QuoteId(d, id)
  {
  }

  /** Everything but an identifier and NOT begins with a break. */
  lemma PieceBreaks(d: Dialect, p: Piece)
    requires Known(p) && !IsIdent(p) && p != Lex(NotWord)
    ensures Render(d, p) != "" && BreakChar(d, Render(d, p)[0])
  {
  }

  /** The tokens of a tidy text are those of its pieces. */
  lemma {:induction false} TokenizesPieces(d: Dialect, ps: seq<Piece>)
    requires Tidy(ps)
    ensures Tokenize(d, Flatten(d, ps)) == PiecesTokens(ps)
    decreases |ps|
  {
    if ps != [] {
      hide Tokenize, Spells, PieceTokens, Known;
      var rest := Flatten(d, ps[1..]);
      TidyRest(ps);
      TokenizesPieces(d, ps[1..]);
      PieceSpells(d, ps[0]);
      if |ps| > 1 && Open(ps[0]) {
        assert Fits(ps[0], ps[1]);
        PieceBreaks(d, ps[1]);
        assert rest[0] == Render(d, ps[1])[0];
      }
      Cut(d, Render(d, ps[0]), PieceTokens(ps[0]), !Open(ps[0]), rest);
    }
  }

  lemma TidyRest(ps: seq<Piece>)
    requires Tidy(ps) && ps != []
    ensures Tidy(ps[1..]) && Known(ps[0]) && (|ps| > 1 ==> Known(ps[1]))
  {
    assert forall i :: 0 <= i < |ps| - 1 ==> ps[1..][i] == ps[i + 1];
  }

  /** A token that does not lengthen the piece before it. */
  predicate Apart(p: Piece, t: Token) {
    && (p == Lex(NotWord) ==> t !in [Word("BETWEEN"), Word("LIKE"), Word("IN")])
    && (IsCmp(p) ==> t != Sign('=') && t != Sign('>'))
  }

  lemma FitsApart(p: Piece, q: Piece)
    requires Known(p) && Known(q) && Fits(p, q)
    ensures PieceTokens(q) != [] && Apart(p, PieceTokens(q)[0])
  {
    if q.Lex? && !q.lexeme.Ident? {
      var l := q.lexeme;
      if p == Lex(NotWord) { assert !Negated(q); }
      assert IsCmp(p) ==> !l.Cmp?;
    }
  }

  lemma SignIsNext(p: Piece, ts: seq<Token>)
    requires Known(p) && PieceTokens(p) <= ts && PieceTokens(p)[0].Sign? && (|ts| > |PieceTokens(p)| ==> Apart(p, ts[|PieceTokens(p)|]))
    ensures NextLexeme(ts) == Some((p, |PieceTokens(p)|))
  {
    assert forall i :: 0 <= i < |PieceTokens(p)| ==> ts[i] == PieceTokens(p)[i];
  }

  lemma WordIsNext(p: Piece, ts: seq<Token>)
    requires Known(p) && PieceTokens(p) <= ts && !PieceTokens(p)[0].Sign? && (|ts| > |PieceTokens(p)| ==> Apart(p, ts[|PieceTokens(p)|]))
    ensures NextLexeme(ts) == Some((p, |PieceTokens(p)|))
  {
    assert forall i :: 0 <= i < |PieceTokens(p)| ==> ts[i] == PieceTokens(p)[i];
  }

  /** One piece is recognised in front of the tokens of one that fits it. */
  lemma NextOfPiece(p: Piece, rest: seq<Piece>)
    requires Known(p) && (forall i :: 0 <= i < |rest| ==> Known(rest[i])) && (rest != [] ==> Fits(p, rest[0]))
    ensures PieceTokens(p) != [] && NextLexeme(PieceTokens(p) + PiecesTokens(rest)) == Some((p, |PieceTokens(p)|))
    ensures (PieceTokens(p) + PiecesTokens(rest))[|PieceTokens(p)|..] == PiecesTokens(rest)
  {
    hide PiecesTokens, NextLexeme, WordTokens, Apart, Fits;
    var ts := PieceTokens(p) + PiecesTokens(rest);
    HasTokens(p);
    FirstToken(rest);
    if rest != [] { FitsApart(p, rest[0]); }
    if PieceTokens(p)[0].Sign? { SignIsNext(p, ts); } else { WordIsNext(p, ts); }
  }

  lemma HasTokens(p: Piece)
    requires Known(p)
    ensures PieceTokens(p) != []
  {
  }

  lemma PieceHasTokens(p: Piece)
    requires Known(p)
    ensures PieceTokens(p) != []
  {
  }

  lemma FirstToken(ps: seq<Piece>)
    requires forall i :: 0 <= i < |ps| ==> Known(ps[i])
    ensures ps != [] ==> PiecesTokens(ps) != [] && PiecesTokens(ps)[0] == PieceTokens(ps[0])[0]
    ensures ps == [] ==> PiecesTokens(ps) == []
  {
    hide PieceTokens, Known;
    if ps != [] {
      PieceHasTokens(ps[0]);
      assert PiecesTokens(ps) == PieceTokens(ps[0]) + PiecesTokens(ps[1..]);
    }
  }

  lemma {:induction false} CompoundsPieces(ps: seq<Piece>)
    requires Tidy(ps)
    ensures Compound(PiecesTokens(ps)) == Some(ps)
    decreases |ps|
  {
    if ps != [] {
      hide NextLexeme, PieceTokens, Known;
      TidyRest(ps);
      CompoundsPieces(ps[1..]);
      NextOfPiece(ps[0], ps[1..]);
      FirstToken(ps);
      assert ps == [ps[0]] + ps[1..];
    }
  }

  lemma TidyJoin(a: seq<Piece>, b: seq<Piece>)
    requires Tidy(a) && Tidy(b) && (a == [] || b == [] || Fits(a[|a| - 1], b[0]))
    ensures Tidy(a + b)
  {
    hide Fits, Known;
  }

  /** How operands begin and end. */
  predicate StartsOperand(ps: seq<Piece>) {
    ps == [] || IsIdent(ps[0]) || ps[0] == Mark(0) || ps[0] == Lex(LParen) || ps[0] == Lex(NotWord)
  }

  predicate EndsOperand(ps: seq<Piece>) {
    ps == [] || Open(ps[|ps| - 1]) || ps[|ps| - 1] == Mark(0) || ps[|ps| - 1] == Lex(RParen)
  }

  lemma TidyWord(l: Lexeme)
    requires Connects(l)
    ensures Tidy([Lex(l)])
  {
  }

  /** A tidy text in parentheses. */
  lemma TidyInside(a: seq<Piece>)
    requires Tidy(a)
    ensures Tidy([Lex(LParen)] + a + [Lex(RParen)]) && Tidy([Lex(LParen)] + a) && Tidy(a + [Lex(RParen)])
  {
    hide Tidy;
    TidyWord(LParen);
    TidyWord(RParen);
    TidyJoin([Lex(LParen)], a);
    TidyJoin([Lex(LParen)] + a, [Lex(RParen)]);
    TidyJoin(a, [Lex(RParen)]);
  }

  /** A word between what may be operands. */
  lemma TidyThen(a: seq<Piece>, l: Lexeme, b: seq<Piece>)
    requires Connects(l) && !l.Dot? && !l.NullTest? && (l == NotWord ==> a == []) && Tidy(a) && Tidy(b)
    requires EndsOperand(a) && StartsOperand(b)
    ensures Tidy(a + ([Lex(l)] + b)) && Tidy([Lex(l)] + b)
  {
    hide Tidy;
    TidyWord(l);
    TidyJoin([Lex(l)], b);
    TidyJoin(a, [Lex(l)] + b);
  }

  lemma {:induction false} PrintedEdges(e: Expr)
    requires InFragment(e)
    ensures var ps := Printed(e, Unnumbered); ps != [] && StartsOperand(ps) && EndsOperand(ps)
    decreases e
  {
    if e.IsNull? { PrintedEdges(e.operand); }
  }

  lemma PredicateIsTidy(e: Expr)
    requires InFragment(e) && IsPredicate(e) && Tidy(Printed(FirstOperand(e), Unnumbered)) && Tidy(SuffixPieces(e, Unnumbered))
    ensures Tidy(Printed(e, Unnumbered))
  {
    hide Tidy, InFragment, SuffixPieces, EndsOperand, StartsOperand, Fits;
    var first, rest := Printed(FirstOperand(e), Unnumbered), SuffixPieces(e, Unnumbered);
    PrintedEdges(FirstOperand(e));
    SuffixFits(e);
    TidyJoin(first, rest);
    TidyInside(first + rest);
  }

  lemma LogicIsTidy(e: Expr)
    requires InFragment(e) && e.Logic? && Tidy(Printed(e.left, Unnumbered)) && Tidy(Printed(e.right, Unnumbered))
    ensures Tidy(Printed(e, Unnumbered))
  {
    hide Tidy, SuffixPieces, EndsOperand, StartsOperand;
    var left, word, right := Printed(e.left, Unnumbered), if e.isAnd then AndWord else OrWord, Printed(e.right, Unnumbered);
    PrintedEdges(e.left);
    PrintedEdges(e.right);
    TidyThen(left, word, right);
    TidyInside(left + ([Lex(word)] + right));
  }

  lemma NotIsTidy(e: Expr)
    requires InFragment(e) && e.Not? && Tidy(Printed(e.operand, Unnumbered))
    ensures Tidy(Printed(e, Unnumbered))
  {
    hide Tidy, SuffixPieces;
    var inner := Printed(e.operand, Unnumbered);
    TidyInside(inner);
    TidyNothing();
    TidyThen([], NotWord, [Lex(LParen)] + inner + [Lex(RParen)]);
  }

  lemma {:induction false} PrintedIsTidy(e: Expr)
    requires InFragment(e)
    ensures Tidy(Printed(e, Unnumbered))
    decreases e, 2
  {
    hide Tidy, Printed, SuffixPieces;
    if IsPredicate(e) {
      PrintedIsTidy(FirstOperand(e));
      SuffixIsTidy(e);
      PredicateIsTidy(e);
    } else if e.Logic? {
      PrintedIsTidy(e.left);
      PrintedIsTidy(e.right);
      LogicIsTidy(e);
    } else if e.Not? {
      PrintedIsTidy(e.operand);
      NotIsTidy(e);
    } else {
      LeafIsTidy(e);
    }
  }

  lemma LeafIsTidy(e: Expr)
    requires e.Column? || e.Literal? || e.Param?
    ensures Tidy(Printed(e, Unnumbered))
  {
  }

  /** The end of any operand fits the word of any suffix. */
  lemma SuffixFits(e: Expr)
    requires InFragment(e) && IsPredicate(e)
    ensures var s := SuffixPieces(e, Unnumbered); s != [] && forall a :: EndsOperand(a) && a != [] ==> Fits(a[|a| - 1], s[0])
  {
    var p := SuffixPieces(e, Unnumbered)[0];
    forall a: seq<Piece> | EndsOperand(a) && a != [] ensures Fits(a[|a| - 1], p) {
      SuffixWord(e);
      FitsSuffix(a[|a| - 1], p);
    }
  }

  lemma SuffixWord(e: Expr)
    requires InFragment(e) && IsPredicate(e)
    ensures SuffixPieces(e, Unnumbered) != [] && StartsSuffix(SuffixPieces(e, Unnumbered))
  {
  }

  lemma FitsSuffix(p: Piece, q: Piece)
    requires Open(p) || p == Mark(0) || p == Lex(RParen)
    requires StartsSuffix([q])
    ensures Fits(p, q)
  {
  }

  lemma {:induction false} SuffixIsTidy(e: Expr)
    requires InFragment(e) && IsPredicate(e)
    ensures Tidy(SuffixPieces(e, Unnumbered))
    decreases e, 1
  {
    hide Tidy;
    TidyNothing();
    match e
    case IsNull(_, negated) => TidyWord(NullTest(negated));
    case Compare(_, op, r) =>
      PrintedIsTidy(r);
      TidySuffix(Cmp(op), r);
    case Like(_, p, negated) =>
      PrintedIsTidy(p);
      TidySuffix(LikeWord(negated), p);
    case Between(_, lo, hi, negated) =>
      PrintedIsTidy(lo);
      PrintedIsTidy(hi);
      PrintedEdges(lo);
      PrintedEdges(hi);
      TidyThen(Printed(lo, Unnumbered), AndWord, Printed(hi, Unnumbered));
      TidyThen([], BetweenWord(negated), Printed(lo, Unnumbered) + ([Lex(AndWord)] + Printed(hi, Unnumbered)));
    case InList(_, values, negated) =>
      ListIsTidy(values);
      TidyInList(negated, PrintedList(values, Unnumbered));
  }

  lemma TidyInList(negated: bool, list: seq<Piece>)
    requires Tidy(list)
    ensures Tidy([Lex(InWord(negated)), Lex(LParen)] + (list + [Lex(RParen)]))
  {
    hide Tidy;
    TidyNothing();
    TidyInside(list);
    assert [Lex(LParen)] + list + [Lex(RParen)] == [Lex(LParen)] + (list + [Lex(RParen)]);
    TidyThen([], InWord(negated), [Lex(LParen)] + (list + [Lex(RParen)]));
    assert [Lex(InWord(negated)), Lex(LParen)] + (list + [Lex(RParen)]) == [Lex(InWord(negated))] + ([Lex(LParen)] + (list + [Lex(RParen)]));
  }

  lemma TidyNothing()
    ensures Tidy([])
  {
  }

  lemma TidySuffix(l: Lexeme, x: Expr)
    requires InFragment(x) && Connects(l) && !l.Dot? && !l.NullTest? && l != NotWord && Tidy(Printed(x, Unnumbered))
    ensures Tidy([Lex(l)] + Printed(x, Unnumbered))
  {
    hide Tidy;
    TidyNothing();
    PrintedEdges(x);
    TidyThen([], l, Printed(x, Unnumbered));
  }

  lemma {:induction false} ListIsTidy(es: seq<Expr>)
    requires forall i :: 0 <= i < |es| ==> InFragment(es[i])
    ensures Tidy(PrintedList(es, Unnumbered)) && StartsOperand(PrintedList(es, Unnumbered))
    decreases es, 0
  {
    hide Tidy;
    TidyNothing();
    if es != [] {
      PrintedIsTidy(es[0]);
      PrintedEdges(es[0]);
      ListIsTidy(es[1..]);
      var first, rest := Printed(es[0], Unnumbered), PrintedList(es[1..], Unnumbered);
      if |es| > 1 {
        TidyThen(first, Comma, rest);
      } else {
        assert first + ([] + rest) == first;
      }
    }
  }

  // The numbers of the placeholders, which the text does not show.

  function Erase(ps: seq<Piece>): (r: seq<Piece>)
    ensures |r| == |ps|
  {
    seq(|ps|, i requires 0 <= i < |ps| => if ps[i].Mark? then Mark(0) else ps[i])
  }

  lemma EraseJoin(a: seq<Piece>, b: seq<Piece>)
    ensures Erase(a + b) == Erase(a) + Erase(b)
  {
  }

  lemma EraseWord(l: Lexeme)
    ensures Erase([Lex(l)]) == [Lex(l)] && Erase([]) == []
  {
  }

  lemma {:induction false} ErasedText(d: Dialect, ps: seq<Piece>)
    ensures Flatten(d, Erase(ps)) == Flatten(d, ps)
    decreases |ps|
  {
    if ps != [] {
      assert Erase(ps)[1..] == Erase(ps[1..]);
      ErasedText(d, ps[1..]);
    }
  }

  /** A predicate in one piece: its first operand, the rest, and parentheses around all but NULL tests. */
  lemma PredicateForm(e: Expr, base: Numbering)
    requires InFragment(e) && IsPredicate(e)
    ensures var body := Printed(FirstOperand(e), base) + SuffixPieces(e, Shift(base, |LeafSlots(FirstOperand(e))|));
      Printed(e, base) == if e.IsNull? then body else [Lex(LParen)] + body + [Lex(RParen)]
  {
    hide SuffixPieces, LeafSlots, FirstOperand;
  }

  lemma ErasePredicate(e: Expr, base: nat)
    requires InFragment(e) && IsPredicate(e)
    requires Erase(Printed(FirstOperand(e), From(base))) == Printed(FirstOperand(e), Unnumbered)
    requires var k := base + |LeafSlots(FirstOperand(e))|; Erase(SuffixPieces(e, From(k))) == SuffixPieces(e, Unnumbered)
    ensures Erase(Printed(e, From(base))) == Printed(e, Unnumbered)
  {
    hide Erase, Printed, SuffixPieces, InFragment, LeafSlots;
    var x, k := FirstOperand(e), base + |LeafSlots(FirstOperand(e))|;
    PredicateForm(e, From(base));
    PredicateForm(e, Unnumbered);
    EraseBody(Printed(x, From(base)), SuffixPieces(e, From(k)));
  }

  lemma EraseLogic(e: Expr, base: nat)
    requires InFragment(e) && e.Logic?
    requires Erase(Printed(e.left, From(base))) == Printed(e.left, Unnumbered)
    requires Erase(Printed(e.right, From(base + |LeafSlots(e.left)|))) == Printed(e.right, Unnumbered)
    ensures Erase(Printed(e, From(base))) == Printed(e, Unnumbered)
  {
    hide Erase, SuffixPieces;
    var left, word, right := Printed(e.left, From(base)), if e.isAnd then AndWord else OrWord, Printed(e.right, From(base + |LeafSlots(e.left)|));
    EraseThen(left, word, right);
    EraseBetween(LParen, left + ([Lex(word)] + right), RParen);
  }

  lemma EraseNot(e: Expr, base: nat)
    requires InFragment(e) && e.Not? && Erase(Printed(e.operand, From(base))) == Printed(e.operand, Unnumbered)
    ensures Erase(Printed(e, From(base))) == Printed(e, Unnumbered)
  {
    hide Erase, SuffixPieces;
    var inner := Printed(e.operand, From(base));
    EraseBetween(LParen, inner, RParen);
    EraseWord(NotWord);
    EraseJoin([Lex(NotWord)], [Lex(LParen)] + inner + [Lex(RParen)]);
  }

  lemma {:induction false} ErasePrinted(e: Expr, base: nat)
    requires InFragment(e)
    ensures Erase(Printed(e, From(base))) == Printed(e, Unnumbered)
    decreases e, 2
  {
    hide Erase, Printed, SuffixPieces;
    if IsPredicate(e) {
      ErasePrinted(FirstOperand(e), base);
      EraseSuffix(e, base + |LeafSlots(FirstOperand(e))|);
      ErasePredicate(e, base);
    } else if e.Logic? {
      ErasePrinted(e.left, base);
      ErasePrinted(e.right, base + |LeafSlots(e.left)|);
      EraseLogic(e, base);
    } else if e.Not? {
      ErasePrinted(e.operand, base);
      EraseNot(e, base);
    } else {
      EraseLeaf(e, base);
    }
  }

  lemma EraseLeaf(e: Expr, base: nat)
    requires e.Column? || e.Literal? || e.Param?
    ensures Erase(Printed(e, From(base))) == Printed(e, Unnumbered)
  {
  }

  lemma EraseBody(a: seq<Piece>, b: seq<Piece>)
    ensures Erase(a + b) == Erase(a) + Erase(b)
    ensures Erase([Lex(LParen)] + (a + b) + [Lex(RParen)]) == [Lex(LParen)] + (Erase(a) + Erase(b)) + [Lex(RParen)]
  {
    EraseJoin(a, b);
    EraseBetween(LParen, a + b, RParen);
  }

  lemma EraseThen(a: seq<Piece>, l: Lexeme, b: seq<Piece>)
    ensures Erase(a + ([Lex(l)] + b)) == Erase(a) + ([Lex(l)] + Erase(b)) && Erase([Lex(l)] + b) == [Lex(l)] + Erase(b)
  {
    hide Erase;
    EraseWord(l);
    EraseJoin([Lex(l)], b);
    EraseJoin(a, [Lex(l)] + b);
  }

  lemma EraseBetween(l: Lexeme, a: seq<Piece>, k: Lexeme)
    ensures Erase([Lex(l)] + a + [Lex(k)]) == [Lex(l)] + Erase(a) + [Lex(k)] && Erase(a + [Lex(k)]) == Erase(a) + [Lex(k)]
  {
    hide Erase;
    EraseWord(l);
    EraseWord(k);
    EraseJoin([Lex(l)], a);
    EraseJoin([Lex(l)] + a, [Lex(k)]);
    EraseJoin(a, [Lex(k)]);
  }

  lemma {:induction false} EraseSuffix(e: Expr, base: nat)
    requires InFragment(e) && IsPredicate(e)
    ensures Erase(SuffixPieces(e, From(base))) == SuffixPieces(e, Unnumbered)
    decreases e, 1
  {
    hide Erase;
    match e
    case IsNull(_, negated) => EraseWord(NullTest(negated));
    case Compare(_, op, r) =>
      ErasePrinted(r, base);
      EraseThen([], Cmp(op), Printed(r, From(base)));
    case Like(_, p, negated) =>
      ErasePrinted(p, base);
      EraseThen([], LikeWord(negated), Printed(p, From(base)));
    case Between(_, lo, hi, negated) =>
      var k := base + |LeafSlots(lo)|;
      ErasePrinted(lo, base);
      ErasePrinted(hi, k);
      EraseThen(Printed(lo, From(base)), AndWord, Printed(hi, From(k)));
      EraseThen([], BetweenWord(negated), Printed(lo, From(base)) + ([Lex(AndWord)] + Printed(hi, From(k))));
    case InList(_, values, negated) =>
      EraseList(values, base);
      EraseBetween(LParen, PrintedList(values, From(base)), RParen);
      EraseOpening(InWord(negated), PrintedList(values, From(base)) + [Lex(RParen)]);
  }

  lemma EraseOpening(l: Lexeme, b: seq<Piece>)
    ensures Erase([Lex(l), Lex(LParen)] + b) == [Lex(l), Lex(LParen)] + Erase(b)
  {
    EraseJoin([Lex(l), Lex(LParen)], b);
    assert Erase([Lex(l), Lex(LParen)]) == [Lex(l), Lex(LParen)];
  }

  lemma {:induction false} EraseList(es: seq<Expr>, base: nat)
    requires forall i :: 0 <= i < |es| ==> InFragment(es[i])
    ensures Erase(PrintedList(es, From(base))) == PrintedList(es, Unnumbered)
    decreases es, 0
  {
    hide Erase;
    EraseWord(Comma);
    if es != [] {
      var k := base + |LeafSlots(es[0])|;
      ErasePrinted(es[0], base);
      EraseList(es[1..], k);
      var comma := if |es| > 1 then [Lex(Comma)] else [];
      EraseJoin(comma, PrintedList(es[1..], From(k)));
      EraseJoin(Printed(es[0], From(base)), comma + PrintedList(es[1..], From(k)));
    }
  }

  // ---------------------------------------------------------------------------------------------
  // The round trip on characters
  // ---------------------------------------------------------------------------------------------

  /** The characters of a predicate are cut into the tokens of its printed form. */
  lemma TokensOfPredicate(d: Dialect, e: Expr)
    requires InFragment(e)
    ensures Tidy(Printed(e, Unnumbered)) && Tokenize(d, ExprText(d, e, 0)) == PiecesTokens(Printed(e, Unnumbered))
  {
    hide Shape, Pieces, Slots, Flatten, Tokenize, PiecesTokens, Printed, Erase, Tidy, Known, LeafSlots;
    PredicateText.GeneratesPrinted(d, e, 0);
    ErasedText(d, Pieces(Shape(d, e), 0));
    ErasePrinted(e, 0);
    PrintedIsTidy(e);
    TokenizesPieces(d, Printed(e, Unnumbered));
  }

  /**
   * Printer and parser: the characters generated for a predicate, with the slots recorded, are read as its reading,
   * which is the predicate itself exactly when NOT and NULL tests are well placed.
   */
  lemma TextReadsBack(d: Dialect, e: Expr)
    requires InFragment(e)
    ensures ReadText(d, ExprText(d, e, 0), ExprSlots(d, e)) == Reading(e)
    ensures ReadText(d, ExprText(d, e, 0), ExprSlots(d, e)) == Some(e) <==> WellPlaced(e)
  {
    hide Shape, Parse, Pieces, Slots, Flatten, Tokenize, Compound, Printed, Erase, Reading, Tidy, Known, LeafSlots;
    TokensOfPredicate(d, e);
    PredicateText.GeneratesPrinted(d, e, 0);
    PrintedIsTidy(e);
    CompoundsPieces(Printed(e, Unnumbered));
    ParseOfPrinted(e, Unnumbered);
    ReadsBackIffWellPlaced(e);
  }
}
