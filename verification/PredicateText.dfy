/**
 * From predicate to lexemes and back: the generator's lexemes are parsed by precedence, and the placeholders among
 * them are filled from the slots. `PredicateTokens` cuts the characters into these lexemes.
 */
module PredicateText {
  import opened Values
  import opened Dialects
  import opened LayoutTree
  import opened SqlAst
  import opened SqlConditions
  import opened SqlText
  import opened PredicateParser

  // ---------------------------------------------------------------------------------------------
  // The generator prints the fragment as the parser's grammar expects
  // ---------------------------------------------------------------------------------------------

  lemma PiecesOfAppend(a: seq<Item>, b: seq<Item>, base: nat)
    ensures ItemPieces(a + b, base) == ItemPieces(a, base) + ItemPieces(b, base + |ItemSlots(a)|)
    ensures ItemSlots(a + b) == ItemSlots(a) + ItemSlots(b)
  {
    ItemPiecesAppend(a, b, base);
    ItemSlotsAppend(a, b);
  }

  lemma PiecesOfSub(t: Tree, base: nat)
    ensures ItemPieces([Sub(t)], base) == Pieces(t, base) && ItemSlots([Sub(t)]) == Slots(t)
  {
    assert [Sub(t)][1..] == [];
    assert ItemPieces([Sub(t)], base) == Pieces(t, base) + [];
  }

  lemma PiecesOfOne(before: seq<Lexeme>, t: Tree, after: seq<Lexeme>, base: nat)
    ensures ItemPieces(One(before, t, after), base) == Lexes(before) + Pieces(t, base) + Lexes(after)
    ensures ItemSlots(One(before, t, after)) == Slots(t)
  {
    hide ItemPieces, ItemSlots, Pieces, Slots, Lexes, Toks;
    PiecesOfAppend(Toks(before) + [Sub(t)], Toks(after), base);
    PiecesOfAppend(Toks(before), [Sub(t)], base);
    ToksPieces(before, base);
    PiecesOfSub(t, base);
    ToksPieces(after, base + |Slots(t)|);
  }

  lemma PiecesOfTwo(before: seq<Lexeme>, t: Tree, between: seq<Lexeme>, u: Tree, after: seq<Lexeme>, base: nat)
    ensures ItemPieces(Two(before, t, between, u, after), base)
         == Lexes(before) + Pieces(t, base) + Lexes(between) + (Lexes([]) + Pieces(u, base + |Slots(t)|) + Lexes(after))
    ensures ItemSlots(Two(before, t, between, u, after)) == Slots(t) + Slots(u)
  {
    hide ItemPieces, ItemSlots, Pieces, Slots, Lexes, One;
    PiecesOfAppend(One(before, t, between), One([], u, after), base);
    PiecesOfOne(before, t, between, base);
    PiecesOfOne([], u, after, base + |Slots(t)|);
  }

  /** The generated pieces and slots of an expression in the fragment. */
  ghost predicate Matches(t: Tree, e: Expr, base: nat)
    requires InFragment(e)
  {
    Pieces(t, base) == Printed(e, From(base)) && Slots(t) == LeafSlots(e)
  }

  lemma MatchTwo(before: Lexeme, x: Tree, a: Expr, between: Lexeme, y: Tree, b: Expr, base: nat)
    requires InFragment(a) && InFragment(b) && Matches(x, a, base) && Matches(y, b, base + |LeafSlots(a)|)
    ensures ItemPieces(Two([before], x, [between], y, [RParen]), base)
         == [Lex(before)] + (Printed(a, From(base)) + ([Lex(between)] + Printed(b, From(base + |LeafSlots(a)|)))) + [Lex(RParen)]
    ensures ItemSlots(Two([before], x, [between], y, [RParen])) == LeafSlots(a) + LeafSlots(b)
  {
    hide ItemPieces, ItemSlots, Pieces, Slots, Printed, LeafSlots, Two;
    PiecesOfTwo([before], x, [between], y, [RParen], base);
    assert Lexes([before]) == [Lex(before)] && Lexes([between]) == [Lex(between)] && Lexes([RParen]) == [Lex(RParen)] && Lexes([]) == [];
  }

  lemma {:induction false} GeneratesPrinted(d: Dialect, e: Expr, base: nat)
    requires InFragment(e)
    ensures Matches(Shape(d, e), e, base)
    decreases e, 2
  {
    hide Shape, Printed, LeafSlots, Pieces, Slots;
    if e.Column? { MatchColumn(d, e, base); }
    else if e.Literal? || e.Param? { MatchLeaf(d, e, base); }
    else if e.Not? {
      GeneratesPrinted(d, e.operand, base);
      MatchNot(d, e, base);
    } else if e.IsNull? {
      GeneratesPrinted(d, e.operand, base);
      MatchIsNull(d, e, base);
    } else if e.Between? {
      GeneratesPrinted(d, e.expr, base);
      GeneratesPrinted(d, e.low, base + |LeafSlots(e.expr)|);
      GeneratesPrinted(d, e.high, base + |LeafSlots(e.expr)| + |LeafSlots(e.low)|);
      MatchBetween(d, e, base);
    } else if e.InList? {
      GeneratesPrinted(d, e.expr, base);
      GeneratesPrintedList(d, e.values, base + |LeafSlots(e.expr)|);
      MatchInList(d, e, base);
    } else {
      BinaryPrinted(e, From(base));
      GeneratesPrinted(d, Left(e), base);
      GeneratesPrinted(d, Right(e), base + |LeafSlots(Left(e))|);
      MatchBinary(d, e, base);
    }
  }

  lemma MatchLeaf(d: Dialect, e: Expr, base: nat)
    requires e.Literal? || e.Param?
    ensures Matches(Shape(d, e), e, base)
  {
  }

  lemma MatchColumn(d: Dialect, e: Expr, base: nat)
    requires e.Column?
    ensures Matches(Shape(d, e), e, base)
  {
    ToksPieces(ColumnPieces(e.table, e.column), base);
  }

  // The layout of each kind.

  lemma UnaryShape(d: Dialect, e: Expr)
    requires e.Not? || e.IsNull?
    ensures Shape(d, e) == Row(if e.Not? then One([NotWord, LParen], Shape(d, e.operand), [RParen])
                               else One([], Shape(d, e.operand), [NullTest(e.negated)]))
  {
    assert Kids(d, e) == [Shape(d, e.operand)];
  }

  function Left(e: Expr): Expr
    requires e.Logic? || e.Compare? || e.Like?
  {
    if e.Like? then e.expr else e.left
  }

  function Right(e: Expr): Expr
    requires e.Logic? || e.Compare? || e.Like?
  {
    if e.Like? then e.pattern else e.right
  }

  lemma BinaryShape(d: Dialect, e: Expr)
    requires e.Logic? || e.Compare? || e.Like?
    ensures Shape(d, e) == Row(Two([LParen], Shape(d, Left(e)), [InfixWord(e)], Shape(d, Right(e)), [RParen]))
  {
    assert Kids(d, e) == [Shape(d, Left(e)), Shape(d, Right(e))];
  }

  lemma BinaryPrinted(e: Expr, base: Numbering)
    requires InFragment(e) && (e.Logic? || e.Compare? || e.Like?)
    ensures InFragment(Left(e)) && InFragment(Right(e)) && Left(e) < e && Right(e) < e
    ensures LeafSlots(e) == LeafSlots(Left(e)) + LeafSlots(Right(e))
    ensures Printed(e, base)
         == [Lex(LParen)] + (Printed(Left(e), base) + ([Lex(InfixWord(e))] + Printed(Right(e), Shift(base, |LeafSlots(Left(e))|)))) + [Lex(RParen)]
  {
  }

  lemma MatchNot(d: Dialect, e: Expr, base: nat)
    requires e.Not? && InFragment(e) && Matches(Shape(d, e.operand), e.operand, base)
    ensures Matches(Shape(d, e), e, base)
  {
    hide Shape, ItemPieces, ItemSlots, One;
    UnaryShape(d, e);
    PiecesOfOne([NotWord, LParen], Shape(d, e.operand), [RParen], base);
    NotLexes();
  }

  lemma NotLexes()
    ensures Lexes([NotWord, LParen]) == [Lex(NotWord)] + [Lex(LParen)] && Lexes([RParen]) == [Lex(RParen)]
  {
  }

  lemma MatchIsNull(d: Dialect, e: Expr, base: nat)
    requires e.IsNull? && InFragment(e) && Matches(Shape(d, e.operand), e.operand, base)
    ensures Matches(Shape(d, e), e, base)
  {
    hide Shape, ItemPieces, ItemSlots, One, Printed, LeafSlots, Lexes;
    UnaryShape(d, e);
    PiecesOfOne([], Shape(d, e.operand), [NullTest(e.negated)], base);
    NullTestPrints(e, From(base));
    NullTestLexes(e.negated);
    var body := Printed(e.operand, From(base));
    assert [] + body == body;
  }

  lemma NullTestPrints(e: Expr, base: Numbering)
    requires e.IsNull? && InFragment(e)
    ensures InFragment(e.operand) && LeafSlots(e) == LeafSlots(e.operand)
    ensures Printed(e, base) == Printed(e.operand, base) + [Lex(NullTest(e.negated))]
  {
  }

  lemma NullTestLexes(negated: bool)
    ensures Lexes([]) == [] && Lexes([NullTest(negated)]) == [Lex(NullTest(negated))]
  {
  }

  lemma MatchBinary(d: Dialect, e: Expr, base: nat)
    requires InFragment(e) && (e.Logic? || e.Compare? || e.Like?)
    requires InFragment(Left(e)) && InFragment(Right(e)) && Matches(Shape(d, Left(e)), Left(e), base)
    requires Matches(Shape(d, Right(e)), Right(e), base + |LeafSlots(Left(e))|)
    ensures Matches(Shape(d, e), e, base)
  {
    hide Shape, ItemPieces, ItemSlots, Two, Printed, LeafSlots, Left, Right, InfixWord;
    BinaryShape(d, e);
    BinaryPrinted(e, From(base));
    MatchTwo(LParen, Shape(d, Left(e)), Left(e), InfixWord(e), Shape(d, Right(e)), Right(e), base);
  }

  lemma BetweenIs(d: Dialect, e: Expr)
    requires e.Between?
    ensures Shape(d, e) == Row(Two([LParen], Shape(d, e.expr), [BetweenWord(e.negated)], Shape(d, e.low), [AndWord])
                               + One([], Shape(d, e.high), [RParen]))
  {
    assert Kids(d, e) == [Shape(d, e.expr), Shape(d, e.low), Shape(d, e.high)];
  }

  lemma BetweenUnfolds(e: Expr, base: Numbering)
    requires InFragment(e) && e.Between?
    ensures var n := |LeafSlots(e.expr)|;
      Printed(e, base)
      == [Lex(LParen)] + (Printed(e.expr, base) + SuffixPieces(e, Shift(base, n))) + [Lex(RParen)]
      && SuffixPieces(e, Shift(base, n))
         == [Lex(BetweenWord(e.negated))] + (Printed(e.low, Shift(base, n)) + ([Lex(AndWord)] + Printed(e.high, Shift(Shift(base, n), |LeafSlots(e.low)|))))
    ensures LeafSlots(e) == LeafSlots(e.expr) + (LeafSlots(e.low) + LeafSlots(e.high))
  {
    assert FirstOperand(e) == e.expr;
  }

  lemma BetweenPrinted(e: Expr, base: Numbering)
    requires InFragment(e) && e.Between?
    ensures var n := |LeafSlots(e.expr)|; var m := n + |LeafSlots(e.low)|;
      Printed(e, base)
      == [Lex(LParen)] + (Printed(e.expr, base) + ([Lex(BetweenWord(e.negated))] + (Printed(e.low, Shift(base, n))
         + ([Lex(AndWord)] + Printed(e.high, Shift(base, m)))))) + [Lex(RParen)]
    ensures LeafSlots(e) == LeafSlots(e.expr) + (LeafSlots(e.low) + LeafSlots(e.high))
  {
    hide Printed, LeafSlots;
    BetweenUnfolds(e, base);
    Associate(LeafSlots(e.expr), LeafSlots(e.low), LeafSlots(e.high));
  }

  lemma MatchBetween(d: Dialect, e: Expr, base: nat)
    requires e.Between? && InFragment(e) && Matches(Shape(d, e.expr), e.expr, base)
    requires Matches(Shape(d, e.low), e.low, base + |LeafSlots(e.expr)|)
    requires Matches(Shape(d, e.high), e.high, base + |LeafSlots(e.expr)| + |LeafSlots(e.low)|)
    ensures Matches(Shape(d, e), e, base)
  {
    hide Shape, ItemPieces, ItemSlots, One, Two, Printed, LeafSlots;
    var x, lo, hi := Shape(d, e.expr), Shape(d, e.low), Shape(d, e.high);
    var n := base + |LeafSlots(e.expr)|;
    var front := Two([LParen], x, [BetweenWord(e.negated)], lo, [AndWord]);
    BetweenIs(d, e);
    BetweenPrinted(e, From(base));
    BetweenLexes(e.negated);
    PiecesOfAppend(front, One([], hi, [RParen]), base);
    PiecesOfTwo([LParen], x, [BetweenWord(e.negated)], lo, [AndWord], base);
    PiecesOfOne([], hi, [RParen], n + |LeafSlots(e.low)|);
    Regroup([Lex(LParen)], Printed(e.expr, From(base)), [Lex(BetweenWord(e.negated))], Printed(e.low, From(n)), [Lex(AndWord)],
            Printed(e.high, From(n + |LeafSlots(e.low)|)), [Lex(RParen)]);
  }

  lemma Regroup<T>(a: seq<T>, b: seq<T>, c: seq<T>, x: seq<T>, y: seq<T>, z: seq<T>, w: seq<T>)
    ensures a + b + c + ([] + x + y) + ([] + z + w) == a + (b + (c + (x + (y + z)))) + w
  {
    assert [] + x == x && [] + z == z;
    assert (b + (c + (x + (y + z)))) == b + c + x + y + z;
  }

  lemma BetweenLexes(negated: bool)
    ensures Lexes([LParen]) == [Lex(LParen)] && Lexes([RParen]) == [Lex(RParen)] && Lexes([]) == []
    ensures Lexes([BetweenWord(negated)]) == [Lex(BetweenWord(negated))] && Lexes([AndWord]) == [Lex(AndWord)]
  {
  }

  lemma MatchInList(d: Dialect, e: Expr, base: nat)
    requires e.InList? && InFragment(e) && Matches(Shape(d, e.expr), e.expr, base)
    requires ListMatches(d, e.values, base + |LeafSlots(e.expr)|)
    ensures Matches(Shape(d, e), e, base)
  {
    hide Shape, ItemPieces, ItemSlots, One, ListItems, Printed, LeafSlots, PrintedList, ListLeafSlots;
    var x, list := Shape(d, e.expr), ListItems(ShapesOf(d, e.values));
    var head := One([LParen], x, [InWord(e.negated), LParen]);
    InListLayout(d, e);
    InListPrinted(e, From(base));
    PiecesOfAppend(head + list, Toks([RParen, RParen]), base);
    PiecesOfAppend(head, list, base);
    PiecesOfOne([LParen], x, [InWord(e.negated), LParen], base);
    ToksPieces([RParen, RParen], base + |ItemSlots(head + list)|);
    InListLexes(e.negated);
    RegroupList([Lex(LParen)], Printed(e.expr, From(base)), [Lex(InWord(e.negated)), Lex(LParen)],
                PrintedList(e.values, From(base + |LeafSlots(e.expr)|)), [Lex(RParen)]);
  }

  lemma RegroupList<T>(a: seq<T>, b: seq<T>, c: seq<T>, x: seq<T>, y: seq<T>)
    ensures a + b + c + x + (y + y) == a + (b + (c + (x + y))) + y
  {
    assert b + (c + (x + y)) == b + c + x + y;
  }

  lemma InListPrinted(e: Expr, base: Numbering)
    requires InFragment(e) && e.InList?
    ensures Printed(e, base)
         == [Lex(LParen)] + (Printed(e.expr, base) + ([Lex(InWord(e.negated)), Lex(LParen)]
            + (PrintedList(e.values, Shift(base, |LeafSlots(e.expr)|)) + [Lex(RParen)]))) + [Lex(RParen)]
    ensures LeafSlots(e) == LeafSlots(e.expr) + ListLeafSlots(e.values)
  {
  }

  lemma InListLexes(negated: bool)
    ensures Lexes([LParen]) == [Lex(LParen)] && Lexes([RParen, RParen]) == [Lex(RParen)] + [Lex(RParen)]
    ensures Lexes([InWord(negated), LParen]) == [Lex(InWord(negated)), Lex(LParen)]
  {
  }

  ghost predicate ListMatches(d: Dialect, es: seq<Expr>, base: nat)
    requires forall i :: 0 <= i < |es| ==> InFragment(es[i])
  {
    && ItemPieces(ListItems(ShapesOf(d, es)), base) == PrintedList(es, From(base))
    && ItemSlots(ListItems(ShapesOf(d, es))) == ListLeafSlots(es)
  }

  /** The generator extends a list at its end, the grammar reads it from its start. */
  lemma {:induction false} GeneratesPrintedList(d: Dialect, es: seq<Expr>, base: nat)
    requires forall i :: 0 <= i < |es| ==> InFragment(es[i])
    ensures ListMatches(d, es, base)
    decreases es, 1
  {
    hide Shape, Printed, LeafSlots, PrintedList, ListLeafSlots, ItemPieces, ItemSlots, ListItems, ShapesOf;
    if es != [] {
      var n := |es| - 1;
      GeneratesPrintedList(d, es[..n], base);
      GeneratesPrinted(d, es[n], base + |ListLeafSlots(es[..n])|);
      ListExtends(d, es, base);
      PrintedListSnoc(es, From(base));
    } else {
      EmptyList(From(base));
      EmptyItems(d, base);
    }
  }

  lemma EmptyItems(d: Dialect, base: nat)
    ensures ItemPieces(ListItems(ShapesOf(d, [])), base) == [] && ItemSlots(ListItems(ShapesOf(d, []))) == []
  {
  }

  lemma ListExtends(d: Dialect, es: seq<Expr>, base: nat)
    requires es != []
    ensures var front, last := ListItems(ShapesOf(d, es[..|es| - 1])), Shape(d, es[|es| - 1]);
      && ItemPieces(ListItems(ShapesOf(d, es)), base)
         == ItemPieces(front, base) + (if |es| > 1 then [Lex(Comma)] else []) + Pieces(last, base + |ItemSlots(front)|)
      && ItemSlots(ListItems(ShapesOf(d, es))) == ItemSlots(front) + Slots(last)
  {
    hide ItemPieces, ItemSlots, Pieces, Slots, Shape, ListItems;
    var n, ts := |es| - 1, ShapesOf(d, es);
    assert ts[..n] == ShapesOf(d, es[..n]);
    ListItemsStep(ts);
    var front, comma := ListItems(ts[..n]), if |es| > 1 then [Comma] else [];
    PiecesOfAppend(front + Toks(comma), [Sub(ts[n])], base);
    PiecesOfAppend(front, Toks(comma), base);
    ToksPieces(comma, base + |ItemSlots(front)|);
    PiecesOfSub(ts[n], base + |ItemSlots(front)|);
    assert Lexes(comma) == if |es| > 1 then [Lex(Comma)] else [];
  }

  lemma {:induction false} PrintedListSnoc(es: seq<Expr>, base: Numbering)
    requires es != [] && forall i :: 0 <= i < |es| ==> InFragment(es[i])
    ensures var front, last := es[..|es| - 1], es[|es| - 1];
      && ListLeafSlots(es) == ListLeafSlots(front) + LeafSlots(last)
      && PrintedList(es, base)
         == PrintedList(front, base) + (if |es| > 1 then [Lex(Comma)] else []) + Printed(last, Shift(base, |ListLeafSlots(front)|))
  {
    hide Printed, LeafSlots, PrintedList, ListLeafSlots;
    ListPrinted(es, base);
    if |es| == 1 {
      EmptyList(base);
      assert es[..0] == [];
    } else {
      var rest, next := es[1..], Shift(base, |LeafSlots(es[0])|);
      var front := es[..|es| - 1];
      PrintedListSnoc(rest, next);
      ListPrinted(front, base);
      assert front[1..] == rest[..|rest| - 1];
      if |es| == 2 { EmptyList(next); }
    }
  }

  lemma EmptyList(base: Numbering)
    ensures PrintedList([], base) == [] && ListLeafSlots([]) == [] && Shift(base, 0) == base
  {
  }

  /**
   * Round trip on lexemes: parsing what the generator emits for a predicate, with the slots it recorded, gives
   * its reading; the reading is the predicate itself exactly when NOT and NULL tests are well placed.
   */
  lemma ParseInvertsGenerate(d: Dialect, e: Expr)
    requires InFragment(e)
    ensures Parse(Pieces(Shape(d, e), 0), Slots(Shape(d, e))) == Reading(e)
    ensures Parse(Pieces(Shape(d, e), 0), Slots(Shape(d, e))) == Some(e) <==> WellPlaced(e)
  {
    GeneratesPrinted(d, e, 0);
    ParseOfPrinted(e, From(0));
    ReadsBackIffWellPlaced(e);
  }

  /**
   * A comparison or NULL test puts no parentheses around a NOT operand, so its text is read with NOT around the
   * whole: `(NOT ("a") = ?)` and `NOT ("a") IS NULL`.
   */
  lemma NotOperandIsMisread(d: Dialect, x: Expr, op: CompareOp, y: Expr)
    requires InFragment(x) && InFragment(y) && WellPlaced(x) && WellPlaced(y) && PrintsAsOperand(x) && PrintsAsOperand(y)
    ensures var e := Compare(Not(x), op, y);
      Parse(Pieces(Shape(d, e), 0), Slots(Shape(d, e))) == Some(Not(Compare(x, op, y)))
    ensures var e := IsNull(Not(x), false);
      Parse(Pieces(Shape(d, e), 0), Slots(Shape(d, e))) == Some(Not(IsNull(x, false)))
  {
    hide Shape, Parse, Pieces, Slots;
    ReadsBackIffWellPlaced(x);
    ReadsBackIffWellPlaced(y);
    var e, n := Compare(Not(x), op, y), IsNull(Not(x), false);
    ParseInvertsGenerate(d, e);
    ParseInvertsGenerate(d, n);
    assert FirstOperand(e) == Not(x) && FirstOperand(n) == Not(x);
    assert Assemble(e, x) == Some(Compare(x, op, y)) && Assemble(n, x) == Some(IsNull(x, false));
    assert Reading(e) == ReadPredicate(e) == Negate(Assemble(e, x));
    assert Reading(n) == ReadPredicate(n) == Negate(Assemble(n, x));
  }
}
