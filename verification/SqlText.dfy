/** The text and slots of each kind of expression, derived from its layout. */
module SqlText {
  import opened Values
  import opened Dialects
  import opened LayoutTree
  import opened SqlAst
  import opened SqlConditions

  /** The values pushed to `params`: those of the static slots. */
  function Statics(slots: seq<Slot>): seq<BoundValue> {
    if slots == [] then [] else (if slots[0].Static? then [slots[0].value] else []) + Statics(slots[1..])
  }

  lemma StaticsAppend(a: seq<Slot>, b: seq<Slot>)
    ensures Statics(a + b) == Statics(a) + Statics(b)
  {
    if a == [] {
      assert a + b == b;
    } else {
      StaticsAppend(a[1..], b);
      assert (a + b)[0] == a[0] && (a + b)[1..] == a[1..] + b;
      Associate(if a[0].Static? then [a[0].value] else [], Statics(a[1..]), Statics(b));
    }
  }

  function TreeText(d: Dialect, t: Tree, base: nat): string { Flatten(d, Pieces(t, base)) }

  function ItemText(d: Dialect, items: seq<Item>, base: nat): string { Flatten(d, ItemPieces(items, base)) }

  function LexText(d: Dialect, ls: seq<Lexeme>): string { Flatten(d, Lexes(ls)) }

  function ShapesOf(d: Dialect, es: seq<Expr>): (r: seq<Tree>)
    ensures |r| == |es|
    ensures forall i :: 0 <= i < |es| ==> r[i] == Shape(d, es[i])
  {
    seq(|es|, i requires 0 <= i < |es| => Shape(d, es[i]))
  }

  // ---------------------------------------------------------------------------------------------
  // Text of rows
  // ---------------------------------------------------------------------------------------------

  lemma TextOfAppend(d: Dialect, a: seq<Item>, b: seq<Item>, base: nat)
    ensures ItemText(d, a + b, base) == ItemText(d, a, base) + ItemText(d, b, base + |ItemSlots(a)|)
    ensures ItemSlots(a + b) == ItemSlots(a) + ItemSlots(b)
  {
    ItemPiecesAppend(a, b, base);
    FlattenAppend(d, ItemPieces(a, base), ItemPieces(b, base + |ItemSlots(a)|));
    ItemSlotsAppend(a, b);
  }

  lemma ToksPieces(ls: seq<Lexeme>, base: nat)
    ensures ItemPieces(Toks(ls), base) == Lexes(ls) && ItemSlots(Toks(ls)) == []
  {
    if ls != [] {
      assert Toks(ls)[1..] == Toks(ls[1..]) && Lexes(ls)[1..] == Lexes(ls[1..]);
      ToksPieces(ls[1..], base);
      assert Lexes(ls) == [Lex(ls[0])] + Lexes(ls[1..]);
    }
  }

  lemma TextOfToks(d: Dialect, ls: seq<Lexeme>, base: nat)
    ensures ItemText(d, Toks(ls), base) == LexText(d, ls)
    ensures ItemSlots(Toks(ls)) == []
  {
    ToksPieces(ls, base);
  }

  lemma TextOfSub(d: Dialect, t: Tree, base: nat)
    ensures ItemText(d, [Sub(t)], base) == TreeText(d, t, base)
    ensures ItemSlots([Sub(t)]) == Slots(t)
  {
    assert [Sub(t)][1..] == [];
    assert ItemPieces([Sub(t)], base) == Pieces(t, base) + [] == Pieces(t, base);
  }

  lemma LexNone(d: Dialect)
    ensures LexText(d, []) == ""
  {
  }

  lemma LexOne(d: Dialect, a: Lexeme)
    ensures LexText(d, [a]) == LexemeText(d, a)
  {
    var p := Lexes([a]);
    assert p[0] == Lex(a) && p[1..] == [];
    assert Flatten(d, p) == Render(d, p[0]) + Flatten(d, p[1..]);
    assert LexemeText(d, a) + "" == LexemeText(d, a);
  }

  lemma LexTwo(d: Dialect, a: Lexeme, b: Lexeme)
    ensures LexText(d, [a, b]) == LexemeText(d, a) + LexemeText(d, b)
  {
    assert Lexes([a, b])[1..] == Lexes([b]);
    LexOne(d, b);
  }

  lemma JoinThree(a: string, b: string, c: string)
    ensures a + (b + c) == a + b + c
  {
  }

  lemma LexThree(d: Dialect, a: Lexeme, b: Lexeme, c: Lexeme)
    ensures LexText(d, [a, b, c]) == LexemeText(d, a) + LexemeText(d, b) + LexemeText(d, c)
  {
    hide LexText;
    assert [a, b, c] == [a] + [b, c];
    LexAppend(d, [a], [b, c]);
    LexOne(d, a);
    LexTwo(d, b, c);
    JoinThree(LexemeText(d, a), LexemeText(d, b), LexemeText(d, c));
  }

  lemma LexAppend(d: Dialect, a: seq<Lexeme>, b: seq<Lexeme>)
    ensures LexText(d, a + b) == LexText(d, a) + LexText(d, b)
  {
    assert Lexes(a + b) == Lexes(a) + Lexes(b);
    FlattenAppend(d, Lexes(a), Lexes(b));
  }

  lemma TextOfOne(d: Dialect, before: seq<Lexeme>, t: Tree, after: seq<Lexeme>, base: nat)
    ensures ItemText(d, One(before, t, after), base) == LexText(d, before) + TreeText(d, t, base) + LexText(d, after)
    ensures ItemSlots(One(before, t, after)) == Slots(t)
  {
    hide ItemText, ItemSlots, LexText, TreeText, Slots;
    TextOfAppend(d, Toks(before) + [Sub(t)], Toks(after), base);
    TextOfAppend(d, Toks(before), [Sub(t)], base);
    TextOfToks(d, before, base);
    TextOfSub(d, t, base);
    TextOfToks(d, after, base + |Slots(t)|);
  }

  lemma TextOfTwo(d: Dialect, before: seq<Lexeme>, t: Tree, between: seq<Lexeme>, u: Tree, after: seq<Lexeme>, base: nat)
    ensures ItemText(d, Two(before, t, between, u, after), base)
         == LexText(d, before) + TreeText(d, t, base) + LexText(d, between) + TreeText(d, u, base + |Slots(t)|) + LexText(d, after)
    ensures ItemSlots(Two(before, t, between, u, after)) == Slots(t) + Slots(u)
  {
    hide ItemText, ItemSlots, LexText, TreeText, Slots, One;
    TextOfAppend(d, One(before, t, between), One([], u, after), base);
    TextOfOne(d, before, t, between, base);
    TextOfOne(d, [], u, after, base + |Slots(t)|);
    LexNone(d);
  }

  lemma EmptyRow(d: Dialect, base: nat)
    ensures ItemText(d, [], base) == "" && ItemSlots([]) == [] && ListItems([]) == [] && Statics([]) == []
  {
  }

  lemma TextOfListStep(d: Dialect, ts: seq<Tree>, base: nat)
    requires ts != []
    ensures ListGrew(d, ListItems(ts), ListItems(ts[..|ts| - 1]), |ts| > 1, ts[|ts| - 1], base)
  {
    hide *;
    ListItemsStep(ts);
    TextOfNext(d, ListItems(ts), ListItems(ts[..|ts| - 1]), |ts| > 1, ts[|ts| - 1], base);
  }

  lemma TextOfNext(d: Dialect, items: seq<Item>, front: seq<Item>, needed: bool, t: Tree, base: nat)
    requires items == front + Toks(CommaIf(needed)) + [Sub(t)]
    ensures ListGrew(d, items, front, needed, t, base)
  {
    hide ItemText, ItemSlots, TreeText, Slots, Toks, CommaIf, Separator;
    TextOfThree(d, front, CommaIf(needed), t, base);
    CommaText(d, needed);
  }

  ghost predicate ListGrew(d: Dialect, items: seq<Item>, front: seq<Item>, needed: bool, t: Tree, base: nat) {
    && ItemSlots(items) == ItemSlots(front) + Slots(t)
    && ItemText(d, items, base) == ItemText(d, front, base) + Separator(needed) + TreeText(d, t, base + |ItemSlots(front)|)
  }

  function Separator(needed: bool): string { if needed then ", " else "" }

  function CommaIf(needed: bool): seq<Lexeme> { if needed then [Comma] else [] }

  lemma ListItemsStep(ts: seq<Tree>)
    requires ts != []
    ensures ListItems(ts) == ListItems(ts[..|ts| - 1]) + Toks(CommaIf(|ts| > 1)) + [Sub(ts[|ts| - 1])]
  {
  }

  lemma CommaText(d: Dialect, needed: bool)
    ensures LexText(d, CommaIf(needed)) == Separator(needed)
  {
    LexNone(d);
    LexOne(d, Comma);
  }

  lemma Glue(x: string, u: string, v: string)
    ensures x + ("" + u + v) == x + u + v
  {
  }

  lemma TextOfThree(d: Dialect, front: seq<Item>, mid: seq<Lexeme>, t: Tree, base: nat)
    ensures ItemSlots(front + Toks(mid) + [Sub(t)]) == ItemSlots(front) + Slots(t)
    ensures ItemText(d, front + Toks(mid) + [Sub(t)], base)
         == ItemText(d, front, base) + LexText(d, mid) + TreeText(d, t, base + |ItemSlots(front)|)
  {
    hide ItemText, ItemSlots, LexText, TreeText, Slots;
    TextOfAppend(d, front + Toks(mid), [Sub(t)], base);
    TextOfAppend(d, front, Toks(mid), base);
    TextOfToks(d, mid, base + |ItemSlots(front)|);
    TextOfSub(d, t, base + |ItemSlots(front)|);
  }

  // ---------------------------------------------------------------------------------------------
  // Text of each kind of expression
  // ---------------------------------------------------------------------------------------------

  /** Text and slots of an expression, as the recursive calls leave them. */
  function ExprText(d: Dialect, e: Expr, base: nat): string { TreeText(d, Shape(d, e), base) }

  function ExprSlots(d: Dialect, e: Expr): seq<Slot> { Slots(Shape(d, e)) }

  lemma RowTexts(d: Dialect, e: Expr, items: seq<Item>, base: nat)
    requires Shape(d, e) == Row(items)
    ensures ExprText(d, e, base) == ItemText(d, items, base) && ExprSlots(d, e) == ItemSlots(items)
  {
    hide Shape, Flatten, ItemPieces, ItemSlots;
  }

  lemma ShapeFromOne(d: Dialect, e: Expr, a: Expr)
    requires Operands(e) == [a]
    ensures Shape(d, e) == Layout(d, e, [Shape(d, a)])
  {
    hide Layout, Shape;
    assert Kids(d, e) == [Shape(d, a)];
  }

  lemma ShapeFromTwo(d: Dialect, e: Expr, a: Expr, b: Expr)
    requires Operands(e) == [a, b]
    ensures Shape(d, e) == Layout(d, e, [Shape(d, a), Shape(d, b)])
  {
    hide Layout, Shape, Operands;
    var kids := Kids(d, e);
    assert |kids| == 2 && kids[0] == Shape(d, a) && kids[1] == Shape(d, b);
    assert kids == [Shape(d, a), Shape(d, b)];
  }

  lemma ShapeOfOne(d: Dialect, e: Expr, a: Expr, before: seq<Lexeme>, after: seq<Lexeme>, base: nat)
    requires Operands(e) == [a]
    requires Layout(d, e, [Shape(d, a)]) == Row(One(before, Shape(d, a), after))
    ensures ExprText(d, e, base) == LexText(d, before) + ExprText(d, a, base) + LexText(d, after)
    ensures ExprSlots(d, e) == ExprSlots(d, a)
  {
    hide *;
    ShapeFromOne(d, e, a);
    RowTexts(d, e, One(before, Shape(d, a), after), base);
    TextOfOne(d, before, Shape(d, a), after, base);
    Texts(d, a, base);
  }

  lemma ShapeOfTwo(d: Dialect, e: Expr, a: Expr, b: Expr, before: seq<Lexeme>, between: seq<Lexeme>, after: seq<Lexeme>, base: nat)
    requires Operands(e) == [a, b]
    requires Layout(d, e, [Shape(d, a), Shape(d, b)]) == Row(Two(before, Shape(d, a), between, Shape(d, b), after))
    ensures ExprText(d, e, base)
         == LexText(d, before) + ExprText(d, a, base) + LexText(d, between) + ExprText(d, b, base + |ExprSlots(d, a)|) + LexText(d, after)
    ensures ExprSlots(d, e) == ExprSlots(d, a) + ExprSlots(d, b)
  {
    hide *;
    ShapeFromTwo(d, e, a, b);
    RowTexts(d, e, Two(before, Shape(d, a), between, Shape(d, b), after), base);
    TextOfTwo(d, before, Shape(d, a), between, Shape(d, b), after, base);
    Texts(d, a, base);
    Texts(d, b, base + |ExprSlots(d, a)|);
  }

  /** Comparisons, AND and OR, and LIKE: two operands around a word. */
  function InfixWord(e: Expr): Lexeme
    requires e.Compare? || e.Logic? || e.Like?
  {
    if e.Compare? then Cmp(e.op) else if e.Logic? then (if e.isAnd then AndWord else OrWord) else LikeWord(e.negated)
  }

  lemma InfixLayout(d: Dialect, e: Expr, x: Tree, y: Tree)
    requires e.Compare? || e.Logic? || e.Like?
    ensures Operands(e) == if e.Like? then [e.expr, e.pattern] else [e.left, e.right]
    ensures Layout(d, e, [x, y]) == Row(Two([LParen], x, [InfixWord(e)], y, [RParen]))
  {
  }

  lemma InfixText(d: Dialect, e: Expr, a: Expr, b: Expr, base: nat)
    requires e.Compare? || e.Logic? || e.Like?
    requires [a, b] == if e.Like? then [e.expr, e.pattern] else [e.left, e.right]
    ensures ExprText(d, e, base)
         == "(" + ExprText(d, a, base) + LexemeText(d, InfixWord(e)) + ExprText(d, b, base + |ExprSlots(d, a)|) + ")"
    ensures ExprSlots(d, e) == ExprSlots(d, a) + ExprSlots(d, b)
  {
    hide *;
    InfixLayout(d, e, Shape(d, a), Shape(d, b));
    ListBrackets(d);
    LexOne(d, InfixWord(e));
    ShapeOfTwo(d, e, a, b, [LParen], [InfixWord(e)], [RParen], base);
  }

  lemma CompareText(d: Dialect, e: Expr, base: nat)
    requires e.Compare?
    ensures ExprText(d, e, base)
         == "(" + ExprText(d, e.left, base) + CmpText(e.op) + ExprText(d, e.right, base + |ExprSlots(d, e.left)|) + ")"
    ensures ExprSlots(d, e) == ExprSlots(d, e.left) + ExprSlots(d, e.right)
  {
    hide ExprText, ExprSlots;
    InfixText(d, e, e.left, e.right, base);
  }

  lemma LogicText(d: Dialect, e: Expr, base: nat)
    requires e.Logic?
    ensures ExprText(d, e, base)
         == "(" + ExprText(d, e.left, base) + (if e.isAnd then " AND " else " OR ") + ExprText(d, e.right, base + |ExprSlots(d, e.left)|) + ")"
    ensures ExprSlots(d, e) == ExprSlots(d, e.left) + ExprSlots(d, e.right)
  {
    hide ExprText, ExprSlots;
    InfixText(d, e, e.left, e.right, base);
  }

  lemma NotWords(d: Dialect)
    ensures LexText(d, [NotWord, LParen]) == "NOT (" && LexText(d, [RParen]) == ")"
  {
    LexTwo(d, NotWord, LParen);
    LexOne(d, RParen);
  }

  lemma NotLayout(d: Dialect, e: Expr)
    requires e.Not?
    ensures Operands(e) == [e.operand] && Layout(d, e, [Shape(d, e.operand)]) == Row(One([NotWord, LParen], Shape(d, e.operand), [RParen]))
  {
    hide Shape, One;
  }

  lemma NotText(d: Dialect, e: Expr, base: nat)
    requires e.Not?
    ensures ExprText(d, e, base) == "NOT (" + ExprText(d, e.operand, base) + ")"
    ensures ExprSlots(d, e) == ExprSlots(d, e.operand)
  {
    hide ExprText, ExprSlots, LexText, TreeText, Shape;
    NotWords(d);
    NotLayout(d, e);
    ShapeOfOne(d, e, e.operand, [NotWord, LParen], [RParen], base);
  }

  lemma IsNullText(d: Dialect, e: Expr, base: nat)
    requires e.IsNull?
    ensures ExprText(d, e, base) == ExprText(d, e.operand, base) + (if e.negated then " IS NOT NULL" else " IS NULL")
    ensures ExprSlots(d, e) == ExprSlots(d, e.operand)
  {
    LexNone(d);
    LexOne(d, NullTest(e.negated));
    ShapeOfOne(d, e, e.operand, [], [NullTest(e.negated)], base);
  }

  lemma LikeText(d: Dialect, e: Expr, base: nat)
    requires e.Like?
    ensures ExprText(d, e, base)
         == "(" + ExprText(d, e.expr, base) + (if e.negated then " NOT LIKE " else " LIKE ") + ExprText(d, e.pattern, base + |ExprSlots(d, e.expr)|) + ")"
    ensures ExprSlots(d, e) == ExprSlots(d, e.expr) + ExprSlots(d, e.pattern)
  {
    hide ExprText, ExprSlots;
    InfixText(d, e, e.expr, e.pattern, base);
  }

  lemma BetweenText(d: Dialect, e: Expr, base: nat)
    requires e.Between?
    ensures var n := |ExprSlots(d, e.expr)|; var m := n + |ExprSlots(d, e.low)|;
      ExprText(d, e, base)
      == "(" + ExprText(d, e.expr, base) + (if e.negated then " NOT BETWEEN " else " BETWEEN ") + ExprText(d, e.low, base + n)
         + " AND " + ExprText(d, e.high, base + m) + ")"
    ensures ExprSlots(d, e) == ExprSlots(d, e.expr) + ExprSlots(d, e.low) + ExprSlots(d, e.high)
  {
    hide *;
    var x, lo, hi := Shape(d, e.expr), Shape(d, e.low), Shape(d, e.high);
    BetweenShape(d, e, base);
    BetweenWords(d, e.negated);
    TextOfTwo(d, [LParen], x, [BetweenWord(e.negated)], lo, [AndWord], base);
    RowThenOne(d, Two([LParen], x, [BetweenWord(e.negated)], lo, [AndWord]), hi, [RParen], base);
    Texts(d, e.expr, base);
    Texts(d, e.low, base + |Slots(x)|);
    Texts(d, e.high, base + |Slots(x)| + |Slots(lo)|);
  }

  lemma RowThenOne(d: Dialect, front: seq<Item>, t: Tree, after: seq<Lexeme>, base: nat)
    ensures ItemText(d, front + One([], t, after), base)
         == ItemText(d, front, base) + TreeText(d, t, base + |ItemSlots(front)|) + LexText(d, after)
    ensures ItemSlots(front + One([], t, after)) == ItemSlots(front) + Slots(t)
  {
    hide *;
    TextOfAppend(d, front, One([], t, after), base);
    TextOfOne(d, [], t, after, base + |ItemSlots(front)|);
    LexNone(d);
    Glue(ItemText(d, front, base), TreeText(d, t, base + |ItemSlots(front)|), LexText(d, after));
  }

  lemma BetweenWords(d: Dialect, negated: bool)
    ensures LexText(d, [LParen]) == "(" && LexText(d, [RParen]) == ")" && LexText(d, [AndWord]) == " AND "
    ensures LexText(d, [BetweenWord(negated)]) == if negated then " NOT BETWEEN " else " BETWEEN "
  {
    LexOne(d, LParen);
    LexOne(d, RParen);
    LexOne(d, AndWord);
    LexOne(d, BetweenWord(negated));
  }

  lemma BetweenLayout(d: Dialect, e: Expr)
    requires e.Between?
    ensures Shape(d, e)
         == Row(Two([LParen], Shape(d, e.expr), [BetweenWord(e.negated)], Shape(d, e.low), [AndWord]) + One([], Shape(d, e.high), [RParen]))
  {
    hide Shape, One, Two;
    assert Kids(d, e) == [Shape(d, e.expr), Shape(d, e.low), Shape(d, e.high)];
  }

  lemma BetweenShape(d: Dialect, e: Expr, base: nat)
    requires e.Between?
    ensures var items := Two([LParen], Shape(d, e.expr), [BetweenWord(e.negated)], Shape(d, e.low), [AndWord]) + One([], Shape(d, e.high), [RParen]);
      ExprText(d, e, base) == ItemText(d, items, base) && ExprSlots(d, e) == ItemSlots(items)
  {
    hide *;
    BetweenLayout(d, e);
    RowTexts(d, e, Two([LParen], Shape(d, e.expr), [BetweenWord(e.negated)], Shape(d, e.low), [AndWord]) + One([], Shape(d, e.high), [RParen]), base);
  }

  function ListText(d: Dialect, es: seq<Expr>, base: nat): string { ItemText(d, ListItems(ShapesOf(d, es)), base) }

  function ListSlots(d: Dialect, es: seq<Expr>): seq<Slot> { ItemSlots(ListItems(ShapesOf(d, es))) }

  lemma EmptyInListText(d: Dialect, e: Expr, base: nat)
    requires e.InList? && e.values == []
    ensures ExprText(d, e, base) == if e.negated then "(1 = 1)" else "(1 = 0)"
    ensures ExprSlots(d, e) == ExprSlots(d, e.expr)
  {
    assert Kids(d, e) == [Shape(d, e.expr)];
    LexOne(d, Raw(if e.negated then ALWAYS_TRUE else ALWAYS_FALSE));
  }

  lemma ListRow(d: Dialect, front: seq<Item>, list: seq<Item>, after: seq<Lexeme>, base: nat)
    ensures ItemText(d, front + list + Toks(after), base)
         == ItemText(d, front, base) + ItemText(d, list, base + |ItemSlots(front)|) + LexText(d, after)
    ensures ItemSlots(front + list + Toks(after)) == ItemSlots(front) + ItemSlots(list)
  {
    hide ItemText, ItemSlots, LexText;
    TextOfAppend(d, front + list, Toks(after), base);
    TextOfAppend(d, front, list, base);
    TextOfToks(d, after, base + |ItemSlots(front + list)|);
  }

  lemma InOpening(d: Dialect, negated: bool)
    ensures LexText(d, [InWord(negated), LParen]) == if negated then " NOT IN (" else " IN ("
  {
    LexTwo(d, InWord(negated), LParen);
  }

  lemma InListText(d: Dialect, e: Expr, base: nat)
    requires e.InList? && e.values != []
    ensures ExprText(d, e, base)
         == "(" + ExprText(d, e.expr, base) + (if e.negated then " NOT IN (" else " IN (") + ListText(d, e.values, base + |ExprSlots(d, e.expr)|) + "))"
    ensures ExprSlots(d, e) == ExprSlots(d, e.expr) + ListSlots(d, e.values)
  {
    hide *;
    InListShape(d, e, base);
    InListItems(d, Shape(d, e.expr), e.negated, ListItems(ShapesOf(d, e.values)), base);
    Texts(d, e.expr, base);
    ListTexts(d, e.values, base + |ExprSlots(d, e.expr)|);
  }

  lemma Texts(d: Dialect, e: Expr, base: nat)
    ensures ExprText(d, e, base) == TreeText(d, Shape(d, e), base) && ExprSlots(d, e) == Slots(Shape(d, e))
  {
  }

  lemma ListTexts(d: Dialect, es: seq<Expr>, base: nat)
    ensures ListText(d, es, base) == ItemText(d, ListItems(ShapesOf(d, es)), base) && ListSlots(d, es) == ItemSlots(ListItems(ShapesOf(d, es)))
  {
  }

  lemma ShapeIsLayout(d: Dialect, e: Expr)
    ensures Shape(d, e) == Layout(d, e, Kids(d, e))
  {
    hide Shape, Layout;
  }

  lemma InListKids(d: Dialect, e: Expr)
    requires e.InList?
    ensures Kids(d, e) == [Shape(d, e.expr)] + ShapesOf(d, e.values)
  {
    hide Shape, Layout;
  }

  lemma LayoutInList(d: Dialect, e: Expr, x: Tree, ts: seq<Tree>)
    requires e.InList? && e.values != [] && |ts| == |e.values|
    ensures Layout(d, e, [x] + ts) == Row(One([LParen], x, [InWord(e.negated), LParen]) + ListItems(ts) + Toks([RParen, RParen]))
  {
    hide One, ListItems, Toks;
    assert ([x] + ts)[1..] == ts;
  }

  lemma InListLayout(d: Dialect, e: Expr)
    requires e.InList? && e.values != []
    ensures Shape(d, e)
         == Row(One([LParen], Shape(d, e.expr), [InWord(e.negated), LParen]) + ListItems(ShapesOf(d, e.values)) + Toks([RParen, RParen]))
  {
    hide Shape, Layout, Kids, ShapesOf, One, ListItems, Toks;
    InListKids(d, e);
    LayoutInList(d, e, Shape(d, e.expr), ShapesOf(d, e.values));
    ShapeIsLayout(d, e);
  }

  lemma InListShape(d: Dialect, e: Expr, base: nat)
    requires e.InList? && e.values != []
    ensures var items := One([LParen], Shape(d, e.expr), [InWord(e.negated), LParen]) + ListItems(ShapesOf(d, e.values)) + Toks([RParen, RParen]);
      ExprText(d, e, base) == ItemText(d, items, base) && ExprSlots(d, e) == ItemSlots(items)
  {
    hide *;
    InListLayout(d, e);
    RowTexts(d, e, One([LParen], Shape(d, e.expr), [InWord(e.negated), LParen]) + ListItems(ShapesOf(d, e.values)) + Toks([RParen, RParen]), base);
  }

  lemma ListBrackets(d: Dialect)
    ensures LexText(d, [LParen]) == "(" && LexText(d, [RParen]) == ")" && LexText(d, [RParen, RParen]) == "))"
  {
    LexOne(d, LParen);
    LexOne(d, RParen);
    LexTwo(d, RParen, RParen);
  }

  lemma InListItems(d: Dialect, x: Tree, negated: bool, list: seq<Item>, base: nat)
    ensures var items := One([LParen], x, [InWord(negated), LParen]) + list + Toks([RParen, RParen]);
      && ItemText(d, items, base)
         == "(" + TreeText(d, x, base) + (if negated then " NOT IN (" else " IN (") + ItemText(d, list, base + |Slots(x)|) + "))"
      && ItemSlots(items) == Slots(x) + ItemSlots(list)
  {
    hide *;
    ListBrackets(d);
    InOpening(d, negated);
    TextOfOne(d, [LParen], x, [InWord(negated), LParen], base);
    ListRow(d, One([LParen], x, [InWord(negated), LParen]), list, [RParen, RParen], base);
  }

  lemma FunctionLayout(d: Dialect, e: Expr)
    requires e.Function?
    ensures Shape(d, e) == Row(Toks([Verbatim(FunctionName(d, e.name)), LParen]) + ListItems(ShapesOf(d, e.args)) + Toks([RParen]))
  {
    hide ListItems;
    assert Kids(d, e) == ShapesOf(d, e.args);
  }

  lemma FunctionOpening(d: Dialect, name: string)
    ensures LexText(d, [Verbatim(name), LParen]) == name + "("
  {
    LexTwo(d, Verbatim(name), LParen);
  }

  lemma FunctionText(d: Dialect, e: Expr, base: nat)
    requires e.Function?
    ensures ExprText(d, e, base) == FunctionName(d, e.name) + "(" + ListText(d, e.args, base) + ")"
    ensures ExprSlots(d, e) == ListSlots(d, e.args)
  {
    hide *;
    var name, list := [Verbatim(FunctionName(d, e.name)), LParen], ListItems(ShapesOf(d, e.args));
    FunctionLayout(d, e);
    RowTexts(d, e, Toks(name) + list + Toks([RParen]), base);
    FunctionOpening(d, FunctionName(d, e.name));
    ListBrackets(d);
    TextOfToks(d, name, base);
    ListRow(d, Toks(name), list, [RParen], base);
    ListTexts(d, e.args, base);
    assert [] + ItemSlots(list) == ItemSlots(list);
  }

  lemma LeafTexts(d: Dialect, e: Expr, base: nat)
    requires e.Literal? || e.Param?
    ensures ExprText(d, e, base) == "?"
    ensures ExprSlots(d, e) == [if e.Literal? then Static(e.value) else Dynamic(e.index)]
  {
    var p := [Mark(base)];
    assert p[1..] == [] && Flatten(d, p) == "?" + Flatten(d, p[1..]);
  }

  lemma FixedTexts(d: Dialect, e: Expr, base: nat)
    requires e.Column? || e.CurrentTimestamp? || e.CurrentDate? || e.Missing?
    ensures ExprSlots(d, e) == [] && Statics([]) == []
    ensures e.Column? ==>
      ExprText(d, e, base) == if e.table == "" then QuoteId(d, e.column) else QuoteId(d, e.table) + "." + QuoteId(d, e.column)
    ensures e.CurrentTimestamp? ==> ExprText(d, e, base) == "CURRENT_TIMESTAMP"
    ensures e.CurrentDate? ==> ExprText(d, e, base) == if d.Postgres? then "CURRENT_DATE" else "CAST(GETDATE() AS DATE)"
    ensures e.Missing? ==> ExprText(d, e, base) == ""
  {
    hide LexText, ItemText, Flatten;
    match e
    case Column(_, _) => ColumnText(d, e, base);
    case CurrentTimestamp =>
      TextOfToks(d, [Raw(CURRENT_TIMESTAMP)], base);
      LexOne(d, Raw(CURRENT_TIMESTAMP));
      RowTexts(d, e, Toks([Raw(CURRENT_TIMESTAMP)]), base);
    case CurrentDate =>
      var now := Raw(if d.Postgres? then CURRENT_DATE else CAST_GETDATE);
      TextOfToks(d, [now], base);
      LexOne(d, now);
      RowTexts(d, e, Toks([now]), base);
    case Missing =>
      EmptyRow(d, base);
      RowTexts(d, e, [], base);
  }

  lemma ColumnText(d: Dialect, e: Expr, base: nat)
    requires e.Column?
    ensures ExprSlots(d, e) == []
    ensures ExprText(d, e, base) == if e.table == "" then QuoteId(d, e.column) else QuoteId(d, e.table) + "." + QuoteId(d, e.column)
  {
    hide LexText, ItemText, Flatten;
    TextOfToks(d, ColumnPieces(e.table, e.column), base);
    RowTexts(d, e, Toks(ColumnPieces(e.table, e.column)), base);
    if e.table == "" { LexOne(d, Ident(e.column)); } else { LexThree(d, Ident(e.table), Dot, Ident(e.column)); }
  }

  lemma ExtractText(d: Dialect, e: Expr, base: nat)
    requires e.Extract?
    ensures ExprText(d, e, base)
         == if d.Postgres? then "EXTRACT(" + DatePartName(e.part) + " FROM CAST(" + ExprText(d, e.expr, base) + " AS TIMESTAMP))"
            else DatePartName(e.part) + "(" + ExprText(d, e.expr, base) + ")"
    ensures ExprSlots(d, e) == ExprSlots(d, e.expr)
  {
    hide LexText;
    if d.Postgres? {
      LexThree(d, Raw(EXTRACT), Raw(DatePartName(e.part)), Raw(FROM_CAST));
      LexOne(d, Raw(AS_TIMESTAMP_CLOSE));
      ShapeOfOne(d, e, e.expr, [Raw(EXTRACT), Raw(DatePartName(e.part)), Raw(FROM_CAST)], [Raw(AS_TIMESTAMP_CLOSE)], base);
    } else {
      LexTwo(d, Raw(DatePartName(e.part)), LParen);
      LexOne(d, RParen);
      ShapeOfOne(d, e, e.expr, [Raw(DatePartName(e.part)), LParen], [RParen], base);
    }
  }

  /** SQL Server prints the number of days before the date it was visited after. */
  lemma DateAddText(d: Dialect, e: Expr, base: nat)
    requires e.DateAdd?
    ensures ExprText(d, e, base)
         == var days := ExprText(d, e.days, base + |ExprSlots(d, e.expr)|);
            if d.Postgres? then "(CAST(" + ExprText(d, e.expr, base) + " AS TIMESTAMP) + (" + days + " || ' days')::interval)"
            else "DATEADD(day, " + days + ", " + ExprText(d, e.expr, base) + ")"
    ensures ExprSlots(d, e) == ExprSlots(d, e.expr) + ExprSlots(d, e.days)
  {
    if d.Postgres? { PostgresDateAdd(e, base); } else { MssqlDateAdd(e, base); }
  }

  lemma IntervalWords()
    ensures LexText(Postgres, [Raw(OPEN_CAST)]) == "(CAST(" && LexText(Postgres, [Raw(AS_TIMESTAMP_PLUS)]) == " AS TIMESTAMP) + ("
    ensures LexText(Postgres, [Raw(CONCATENATE), DaysConstant, Raw(TO_INTERVAL)]) == " || ' days')::interval)"
  {
    hide LexText;
    LexOne(Postgres, Raw(OPEN_CAST));
    LexOne(Postgres, Raw(AS_TIMESTAMP_PLUS));
    LexThree(Postgres, Raw(CONCATENATE), DaysConstant, Raw(TO_INTERVAL));
  }

  lemma DateAddLayout(e: Expr)
    requires e.DateAdd?
    ensures Operands(e) == [e.expr, e.days]
    ensures var x, y := Shape(Postgres, e.expr), Shape(Postgres, e.days);
      Layout(Postgres, e, [x, y]) == Row(Two([Raw(OPEN_CAST)], x, [Raw(AS_TIMESTAMP_PLUS)], y, [Raw(CONCATENATE), DaysConstant, Raw(TO_INTERVAL)]))
  {
    hide Shape, Two;
  }

  lemma PostgresDateAdd(e: Expr, base: nat)
    requires e.DateAdd?
    ensures ExprText(Postgres, e, base)
         == "(CAST(" + ExprText(Postgres, e.expr, base) + " AS TIMESTAMP) + ("
            + ExprText(Postgres, e.days, base + |ExprSlots(Postgres, e.expr)|) + " || ' days')::interval)"
    ensures ExprSlots(Postgres, e) == ExprSlots(Postgres, e.expr) + ExprSlots(Postgres, e.days)
  {
    hide ExprText, ExprSlots, LexText, TreeText, Shape, Operands, Layout;
    IntervalWords();
    DateAddLayout(e);
    ShapeOfTwo(Postgres, e, e.expr, e.days, [Raw(OPEN_CAST)], [Raw(AS_TIMESTAMP_PLUS)], [Raw(CONCATENATE), DaysConstant, Raw(TO_INTERVAL)], base);
  }

  lemma MssqlDateAddLayout(e: Expr)
    requires e.DateAdd?
    ensures Shape(Mssql, e) == Swapped([Raw(DATEADD)], Shape(Mssql, e.expr), [Comma], Shape(Mssql, e.days), [RParen])
  {
    hide Shape;
    assert Kids(Mssql, e) == [Shape(Mssql, e.expr), Shape(Mssql, e.days)];
  }

  lemma SwappedSlots(open: seq<Lexeme>, t: Tree, mid: seq<Lexeme>, u: Tree, close: seq<Lexeme>)
    ensures Slots(Swapped(open, t, mid, u, close)) == Slots(t) + Slots(u)
  {
  }

  lemma MssqlDateAdd(e: Expr, base: nat)
    requires e.DateAdd?
    ensures ExprText(Mssql, e, base)
         == "DATEADD(day, " + ExprText(Mssql, e.days, base + |ExprSlots(Mssql, e.expr)|) + ", " + ExprText(Mssql, e.expr, base) + ")"
    ensures ExprSlots(Mssql, e) == ExprSlots(Mssql, e.expr) + ExprSlots(Mssql, e.days)
  {
    hide ExprText, ExprSlots, LexText, TreeText, Shape, Operands, Layout, Slots;
    var x, n := Shape(Mssql, e.expr), Shape(Mssql, e.days);
    MssqlDateAddLayout(e);
    LexOne(Mssql, Raw(DATEADD));
    LexOne(Mssql, Comma);
    LexOne(Mssql, RParen);
    SwappedText(Mssql, [Raw(DATEADD)], x, [Comma], n, [RParen], base);
    SwappedSlots([Raw(DATEADD)], x, [Comma], n, [RParen]);
    Texts(Mssql, e, base);
    Texts(Mssql, e.expr, base);
    Texts(Mssql, e.days, base + |Slots(x)|);
  }

  lemma SwappedPieces(open: seq<Lexeme>, t: Tree, mid: seq<Lexeme>, u: Tree, close: seq<Lexeme>, base: nat)
    ensures Pieces(Swapped(open, t, mid, u, close), base)
         == Lexes(open) + Pieces(u, base + |Slots(t)|) + Lexes(mid) + Pieces(t, base) + Lexes(close)
  {
  }

  lemma SwappedText(d: Dialect, open: seq<Lexeme>, t: Tree, mid: seq<Lexeme>, u: Tree, close: seq<Lexeme>, base: nat)
    ensures TreeText(d, Swapped(open, t, mid, u, close), base)
         == LexText(d, open) + TreeText(d, u, base + |Slots(t)|) + LexText(d, mid) + TreeText(d, t, base) + LexText(d, close)
  {
    hide Flatten, Pieces, Lexes;
    var pu, pt := Pieces(u, base + |Slots(t)|), Pieces(t, base);
    SwappedPieces(open, t, mid, u, close, base);
    FlattenAppend(d, Lexes(open) + pu + Lexes(mid) + pt, Lexes(close));
    FlattenAppend(d, Lexes(open) + pu + Lexes(mid), pt);
    FlattenAppend(d, Lexes(open) + pu, Lexes(mid));
    FlattenAppend(d, Lexes(open), pu);
  }

  // ---------------------------------------------------------------------------------------------
  // Nested selects and windows
  // ---------------------------------------------------------------------------------------------

  lemma NamesStep(d: Dialect, ids: seq<string>, i: nat)
    requires i < |ids|
    ensures LexText(d, Names(ids[..i + 1])) == LexText(d, Names(ids[..i])) + Separator(i > 0) + QuoteId(d, ids[i])
  {
    var front, comma := ids[..i + 1], CommaIf(i > 0);
    assert front[..i] == ids[..i];
    LexAppend(d, Names(ids[..i]) + comma, [Ident(ids[i])]);
    LexAppend(d, Names(ids[..i]), comma);
    LexOne(d, Ident(ids[i]));
    CommaText(d, i > 0);
  }

  method NamesText(d: Dialect, ids: seq<string>) returns (text: string)
    ensures text == LexText(d, Names(ids))
  {
    text := "";
    for i := 0 to |ids|
      invariant text == LexText(d, Names(ids[..i]))
    {
      if i > 0 { text := text + ", "; }
      var id := QuoteIdentifier(d, ids[i]);
      text := text + id;
      NamesStep(d, ids, i);
    }
    assert ids[..|ids|] == ids;
  }

  lemma HeadText(d: Dialect, q: Select, star: PlainText)
    ensures LexText(d, SelectHead(q, star))
         == (if q.distinct then "DISTINCT " else "") + (if q.columns == [] then star else LexText(d, Names(q.columns)))
            + (" FROM " + QuoteId(d, q.table))
  {
    hide LexText;
    var a := if q.distinct then [Raw(DISTINCT)] else [];
    var b := if q.columns == [] then [Raw(star)] else Names(q.columns);
    LexAppend(d, a + b, [Raw(FROM), Ident(q.table)]);
    LexAppend(d, a, b);
    LexOne(d, Raw(DISTINCT));
    LexOne(d, Raw(star));
    LexNone(d);
    LexTwo(d, Raw(FROM), Ident(q.table));
  }

  method SelectHeadText(d: Dialect, q: Select, star: PlainText) returns (text: string)
    ensures text == LexText(d, SelectHead(q, star))
  {
    hide *;
    HeadText(d, q, star);
    text := if q.distinct then "DISTINCT " else "";
    if q.columns == [] {
      text := text + star;
    } else {
      var names := NamesText(d, q.columns);
      text := text + names;
    }
    var table := QuoteIdentifier(d, q.table);
    text := text + (" FROM " + table);
  }

  lemma SelectRow(d: Dialect, before: seq<Item>, q: Select, star: PlainText, where: seq<Tree>, after: seq<Lexeme>, base: nat)
    ensures var items := NestedSelect(before, q, star, where, after);
      && ItemText(d, items, base)
         == ItemText(d, before, base) + LexText(d, SelectHead(q, star)) + ItemText(d, WhereItems(where), base + |ItemSlots(before)|) + LexText(d, after)
      && ItemSlots(items) == ItemSlots(before) + ItemSlots(WhereItems(where))
  {
    hide ItemText, ItemSlots, LexText, SelectHead, WhereItems;
    var head := Toks(SelectHead(q, star));
    TextOfAppend(d, before + head + WhereItems(where), Toks(after), base);
    TextOfAppend(d, before + head, WhereItems(where), base);
    TextOfAppend(d, before, head, base);
    TextOfToks(d, SelectHead(q, star), base + |ItemSlots(before)|);
    TextOfToks(d, after, base + |ItemSlots(before) + ItemSlots(WhereItems(where))|);
  }

  function WhereText(d: Dialect, where: Option<Expr>, base: nat): string {
    if where.Some? then " WHERE " + ExprText(d, where.value, base) else ""
  }

  function WhereSlots(d: Dialect, where: Option<Expr>): seq<Slot> {
    if where.Some? then ExprSlots(d, where.value) else []
  }

  lemma WhereTexts(d: Dialect, where: Option<Expr>, base: nat)
    ensures ItemText(d, WhereItems(ShapesOf(d, OptionList(where))), base) == WhereText(d, where, base)
    ensures ItemSlots(WhereItems(ShapesOf(d, OptionList(where)))) == WhereSlots(d, where)
  {
    if where.Some? {
      TextOfOne(d, [Raw(WHERE)], Shape(d, where.value), [], base);
      LexOne(d, Raw(WHERE));
      LexNone(d);
    } else {
      EmptyRow(d, base);
    }
  }

  function SelectText(d: Dialect, q: Select, star: PlainText, base: nat): string {
    LexText(d, SelectHead(q, star)) + WhereText(d, q.where, base)
  }

  lemma SelectShape(d: Dialect, e: Expr, base: nat)
    requires e.Subquery? || e.Exists? || e.InSubquery?
    ensures e.Subquery? ==>
      && ExprText(d, e, base) == ItemText(d, NestedSelect(Toks([Raw(NESTED_SELECT)]), e.query, STAR, ShapesOf(d, OptionList(e.query.where)), [RParen]), base)
      && ExprSlots(d, e) == ItemSlots(NestedSelect(Toks([Raw(NESTED_SELECT)]), e.query, STAR, ShapesOf(d, OptionList(e.query.where)), [RParen]))
    ensures e.Exists? ==> var before := Toks([Raw(if e.negated then NOT_EXISTS else EXISTS)]);
      && ExprText(d, e, base) == ItemText(d, NestedSelect(before, e.query, ONE, ShapesOf(d, OptionList(e.query.where)), [RParen]), base)
      && ExprSlots(d, e) == ItemSlots(NestedSelect(before, e.query, ONE, ShapesOf(d, OptionList(e.query.where)), [RParen]))
    ensures e.InSubquery? ==> var before := One([LParen], Shape(d, e.expr), [InWord(e.negated), LParen, Raw(SELECT)]);
      && ExprText(d, e, base) == ItemText(d, NestedSelect(before, e.query, STAR, ShapesOf(d, OptionList(e.query.where)), [RParen, RParen]), base)
      && ExprSlots(d, e) == ItemSlots(NestedSelect(before, e.query, STAR, ShapesOf(d, OptionList(e.query.where)), [RParen, RParen]))
  {
    hide NestedSelect, ItemText, Flatten;
    var kids := Kids(d, e);
    if e.InSubquery? {
      assert kids == [Shape(d, e.expr)] + ShapesOf(d, OptionList(e.query.where));
      assert kids[1..] == ShapesOf(d, OptionList(e.query.where));
    } else {
      assert kids == ShapesOf(d, OptionList(e.query.where));
    }
    RowText(d, e, base);
  }

  lemma RowText(d: Dialect, e: Expr, base: nat)
    ensures Shape(d, e).Row? ==> ExprText(d, e, base) == ItemText(d, Shape(d, e).items, base) && ExprSlots(d, e) == ItemSlots(Shape(d, e).items)
  {
  }

  lemma SubqueryText(d: Dialect, e: Expr, base: nat)
    requires e.Subquery? || e.Exists?
    ensures ExprText(d, e, base)
         == (if e.Subquery? then "(SELECT " else if e.negated then "NOT EXISTS (SELECT " else "EXISTS (SELECT ")
            + SelectText(d, e.query, if e.Subquery? then STAR else ONE, base) + ")"
    ensures ExprSlots(d, e) == WhereSlots(d, e.query.where)
  {
    hide *;
    var word := SelectWord(e);
    var star := if e.Subquery? then STAR else ONE;
    var where := ShapesOf(d, OptionList(e.query.where));
    SelectShapeOf(d, e, base);
    SelectRow(d, Toks([Raw(word)]), e.query, star, where, [RParen], base);
    TextOfToks(d, [Raw(word)], base);
    LexOne(d, Raw(word));
    RawText(d, word);
    SelectWords(e);
    ListBrackets(d);
    WhereTexts(d, e.query.where, base);
    SelectTexts(d, e.query, star, base);
    Reassociate(word, LexText(d, SelectHead(e.query, star)), WhereText(d, e.query.where, base));
  }

  function SelectWord(e: Expr): PlainText
    requires e.Subquery? || e.Exists?
  {
    if e.Subquery? then NESTED_SELECT else if e.negated then NOT_EXISTS else EXISTS
  }

  lemma SelectWords(e: Expr)
    requires e.Subquery? || e.Exists?
    ensures SelectWord(e) == if e.Subquery? then "(SELECT " else if e.negated then "NOT EXISTS (SELECT " else "EXISTS (SELECT "
  {
  }

  lemma RawText(d: Dialect, text: PlainText)
    ensures LexemeText(d, Raw(text)) == text
  {
  }

  lemma SelectShapeOf(d: Dialect, e: Expr, base: nat)
    requires e.Subquery? || e.Exists?
    ensures var items := NestedSelect(Toks([Raw(SelectWord(e))]), e.query, if e.Subquery? then STAR else ONE, ShapesOf(d, OptionList(e.query.where)), [RParen]);
      ExprText(d, e, base) == ItemText(d, items, base) && ExprSlots(d, e) == ItemSlots(items)
  {
    hide ExprText, ExprSlots, ItemText, ItemSlots, NestedSelect;
    SelectShape(d, e, base);
  }

  lemma InSubqueryText(d: Dialect, e: Expr, base: nat)
    requires e.InSubquery?
    ensures ExprText(d, e, base)
         == "(" + ExprText(d, e.expr, base) + (if e.negated then " NOT IN (SELECT " else " IN (SELECT ")
            + SelectText(d, e.query, STAR, base + |ExprSlots(d, e.expr)|) + "))"
    ensures ExprSlots(d, e) == ExprSlots(d, e.expr) + WhereSlots(d, e.query.where)
  {
    hide *;
    var words := [InWord(e.negated), LParen, Raw(SELECT)];
    SelectShape(d, e, base);
    SelectRow(d, One([LParen], Shape(d, e.expr), words), e.query, STAR, ShapesOf(d, OptionList(e.query.where)), [RParen, RParen], base);
    TextOfOne(d, [LParen], Shape(d, e.expr), words, base);
    ListBrackets(d);
    InSelectOpening(d, e.negated);
    Texts(d, e.expr, base);
    WhereTexts(d, e.query.where, base + |ExprSlots(d, e.expr)|);
    SelectTexts(d, e.query, STAR, base + |ExprSlots(d, e.expr)|);
    Reassociate(ItemText(d, One([LParen], Shape(d, e.expr), words), base), LexText(d, SelectHead(e.query, STAR)),
                WhereText(d, e.query.where, base + |ExprSlots(d, e.expr)|));
  }

  lemma SelectTexts(d: Dialect, q: Select, star: PlainText, base: nat)
    ensures SelectText(d, q, star, base) == LexText(d, SelectHead(q, star)) + WhereText(d, q.where, base)
  {
  }

  lemma InSelectOpening(d: Dialect, negated: bool)
    ensures LexText(d, [InWord(negated), LParen, Raw(SELECT)]) == if negated then " NOT IN (SELECT " else " IN (SELECT "
  {
    LexThree(d, InWord(negated), LParen, Raw(SELECT));
  }

  lemma Reassociate(a: string, b: string, c: string)
    ensures a + b + c == a + (b + c)
  {
  }

  // Windows

  function ArgumentText(d: Dialect, e: Expr, base: nat): string
    requires e.Window?
  {
    if !TakesArgument(e.kind) then ""
    else if e.arg.Some? then ExprText(d, e.arg.value, base)
    else if e.kind.Count? then "*" else ""
  }

  function ArgumentSlots(d: Dialect, e: Expr): seq<Slot>
    requires e.Window?
  {
    if TakesArgument(e.kind) && e.arg.Some? then ExprSlots(d, e.arg.value) else []
  }

  lemma CallWords(d: Dialect, kind: WindowFunction)
    ensures LexText(d, [Raw(WindowOpening(kind))]) == WindowOpening(kind) && LexText(d, [RParen, Raw(OVER)]) == ") OVER ("
  {
    LexOne(d, Raw(WindowOpening(kind)));
    LexTwo(d, RParen, Raw(OVER));
  }

  lemma CallArgument(d: Dialect, e: Expr, base: nat)
    requires e.Window?
    ensures var arg := ShapesOf(d, Argument(e.kind, e.arg));
      var inner := if arg == [] then Toks(if e.kind.Count? then [Raw(STAR)] else []) else [Sub(arg[0])];
      ItemText(d, inner, base) == ArgumentText(d, e, base) && ItemSlots(inner) == ArgumentSlots(d, e)
  {
    hide ItemText, ItemSlots, LexText, TreeText, Slots, Shape;
    var arg := ShapesOf(d, Argument(e.kind, e.arg));
    if arg == [] {
      TextOfToks(d, if e.kind.Count? then [Raw(STAR)] else [], base);
      LexOne(d, Raw(STAR));
      LexNone(d);
    } else {
      TextOfSub(d, arg[0], base);
    }
  }

  lemma CallText(d: Dialect, e: Expr, base: nat)
    requires e.Window?
    ensures var items := WindowCall(e.kind, ShapesOf(d, Argument(e.kind, e.arg)));
      && ItemText(d, items, base) == WindowOpening(e.kind) + ArgumentText(d, e, base) + ") OVER ("
      && ItemSlots(items) == ArgumentSlots(d, e)
  {
    hide ItemText, ItemSlots, LexText, TreeText, Slots, Shape, ExprText, ExprSlots;
    var arg := ShapesOf(d, Argument(e.kind, e.arg));
    var inner := if arg == [] then Toks(if e.kind.Count? then [Raw(STAR)] else []) else [Sub(arg[0])];
    CallWords(d, e.kind);
    ListRow(d, Toks([Raw(WindowOpening(e.kind))]), inner, [RParen, Raw(OVER)], base);
    TextOfToks(d, [Raw(WindowOpening(e.kind))], base);
    CallArgument(d, e, base);
    assert [] + ItemSlots(inner) == ItemSlots(inner);
  }

  function KeyShapes(d: Dialect, os: seq<Order>): (r: seq<Tree>)
    ensures |r| == |os|
    ensures forall i :: 0 <= i < |os| ==> r[i] == Shape(d, os[i].expr)
  {
    seq(|os|, i requires 0 <= i < |os| => Shape(d, os[i].expr))
  }

  function OrderText(d: Dialect, os: seq<Order>, base: nat): string { ItemText(d, OrderItems(KeyShapes(d, os), os), base) }

  function OrderSlots(d: Dialect, os: seq<Order>): seq<Slot> { ItemSlots(OrderItems(KeyShapes(d, os), os)) }

  lemma OrderStep(d: Dialect, os: seq<Order>, i: nat, base: nat)
    requires i < |os|
    ensures OrderText(d, os[..i + 1], base)
         == OrderText(d, os[..i], base) + Separator(i > 0)
            + (ExprText(d, os[i].expr, base + |OrderSlots(d, os[..i])|) + (if os[i].descending then " DESC" else " ASC"))
    ensures OrderSlots(d, os[..i + 1]) == OrderSlots(d, os[..i]) + ExprSlots(d, os[i].expr)
  {
    hide ItemText, ItemSlots, LexText, TreeText, Slots, Shape, OrderItem;
    var ts, front := KeyShapes(d, os[..i + 1]), OrderItems(KeyShapes(d, os[..i]), os[..i]);
    assert ts[..i] == KeyShapes(d, os[..i]) && os[..i + 1][..i] == os[..i];
    var comma := CommaIf(i > 0);
    TextOfAppend(d, front + Toks(comma), OrderItem(ts[i], os[i].descending), base);
    TextOfAppend(d, front, Toks(comma), base);
    TextOfToks(d, comma, base + |ItemSlots(front)|);
    CommaText(d, i > 0);
    KeyText(d, ts[i], os[i].descending, base + |ItemSlots(front)|);
  }

  lemma KeyText(d: Dialect, t: Tree, descending: bool, base: nat)
    ensures ItemText(d, OrderItem(t, descending), base) == TreeText(d, t, base) + (if descending then " DESC" else " ASC")
    ensures ItemSlots(OrderItem(t, descending)) == Slots(t)
  {
    hide ItemText, ItemSlots, LexText, TreeText, Slots, One;
    var word := Raw(if descending then DESC else ASC);
    LexNone(d);
    LexOne(d, word);
    TextOfOne(d, [], t, [word], base);
    assert "" + TreeText(d, t, base) == TreeText(d, t, base);
  }

  lemma OverClauses(d: Dialect, e: Expr, base: nat)
    requires e.Window?
    ensures ItemText(d, PartitionClause(ShapesOf(d, e.partition)), base)
         == if e.partition == [] then "" else "PARTITION BY " + ListText(d, e.partition, base)
    ensures ItemSlots(PartitionClause(ShapesOf(d, e.partition))) == ListSlots(d, e.partition)
    ensures ItemText(d, OrderClause(KeyShapes(d, e.order), e.order), base)
         == if e.order == [] then "" else "ORDER BY " + OrderText(d, e.order, base)
    ensures ItemSlots(OrderClause(KeyShapes(d, e.order), e.order)) == OrderSlots(d, e.order)
  {
    hide ItemText, ItemSlots, LexText, Shape, OrderItems, ListItems;
    EmptyRow(d, base);
    EmptyOrder();
    var ps, os := ListItems(ShapesOf(d, e.partition)), OrderItems(KeyShapes(d, e.order), e.order);
    TextOfAppend(d, Toks([Raw(PARTITION_BY)]), ps, base);
    TextOfToks(d, [Raw(PARTITION_BY)], base);
    LexOne(d, Raw(PARTITION_BY));
    TextOfAppend(d, Toks([Raw(ORDER_BY)]), os, base);
    TextOfToks(d, [Raw(ORDER_BY)], base);
    LexOne(d, Raw(ORDER_BY));
  }

  lemma EmptyOrder()
    ensures OrderItems([], []) == []
  {
  }

  lemma WindowKids(d: Dialect, e: Expr)
    requires e.Window?
    ensures var a, p, kids := |Argument(e.kind, e.arg)|, |e.partition|, Kids(d, e);
      && a + p <= |kids|
      && kids[..a] == ShapesOf(d, Argument(e.kind, e.arg)) && kids[a..a + p] == ShapesOf(d, e.partition)
      && kids[a + p..] == KeyShapes(d, e.order)
  {
    hide Shape, Layout;
  }

  lemma WindowLayout(d: Dialect, e: Expr)
    requires e.Window?
    ensures Shape(d, e)
         == Row(WindowCall(e.kind, ShapesOf(d, Argument(e.kind, e.arg))) + PartitionClause(ShapesOf(d, e.partition))
                + Toks(if e.partition != [] && e.order != [] then [Raw(SPACE)] else [])
                + OrderClause(KeyShapes(d, e.order), e.order) + Toks([RParen]))
  {
    hide WindowCall, PartitionClause, OrderClause, Toks, Shape, ShapesOf, KeyShapes, Kids;
    WindowKids(d, e);
  }

  lemma WindowShape(d: Dialect, e: Expr, base: nat)
    requires e.Window?
    ensures var items := WindowCall(e.kind, ShapesOf(d, Argument(e.kind, e.arg))) + PartitionClause(ShapesOf(d, e.partition))
                         + Toks(if e.partition != [] && e.order != [] then [Raw(SPACE)] else [])
                         + OrderClause(KeyShapes(d, e.order), e.order) + Toks([RParen]);
      ExprText(d, e, base) == ItemText(d, items, base) && ExprSlots(d, e) == ItemSlots(items)
  {
    hide *;
    WindowLayout(d, e);
    RowTexts(d, e, WindowCall(e.kind, ShapesOf(d, Argument(e.kind, e.arg))) + PartitionClause(ShapesOf(d, e.partition))
                   + Toks(if e.partition != [] && e.order != [] then [Raw(SPACE)] else [])
                   + OrderClause(KeyShapes(d, e.order), e.order) + Toks([RParen]), base);
  }

  lemma FiveText(d: Dialect, a: seq<Item>, b: seq<Item>, ls: seq<Lexeme>, c: seq<Item>, ks: seq<Lexeme>, base: nat)
    ensures ItemText(d, a + b + Toks(ls) + c + Toks(ks), base)
         == ItemText(d, a, base) + ItemText(d, b, base + |ItemSlots(a)|) + LexText(d, ls)
            + ItemText(d, c, base + |ItemSlots(a)| + |ItemSlots(b)|) + LexText(d, ks)
    ensures ItemSlots(a + b + Toks(ls) + c + Toks(ks)) == ItemSlots(a) + ItemSlots(b) + ItemSlots(c)
  {
    hide *;
    ListRow(d, a, b, ls, base);
    ListRow(d, a + b + Toks(ls), c, ks, base);
  }

  lemma WindowText(d: Dialect, e: Expr, base: nat)
    requires e.Window?
    ensures var n := base + |ArgumentSlots(d, e)|; var m := n + |ListSlots(d, e.partition)|;
      ExprText(d, e, base)
      == (WindowOpening(e.kind) + ArgumentText(d, e, base) + ") OVER (")
         + (if e.partition == [] then "" else "PARTITION BY " + ListText(d, e.partition, n))
         + (if e.partition != [] && e.order != [] then " " else "")
         + (if e.order == [] then "" else "ORDER BY " + OrderText(d, e.order, m)) + ")"
    ensures ExprSlots(d, e) == ArgumentSlots(d, e) + ListSlots(d, e.partition) + OrderSlots(d, e.order)
  {
    hide *;
    var space := if e.partition != [] && e.order != [] then [Raw(SPACE)] else [];
    var n := base + |ArgumentSlots(d, e)|;
    WindowShape(d, e, base);
    FiveText(d, WindowCall(e.kind, ShapesOf(d, Argument(e.kind, e.arg))), PartitionClause(ShapesOf(d, e.partition)), space,
             OrderClause(KeyShapes(d, e.order), e.order), [RParen], base);
    CallText(d, e, base);
    OverClauses(d, e, n);
    OverClauses(d, e, n + |ListSlots(d, e.partition)|);
    SpaceText(d, e.partition != [] && e.order != []);
    ListBrackets(d);
  }

  lemma SpaceText(d: Dialect, needed: bool)
    ensures LexText(d, if needed then [Raw(SPACE)] else []) == if needed then " " else ""
  {
    LexNone(d);
    LexOne(d, Raw(SPACE));
  }
}
