/**
 * Layout of a generated statement. Generating SQL visits expressions in some order, recording one slot
 * for each literal or parameter it meets, and prints their text in some order. A Tree says both at once.
 */
module LayoutTree {
  import opened Values
  import opened Dialects

  datatype CompareOp = Eq | Ne | Lt | Le | Gt | Ge

  /** How a placeholder gets its value: a constant of the query, or an argument of the later call. */
  datatype Slot = Static(value: BoundValue) | Dynamic(index: nat)

  predicate PlainChar(c: char) { c != '\'' && c != '"' && c != '?' }

  predicate Plain(s: string) { forall i :: 0 <= i < |s| ==> PlainChar(s[i]) }

  type PlainText = s: string | Plain(s)

  /**
   * The fixed lexemes of the generated text. Only Verbatim text is copied unquoted from the caller:
   * function names and join words.
   */
  datatype Lexeme =
    | Raw(text: PlainText)
    | DaysConstant
    | Verbatim(name: string)
    | Ident(id: string)
    | Dot
    | LParen
    | RParen
    | Comma
    | Cmp(op: CompareOp)
    | AndWord
    | OrWord
    | NotWord
    | NullTest(negated: bool)
    | BetweenWord(negated: bool)
    | LikeWord(negated: bool)
    | InWord(negated: bool)

  /** A piece of text: a lexeme, or a placeholder with the number of the slot it was printed for. */
  datatype Piece = Lex(lexeme: Lexeme) | Mark(slot: nat)

  function CmpText(op: CompareOp): string {
    match op
    case Eq => " = "
    case Ne => " <> "
    case Lt => " < "
    case Le => " <= "
    case Gt => " > "
    case Ge => " >= "
  }

  function LexemeText(d: Dialect, l: Lexeme): string {
    match l
    case Raw(text) => text
    case DaysConstant => "' days'"
    case Verbatim(name) => name
    case Ident(id) => QuoteId(d, id)
    case Dot => "."
    case LParen => "("
    case RParen => ")"
    case Comma => ", "
    case Cmp(op) => CmpText(op)
    case AndWord => " AND "
    case OrWord => " OR "
    case NotWord => "NOT "
    case NullTest(negated) => if negated then " IS NOT NULL" else " IS NULL"
    case BetweenWord(negated) => if negated then " NOT BETWEEN " else " BETWEEN "
    case LikeWord(negated) => if negated then " NOT LIKE " else " LIKE "
    case InWord(negated) => if negated then " NOT IN " else " IN "
  }

  function Render(d: Dialect, p: Piece): string {
    match p
    case Lex(l) => LexemeText(d, l)
    case Mark(_) => "?"
  }

  function Lexes(ls: seq<Lexeme>): (r: seq<Piece>)
    ensures |r| == |ls|
    ensures forall i :: 0 <= i < |ls| ==> r[i] == Lex(ls[i])
  {
    seq(|ls|, i requires 0 <= i < |ls| => Lex(ls[i]))
  }

  function Flatten(d: Dialect, ps: seq<Piece>): string {
    if ps == [] then "" else Render(d, ps[0]) + Flatten(d, ps[1..])
  }

  lemma Associate<T>(a: seq<T>, b: seq<T>, c: seq<T>)
    ensures a + (b + c) == a + b + c
  {
  }

  lemma FlattenAppend(d: Dialect, a: seq<Piece>, b: seq<Piece>)
    ensures Flatten(d, a + b) == Flatten(d, a) + Flatten(d, b)
  {
    if a == [] {
      assert a + b == b;
      assert "" + Flatten(d, b) == Flatten(d, b);
    } else {
      assert (a + b)[0] == a[0] && (a + b)[1..] == a[1..] + b;
      FlattenAppend(d, a[1..], b);
      Associate(Render(d, a[0]), Flatten(d, a[1..]), Flatten(d, b));
    }
  }

  datatype Tree =
    | Leaf(slot: Slot)
    | Row(items: seq<Item>)                                   // printed in the order visited
    | Dropped(text: seq<Lexeme>, hidden: Tree)                // visited, but its text is replaced
    | Swapped(open: seq<Lexeme>, first: Tree, mid: seq<Lexeme>, second: Tree, close: seq<Lexeme>) // second printed before first

  datatype Item = Tok(lexeme: Lexeme) | Sub(tree: Tree)

  /** The slots a tree records, in visiting order. */
  function Slots(t: Tree): seq<Slot> {
    match t
    case Leaf(slot) => [slot]
    case Row(items) => ItemSlots(items)
    case Dropped(_, hidden) => Slots(hidden)
    case Swapped(_, first, _, second, _) => Slots(first) + Slots(second)
  }

  function ItemSlots(items: seq<Item>): seq<Slot> {
    if items == [] then [] else OneSlots(items[0]) + ItemSlots(items[1..])
  }

  function OneSlots(item: Item): seq<Slot> {
    match item
    case Tok(_) => []
    case Sub(tree) => Slots(tree)
  }

  /** The text of a tree, in printing order, when `base` slots were recorded before it. */
  function Pieces(t: Tree, base: nat): seq<Piece> {
    match t
    case Leaf(_) => [Mark(base)]
    case Row(items) => ItemPieces(items, base)
    case Dropped(text, _) => Lexes(text)
    case Swapped(open, first, mid, second, close) =>
      Lexes(open) + Pieces(second, base + |Slots(first)|) + Lexes(mid) + Pieces(first, base) + Lexes(close)
  }

  function ItemPieces(items: seq<Item>, base: nat): seq<Piece> {
    if items == [] then []
    else OnePieces(items[0], base) + ItemPieces(items[1..], base + |OneSlots(items[0])|)
  }

  function OnePieces(item: Item, base: nat): seq<Piece> {
    match item
    case Tok(l) => [Lex(l)]
    case Sub(tree) => Pieces(tree, base)
  }

  lemma ItemSlotsAppend(a: seq<Item>, b: seq<Item>)
    ensures ItemSlots(a + b) == ItemSlots(a) + ItemSlots(b)
  {
    if a == [] {
      assert a + b == b;
    } else {
      assert (a + b)[0] == a[0] && (a + b)[1..] == a[1..] + b;
      ItemSlotsAppend(a[1..], b);
      Associate(OneSlots(a[0]), ItemSlots(a[1..]), ItemSlots(b));
    }
  }

  lemma ItemPiecesAppend(a: seq<Item>, b: seq<Item>, base: nat)
    ensures ItemPieces(a + b, base) == ItemPieces(a, base) + ItemPieces(b, base + |ItemSlots(a)|)
  {
    if a == [] {
      assert a + b == b;
    } else {
      assert (a + b)[0] == a[0] && (a + b)[1..] == a[1..] + b;
      ItemPiecesAppend(a[1..], b, base + |OneSlots(a[0])|);
      Associate(OnePieces(a[0], base), ItemPieces(a[1..], base + |OneSlots(a[0])|), ItemPieces(b, base + |ItemSlots(a)|));
    }
  }

  // ---------------------------------------------------------------------------------------------
  // Alignment: the k-th placeholder of the text was printed for the k-th slot
  // ---------------------------------------------------------------------------------------------

  /** The slot numbers of the placeholders, in printing order. */
  function Marks(ps: seq<Piece>): seq<nat> {
    if ps == [] then []
    else (if ps[0].Mark? then [ps[0].slot] else []) + Marks(ps[1..])
  }

  function Iota(base: nat, n: nat): (r: seq<nat>)
    ensures |r| == n
    ensures forall k :: 0 <= k < n ==> r[k] == base + k
  {
    seq(n, k requires 0 <= k < n => base + k)
  }

  ghost predicate Aligned(t: Tree) {
    Marks(Pieces(t, 0)) == Iota(0, |Slots(t)|)
  }

  /** What a caller can check: nothing with a slot is hidden, and no two slot-bearing operands are swapped. */
  predicate Straight(t: Tree) {
    match t
    case Leaf(_) => true
    case Row(items) => StraightItems(items)
    case Dropped(_, hidden) => |Slots(hidden)| == 0
    case Swapped(_, first, _, second, _) =>
      Straight(first) && Straight(second) && (|Slots(first)| == 0 || |Slots(second)| == 0)
  }

  predicate StraightItems(items: seq<Item>) {
    forall i :: 0 <= i < |items| ==> StraightItem(items[i])
  }

  predicate StraightItem(item: Item) { item.Sub? ==> Straight(item.tree) }

  lemma MarksAppend(a: seq<Piece>, b: seq<Piece>)
    ensures Marks(a + b) == Marks(a) + Marks(b)
  {
    if a == [] {
      assert a + b == b;
    } else {
      assert (a + b)[0] == a[0] && (a + b)[1..] == a[1..] + b;
      MarksAppend(a[1..], b);
      Associate(if a[0].Mark? then [a[0].slot] else [], Marks(a[1..]), Marks(b));
    }
  }

  lemma LexesHaveNoMarks(ls: seq<Lexeme>)
    ensures Marks(Lexes(ls)) == []
  {
    if ls != [] {
      assert Lexes(ls)[1..] == Lexes(ls[1..]);
      LexesHaveNoMarks(ls[1..]);
    }
  }

  /** Two runs of slot numbers make one run exactly when each is a run of its own. */
  lemma IotaSplit(a: seq<nat>, b: seq<nat>, base: nat, m: nat, n: nat)
    requires |a| <= m && |b| <= n
    ensures a + b == Iota(base, m + n) <==> (a == Iota(base, m) && b == Iota(base + m, n))
  {
    var whole := Iota(base, m + n);
    assert whole == Iota(base, m) + Iota(base + m, n);
    if a + b == whole {
      assert |a| == m && |b| == n;
      assert a == whole[..m] && b == whole[m..];
    }
  }

  ghost predicate Within(marks: seq<nat>, base: nat, n: nat) {
    |marks| <= n && forall k :: 0 <= k < |marks| ==> base <= marks[k] < base + n
  }

  /** The heart of alignment: the marks are the run of the tree's own slot numbers exactly when it is straight. */
  lemma {:induction false} MarksOfTree(t: Tree, base: nat)
    ensures MarksAreRight(t, base)
    decreases t
  {
    hide MarksAreRight;
    match t
    case Leaf(slot) => MarksOfLeaf(slot, base);
    case Row(items) =>
      MarksOfItems(items, base);
      MarksOfRow(items, base);
    case Dropped(text, hidden) => MarksOfDropped(text, hidden, base);
    case Swapped(_, first, _, second, _) =>
      MarksOfTree(first, base);
      MarksOfTree(second, base + |Slots(first)|);
      MarksOfSwapped(t, base);
  }

  ghost predicate MarksAreRight(t: Tree, base: nat) {
    && Within(Marks(Pieces(t, base)), base, |Slots(t)|)
    && (Marks(Pieces(t, base)) == Iota(base, |Slots(t)|) <==> Straight(t))
  }

  lemma MarksOfLeaf(slot: Slot, base: nat)
    ensures MarksAreRight(Leaf(slot), base)
  {
    assert Marks([Mark(base)]) == [base] by { assert [Mark(base)][1..] == []; }
  }

  lemma MarksOfRow(items: seq<Item>, base: nat)
    requires Within(Marks(ItemPieces(items, base)), base, |ItemSlots(items)|)
    requires Marks(ItemPieces(items, base)) == Iota(base, |ItemSlots(items)|) <==> StraightItems(items)
    ensures MarksAreRight(Row(items), base)
  {
    hide Within, Iota, StraightItems, Marks, ItemPieces, ItemSlots;
  }

  lemma MarksOfDropped(text: seq<Lexeme>, hidden: Tree, base: nat)
    ensures MarksAreRight(Dropped(text, hidden), base)
  {
    LexesHaveNoMarks(text);
  }

  lemma MarksOfSwapped(t: Tree, base: nat)
    requires t.Swapped?
    requires MarksAreRight(t.first, base) && MarksAreRight(t.second, base + |Slots(t.first)|)
    ensures MarksAreRight(t, base)
  {
    hide Marks, Iota, Within, Pieces;
    var m1, m2 := Marks(Pieces(t.first, base)), Marks(Pieces(t.second, base + |Slots(t.first)|));
    SwappedMarks(t, base);
    SwappedRun(m1, m2, base, |Slots(t.first)|, |Slots(t.second)|);
    assert Marks(Pieces(t, base)) == m2 + m1;
    assert |Slots(t)| == |Slots(t.first)| + |Slots(t.second)|;
  }

  /** A run with its halves exchanged is a run only when one half is empty. */
  lemma SwappedRun(m1: seq<nat>, m2: seq<nat>, base: nat, n1: nat, n2: nat)
    requires Within(m1, base, n1) && Within(m2, base + n1, n2)
    ensures Within(m2 + m1, base, n1 + n2)
    ensures m2 + m1 == Iota(base, n1 + n2)
       <==> (m1 == Iota(base, n1) && m2 == Iota(base + n1, n2) && (n1 == 0 || n2 == 0))
  {
    var whole := Iota(base, n1 + n2);
    if m2 + m1 == whole {
      assert |m2| == n2 && |m1| == n1;
      assert n2 > 0 ==> (m2 + m1)[0] == m2[0];
      if n1 == 0 { assert m2 == m2 + m1; } else { assert m1 == m2 + m1; }
    } else if n1 == 0 {
      assert m2 + m1 == m2;
    } else if n2 == 0 {
      assert m2 + m1 == m1;
    }
  }

  lemma SwappedMarks(t: Tree, base: nat)
    requires t.Swapped?
    ensures Marks(Pieces(t, base))
         == Marks(Pieces(t.second, base + |Slots(t.first)|)) + Marks(Pieces(t.first, base))
  {
    var p2, p1 := Pieces(t.second, base + |Slots(t.first)|), Pieces(t.first, base);
    LexesHaveNoMarks(t.open);
    LexesHaveNoMarks(t.mid);
    LexesHaveNoMarks(t.close);
    MarksAppend(Lexes(t.open) + p2 + Lexes(t.mid) + p1, Lexes(t.close));
    MarksAppend(Lexes(t.open) + p2 + Lexes(t.mid), p1);
    MarksAppend(Lexes(t.open) + p2, Lexes(t.mid));
    MarksAppend(Lexes(t.open), p2);
  }

  lemma {:induction false} MarksOfItems(items: seq<Item>, base: nat)
    ensures Within(Marks(ItemPieces(items, base)), base, |ItemSlots(items)|)
    ensures Marks(ItemPieces(items, base)) == Iota(base, |ItemSlots(items)|) <==> StraightItems(items)
    decreases items
  {
    if items == [] {
    } else {
      MarksOfItem(items[0], base);
      MarksOfItems(items[1..], base + |OneSlots(items[0])|);
      MarksOfCons(items, base);
    }
  }

  lemma MarksOfCons(items: seq<Item>, base: nat)
    requires items != []
    requires Within(Marks(OnePieces(items[0], base)), base, |OneSlots(items[0])|)
    requires Within(Marks(ItemPieces(items[1..], base + |OneSlots(items[0])|)), base + |OneSlots(items[0])|, |ItemSlots(items[1..])|)
    ensures Within(Marks(ItemPieces(items, base)), base, |ItemSlots(items)|)
    ensures Marks(ItemPieces(items, base)) == Iota(base, |ItemSlots(items)|)
       <==> (Marks(OnePieces(items[0], base)) == Iota(base, |OneSlots(items[0])|)
             && Marks(ItemPieces(items[1..], base + |OneSlots(items[0])|)) == Iota(base + |OneSlots(items[0])|, |ItemSlots(items[1..])|))
  {
    var m, n := |OneSlots(items[0])|, |ItemSlots(items[1..])|;
    var head, rest := OnePieces(items[0], base), ItemPieces(items[1..], base + m);
    MarksAppend(head, rest);
    IotaSplit(Marks(head), Marks(rest), base, m, n);
    assert |ItemSlots(items)| == m + n;
    assert Marks(ItemPieces(items, base)) == Marks(head) + Marks(rest);
  }

  lemma {:induction false} MarksOfItem(item: Item, base: nat)
    ensures Within(Marks(OnePieces(item, base)), base, |OneSlots(item)|)
    ensures Marks(OnePieces(item, base)) == Iota(base, |OneSlots(item)|) <==> StraightItem(item)
    decreases item
  {
    match item
    case Sub(tree) => MarksOfTree(tree, base);
    case Tok(l) => assert [Lex(l)][1..] == [];
  }

  /** Placeholders and slots agree, position by position, exactly when the tree is straight. */
  lemma AlignedIffStraight(t: Tree)
    ensures Aligned(t) <==> Straight(t)
  {
    MarksOfTree(t, 0);
  }

  // ---------------------------------------------------------------------------------------------
  // Replacing parameters by values
  // ---------------------------------------------------------------------------------------------

  function Fill(s: Slot, args: seq<BoundValue>): Slot {
    if s.Dynamic? && s.index < |args| then Static(args[s.index]) else s
  }

  function FillAll(slots: seq<Slot>, args: seq<BoundValue>): (r: seq<Slot>)
    ensures |r| == |slots|
    ensures forall k :: 0 <= k < |slots| ==> r[k] == Fill(slots[k], args)
  {
    seq(|slots|, k requires 0 <= k < |slots| => Fill(slots[k], args))
  }

  function FillTree(t: Tree, args: seq<BoundValue>): Tree {
    match t
    case Leaf(slot) => Leaf(Fill(slot, args))
    case Row(items) => Row(FillItems(items, args))
    case Dropped(text, hidden) => Dropped(text, FillTree(hidden, args))
    case Swapped(open, first, mid, second, close) =>
      Swapped(open, FillTree(first, args), mid, FillTree(second, args), close)
  }

  function FillItems(items: seq<Item>, args: seq<BoundValue>): seq<Item> {
    if items == [] then [] else [FillItem(items[0], args)] + FillItems(items[1..], args)
  }

  function FillItem(item: Item, args: seq<BoundValue>): Item {
    match item
    case Tok(_) => item
    case Sub(tree) => Sub(FillTree(tree, args))
  }

  /** Filling parameters in keeps the text and fills in the slots. */
  lemma {:induction false} FillTreeKeepsText(t: Tree, args: seq<BoundValue>, base: nat)
    ensures Slots(FillTree(t, args)) == FillAll(Slots(t), args)
    ensures Pieces(FillTree(t, args), base) == Pieces(t, base)
    decreases t
  {
    match t
    case Leaf(_) =>
    case Row(items) => FillItemsKeepsText(items, args, base);
    case Dropped(_, hidden) => FillTreeKeepsText(hidden, args, base);
    case Swapped(_, first, _, second, _) =>
      FillTreeKeepsText(first, args, base);
      FillTreeKeepsText(second, args, base + |Slots(first)|);
  }

  lemma {:induction false} FillItemsKeepsText(items: seq<Item>, args: seq<BoundValue>, base: nat)
    ensures ItemSlots(FillItems(items, args)) == FillAll(ItemSlots(items), args)
    ensures ItemPieces(FillItems(items, args), base) == ItemPieces(items, base)
    decreases items
  {
    if items != [] {
      var filled := FillItems(items, args);
      assert filled[0] == FillItem(items[0], args) && filled[1..] == FillItems(items[1..], args);
      FillItemKeepsText(items[0], args, base);
      FillItemsKeepsText(items[1..], args, base + |OneSlots(items[0])|);
    }
  }

  lemma {:induction false} FillItemKeepsText(item: Item, args: seq<BoundValue>, base: nat)
    ensures OneSlots(FillItem(item, args)) == FillAll(OneSlots(item), args)
    ensures OnePieces(FillItem(item, args), base) == OnePieces(item, base)
    decreases item
  {
    if item.Sub? { FillTreeKeepsText(item.tree, args, base); }
  }

  lemma FillItemsAppend(a: seq<Item>, b: seq<Item>, args: seq<BoundValue>)
    ensures FillItems(a + b, args) == FillItems(a, args) + FillItems(b, args)
  {
    if a == [] {
      assert a + b == b;
    } else {
      assert (a + b)[1..] == a[1..] + b;
      FillItemsAppend(a[1..], b, args);
    }
  }
}
