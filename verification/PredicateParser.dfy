/**
 * Reading generated predicates back. The parser follows the precedence of search conditions in section 8.12 of
 * SQL-92 (ISO/IEC 9075:1992): OR binds weaker than AND, AND weaker than NOT, and the operands of a predicate are
 * columns, placeholders, or parenthesised conditions.
 */
module PredicateParser {
  import opened Values
  import opened LayoutTree
  import opened SqlAst

  // ---------------------------------------------------------------------------------------------
  // The parser
  // ---------------------------------------------------------------------------------------------

  datatype Parsed = Parsed(expr: Expr, rest: seq<Piece>, next: nat)

  type Result = Option<Parsed>

  predicate Heads(ps: seq<Piece>, l: Lexeme) { ps != [] && ps[0] == Lex(l) }

  /** The lexemes that continue a predicate after its first operand. */
  predicate StartsSuffix(ps: seq<Piece>) {
    ps != [] && ps[0].Lex? && (var l := ps[0].lexeme; l.Cmp? || l.NullTest? || l.BetweenWord? || l.LikeWord? || l.InWord?)
  }

  /** A placeholder: the next slot, whatever number its mark carries. */
  function LeafOf(slots: seq<Slot>, next: nat): Option<Expr> {
    if next >= |slots| then None
    else match slots[next]
      case Static(value) => Some(Literal(value))
      case Dynamic(index) => Some(Param(index))
  }

  function ParsePrimary(ps: seq<Piece>, slots: seq<Slot>, next: nat): (r: Result)
    ensures r.Some? ==> |r.value.rest| < |ps|
    decreases |ps|, 0
  {
    if ps == [] then None
    else match ps[0]
      case Mark(_) =>
        (match LeafOf(slots, next)
         case None => None
         case Some(leaf) => Some(Parsed(leaf, ps[1..], next + 1)))
      case Lex(l) =>
        match l
        case Ident(id) =>
          if Heads(ps[1..], Dot) then
            if |ps| > 2 && ps[2].Lex? && ps[2].lexeme.Ident? then Some(Parsed(Column(id, ps[2].lexeme.id), ps[3..], next)) else None
          else Some(Parsed(Column("", id), ps[1..], next))
        case LParen =>
          (match ParseSearch(ps[1..], slots, next)
           case None => None
           case Some(p) => if Heads(p.rest, RParen) then Some(Parsed(p.expr, p.rest[1..], p.next)) else None)
        case _ => None
  }

  function ParseSuffix(first: Expr, ps: seq<Piece>, slots: seq<Slot>, next: nat): (r: Result)
    ensures r.Some? ==> |r.value.rest| <= |ps|
    decreases |ps|, 1
  {
    if !StartsSuffix(ps) then Some(Parsed(first, ps, next))
    else match ps[0].lexeme
      case NullTest(negated) => Some(Parsed(IsNull(first, negated), ps[1..], next))
      case Cmp(op) =>
        (match ParsePrimary(ps[1..], slots, next)
         case None => None
         case Some(p) => Some(Parsed(Compare(first, op, p.expr), p.rest, p.next)))
      case LikeWord(negated) =>
        (match ParsePrimary(ps[1..], slots, next)
         case None => None
         case Some(p) => Some(Parsed(Like(first, p.expr, negated), p.rest, p.next)))
      case BetweenWord(negated) =>
        (match ParsePrimary(ps[1..], slots, next)
         case None => None
         case Some(p) =>
           if !Heads(p.rest, AndWord) then None
           else match ParsePrimary(p.rest[1..], slots, p.next)
             case None => None
             case Some(q) => Some(Parsed(Between(first, p.expr, q.expr, negated), q.rest, q.next)))
      case InWord(negated) =>
        if !Heads(ps[1..], LParen) then None
        else match ParseList(ps[2..], slots, next)
          case None => None
          case Some((es, rest, n)) => Some(Parsed(InList(first, es, negated), rest, n))
  }

  /** A comma-separated list up to and including its closing parenthesis. */
  function ParseList(ps: seq<Piece>, slots: seq<Slot>, next: nat): (r: Option<(seq<Expr>, seq<Piece>, nat)>)
    ensures r.Some? ==> |r.value.1| < |ps|
    decreases |ps|, 6
  {
    match ParseSearch(ps, slots, next)
    case None => None
    case Some(p) =>
      if Heads(p.rest, RParen) then Some(([p.expr], p.rest[1..], p.next))
      else if Heads(p.rest, Comma) then
        match ParseList(p.rest[1..], slots, p.next)
        case None => None
        case Some((es, rest, n)) => Some(([p.expr] + es, rest, n))
      else None
  }

  function ParseTest(ps: seq<Piece>, slots: seq<Slot>, next: nat): (r: Result)
    ensures r.Some? ==> |r.value.rest| < |ps|
    decreases |ps|, 2
  {
    match ParsePrimary(ps, slots, next)
    case None => None
    case Some(p) => ParseSuffix(p.expr, p.rest, slots, p.next)
  }

  function ParseFactor(ps: seq<Piece>, slots: seq<Slot>, next: nat): (r: Result)
    ensures r.Some? ==> |r.value.rest| < |ps|
    decreases |ps|, 3
  {
    if Heads(ps, NotWord) then
      match ParseTest(ps[1..], slots, next)
      case None => None
      case Some(p) => Some(Parsed(Not(p.expr), p.rest, p.next))
    else ParseTest(ps, slots, next)
  }

  function ParseTerm(ps: seq<Piece>, slots: seq<Slot>, next: nat): (r: Result)
    ensures r.Some? ==> |r.value.rest| < |ps|
    decreases |ps|, 4
  {
    match ParseFactor(ps, slots, next)
    case None => None
    case Some(p) => MoreFactors(p, slots)
  }

  function MoreFactors(p: Parsed, slots: seq<Slot>): (r: Result)
    ensures r.Some? ==> |r.value.rest| <= |p.rest|
    decreases |p.rest|, 4
  {
    if !Heads(p.rest, AndWord) then Some(p)
    else match ParseFactor(p.rest[1..], slots, p.next)
      case None => None
      case Some(q) => MoreFactors(Parsed(Logic(p.expr, true, q.expr), q.rest, q.next), slots)
  }

  function ParseSearch(ps: seq<Piece>, slots: seq<Slot>, next: nat): (r: Result)
    ensures r.Some? ==> |r.value.rest| < |ps|
    decreases |ps|, 5
  {
    match ParseTerm(ps, slots, next)
    case None => None
    case Some(p) => MoreTerms(p, slots)
  }

  function MoreTerms(p: Parsed, slots: seq<Slot>): (r: Result)
    ensures r.Some? ==> |r.value.rest| <= |p.rest|
    decreases |p.rest|, 5
  {
    if !Heads(p.rest, OrWord) then Some(p)
    else match ParseTerm(p.rest[1..], slots, p.next)
      case None => None
      case Some(q) => MoreTerms(Parsed(Logic(p.expr, false, q.expr), q.rest, q.next), slots)
  }

  /** A whole predicate: all its text and all its slots are used. */
  function Parse(ps: seq<Piece>, slots: seq<Slot>): Option<Expr> {
    match ParseSearch(ps, slots, 0)
    case None => None
    case Some(p) => if p.rest == [] && p.next == |slots| then Some(p.expr) else None
  }

  // ---------------------------------------------------------------------------------------------
  // The predicate fragment and its printed form
  // ---------------------------------------------------------------------------------------------

  predicate InFragment(e: Expr) {
    match e
    case Column(_, _) => true
    case Literal(_) => true
    case Param(_) => true
    case Compare(l, _, r) => InFragment(l) && InFragment(r)
    case Logic(l, _, r) => InFragment(l) && InFragment(r)
    case Not(x) => InFragment(x)
    case IsNull(x, _) => InFragment(x)
    case Between(x, lo, hi, _) => InFragment(x) && InFragment(lo) && InFragment(hi)
    case Like(x, p, _) => InFragment(x) && InFragment(p)
    case InList(x, values, _) => values != [] && InFragment(x) && forall i :: 0 <= i < |values| ==> InFragment(values[i])
    case _ => false
  }

  /** Expressions printed as one operand: a column, a placeholder, or something in parentheses. */
  predicate PrintsAsOperand(e: Expr) { !e.Not? && !e.IsNull? }

  /** NOT and NULL tests stand only where a whole condition is expected. */
  predicate WellPlaced(e: Expr) {
    match e
    case Compare(l, _, r) => PrintsAsOperand(l) && PrintsAsOperand(r) && WellPlaced(l) && WellPlaced(r)
    case Logic(l, _, r) => WellPlaced(l) && WellPlaced(r)
    case Not(x) => WellPlaced(x)
    case IsNull(x, _) => PrintsAsOperand(x) && WellPlaced(x)
    case Between(x, lo, hi, _) =>
      PrintsAsOperand(x) && PrintsAsOperand(lo) && PrintsAsOperand(hi) && WellPlaced(x) && WellPlaced(lo) && WellPlaced(hi)
    case Like(x, p, _) => PrintsAsOperand(x) && PrintsAsOperand(p) && WellPlaced(x) && WellPlaced(p)
    case InList(x, values, _) => PrintsAsOperand(x) && WellPlaced(x) && forall i :: 0 <= i < |values| ==> WellPlaced(values[i])
    case _ => true
  }

  predicate IsPredicate(e: Expr) { e.Compare? || e.IsNull? || e.Between? || e.Like? || e.InList? }

  function FirstOperand(e: Expr): (x: Expr)
    requires IsPredicate(e)
    ensures x < e
    ensures InFragment(e) ==> InFragment(x)
  {
    match e
    case Compare(l, _, _) => l
    case IsNull(x, _) => x
    case Between(x, _, _, _) => x
    case Like(x, _, _) => x
    case InList(x, _, _) => x
  }

  /** How placeholders are marked: with the number of their slot, or not at all, as in the text itself. */
  datatype Numbering = From(base: nat) | Unnumbered

  function MarkOf(n: Numbering): Piece { if n.From? then Mark(n.base) else Mark(0) }

  function Shift(n: Numbering, k: nat): Numbering { if n.From? then From(n.base + k) else n }

  function LeafSlots(e: Expr): seq<Slot>
    requires InFragment(e)
    decreases e, 1
  {
    if IsPredicate(e) then LeafSlots(FirstOperand(e)) + SuffixSlots(e)
    else match e
      case Column(_, _) => []
      case Literal(value) => [Static(value)]
      case Param(index) => [Dynamic(index)]
      case Logic(l, _, r) => LeafSlots(l) + LeafSlots(r)
      case Not(x) => LeafSlots(x)
  }

  function SuffixSlots(e: Expr): seq<Slot>
    requires InFragment(e) && IsPredicate(e)
    decreases e, 0
  {
    match e
    case IsNull(_, _) => []
    case Compare(_, _, r) => LeafSlots(r)
    case Like(_, p, _) => LeafSlots(p)
    case Between(_, lo, hi, _) => LeafSlots(lo) + LeafSlots(hi)
    case InList(_, values, _) => ListLeafSlots(values)
  }

  function ListLeafSlots(es: seq<Expr>): seq<Slot>
    requires forall i :: 0 <= i < |es| ==> InFragment(es[i])
    decreases es, 0
  {
    if es == [] then [] else LeafSlots(es[0]) + ListLeafSlots(es[1..])
  }

  /** The printed form of the fragment; every predicate but a NULL test is put in parentheses. */
  function Printed(e: Expr, base: Numbering): seq<Piece>
    requires InFragment(e)
    decreases e, 1
  {
    if IsPredicate(e) then
      var body := Printed(FirstOperand(e), base) + SuffixPieces(e, Shift(base, |LeafSlots(FirstOperand(e))|));
      if e.IsNull? then body else [Lex(LParen)] + body + [Lex(RParen)]
    else match e
      case Column(table, column) => Lexes(ColumnPieces(table, column))
      case Literal(_) => [MarkOf(base)]
      case Param(_) => [MarkOf(base)]
      case Logic(l, isAnd, r) => 
        [Lex(LParen)]
        + (Printed(l, base) + ([Lex(if isAnd then AndWord else OrWord)] + Printed(r, Shift(base, |LeafSlots(l)|))))
        + [Lex(RParen)]
      case Not(x) => [Lex(NotWord)] + ([Lex(LParen)] + Printed(x, base) + [Lex(RParen)])
  }

  /** The text of a predicate after its first operand. */
  function SuffixPieces(e: Expr, base: Numbering): seq<Piece>
    requires InFragment(e) && IsPredicate(e)
    decreases e, 0
  {
    match e
    case IsNull(_, negated) => [Lex(NullTest(negated))]
    case Compare(_, op, r) => [Lex(Cmp(op))] + Printed(r, base)
    case Like(_, p, negated) => [Lex(LikeWord(negated))] + Printed(p, base)
    case Between(_, lo, hi, negated) =>
      [Lex(BetweenWord(negated))] + (Printed(lo, base) + ([Lex(AndWord)] + Printed(hi, Shift(base, |LeafSlots(lo)|))))
    case InList(_, values, negated) => [Lex(InWord(negated)), Lex(LParen)] + (PrintedList(values, base) + [Lex(RParen)])
  }

  function PrintedList(es: seq<Expr>, base: Numbering): seq<Piece>
    requires forall i :: 0 <= i < |es| ==> InFragment(es[i])
    decreases es, 0
  {
    if es == [] then []
    else Printed(es[0], base) + ((if |es| > 1 then [Lex(Comma)] else []) + PrintedList(es[1..], Shift(base, |LeafSlots(es[0])|)))
  }

  // ---------------------------------------------------------------------------------------------
  // What the printed form is read as
  // ---------------------------------------------------------------------------------------------

  /**
   * The expression the printed text denotes, if any. A NOT in the first operand of a predicate takes in the whole
   * predicate; any other misplaced NOT or NULL test leaves text that is no condition.
   */
  function Reading(e: Expr): Option<Expr>
    requires InFragment(e)
    decreases e, 2
  {
    if IsPredicate(e) then ReadPredicate(e)
    else match e
      case Column(_, _) => Some(e)
      case Literal(_) => Some(e)
      case Param(_) => Some(e)
      case Logic(l, isAnd, r) =>
        var a, b := Reading(l), Reading(r);
        if a.Some? && b.Some? then Some(Logic(a.value, isAnd, b.value)) else None
      case Not(x) => Negate(Reading(x))
  }

  function ReadPredicate(e: Expr): Option<Expr>
    requires InFragment(e) && IsPredicate(e)
    decreases e, 1
  {
    var x := FirstOperand(e);
    if x.IsNull? then None
    else
      var y := Reading(if x.Not? then x.operand else x);
      if y == None then None
      else if x.Not? then Negate(Assemble(e, y.value))
      else Assemble(e, y.value)
  }

  function Negate(e: Option<Expr>): Option<Expr> { if e.Some? then Some(Not(e.value)) else None }

  /** The predicate `e` with `first` for its first operand and the readings of the others. */
  function Assemble(e: Expr, first: Expr): Option<Expr>
    requires InFragment(e) && IsPredicate(e)
    decreases e, 0
  {
    match e
    case IsNull(_, negated) => Some(IsNull(first, negated))
    case Compare(_, op, r) =>
      if !PrintsAsOperand(r) then None else (match Reading(r) case None => None case Some(b) => Some(Compare(first, op, b)))
    case Like(_, p, negated) =>
      if !PrintsAsOperand(p) then None else (match Reading(p) case None => None case Some(b) => Some(Like(first, b, negated)))
    case Between(_, lo, hi, negated) =>
      if !PrintsAsOperand(lo) || !PrintsAsOperand(hi) then None
      else
        var a, b := Reading(lo), Reading(hi);
        if a.Some? && b.Some? then Some(Between(first, a.value, b.value, negated)) else None
    case InList(_, values, negated) =>
      match ReadingAll(values) case None => None case Some(es) => Some(InList(first, es, negated))
  }

  function ReadingAll(es: seq<Expr>): Option<seq<Expr>>
    requires forall i :: 0 <= i < |es| ==> InFragment(es[i])
    decreases es, 0
  {
    if es == [] then Some([])
    else
      var first, rest := Reading(es[0]), ReadingAll(es[1..]);
      if first.Some? && rest.Some? then Some([first.value] + rest.value) else None
  }

  /** The printed text denotes the expression itself exactly when every NOT and NULL test is well placed. */
  lemma {:induction false} ReadsBackIffWellPlaced(e: Expr)
    requires InFragment(e)
    ensures Reading(e) == Some(e) <==> WellPlaced(e)
    decreases e, 1
  {
    if IsPredicate(e) {
      ReadsBackIffWellPlaced(FirstOperand(e));
      AssemblesIffWellPlaced(e);
      FirstSurvives(e);
    } else if e.Logic? {
      ReadsBackIffWellPlaced(e.left);
      ReadsBackIffWellPlaced(e.right);
    } else if e.Not? {
      ReadsBackIffWellPlaced(e.operand);
    }
  }

  ghost predicate OthersWellPlaced(e: Expr)
    requires IsPredicate(e)
  {
    match e
    case IsNull(_, _) => true
    case Compare(_, _, r) => PrintsAsOperand(r) && WellPlaced(r)
    case Like(_, p, _) => PrintsAsOperand(p) && WellPlaced(p)
    case Between(_, lo, hi, _) => PrintsAsOperand(lo) && PrintsAsOperand(hi) && WellPlaced(lo) && WellPlaced(hi)
    case InList(_, values, _) => forall i :: 0 <= i < |values| ==> WellPlaced(values[i])
  }

  lemma {:induction false} AssemblesIffWellPlaced(e: Expr)
    requires InFragment(e) && IsPredicate(e)
    ensures Assemble(e, FirstOperand(e)) == Some(e) <==> OthersWellPlaced(e)
    decreases e, 0
  {
    match e
    case IsNull(_, _) =>
    case Compare(_, _, r) => ReadsBackIffWellPlaced(r);
    case Like(_, p, _) => ReadsBackIffWellPlaced(p);
    case Between(_, lo, hi, _) => ReadsBackIffWellPlaced(lo); ReadsBackIffWellPlaced(hi);
    case InList(_, values, _) => AllReadBackIffWellPlaced(values);
  }

  lemma {:induction false} AllReadBackIffWellPlaced(es: seq<Expr>)
    requires forall i :: 0 <= i < |es| ==> InFragment(es[i])
    ensures ReadingAll(es) == Some(es) <==> forall i :: 0 <= i < |es| ==> WellPlaced(es[i])
    decreases es, 0
  {
    if es != [] {
      ReadsBackIffWellPlaced(es[0]);
      AllReadBackIffWellPlaced(es[1..]);
      assert es == [es[0]] + es[1..];
      if ReadingAll(es) == Some(es) {
        var rest := ReadingAll(es[1..]).value;
        assert ([Reading(es[0]).value] + rest)[1..] == rest;
      }
    }
  }

  /** An assembled predicate keeps the first operand and the shape it was given. */
  lemma AssembleKeepsFirst(e: Expr, first: Expr)
    requires InFragment(e) && IsPredicate(e)
    ensures Assemble(e, first).Some? ==> IsPredicate(Assemble(e, first).value) && FirstOperand(Assemble(e, first).value) == first
  {
  }

  lemma FirstSurvives(e: Expr)
    requires InFragment(e) && IsPredicate(e)
    ensures Reading(e) == Some(e) <==>
      PrintsAsOperand(FirstOperand(e)) && Reading(FirstOperand(e)) == Some(FirstOperand(e)) && Assemble(e, FirstOperand(e)) == Some(e)
  {
    var x := FirstOperand(e);
    if PrintsAsOperand(x) && Reading(x).Some? { AssembleKeepsFirst(e, Reading(x).value); }
  }

  // ---------------------------------------------------------------------------------------------
  // The parser reads the printed form as Reading says
  // ---------------------------------------------------------------------------------------------

  ghost predicate At(slots: seq<Slot>, next: nat, want: seq<Slot>) {
    next + |want| <= |slots| && slots[next..next + |want|] == want
  }

  lemma AtSplit(slots: seq<Slot>, next: nat, a: seq<Slot>, b: seq<Slot>)
    requires At(slots, next, a + b)
    ensures At(slots, next, a) && At(slots, next + |a|, b)
  {
    var both := slots[next..next + |a + b|];
    assert a == both[..|a|] && b == both[|a|..];
  }

  /** Parsing stopped before the end of the condition: no context accepts what is left. */
  ghost predicate Stuck(r: Result) { r.None? || StartsSuffix(r.value.rest) }

  ghost predicate Ends(rest: seq<Piece>) { !StartsSuffix(rest) && !Heads(rest, Dot) }

  ghost predicate EndsCondition(rest: seq<Piece>) { Ends(rest) && !Heads(rest, AndWord) && !Heads(rest, OrWord) }

  /** The parser's result agrees with the reading: the same expression and all of its text, or no way on. */
  ghost predicate Agrees(reading: Option<Expr>, result: Result, rest: seq<Piece>, next: nat) {
    match reading
    case Some(r) => result == Some(Parsed(r, rest, next))
    case None => Stuck(result)
  }

  /** Operands never begin with NOT. */
  lemma OperandHead(e: Expr, base: Numbering)
    requires InFragment(e)
    ensures Printed(e, base) != []
    ensures PrintsAsOperand(e) ==> Printed(e, base)[0] != Lex(NotWord)
    ensures e.Not? ==> Printed(e, base)[0] == Lex(NotWord)
  {
    if e.IsNull? { OperandHead(e.operand, base); }
  }

  lemma FactorIsCondition(ps: seq<Piece>, slots: seq<Slot>, next: nat, reading: Option<Expr>, rest: seq<Piece>, after: nat)
    requires Agrees(reading, ParseFactor(ps, slots, next), rest, after) && EndsCondition(rest)
    ensures Agrees(reading, ParseSearch(ps, slots, next), rest, after)
  {
    var f := ParseFactor(ps, slots, next);
    if f.Some? {
      assert MoreFactors(f.value, slots) == f;
      assert MoreTerms(f.value, slots) == f;
    }
  }

  /** A parenthesised condition is an operand. */
  lemma ParenthesesRead(body: seq<Piece>, rest: seq<Piece>, slots: seq<Slot>, next: nat, reading: Option<Expr>, after: nat)
    requires Agrees(reading, ParseSearch(body + ([Lex(RParen)] + rest), slots, next), [Lex(RParen)] + rest, after)
    ensures ParsePrimary([Lex(LParen)] + body + [Lex(RParen)] + rest, slots, next)
         == (match reading case None => None case Some(r) => Some(Parsed(r, rest, after)))
  {
    var ps := [Lex(LParen)] + body + [Lex(RParen)] + rest;
    assert ps[1..] == body + ([Lex(RParen)] + rest);
    assert ([Lex(RParen)] + rest)[1..] == rest;
  }

  lemma {:induction false} OperandReads(e: Expr, base: Numbering, rest: seq<Piece>, slots: seq<Slot>, next: nat)
    requires InFragment(e) && PrintsAsOperand(e) && At(slots, next, LeafSlots(e)) && !Heads(rest, Dot)
    ensures ParsePrimary(Printed(e, base) + rest, slots, next)
         == (match Reading(e) case None => None case Some(r) => Some(Parsed(r, rest, next + |LeafSlots(e)|)))
    decreases e, 4
  {
    if IsPredicate(e) {
      var body := Printed(FirstOperand(e), base) + SuffixPieces(e, Shift(base, |LeafSlots(FirstOperand(e))|));
      var after := [Lex(RParen)] + rest;
      BodyReads(e, base, after, slots, next);
      FactorIsCondition(body + after, slots, next, ReadPredicate(e), after, next + |LeafSlots(e)|);
      ParenthesesRead(body, rest, slots, next, ReadPredicate(e), next + |LeafSlots(e)|);
    } else if e.Logic? {
      LogicReads(e, base, rest, slots, next);
    } else {
      LeafReads(e, base, rest, slots, next);
    }
  }

  lemma LeafReads(e: Expr, base: Numbering, rest: seq<Piece>, slots: seq<Slot>, next: nat)
    requires e.Column? || e.Literal? || e.Param?
    requires At(slots, next, LeafSlots(e)) && !Heads(rest, Dot)
    ensures ParsePrimary(Printed(e, base) + rest, slots, next) == Some(Parsed(e, rest, next + |LeafSlots(e)|))
  {
    var ps := Printed(e, base) + rest;
    if e.Column? {
      if e.table == "" {
        assert ps[0] == Lex(Ident(e.column)) && ps[1..] == rest;
      } else {
        assert ps[0] == Lex(Ident(e.table)) && ps[1] == Lex(Dot) && ps[2] == Lex(Ident(e.column)) && ps[3..] == rest;
        assert ps[1..][0] == ps[1];
      }
    } else {
      assert ps[0] == MarkOf(base) && ps[1..] == rest;
      assert slots[next] == slots[next..next + 1][0];
    }
  }

  /** A predicate without its parentheses, followed by something that ends it. */
  lemma {:induction false} BodyReads(e: Expr, base: Numbering, rest: seq<Piece>, slots: seq<Slot>, next: nat)
    requires InFragment(e) && IsPredicate(e) && At(slots, next, LeafSlots(e)) && Ends(rest)
    ensures var body := Printed(FirstOperand(e), base) + SuffixPieces(e, Shift(base, |LeafSlots(FirstOperand(e))|));
      Agrees(ReadPredicate(e), ParseFactor(body + rest, slots, next), rest, next + |LeafSlots(e)|)
    decreases e, 3
  {
    hide Printed, SuffixPieces, LeafSlots, SuffixSlots, ParsePrimary, ParseFactor, ParseSuffix, Reading, Assemble, InFragment;
    var x, n := FirstOperand(e), |LeafSlots(FirstOperand(e))|;
    var suffix := SuffixPieces(e, Shift(base, n));
    assert Printed(x, base) + suffix + rest == Printed(x, base) + (suffix + rest);
    PredicateSlots(e);
    SuffixStarts(e, Shift(base, n), rest);
    AtSplit(slots, next, LeafSlots(x), SuffixSlots(e));
    OperandHead(x, base);
    if PrintsAsOperand(x) {
      OperandReads(x, base, suffix + rest, slots, next);
      FactorOfOperand(Printed(x, base) + (suffix + rest), slots, next);
      if Reading(x).Some? { SuffixReads(e, Reading(x).value, Shift(base, n), rest, slots, next + n); }
    } else if x.Not? {
      NotSlots(x);
      NotOperandReads(x, base, suffix + rest, slots, next);
      FactorOfNot(Printed(x, base) + (suffix + rest), slots, next);
      if Reading(x.operand).Some? { SuffixReads(e, Reading(x.operand).value, Shift(base, n), rest, slots, next + n); }
    } else {
      NullTestSticks(x, base, suffix + rest, slots, next);
    }
  }

  lemma PredicateSlots(e: Expr)
    requires InFragment(e) && IsPredicate(e)
    ensures InFragment(FirstOperand(e)) && LeafSlots(e) == LeafSlots(FirstOperand(e)) + SuffixSlots(e)
    ensures Reading(e) == ReadPredicate(e)
  {
  }

  lemma NotSlots(x: Expr)
    requires InFragment(x) && x.Not?
    ensures InFragment(x.operand) && LeafSlots(x) == LeafSlots(x.operand)
  {
  }

  lemma SuffixStarts(e: Expr, base: Numbering, rest: seq<Piece>)
    requires InFragment(e) && IsPredicate(e)
    ensures StartsSuffix(SuffixPieces(e, base) + rest) && !Heads(SuffixPieces(e, base) + rest, Dot)
  {
  }

  lemma FactorOfOperand(ps: seq<Piece>, slots: seq<Slot>, next: nat)
    requires !Heads(ps, NotWord)
    ensures ParseFactor(ps, slots, next)
         == (match ParsePrimary(ps, slots, next) case None => None case Some(p) => ParseSuffix(p.expr, p.rest, slots, p.next))
  {
  }

  lemma FactorOfNot(ps: seq<Piece>, slots: seq<Slot>, next: nat)
    requires Heads(ps, NotWord)
    ensures ParseFactor(ps, slots, next)
         == (match ParsePrimary(ps[1..], slots, next)
             case None => None
             case Some(p) =>
               match ParseSuffix(p.expr, p.rest, slots, p.next)
               case None => None
               case Some(q) => Some(Parsed(Not(q.expr), q.rest, q.next)))
  {
  }

  lemma NoSuffix(first: Expr, ps: seq<Piece>, slots: seq<Slot>, next: nat)
    requires !StartsSuffix(ps)
    ensures ParseSuffix(first, ps, slots, next) == Some(Parsed(first, ps, next))
  {
  }

  lemma NullTestStep(first: Expr, negated: bool, tail: seq<Piece>, slots: seq<Slot>, next: nat)
    ensures ParseSuffix(first, [Lex(NullTest(negated))] + tail, slots, next) == Some(Parsed(IsNull(first, negated), tail, next))
  {
    assert ([Lex(NullTest(negated))] + tail)[1..] == tail;
  }

  lemma CompareStep(first: Expr, op: CompareOp, ps: seq<Piece>, slots: seq<Slot>, next: nat)
    ensures ParseSuffix(first, [Lex(Cmp(op))] + ps, slots, next)
         == (match ParsePrimary(ps, slots, next) case None => None case Some(p) => Some(Parsed(Compare(first, op, p.expr), p.rest, p.next)))
  {
    assert ([Lex(Cmp(op))] + ps)[1..] == ps;
  }

  lemma LikeStep(first: Expr, negated: bool, ps: seq<Piece>, slots: seq<Slot>, next: nat)
    ensures ParseSuffix(first, [Lex(LikeWord(negated))] + ps, slots, next)
         == (match ParsePrimary(ps, slots, next) case None => None case Some(p) => Some(Parsed(Like(first, p.expr, negated), p.rest, p.next)))
  {
    assert ([Lex(LikeWord(negated))] + ps)[1..] == ps;
  }

  /** BETWEEN, given how its two bounds are read. */
  lemma BetweenStep(first: Expr, negated: bool, low: seq<Piece>, high: seq<Piece>, rest: seq<Piece>, slots: seq<Slot>, next: nat,
                    a: Option<Expr>, mid: nat, b: Option<Expr>, after: nat)
    requires Agrees(a, ParsePrimary(low, slots, next), [Lex(AndWord)] + high, mid)
    requires Agrees(b, ParsePrimary(high, slots, mid), rest, after)
    ensures Agrees(if a.Some? && b.Some? then Some(Between(first, a.value, b.value, negated)) else None,
                   ParseSuffix(first, [Lex(BetweenWord(negated))] + low, slots, next), rest, after)
  {
    assert ([Lex(BetweenWord(negated))] + low)[1..] == low;
    assert ([Lex(AndWord)] + high)[1..] == high;
  }

  /** NOT before a parenthesised condition: the parser is left after the closing parenthesis. */
  lemma {:induction false} NotOperandReads(x: Expr, base: Numbering, tail: seq<Piece>, slots: seq<Slot>, next: nat)
    requires InFragment(x) && x.Not? && At(slots, next, LeafSlots(x))
    ensures var ps := Printed(x, base) + tail;
      && Heads(ps, NotWord)
      && ParsePrimary(ps[1..], slots, next)
         == (match Reading(x.operand) case None => None case Some(z) => Some(Parsed(z, tail, next + |LeafSlots(x)|)))
    decreases x, 2
  {
    var y, after := x.operand, [Lex(RParen)] + tail;
    var ps := Printed(x, base) + tail;
    assert ps[1..] == [Lex(LParen)] + Printed(y, base) + [Lex(RParen)] + tail;
    ConditionReads(y, base, after, slots, next);
    ParenthesesRead(Printed(y, base), tail, slots, next, Reading(y), next + |LeafSlots(y)|);
  }

  /** Two predicate endings in a row cannot be read. */
  lemma {:induction false} NullTestSticks(x: Expr, base: Numbering, tail: seq<Piece>, slots: seq<Slot>, next: nat)
    requires InFragment(x) && x.IsNull? && At(slots, next, LeafSlots(x)) && StartsSuffix(tail)
    ensures Stuck(ParseFactor(Printed(x, base) + tail, slots, next))
    decreases x, 2
  {
    var y, test := x.operand, [Lex(NullTest(x.negated))];
    hide ParsePrimary, ParseFactor, ParseSuffix, Reading, SuffixSlots;
    NullTestPrinted(x, base, tail);
    OperandHead(y, base);
    if PrintsAsOperand(y) {
      OperandReads(y, base, test + tail, slots, next);
      FactorOfOperand(Printed(y, base) + (test + tail), slots, next);
      if Reading(y).Some? { NullTestStep(Reading(y).value, x.negated, tail, slots, next + |LeafSlots(y)|); }
    } else if y.Not? {
      NotOperandReads(y, base, test + tail, slots, next);
      FactorOfNot(Printed(y, base) + (test + tail), slots, next);
      if Reading(y.operand).Some? { NullTestStep(Reading(y.operand).value, x.negated, tail, slots, next + |LeafSlots(y)|); }
    } else {
      NullTestSticks(y, base, test + tail, slots, next);
    }
  }

  lemma NullTestPrinted(x: Expr, base: Numbering, tail: seq<Piece>)
    requires InFragment(x) && x.IsNull?
    ensures InFragment(x.operand) && LeafSlots(x) == LeafSlots(x.operand)
    ensures Printed(x, base) + tail == Printed(x.operand, base) + ([Lex(NullTest(x.negated))] + tail)
  {
    assert FirstOperand(x) == x.operand && SuffixSlots(x) == [];
  }

  /** A NOT or a NULL test where an operand is expected. */
  lemma {:induction false} OperandSticks(x: Expr, base: Numbering, rest: seq<Piece>, slots: seq<Slot>, next: nat)
    requires InFragment(x) && !PrintsAsOperand(x) && At(slots, next, LeafSlots(x))
    ensures Stuck(ParsePrimary(Printed(x, base) + rest, slots, next))
    decreases x, 2
  {
    OperandHead(x, base);
    if x.IsNull? {
      var y, test := x.operand, [Lex(NullTest(x.negated))];
      assert Printed(x, base) + rest == Printed(y, base) + (test + rest);
      assert LeafSlots(x) == LeafSlots(y);
      if PrintsAsOperand(y) {
        OperandReads(y, base, test + rest, slots, next);
      } else {
        OperandSticks(y, base, test + rest, slots, next);
      }
    }
  }

  function OperandReading(x: Expr): Option<Expr>
    requires InFragment(x)
  {
    if PrintsAsOperand(x) then Reading(x) else None
  }

  lemma {:induction false} LaterOperandReads(x: Expr, base: Numbering, rest: seq<Piece>, slots: seq<Slot>, next: nat)
    requires InFragment(x) && At(slots, next, LeafSlots(x)) && !Heads(rest, Dot)
    ensures Agrees(OperandReading(x), ParsePrimary(Printed(x, base) + rest, slots, next), rest, next + |LeafSlots(x)|)
    decreases x, 5
  {
    if PrintsAsOperand(x) { OperandReads(x, base, rest, slots, next); } else { OperandSticks(x, base, rest, slots, next); }
  }

  lemma {:induction false} SuffixReads(e: Expr, first: Expr, base: Numbering, rest: seq<Piece>, slots: seq<Slot>, next: nat)
    requires InFragment(e) && IsPredicate(e) && At(slots, next, SuffixSlots(e)) && Ends(rest)
    ensures Agrees(Assemble(e, first), ParseSuffix(first, SuffixPieces(e, base) + rest, slots, next), rest, next + |SuffixSlots(e)|)
    decreases e, 2
  {
    hide ParsePrimary, ParseSuffix, Reading, Printed, LeafSlots;
    match e
    case IsNull(_, negated) =>
      NullTestStep(first, negated, rest, slots, next);
    case Compare(_, op, r) =>
      assert SuffixPieces(e, base) + rest == [Lex(Cmp(op))] + (Printed(r, base) + rest);
      CompareStep(first, op, Printed(r, base) + rest, slots, next);
      LaterOperandReads(r, base, rest, slots, next);
    case Like(_, p, negated) =>
      assert SuffixPieces(e, base) + rest == [Lex(LikeWord(negated))] + (Printed(p, base) + rest);
      LikeStep(first, negated, Printed(p, base) + rest, slots, next);
      LaterOperandReads(p, base, rest, slots, next);
    case Between(_, _, _, _) => BetweenReads(e, first, base, rest, slots, next);
    case InList(_, _, _) => InListReads(e, first, base, rest, slots, next);
  }

  lemma {:induction false} BetweenReads(e: Expr, first: Expr, base: Numbering, rest: seq<Piece>, slots: seq<Slot>, next: nat)
    requires InFragment(e) && e.Between? && At(slots, next, SuffixSlots(e)) && Ends(rest)
    ensures Agrees(Assemble(e, first), ParseSuffix(first, SuffixPieces(e, base) + rest, slots, next), rest, next + |SuffixSlots(e)|)
    decreases e, 1
  {
    hide ParsePrimary, ParseSuffix, Reading, Printed, LeafSlots;
    var n := |LeafSlots(e.low)|;
    var high := Printed(e.high, Shift(base, n)) + rest;
    var low := Printed(e.low, base) + ([Lex(AndWord)] + high);
    assert SuffixPieces(e, base) + rest == [Lex(BetweenWord(e.negated))] + low;
    AtSplit(slots, next, LeafSlots(e.low), LeafSlots(e.high));
    LaterOperandReads(e.low, base, [Lex(AndWord)] + high, slots, next);
    LaterOperandReads(e.high, Shift(base, n), rest, slots, next + n);
    BetweenStep(first, e.negated, low, high, rest, slots, next,
                OperandReading(e.low), next + n, OperandReading(e.high), next + n + |LeafSlots(e.high)|);
  }

  lemma {:induction false} InListReads(e: Expr, first: Expr, base: Numbering, rest: seq<Piece>, slots: seq<Slot>, next: nat)
    requires InFragment(e) && e.InList? && At(slots, next, SuffixSlots(e)) && Ends(rest)
    ensures Agrees(Assemble(e, first), ParseSuffix(first, SuffixPieces(e, base) + rest, slots, next), rest, next + |SuffixSlots(e)|)
    decreases e, 1
  {
    var ps := SuffixPieces(e, base) + rest;
    assert ps[0] == Lex(InWord(e.negated)) && ps[1] == Lex(LParen);
    assert ps[1..][0] == ps[1];
    assert ps[2..] == PrintedList(e.values, base) + ([Lex(RParen)] + rest);
    ListReads(e.values, base, rest, slots, next);
  }

  lemma {:induction false} ListReads(es: seq<Expr>, base: Numbering, rest: seq<Piece>, slots: seq<Slot>, next: nat)
    requires es != [] && (forall i :: 0 <= i < |es| ==> InFragment(es[i])) && At(slots, next, ListLeafSlots(es))
    ensures ParseList(PrintedList(es, base) + ([Lex(RParen)] + rest), slots, next)
         == (match ReadingAll(es) case None => None case Some(rs) => Some((rs, rest, next + |ListLeafSlots(es)|)))
    decreases es, 9
  {
    hide ParseSearch, ParseList, Reading, ReadingAll, Printed, LeafSlots, PrintedList, ListLeafSlots, InFragment;
    var n, close := |LeafSlots(es[0])|, [Lex(RParen)] + rest;
    ListPrinted(es, base);
    if |es| == 1 {
      assert slots[next..next + n] == LeafSlots(es[0]);
      LastOfListReads(es, base, rest, slots, next);
    } else {
      AtSplit(slots, next, LeafSlots(es[0]), ListLeafSlots(es[1..]));
      var tail := PrintedList(es[1..], Shift(base, n)) + close;
      assert PrintedList(es, base) + close == Printed(es[0], base) + ([Lex(Comma)] + tail);
      ConditionReads(es[0], base, [Lex(Comma)] + tail, slots, next);
      ListReads(es[1..], Shift(base, n), rest, slots, next + n);
      ListStep(Printed(es[0], base) + ([Lex(Comma)] + tail), tail, slots, next, Reading(es[0]), next + n);
    }
  }

  lemma ListPrinted(es: seq<Expr>, base: Numbering)
    requires es != [] && forall i :: 0 <= i < |es| ==> InFragment(es[i])
    ensures |es| == 1 ==> PrintedList(es, base) == Printed(es[0], base) && ListLeafSlots(es) == LeafSlots(es[0])
    ensures |es| > 1 ==>
      && PrintedList(es, base) == Printed(es[0], base) + ([Lex(Comma)] + PrintedList(es[1..], Shift(base, |LeafSlots(es[0])|)))
      && ListLeafSlots(es) == LeafSlots(es[0]) + ListLeafSlots(es[1..])
    ensures ReadingAll(es)
         == if Reading(es[0]).Some? && ReadingAll(es[1..]).Some? then Some([Reading(es[0]).value] + ReadingAll(es[1..]).value) else None
    ensures |es| == 1 ==> ReadingAll(es[1..]) == Some([])
  {
    if |es| == 1 { assert es[1..] == []; }
  }

  lemma ListStep(ps: seq<Piece>, tail: seq<Piece>, slots: seq<Slot>, next: nat, first: Option<Expr>, mid: nat)
    requires Agrees(first, ParseSearch(ps, slots, next), [Lex(Comma)] + tail, mid)
    ensures first == None ==> ParseList(ps, slots, next) == None
    ensures first.Some? ==>
      ParseList(ps, slots, next)
      == (match ParseList(tail, slots, mid) case None => None case Some((es, rest, n)) => Some(([first.value] + es, rest, n)))
  {
    assert ([Lex(Comma)] + tail)[1..] == tail;
  }

  lemma {:induction false} LastOfListReads(es: seq<Expr>, base: Numbering, rest: seq<Piece>, slots: seq<Slot>, next: nat)
    requires |es| == 1 && InFragment(es[0]) && At(slots, next, LeafSlots(es[0]))
    ensures ParseList(PrintedList(es, base) + ([Lex(RParen)] + rest), slots, next)
         == (match ReadingAll(es) case None => None case Some(rs) => Some((rs, rest, next + |ListLeafSlots(es)|)))
    decreases es, 8
  {
    hide ParseSearch, Reading, Printed, LeafSlots, PrintedList, ListLeafSlots;
    var close := [Lex(RParen)] + rest;
    ListPrinted(es, base);
    assert close[1..] == rest;
    ConditionReads(es[0], base, close, slots, next);
    if Reading(es[0]).Some? { assert [Reading(es[0]).value] + [] == [Reading(es[0]).value]; }
  }

  lemma {:induction false} FactorReads(e: Expr, base: Numbering, rest: seq<Piece>, slots: seq<Slot>, next: nat)
    requires InFragment(e) && At(slots, next, LeafSlots(e)) && Ends(rest)
    ensures Agrees(Reading(e), ParseFactor(Printed(e, base) + rest, slots, next), rest, next + |LeafSlots(e)|)
    decreases e, 6
  {
    OperandHead(e, base);
    if e.IsNull? {
      BodyReads(e, base, rest, slots, next);
    } else if e.Not? {
      NotFactorReads(e, base, rest, slots, next);
    } else {
      OperandFactorReads(e, base, rest, slots, next);
    }
  }

  lemma {:induction false} NotFactorReads(e: Expr, base: Numbering, rest: seq<Piece>, slots: seq<Slot>, next: nat)
    requires InFragment(e) && e.Not? && At(slots, next, LeafSlots(e)) && Ends(rest)
    ensures Agrees(Reading(e), ParseFactor(Printed(e, base) + rest, slots, next), rest, next + |LeafSlots(e)|)
    decreases e, 4
  {
    hide ParsePrimary, ParseFactor, ParseSuffix, Printed, LeafSlots;
    NotOperandReads(e, base, rest, slots, next);
    FactorOfNot(Printed(e, base) + rest, slots, next);
    if Reading(e.operand).Some? { NoSuffix(Reading(e.operand).value, rest, slots, next + |LeafSlots(e)|); }
  }

  lemma {:induction false} OperandFactorReads(e: Expr, base: Numbering, rest: seq<Piece>, slots: seq<Slot>, next: nat)
    requires InFragment(e) && PrintsAsOperand(e) && At(slots, next, LeafSlots(e)) && Ends(rest)
    ensures Agrees(Reading(e), ParseFactor(Printed(e, base) + rest, slots, next), rest, next + |LeafSlots(e)|)
    decreases e, 5
  {
    hide ParsePrimary, ParseFactor, ParseSuffix, Printed, LeafSlots, Reading;
    OperandHead(e, base);
    OperandReads(e, base, rest, slots, next);
    FactorOfOperand(Printed(e, base) + rest, slots, next);
    if Reading(e).Some? { NoSuffix(Reading(e).value, rest, slots, next + |LeafSlots(e)|); }
  }

  lemma {:induction false} ConditionReads(e: Expr, base: Numbering, rest: seq<Piece>, slots: seq<Slot>, next: nat)
    requires InFragment(e) && At(slots, next, LeafSlots(e)) && EndsCondition(rest)
    ensures Agrees(Reading(e), ParseSearch(Printed(e, base) + rest, slots, next), rest, next + |LeafSlots(e)|)
    decreases e, 7
  {
    FactorReads(e, base, rest, slots, next);
    FactorIsCondition(Printed(e, base) + rest, slots, next, Reading(e), rest, next + |LeafSlots(e)|);
  }

  lemma {:induction false} LogicReads(e: Expr, base: Numbering, rest: seq<Piece>, slots: seq<Slot>, next: nat)
    requires InFragment(e) && e.Logic? && At(slots, next, LeafSlots(e)) && !Heads(rest, Dot)
    ensures ParsePrimary(Printed(e, base) + rest, slots, next)
         == (match Reading(e) case None => None case Some(r) => Some(Parsed(r, rest, next + |LeafSlots(e)|)))
    decreases e, 3
  {
    hide ParsePrimary, ParseFactor, ParseSearch, Printed, LeafSlots, Reading;
    var n, m := |LeafSlots(e.left)|, |LeafSlots(e.right)|;
    var word, close := [Lex(if e.isAnd then AndWord else OrWord)], [Lex(RParen)] + rest;
    var right := Printed(e.right, Shift(base, n)) + close;
    var body := Printed(e.left, base) + (word + Printed(e.right, Shift(base, n)));
    LogicPrinted(e, base);
    AtSplit(slots, next, LeafSlots(e.left), LeafSlots(e.right));
    FactorReads(e.left, base, word + right, slots, next);
    FactorReads(e.right, Shift(base, n), close, slots, next + n);
    assert body + close == Printed(e.left, base) + (word + right);
    ConnectedReads(body + close, e.isAnd, right, close, slots, next, Reading(e.left), next + n, Reading(e.right), next + n + m);
    ParenthesesRead(body, rest, slots, next, Reading(e), next + n + m);
  }

  lemma LogicPrinted(e: Expr, base: Numbering)
    requires InFragment(e) && e.Logic?
    ensures LeafSlots(e) == LeafSlots(e.left) + LeafSlots(e.right)
    ensures Printed(e, base)
         == [Lex(LParen)]
            + (Printed(e.left, base) + ([Lex(if e.isAnd then AndWord else OrWord)] + Printed(e.right, Shift(base, |LeafSlots(e.left)|))))
            + [Lex(RParen)]
    ensures Reading(e)
         == if Reading(e.left).Some? && Reading(e.right).Some? then Some(Logic(Reading(e.left).value, e.isAnd, Reading(e.right).value)) else None
  {
  }

  /** Two factors joined by AND or OR. */
  lemma ConnectedReads(ps: seq<Piece>, isAnd: bool, right: seq<Piece>, rest: seq<Piece>, slots: seq<Slot>, next: nat,
                       a: Option<Expr>, mid: nat, b: Option<Expr>, after: nat)
    requires Agrees(a, ParseFactor(ps, slots, next), [Lex(if isAnd then AndWord else OrWord)] + right, mid)
    requires Agrees(b, ParseFactor(right, slots, mid), rest, after) && EndsCondition(rest)
    ensures Agrees(if a.Some? && b.Some? then Some(Logic(a.value, isAnd, b.value)) else None, ParseSearch(ps, slots, next), rest, after)
  {
    var word := [Lex(if isAnd then AndWord else OrWord)];
    assert (word + right)[1..] == right;
    if a == None {
      StuckFactor(ps, slots, next);
    } else {
      var f := Parsed(a.value, word + right, mid);
      assert ParseSearch(ps, slots, next) == (match MoreFactors(f, slots) case None => None case Some(p) => MoreTerms(p, slots));
      if isAnd { AfterAnd(f, right, slots, b, rest, after); } else { AfterOr(f, right, slots, b, rest, after); }
    }
  }

  lemma AfterAnd(f: Parsed, right: seq<Piece>, slots: seq<Slot>, b: Option<Expr>, rest: seq<Piece>, after: nat)
    requires f.rest == [Lex(AndWord)] + right
    requires Agrees(b, ParseFactor(right, slots, f.next), rest, after) && EndsCondition(rest)
    ensures Agrees(if b.Some? then Some(Logic(f.expr, true, b.value)) else None,
                   (match MoreFactors(f, slots) case None => None case Some(p) => MoreTerms(p, slots)), rest, after)
  {
    assert f.rest[1..] == right;
    var g := ParseFactor(right, slots, f.next);
    if g.Some? {
      var joined := Parsed(Logic(f.expr, true, g.value.expr), g.value.rest, g.value.next);
      assert MoreFactors(joined, slots) == Some(joined);
      assert MoreTerms(joined, slots) == Some(joined);
    }
  }

  lemma AfterOr(f: Parsed, right: seq<Piece>, slots: seq<Slot>, b: Option<Expr>, rest: seq<Piece>, after: nat)
    requires f.rest == [Lex(OrWord)] + right
    requires Agrees(b, ParseFactor(right, slots, f.next), rest, after) && EndsCondition(rest)
    ensures Agrees(if b.Some? then Some(Logic(f.expr, false, b.value)) else None,
                   (match MoreFactors(f, slots) case None => None case Some(p) => MoreTerms(p, slots)), rest, after)
  {
    assert f.rest[1..] == right;
    assert MoreFactors(f, slots) == Some(f);
    var g := ParseFactor(right, slots, f.next);
    if g.Some? {
      var joined := Parsed(Logic(f.expr, false, g.value.expr), g.value.rest, g.value.next);
      assert MoreFactors(g.value, slots) == g;
      assert MoreTerms(joined, slots) == Some(joined);
    }
  }

  lemma StuckFactor(ps: seq<Piece>, slots: seq<Slot>, next: nat)
    requires Stuck(ParseFactor(ps, slots, next))
    ensures Stuck(ParseSearch(ps, slots, next))
  {
    var f := ParseFactor(ps, slots, next);
    if f.Some? {
      assert MoreFactors(f.value, slots) == f;
      assert MoreTerms(f.value, slots) == f;
    }
  }

  /** What the parser makes of the whole printed predicate and its slots. */
  lemma ParseOfPrinted(e: Expr, base: Numbering)
    requires InFragment(e)
    ensures Parse(Printed(e, base), LeafSlots(e)) == Reading(e)
  {
    assert Printed(e, base) + [] == Printed(e, base);
    assert LeafSlots(e)[0..0 + |LeafSlots(e)|] == LeafSlots(e);
    ConditionReads(e, base, [], LeafSlots(e), 0);
  }
}
