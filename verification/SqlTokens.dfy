/** The tokens of every expression, stated as SQL has them, and the proof that the generated text is cut into them. */
module SqlTokens {
  import opened Values
  import opened Dialects
  import opened LayoutTree
  import opened SqlAst
  import opened SqlText
  import opened SqlLexer
  import opened SqlReader
  import PredicateTokens

  // ---------------------------------------------------------------------------------------------
  // Expressions as tokens
  // ---------------------------------------------------------------------------------------------

  function InParentheses(ts: seq<Token>): seq<Token> { [Sign('(')] + ts + [Sign(')')] }

  function ColumnTokens(table: string, column: string): seq<Token> {
    if table == "" then [Name(column)] else [Name(table), Sign('.'), Name(column)]
  }

  function NullTokens(negated: bool): seq<Token> { PredicateTokens.WordTokens(NullTest(negated)) }

  function CmpTokens(op: CompareOp): seq<Token> { PredicateTokens.CmpTokens(op) }

  function Negatable(negated: bool, word: string): seq<Token> { PredicateTokens.Negatable(negated, word) }

  function PartName(part: DatePart): string {
    match part
    case Year => "YEAR"
    case Month => "MONTH"
    case Day => "DAY"
  }

  function WindowName(f: WindowFunction): string {
    match f
    case RowNumber => "ROW_NUMBER"
    case Rank => "RANK"
    case DenseRank => "DENSE_RANK"
    case Sum => "SUM"
    case Avg => "AVG"
    case Min => "MIN"
    case Max => "MAX"
    case Count => "COUNT"
  }

  function DirectionTokens(descending: bool): seq<Token> { [Word(if descending then "DESC" else "ASC")] }

  function ExprTokens(d: Dialect, e: Expr): seq<Token>
    decreases e, 1
  {
    match e
    case Column(table, column) => ColumnTokens(table, column)
    case Literal(_) => [Sign('?')]
    case Param(_) => [Sign('?')]
    case Compare(l, op, r) => InParentheses(ExprTokens(d, l) + CmpTokens(op) + ExprTokens(d, r))
    case Logic(l, isAnd, r) => InParentheses(ExprTokens(d, l) + [Word(if isAnd then "AND" else "OR")] + ExprTokens(d, r))
    case Not(x) => [Word("NOT")] + InParentheses(ExprTokens(d, x))
    case IsNull(x, negated) => ExprTokens(d, x) + NullTokens(negated)
    case Between(x, low, high, negated) =>
      InParentheses(ExprTokens(d, x) + Negatable(negated, "BETWEEN") + ExprTokens(d, low) + [Word("AND")] + ExprTokens(d, high))
    case Like(x, pattern, negated) => InParentheses(ExprTokens(d, x) + Negatable(negated, "LIKE") + ExprTokens(d, pattern))
    case InList(x, values, negated) =>
      if values == [] then InParentheses([Word("1"), Sign('='), Word(if negated then "1" else "0")])
      else InParentheses(ExprTokens(d, x) + Negatable(negated, "IN") + InParentheses(Commaed(AllTokens(d, values))))
    case Function(name, args) => [Word(FunctionName(d, name))] + InParentheses(Commaed(AllTokens(d, args)))
    case Subquery(q) => InParentheses(QueryTokens(d, q, [Sign('*')]))
    case Exists(q, negated) => Negatable(negated, "EXISTS") + InParentheses(QueryTokens(d, q, [Word("1")]))
    case InSubquery(x, q, negated) =>
      InParentheses(ExprTokens(d, x) + Negatable(negated, "IN") + InParentheses(QueryTokens(d, q, [Sign('*')])))
    case Extract(part, x) =>
      if d.Mssql? then [Word(PartName(part))] + InParentheses(ExprTokens(d, x))
      else [Word("EXTRACT")] + InParentheses([Word(PartName(part)), Word("FROM")] + AsTimestamp(ExprTokens(d, x)))
    case DateAdd(x, days) =>
      if d.Mssql? then [Word("DATEADD")] + InParentheses([Word("day"), Sign(',')] + ExprTokens(d, days) + [Sign(',')] + ExprTokens(d, x))
      else
        InParentheses(AsTimestamp(ExprTokens(d, x)) + [Sign('+')]
                      + InParentheses(ExprTokens(d, days) + [Sign('|'), Sign('|'), Constant(" days")])
                      + [Sign(':'), Sign(':'), Word("interval")])
    case Window(f, arg, partition, order) =>
      [Word(WindowName(f))]
      + InParentheses(if TakesArgument(f) && arg.Some? then ExprTokens(d, arg.value) else if f.Count? then [Sign('*')] else [])
      + [Word("OVER")]
      + InParentheses(ByTokens("PARTITION", AllTokens(d, partition)) + ByTokens("ORDER", AllKeys(d, order)))
    case CurrentTimestamp => [Word("CURRENT_TIMESTAMP")]
    case CurrentDate =>
      if d.Postgres? then [Word("CURRENT_DATE")]
      else [Word("CAST")] + InParentheses([Word("GETDATE")] + InParentheses([]) + [Word("AS"), Word("DATE")])
    case Missing => []
  }

  function AsTimestamp(ts: seq<Token>): seq<Token> { [Word("CAST")] + InParentheses(ts + [Word("AS"), Word("TIMESTAMP")]) }

  function ByTokens(word: string, parts: seq<seq<Token>>): seq<Token> {
    if parts == [] then [] else [Word(word), Word("BY")] + Commaed(parts)
  }

  function AllTokens(d: Dialect, es: seq<Expr>): (r: seq<seq<Token>>)
    ensures |r| == |es|
    decreases es, 0
  {
    if es == [] then [] else [ExprTokens(d, es[0])] + AllTokens(d, es[1..])
  }

  function AllKeys(d: Dialect, os: seq<Order>): (r: seq<seq<Token>>)
    ensures |r| == |os|
    decreases os, 0
  {
    if os == [] then [] else [KeyTokens(d, os[0])] + AllKeys(d, os[1..])
  }

  function KeyTokens(d: Dialect, o: Order): seq<Token>
    decreases o, 2
  {
    ExprTokens(d, o.expr) + DirectionTokens(o.descending)
  }

  function NameTokens(ids: seq<string>): (r: seq<seq<Token>>)
    ensures |r| == |ids|
  {
    seq(|ids|, i requires 0 <= i < |ids| => [Name(ids[i])])
  }

  function HeadTokens(q: Select, star: seq<Token>): seq<Token> {
    (if q.distinct then [Word("DISTINCT")] else []) + (if q.columns == [] then star else Commaed(NameTokens(q.columns)))
  }

  /** The condition of a query, if it has one. */
  function WhereTokens(d: Dialect, where: Option<Expr>): Option<seq<Token>>
    decreases where, 0
  {
    if where.Some? then Some(ExprTokens(d, where.value)) else None
  }

  function QueryTokens(d: Dialect, q: Select, star: seq<Token>): seq<Token>
    decreases q, 0
  {
    [Word("SELECT")] + HeadTokens(q, star) + [Word("FROM"), Name(q.table)]
    + (match q.where case None => [] case Some(e) => [Word("WHERE")] + ExprTokens(d, e))
  }

  // ---------------------------------------------------------------------------------------------
  // Names of functions
  // ---------------------------------------------------------------------------------------------

  /** A function's name that is a word and heads no clause. */
  predicate Ordinary(name: string) { IsWord(name) && !IsHead(name) }

  predicate OrdinaryNames(e: Expr) {
    && (e.Function? ==> Ordinary(e.name))
    && forall i :: 0 <= i < |Operands(e)| ==> OrdinaryNames(Operands(e)[i])
  }

  predicate AllOrdinary(es: seq<Expr>) { forall i :: 0 <= i < |es| ==> OrdinaryNames(es[i]) }

  lemma DialectNameIsOrdinary(d: Dialect, name: string)
    requires Ordinary(name)
    ensures Ordinary(FunctionName(d, name))
  {
    assert Ordinary("LEN") && Ordinary("SUBSTRING");
  }

  // ---------------------------------------------------------------------------------------------
  // What the fixed texts are cut into
  // ---------------------------------------------------------------------------------------------

  lemma OneWord(d: Dialect, a: string)
    requires IsWord(a)
    ensures Spells(d, a, [Word(a)], false) && Spells(d, " " + a, [Word(a)], false)
    ensures Spells(d, a + " ", [Word(a)], true) && Spells(d, " " + a + " ", [Word(a)], true)
  {
    hide Spells, IsWord;
    SpellsWord(d, a);
    BlankThenWord(d, a);
    WordThenBlank(d, a, [Word(a)]);
    WordThenBlank(d, " " + a, [Word(a)]);
  }

  lemma TwoWords(d: Dialect, a: string, b: string)
    requires IsWord(a) && IsWord(b)
    ensures Spells(d, a + (" " + b), [Word(a), Word(b)], false) && Spells(d, " " + a + (" " + b), [Word(a), Word(b)], false)
    ensures Spells(d, a + (" " + b) + " ", [Word(a), Word(b)], true) && Spells(d, " " + a + (" " + b) + " ", [Word(a), Word(b)], true)
  {
    hide Spells, IsWord;
    OneWord(d, a);
    ThenWord(d, a, [Word(a)], b);
    ThenWord(d, " " + a, [Word(a)], b);
    assert [Word(a)] + [Word(b)] == [Word(a), Word(b)];
    WordThenBlank(d, a + (" " + b), [Word(a), Word(b)]);
    WordThenBlank(d, " " + a + (" " + b), [Word(a), Word(b)]);
  }

  /** A text and a word right behind a sign. */
  lemma ThenClosedWord(d: Dialect, s: string, ts: seq<Token>, w: string)
    requires Spells(d, s, ts, true) && IsWord(w)
    ensures Spells(d, s + w, ts + [Word(w)], false) && Spells(d, s + (w + " "), ts + [Word(w)], true)
  {
    hide Spells, IsWord;
    OneWord(d, w);
    SpellsThen(d, s, ts, true, w, [Word(w)], false);
    SpellsThen(d, s, ts, true, w + " ", [Word(w)], true);
  }

  /** An operand between two closed texts. */
  lemma Around(d: Dialect, a: string, ta: seq<Token>, x: string, tx: seq<Token>, b: string, tb: seq<Token>, cb: bool)
    requires Spells(d, a, ta, true) && Spells(d, x, tx, false) && Spells(d, b, tb, cb) && b != "" && BreakChar(d, b[0])
    ensures Spells(d, a + x + b, ta + tx + tb, cb)
  {
    hide Spells, BreakChar;
    SpellsThen(d, a, ta, true, x, tx, false);
    SpellsThen(d, a + x, ta + tx, false, b, tb, cb);
  }

  lemma Parentheses(d: Dialect)
    ensures Spells(d, "(", [Sign('(')], true) && Spells(d, ")", [Sign(')')], true) && Spells(d, "))", [Sign(')'), Sign(')')], true)
    ensures BreakChar(d, '(') && BreakChar(d, ')') && BreakChar(d, ' ') && BreakChar(d, ',')
  {
    SpellsSign(d, '(');
    SpellsSign(d, ')');
    SpellsThen(d, ")", [Sign(')')], true, ")", [Sign(')')], true);
    assert ")" + ")" == "))" && [Sign(')')] + [Sign(')')] == [Sign(')'), Sign(')')];
  }

  /** A word and an opening parenthesis, as calls begin. */
  lemma Opening(d: Dialect, name: string)
    requires IsWord(name)
    ensures Spells(d, name + "(", [Word(name), Sign('(')], true)
  {
    hide Spells, IsWord;
    SpellsWord(d, name);
    Parentheses(d);
    SpellsThen(d, name, [Word(name)], false, "(", [Sign('(')], true);
    assert [Word(name)] + [Sign('(')] == [Word(name), Sign('(')];
  }

  /** An operand, a connecting text, and another operand, in parentheses. */
  lemma Connected(d: Dialect, x: string, tx: seq<Token>, mid: string, tm: seq<Token>, y: string, ty: seq<Token>)
    requires Spells(d, x, tx, false) && Spells(d, mid, tm, true) && Spells(d, y, ty, false) && mid != "" && BreakChar(d, mid[0])
    ensures Spells(d, "(" + x + mid + y + ")", InParentheses(tx + tm + ty), true)
  {
    hide Spells, BreakChar;
    Parentheses(d);
    Around(d, "(", [Sign('(')], x, tx, mid, tm, true);
    Around(d, "(" + x + mid, [Sign('(')] + tx + tm, y, ty, ")", [Sign(')')], true);
    assert [Sign('(')] + tx + tm + ty + [Sign(')')] == InParentheses(tx + tm + ty);
  }

  /** The words of predicates, by the tokens they are in both modules. */
  lemma Junction(d: Dialect, l: Lexeme)
    requires PredicateTokens.Connects(l) && !l.NullTest?
    ensures Spells(d, LexemeText(d, l), PredicateTokens.WordTokens(l), true)
  {
    PredicateTokens.WordSpells(d, l);
  }

  // ---------------------------------------------------------------------------------------------
  // The text of each kind of expression is cut into its tokens
  // ---------------------------------------------------------------------------------------------

  lemma {:induction false} ExprSpells(d: Dialect, e: Expr, base: nat)
    requires OrdinaryNames(e)
    ensures Spells(d, ExprText(d, e, base), ExprTokens(d, e), false)
    decreases e, 2
  {
    hide Spells, ExprText, ExprTokens, OrdinaryNames;
    if e.Compare? || e.Logic? || e.Not? || e.IsNull? || e.Between? || e.Like? || e.InList? {
      PredicateSpells(d, e, base);
    } else if e.Subquery? || e.Exists? || e.InSubquery? {
      QuerySpells(d, e, base);
    } else if e.Extract? || e.DateAdd? {
      DateSpells(d, e, base);
    } else if e.Function? || e.Window? {
      CallsSpell(d, e, base);
    } else {
      LeafSpells(d, e, base);
    }
  }

  lemma LeafSpells(d: Dialect, e: Expr, base: nat)
    requires e.Column? || e.Literal? || e.Param? || e.CurrentTimestamp? || e.CurrentDate? || e.Missing?
    ensures Spells(d, ExprText(d, e, base), ExprTokens(d, e), false)
  {
    hide Spells, ExprText, ExprTokens;
    if e.Column? {
      ColumnSpells(d, e, base);
    } else if e.Literal? || e.Param? {
      MarkSpells(d, e, base);
    } else if e.Missing? {
      FixedTexts(d, e, base);
      SpellsNothing(d);
      SpellsLoosely(d, "", [], true);
      NothingTokens(d, e);
    } else {
      NowSpells(d, e, base);
    }
  }

  lemma {:induction false} PredicateSpells(d: Dialect, e: Expr, base: nat)
    requires OrdinaryNames(e) && (e.Compare? || e.Logic? || e.Not? || e.IsNull? || e.Between? || e.Like? || e.InList?)
    ensures Spells(d, ExprText(d, e, base), ExprTokens(d, e), false)
    decreases e, 1
  {
    hide Spells, ExprText, ExprSlots, ExprTokens, OrdinaryNames, ListText;
    OperandsAreOrdinary(e);
    if e.Not? {
      ExprSpells(d, e.operand, base);
      NotSpells(d, e, base);
    } else if e.IsNull? {
      ExprSpells(d, e.operand, base);
      IsNullSpells(d, e, base);
    } else if e.Between? {
      ExprSpells(d, e.expr, base);
      ExprSpells(d, e.low, base + |ExprSlots(d, e.expr)|);
      ExprSpells(d, e.high, base + |ExprSlots(d, e.expr)| + |ExprSlots(d, e.low)|);
      BetweenSpells(d, e, base);
    } else if e.InList? {
      ExprSpells(d, e.expr, base);
      ListSpells(d, e.values, base + |ExprSlots(d, e.expr)|);
      InListSpells(d, e, base);
    } else {
      ExprSpells(d, LeftOf(e), base);
      ExprSpells(d, RightOf(e), base + |ExprSlots(d, LeftOf(e))|);
      InfixSpells(d, e, base);
    }
  }

  lemma {:induction false} QuerySpells(d: Dialect, e: Expr, base: nat)
    requires OrdinaryNames(e) && (e.Subquery? || e.Exists? || e.InSubquery?)
    ensures Spells(d, ExprText(d, e, base), ExprTokens(d, e), false)
    decreases e, 1
  {
    hide Spells, ExprText, ExprSlots, ExprTokens, OrdinaryNames;
    OperandsAreOrdinary(e);
    if e.InSubquery? {
      ExprSpells(d, e.expr, base);
      if e.query.where.Some? { ExprSpells(d, e.query.where.value, base + |ExprSlots(d, e.expr)|); }
      InSubquerySpells(d, e, base);
    } else {
      if e.query.where.Some? { ExprSpells(d, e.query.where.value, base); }
      SubquerySpells(d, e, base);
    }
  }

  lemma {:induction false} DateSpells(d: Dialect, e: Expr, base: nat)
    requires OrdinaryNames(e) && (e.Extract? || e.DateAdd?)
    ensures Spells(d, ExprText(d, e, base), ExprTokens(d, e), false)
    decreases e, 1
  {
    hide Spells, ExprText, ExprSlots, ExprTokens, OrdinaryNames;
    OperandsAreOrdinary(e);
    ExprSpells(d, e.expr, base);
    if e.Extract? {
      ExtractSpells(d, e, base);
    } else {
      ExprSpells(d, e.days, base + |ExprSlots(d, e.expr)|);
      DateAddSpells(d, e, base);
    }
  }

  lemma {:induction false} CallsSpell(d: Dialect, e: Expr, base: nat)
    requires OrdinaryNames(e) && (e.Function? || e.Window?)
    ensures Spells(d, ExprText(d, e, base), ExprTokens(d, e), false)
    decreases e, 1
  {
    hide Spells, ExprText, ExprSlots, ExprTokens, OrdinaryNames, ListText, ListSlots, ArgumentSlots, OrderText, Ordinary;
    OperandsAreOrdinary(e);
    if e.Function? {
      ListSpells(d, e.args, base);
      FunctionSpells(d, e, base);
    } else {
      if TakesArgument(e.kind) && e.arg.Some? { ExprSpells(d, e.arg.value, base); }
      var n := base + |ArgumentSlots(d, e)|;
      ListSpells(d, e.partition, n);
      KeysSpell(d, e.order, n + |ListSlots(d, e.partition)|);
      WindowSpells(d, e, base);
    }
  }

  lemma NothingTokens(d: Dialect, e: Expr)
    requires e.Missing?
    ensures ExprTokens(d, e) == []
  {
  }

  lemma ColumnSpells(d: Dialect, e: Expr, base: nat)
    requires e.Column?
    ensures Spells(d, ExprText(d, e, base), ExprTokens(d, e), false)
  {
    hide Spells, ExprText, ExprSlots, QuoteId;
    FixedTexts(d, e, base);
    SpellsName(d, e.column);
    if e.table != "" {
      SpellsName(d, e.table);
      ThenSign(d, QuoteId(d, e.table), [Name(e.table)], false, '.');
      SpellsThen(d, QuoteId(d, e.table) + ".", [Name(e.table)] + [Sign('.')], true, QuoteId(d, e.column), [Name(e.column)], false);
      assert [Name(e.table)] + [Sign('.')] + [Name(e.column)] == ColumnTokens(e.table, e.column);
    }
  }

  lemma MarkSpells(d: Dialect, e: Expr, base: nat)
    requires e.Literal? || e.Param?
    ensures Spells(d, ExprText(d, e, base), ExprTokens(d, e), false)
  {
    hide ExprText, ExprSlots;
    LeafTexts(d, e, base);
    SpellsSign(d, '?');
  }

  function LeftOf(e: Expr): Expr
    requires e.Compare? || e.Logic? || e.Like?
  {
    if e.Like? then e.expr else e.left
  }

  function RightOf(e: Expr): Expr
    requires e.Compare? || e.Logic? || e.Like?
  {
    if e.Like? then e.pattern else e.right
  }

  function ConnectiveOf(e: Expr): Lexeme
    requires e.Compare? || e.Logic? || e.Like?
  {
    if e.Compare? then Cmp(e.op) else if e.Like? then LikeWord(e.negated) else if e.isAnd then AndWord else OrWord
  }

  lemma InfixTokens(d: Dialect, e: Expr)
    requires e.Compare? || e.Logic? || e.Like?
    ensures ExprTokens(d, e)
         == InParentheses(ExprTokens(d, LeftOf(e)) + PredicateTokens.WordTokens(ConnectiveOf(e)) + ExprTokens(d, RightOf(e)))
  {
  }

  lemma InfixTextIs(d: Dialect, e: Expr, base: nat)
    requires e.Compare? || e.Logic? || e.Like?
    ensures var l, r := LeftOf(e), RightOf(e);
      ExprText(d, e, base)
      == "(" + ExprText(d, l, base) + LexemeText(d, ConnectiveOf(e)) + ExprText(d, r, base + |ExprSlots(d, l)|) + ")"
  {
    hide ExprText, ExprSlots;
    if e.Compare? { CompareText(d, e, base); } else if e.Logic? { LogicText(d, e, base); } else { LikeText(d, e, base); }
  }

  lemma ConnectiveBreaks(d: Dialect, e: Expr)
    requires e.Compare? || e.Logic? || e.Like?
    ensures var t := LexemeText(d, ConnectiveOf(e)); t != "" && t[0] == ' ' && BreakChar(d, ' ')
  {
  }

  lemma InfixSpells(d: Dialect, e: Expr, base: nat)
    requires e.Compare? || e.Logic? || e.Like?
    requires Spells(d, ExprText(d, LeftOf(e), base), ExprTokens(d, LeftOf(e)), false)
    requires Spells(d, ExprText(d, RightOf(e), base + |ExprSlots(d, LeftOf(e))|), ExprTokens(d, RightOf(e)), false)
    ensures Spells(d, ExprText(d, e, base), ExprTokens(d, e), false)
  {
    hide Spells, ExprText, ExprSlots, ExprTokens, LeftOf, RightOf, ConnectiveOf, LexemeText, InParentheses;
    var l, r, word := LeftOf(e), RightOf(e), ConnectiveOf(e);
    var y := ExprText(d, r, base + |ExprSlots(d, l)|);
    InfixTextIs(d, e, base);
    InfixTokens(d, e);
    ConnectiveBreaks(d, e);
    ConnectiveIsWord(e);
    Junction(d, word);
    Connected(d, ExprText(d, l, base), ExprTokens(d, l), LexemeText(d, word), PredicateTokens.WordTokens(word), y, ExprTokens(d, r));
    SpellsLoosely(d, ExprText(d, e, base), ExprTokens(d, e), true);
  }

  lemma ConnectiveIsWord(e: Expr)
    requires e.Compare? || e.Logic? || e.Like?
    ensures PredicateTokens.Connects(ConnectiveOf(e)) && !ConnectiveOf(e).NullTest?
  {
  }

  lemma NotTokens(d: Dialect, e: Expr)
    requires e.Not?
    ensures ExprTokens(d, e) == [Word("NOT"), Sign('(')] + ExprTokens(d, e.operand) + [Sign(')')]
  {
  }

  lemma NotSpells(d: Dialect, e: Expr, base: nat)
    requires e.Not? && Spells(d, ExprText(d, e.operand, base), ExprTokens(d, e.operand), false)
    ensures Spells(d, ExprText(d, e, base), ExprTokens(d, e), false)
  {
    hide Spells, ExprText, ExprSlots, ExprTokens;
    NotTokens(d, e);
    NotText(d, e, base);
    Parentheses(d);
    OneWord(d, "NOT");
    SpellsThen(d, "NOT" + " ", [Word("NOT")], true, "(", [Sign('(')], true);
    assert "NOT" + " " + "(" == "NOT (" && [Word("NOT")] + [Sign('(')] == [Word("NOT"), Sign('(')];
    Around(d, "NOT (", [Word("NOT"), Sign('(')], ExprText(d, e.operand, base), ExprTokens(d, e.operand), ")", [Sign(')')], true);
    SpellsLoosely(d, ExprText(d, e, base), ExprTokens(d, e), true);
  }

  lemma IsNullTokens(d: Dialect, e: Expr)
    requires e.IsNull?
    ensures ExprTokens(d, e) == ExprTokens(d, e.operand) + NullTokens(e.negated)
  {
  }

  lemma IsNullSpells(d: Dialect, e: Expr, base: nat)
    requires e.IsNull? && Spells(d, ExprText(d, e.operand, base), ExprTokens(d, e.operand), false)
    ensures Spells(d, ExprText(d, e, base), ExprTokens(d, e), false)
  {
    hide Spells, ExprText, ExprSlots, ExprTokens;
    IsNullTokens(d, e);
    IsNullText(d, e, base);
    Parentheses(d);
    PredicateTokens.NullTestSpells(d, e.negated);
    SpellsThen(d, ExprText(d, e.operand, base), ExprTokens(d, e.operand), false,
               if e.negated then " IS NOT NULL" else " IS NULL", NullTokens(e.negated), false);
  }

  lemma BetweenTokens(d: Dialect, e: Expr)
    requires e.Between?
    ensures ExprTokens(d, e)
         == InParentheses(ExprTokens(d, e.expr) + Negatable(e.negated, "BETWEEN")
                          + (ExprTokens(d, e.low) + [Word("AND")] + ExprTokens(d, e.high)))
  {
    hide InParentheses;
    var x, n, l, a, h := ExprTokens(d, e.expr), Negatable(e.negated, "BETWEEN"), ExprTokens(d, e.low), [Word("AND")], ExprTokens(d, e.high);
    assert x + n + l + a + h == x + n + (l + a + h);
  }

  lemma BetweenSpells(d: Dialect, e: Expr, base: nat)
    requires e.Between? && Spells(d, ExprText(d, e.expr, base), ExprTokens(d, e.expr), false)
    requires Spells(d, ExprText(d, e.low, base + |ExprSlots(d, e.expr)|), ExprTokens(d, e.low), false)
    requires Spells(d, ExprText(d, e.high, base + |ExprSlots(d, e.expr)| + |ExprSlots(d, e.low)|), ExprTokens(d, e.high), false)
    ensures Spells(d, ExprText(d, e, base), ExprTokens(d, e), false)
  {
    hide Spells, ExprText, ExprSlots, ExprTokens, InParentheses;
    var n := base + |ExprSlots(d, e.expr)|;
    var x, lo, hi := ExprText(d, e.expr, base), ExprText(d, e.low, n), ExprText(d, e.high, n + |ExprSlots(d, e.low)|);
    var word, and := if e.negated then " NOT BETWEEN " else " BETWEEN ", " AND ";
    BetweenTokens(d, e);
    BetweenText(d, e, base);
    Parentheses(d);
    Junction(d, BetweenWord(e.negated));
    Junction(d, AndWord);
    SpellsThen(d, lo, ExprTokens(d, e.low), false, and, [Word("AND")], true);
    SpellsThen(d, lo + and, ExprTokens(d, e.low) + [Word("AND")], true, hi, ExprTokens(d, e.high), false);
    Connected(d, x, ExprTokens(d, e.expr), word, Negatable(e.negated, "BETWEEN"), lo + and + hi,
              ExprTokens(d, e.low) + [Word("AND")] + ExprTokens(d, e.high));
    assert "(" + x + word + (lo + and + hi) + ")" == "(" + x + word + lo + and + hi + ")";
    SpellsLoosely(d, ExprText(d, e, base), ExprTokens(d, e), true);
  }

  // Lists.

  lemma {:induction false} TokensOfAll(d: Dialect, es: seq<Expr>)
    ensures forall i :: 0 <= i < |es| ==> AllTokens(d, es)[i] == ExprTokens(d, es[i])
    decreases |es|
  {
    if es != [] { TokensOfAll(d, es[1..]); }
  }

  lemma AllTokensSnoc(d: Dialect, es: seq<Expr>)
    requires es != []
    ensures AllTokens(d, es) == AllTokens(d, es[..|es| - 1]) + [ExprTokens(d, es[|es| - 1])]
  {
    hide ExprTokens;
    TokensOfAll(d, es);
    TokensOfAll(d, es[..|es| - 1]);
  }

  lemma CommaedSnoc(parts: seq<seq<Token>>, last: seq<Token>)
    ensures Commaed(parts + [last]) == Commaed(parts) + (if parts == [] then [] else [Sign(',')]) + last
  {
    assert (parts + [last])[..|parts|] == parts;
  }

  lemma ListGrows(d: Dialect, es: seq<Expr>, base: nat)
    requires es != []
    ensures var n := |es| - 1;
      ListText(d, es, base)
      == ListText(d, es[..n], base) + Separator(|es| > 1) + ExprText(d, es[n], base + |ListSlots(d, es[..n])|)
  {
    hide ItemText, ItemSlots, TreeText, Slots, Shape, ListItems;
    var n, ts := |es| - 1, ShapesOf(d, es);
    assert ts[..n] == ShapesOf(d, es[..n]);
    TextOfListStep(d, ts, base);
  }

  /** A text, a comma if it is not the first, and what comes next. */
  lemma NextSpells(d: Dialect, front: string, tf: seq<Token>, needed: bool, x: string, tx: seq<Token>)
    requires Spells(d, front, tf, false) && Spells(d, x, tx, false) && (!needed ==> front == "" && tf == [])
    ensures Spells(d, front + Separator(needed) + x, tf + (if needed then [Sign(',')] else []) + tx, false)
  {
    hide Spells;
    Parentheses(d);
    PredicateTokens.CommaSpells(d);
    if needed {
      SpellsThen(d, front, tf, false, ", ", [Sign(',')], true);
      SpellsThen(d, front + ", ", tf + [Sign(',')], true, x, tx, false);
    } else {
      assert front + Separator(needed) + x == x && tf + [] + tx == tx;
    }
  }

  lemma NoList(d: Dialect, base: nat)
    ensures ListText(d, [], base) == "" && AllTokens(d, []) == [] && Commaed([]) == []
  {
    EmptyRow(d, base);
  }

  lemma {:induction false} ListSpells(d: Dialect, es: seq<Expr>, base: nat)
    requires AllOrdinary(es)
    ensures Spells(d, ListText(d, es, base), Commaed(AllTokens(d, es)), false)
    decreases es, 0
  {
    hide Spells, ExprText, ExprSlots, ExprTokens, ListText, ListSlots, AllTokens, Commaed, Separator;
    NoList(d, base);
    if es == [] {
      SpellsNothing(d);
      SpellsLoosely(d, "", [], true);
    } else {
      var n := |es| - 1;
      ListSpells(d, es[..n], base);
      ExprSpells(d, es[n], base + |ListSlots(d, es[..n])|);
      ListGrows(d, es, base);
      AllTokensSnoc(d, es);
      CommaedSnoc(AllTokens(d, es[..n]), ExprTokens(d, es[n]));
      if n == 0 { assert es[..n] == []; }
      NextSpells(d, ListText(d, es[..n], base), Commaed(AllTokens(d, es[..n])), |es| > 1,
                 ExprText(d, es[n], base + |ListSlots(d, es[..n])|), ExprTokens(d, es[n]));
    }
  }

  lemma {:induction false} TokensOfKeys(d: Dialect, os: seq<Order>)
    ensures forall i :: 0 <= i < |os| ==> AllKeys(d, os)[i] == KeyTokens(d, os[i])
    decreases |os|
  {
    if os != [] { TokensOfKeys(d, os[1..]); }
  }

  lemma AllKeysSnoc(d: Dialect, os: seq<Order>)
    requires os != []
    ensures AllKeys(d, os) == AllKeys(d, os[..|os| - 1]) + [KeyTokens(d, os[|os| - 1])]
  {
    hide KeyTokens;
    TokensOfKeys(d, os);
    TokensOfKeys(d, os[..|os| - 1]);
  }

  predicate KeysOrdinary(os: seq<Order>) { forall i :: 0 <= i < |os| ==> OrdinaryNames(os[i].expr) }

  lemma DirectionSpells(d: Dialect, descending: bool)
    ensures Spells(d, if descending then " DESC" else " ASC", DirectionTokens(descending), false)
  {
    hide Spells;
    OneWord(d, "DESC");
    OneWord(d, "ASC");
    assert " " + "DESC" == " DESC" && " " + "ASC" == " ASC";
  }

  lemma {:induction false} KeySpells(d: Dialect, o: Order, base: nat)
    requires OrdinaryNames(o.expr)
    ensures Spells(d, ExprText(d, o.expr, base) + (if o.descending then " DESC" else " ASC"), KeyTokens(d, o), false)
    decreases o, 3
  {
    hide Spells, ExprText, ExprTokens;
    ExprSpells(d, o.expr, base);
    DirectionSpells(d, o.descending);
    Parentheses(d);
    SpellsThen(d, ExprText(d, o.expr, base), ExprTokens(d, o.expr), false,
               if o.descending then " DESC" else " ASC", DirectionTokens(o.descending), false);
  }

  lemma {:induction false} KeysSpell(d: Dialect, os: seq<Order>, base: nat)
    requires KeysOrdinary(os)
    ensures Spells(d, OrderText(d, os, base), Commaed(AllKeys(d, os)), false)
    decreases os, 0
  {
    hide Spells, ExprText, ExprSlots, ExprTokens, OrderText, OrderSlots, AllKeys, Commaed, Separator;
    NoKeys(d, base);
    if os == [] {
      SpellsNothing(d);
      SpellsLoosely(d, "", [], true);
    } else {
      var n := |os| - 1;
      KeysSpell(d, os[..n], base);
      var o := os[n];
      var x := ExprText(d, o.expr, base + |OrderSlots(d, os[..n])|);
      KeySpells(d, o, base + |OrderSlots(d, os[..n])|);
      assert os[..n + 1] == os;
      OrderStep(d, os, n, base);
      AllKeysSnoc(d, os);
      CommaedSnoc(AllKeys(d, os[..n]), KeyTokens(d, o));
      if n == 0 { assert os[..n] == []; }
      NextSpells(d, OrderText(d, os[..n], base), Commaed(AllKeys(d, os[..n])), n > 0,
                 x + (if o.descending then " DESC" else " ASC"), KeyTokens(d, o));
    }
  }

  lemma NoKeys(d: Dialect, base: nat)
    ensures OrderText(d, [], base) == "" && AllKeys(d, []) == [] && Commaed([]) == []
  {
    EmptyRow(d, base);
    EmptyOrder();
  }

  lemma InListTokens(d: Dialect, e: Expr)
    requires e.InList?
    ensures e.values == [] ==> ExprTokens(d, e) == InParentheses([Word("1"), Sign('='), Word(if e.negated then "1" else "0")])
    ensures e.values != [] ==>
      ExprTokens(d, e)
      == [Sign('(')] + ExprTokens(d, e.expr) + (Negatable(e.negated, "IN") + [Sign('(')]) + Commaed(AllTokens(d, e.values)) + [Sign(')'), Sign(')')]
  {
    var x, n, list := ExprTokens(d, e.expr), Negatable(e.negated, "IN"), Commaed(AllTokens(d, e.values));
    assert InParentheses(x + n + InParentheses(list)) == [Sign('(')] + x + (n + [Sign('(')]) + list + [Sign(')'), Sign(')')];
  }

  lemma TruthSpells(d: Dialect, negated: bool)
    ensures Spells(d, if negated then "(1 = 1)" else "(1 = 0)", InParentheses([Word("1"), Sign('='), Word(if negated then "1" else "0")]), true)
  {
    hide Spells;
    var last := if negated then "1" else "0";
    Parentheses(d);
    ThenClosedWord(d, "(", [Sign('(')], "1");
    PredicateTokens.CmpSpells(d, Eq);
    SpellsThen(d, "(" + "1", [Sign('(')] + [Word("1")], false, " = ", [Sign('=')], true);
    ThenClosedWord(d, "(" + "1" + " = ", [Sign('(')] + [Word("1")] + [Sign('=')], last);
    ThenSign(d, "(" + "1" + " = " + last, [Sign('(')] + [Word("1")] + [Sign('=')] + [Word(last)], false, ')');
    assert "(" + "1" + " = " + last + ")" == if negated then "(1 = 1)" else "(1 = 0)";
    assert [Sign('(')] + [Word("1")] + [Sign('=')] + [Word(last)] + [Sign(')')] == InParentheses([Word("1"), Sign('='), Word(last)]);
  }

  lemma InOpeningSpells(d: Dialect, negated: bool)
    ensures Spells(d, if negated then " NOT IN (" else " IN (", Negatable(negated, "IN") + [Sign('(')], true)
  {
    hide Spells;
    Parentheses(d);
    Junction(d, InWord(negated));
    SpellsThen(d, if negated then " NOT IN " else " IN ", Negatable(negated, "IN"), true, "(", [Sign('(')], true);
    assert (if negated then " NOT IN " else " IN ") + "(" == if negated then " NOT IN (" else " IN (";
  }

  lemma InListSpells(d: Dialect, e: Expr, base: nat)
    requires e.InList? && Spells(d, ExprText(d, e.expr, base), ExprTokens(d, e.expr), false)
    requires Spells(d, ListText(d, e.values, base + |ExprSlots(d, e.expr)|), Commaed(AllTokens(d, e.values)), false)
    ensures Spells(d, ExprText(d, e, base), ExprTokens(d, e), false)
  {
    hide Spells, ExprText, ExprSlots, ExprTokens, ListText, InParentheses, Negatable;
    InListTokens(d, e);
    if e.values == [] {
      EmptyInListText(d, e, base);
      TruthSpells(d, e.negated);
    } else {
      var open := if e.negated then " NOT IN (" else " IN (";
      InListText(d, e, base);
      Parentheses(d);
      InOpeningSpells(d, e.negated);
      Around(d, "(", [Sign('(')], ExprText(d, e.expr, base), ExprTokens(d, e.expr), open, Negatable(e.negated, "IN") + [Sign('(')], true);
      Around(d, "(" + ExprText(d, e.expr, base) + open, [Sign('(')] + ExprTokens(d, e.expr) + (Negatable(e.negated, "IN") + [Sign('(')]),
             ListText(d, e.values, base + |ExprSlots(d, e.expr)|), Commaed(AllTokens(d, e.values)), "))", [Sign(')'), Sign(')')], true);
    }
    SpellsLoosely(d, ExprText(d, e, base), ExprTokens(d, e), true);
  }

  lemma CallTokens(name: string, inner: seq<Token>)
    ensures [Word(name)] + InParentheses(inner) == [Word(name), Sign('(')] + inner + [Sign(')')]
  {
  }

  lemma CallSpells(d: Dialect, name: string, x: string, tx: seq<Token>)
    requires IsWord(name) && Spells(d, x, tx, false)
    ensures Spells(d, name + "(" + x + ")", [Word(name)] + InParentheses(tx), true)
  {
    hide Spells, IsWord, InParentheses;
    Opening(d, name);
    Parentheses(d);
    Around(d, name + "(", [Word(name), Sign('(')], x, tx, ")", [Sign(')')], true);
    CallTokens(name, tx);
  }

  lemma FunctionTokens(d: Dialect, e: Expr)
    requires e.Function?
    ensures ExprTokens(d, e) == [Word(FunctionName(d, e.name))] + InParentheses(Commaed(AllTokens(d, e.args)))
  {
  }

  lemma FunctionSpells(d: Dialect, e: Expr, base: nat)
    requires e.Function? && Ordinary(e.name) && Spells(d, ListText(d, e.args, base), Commaed(AllTokens(d, e.args)), false)
    ensures Spells(d, ExprText(d, e, base), ExprTokens(d, e), false)
  {
    hide Spells, ExprText, ExprSlots, ExprTokens, ListText, ListSlots, IsHead, FunctionName, InParentheses;
    FunctionTokens(d, e);
    FunctionText(d, e, base);
    DialectNameIsOrdinary(d, e.name);
    CallSpells(d, FunctionName(d, e.name), ListText(d, e.args, base), Commaed(AllTokens(d, e.args)));
    SpellsLoosely(d, ExprText(d, e, base), ExprTokens(d, e), true);
  }

  // Queries.

  lemma {:induction false} NamesSpell(d: Dialect, ids: seq<string>)
    ensures Spells(d, LexText(d, Names(ids)), Commaed(NameTokens(ids)), false)
    decreases |ids|
  {
    hide Spells, LexText, QuoteId, Commaed;
    if ids == [] {
      LexNone(d);
      NoNames();
      SpellsNothing(d);
      SpellsLoosely(d, "", [], true);
    } else {
      var n := |ids| - 1;
      NamesSpell(d, ids[..n]);
      assert ids[..n + 1] == ids;
      NamesStep(d, ids, n);
      SpellsName(d, ids[n]);
      assert NameTokens(ids) == NameTokens(ids[..n]) + [[Name(ids[n])]];
      CommaedSnoc(NameTokens(ids[..n]), [Name(ids[n])]);
      if n == 0 {
        assert ids[..n] == [];
        LexNone(d);
        NoNames();
      }
      NextSpells(d, LexText(d, Names(ids[..n])), Commaed(NameTokens(ids[..n])), n > 0, QuoteId(d, ids[n]), [Name(ids[n])]);
    }
  }

  lemma NoNames()
    ensures Names([]) == [] && NameTokens([]) == [] && Commaed([]) == []
  {
  }

  lemma FromSpells(d: Dialect, table: string)
    ensures Spells(d, " FROM " + QuoteId(d, table), [Word("FROM"), Name(table)], false)
  {
    hide Spells, QuoteId;
    OneWord(d, "FROM");
    assert " " + "FROM" + " " == " FROM ";
    SpellsName(d, table);
    SpellsThen(d, " FROM ", [Word("FROM")], true, QuoteId(d, table), [Name(table)], false);
    assert [Word("FROM")] + [Name(table)] == [Word("FROM"), Name(table)];
  }

  lemma HeadSpells(d: Dialect, q: Select, star: PlainText, ts: seq<Token>)
    requires Spells(d, star, ts, false)
    ensures Spells(d, LexText(d, SelectHead(q, star)), HeadTokens(q, ts) + [Word("FROM"), Name(q.table)], false)
  {
    hide Spells, LexText, QuoteId, SelectHead, Commaed, NameTokens;
    HeadText(d, q, star);
    NamesSpell(d, q.columns);
    OneWord(d, "DISTINCT");
    assert "DISTINCT" + " " == "DISTINCT ";
    SpellsNothing(d);
    var distinct, list := if q.distinct then "DISTINCT " else "", if q.columns == [] then star else LexText(d, Names(q.columns));
    var td, tl := if q.distinct then [Word("DISTINCT")] else [], if q.columns == [] then ts else Commaed(NameTokens(q.columns));
    SpellsThen(d, distinct, td, true, list, tl, false);
    FromSpells(d, q.table);
    Parentheses(d);
    SpellsThen(d, distinct + list, td + tl, false, " FROM " + QuoteId(d, q.table), [Word("FROM"), Name(q.table)], false);
  }

  function ConditionTokens(d: Dialect, where: Option<Expr>): seq<Token> {
    match where case None => [] case Some(e) => [Word("WHERE")] + ExprTokens(d, e)
  }

  lemma QueryIs(d: Dialect, q: Select, star: seq<Token>)
    ensures QueryTokens(d, q, star) == [Word("SELECT")] + (HeadTokens(q, star) + [Word("FROM"), Name(q.table)] + ConditionTokens(d, q.where))
  {
    var h, f, w := HeadTokens(q, star), [Word("FROM"), Name(q.table)], ConditionTokens(d, q.where);
    assert [Word("SELECT")] + h + f + w == [Word("SELECT")] + (h + f + w);
  }

  /** A query without its first word. */
  lemma BodySpells(d: Dialect, q: Select, star: PlainText, ts: seq<Token>, base: nat)
    requires Spells(d, star, ts, false)
    requires q.where.Some? ==> Spells(d, ExprText(d, q.where.value, base), ExprTokens(d, q.where.value), false)
    ensures Spells(d, SelectText(d, q, star, base), HeadTokens(q, ts) + [Word("FROM"), Name(q.table)] + ConditionTokens(d, q.where), false)
  {
    hide Spells, LexText, SelectHead, ExprText, ExprTokens, HeadTokens;
    var head, th := LexText(d, SelectHead(q, star)), HeadTokens(q, ts) + [Word("FROM"), Name(q.table)];
    HeadSpells(d, q, star, ts);
    if q.where.Some? {
      OneWord(d, "WHERE");
      assert " " + "WHERE" + " " == " WHERE ";
      Parentheses(d);
      SpellsThen(d, " WHERE ", [Word("WHERE")], true, ExprText(d, q.where.value, base), ExprTokens(d, q.where.value), false);
      SpellsThen(d, head, th, false, " WHERE " + ExprText(d, q.where.value, base), [Word("WHERE")] + ExprTokens(d, q.where.value), false);
    } else {
      assert head + "" == head && th + [] == th;
    }
  }

  lemma StarSpells(d: Dialect)
    ensures Spells(d, STAR, [Sign('*')], false) && Spells(d, ONE, [Word("1")], false)
  {
    SpellsSign(d, '*');
    SpellsWord(d, "1");
  }

  /** `(SELECT `, with or without words before it. */
  lemma SelectOpening(d: Dialect, s: string, ts: seq<Token>)
    requires Spells(d, s, ts, true)
    ensures Spells(d, s + "(SELECT ", ts + [Sign('(')] + [Word("SELECT")], true)
  {
    hide Spells;
    Parentheses(d);
    SpellsThen(d, s, ts, true, "(", [Sign('(')], true);
    ThenClosedWord(d, s + "(", ts + [Sign('(')], "SELECT");
    assert s + "(" + ("SELECT" + " ") == s + "(SELECT ";
  }

  lemma SubqueryTokens(d: Dialect, e: Expr)
    requires e.Subquery? || e.Exists?
    ensures var star := if e.Subquery? then [Sign('*')] else [Word("1")];
      ExprTokens(d, e)
      == (if e.Exists? then Negatable(e.negated, "EXISTS") else []) + [Sign('(')] + [Word("SELECT")]
         + (HeadTokens(e.query, star) + [Word("FROM"), Name(e.query.table)] + ConditionTokens(d, e.query.where)) + [Sign(')')]
  {
    hide HeadTokens, ConditionTokens;
    var star := if e.Subquery? then [Sign('*')] else [Word("1")];
    QueryIs(d, e.query, star);
    var body := HeadTokens(e.query, star) + [Word("FROM"), Name(e.query.table)] + ConditionTokens(d, e.query.where);
    RegroupQuery(if e.Exists? then Negatable(e.negated, "EXISTS") else [], body);
  }

  lemma RegroupQuery(front: seq<Token>, body: seq<Token>)
    ensures front + InParentheses([Word("SELECT")] + body) == front + [Sign('(')] + [Word("SELECT")] + body + [Sign(')')]
    ensures front == [] ==> InParentheses([Word("SELECT")] + body) == front + [Sign('(')] + [Word("SELECT")] + body + [Sign(')')]
  {
  }

  lemma ExistsSpells(d: Dialect, negated: bool)
    ensures Spells(d, if negated then "NOT EXISTS " else "EXISTS ", Negatable(negated, "EXISTS"), true)
  {
    hide Spells;
    OneWord(d, "EXISTS");
    TwoWords(d, "NOT", "EXISTS");
    assert "EXISTS" + " " == "EXISTS " && "NOT" + (" " + "EXISTS") + " " == "NOT EXISTS ";
    assert Negatable(true, "EXISTS") == [Word("NOT"), Word("EXISTS")] && Negatable(false, "EXISTS") == [Word("EXISTS")];
  }

  lemma SubqueryWordSpells(d: Dialect, e: Expr)
    requires e.Subquery? || e.Exists?
    ensures Spells(d, if e.Subquery? then "(SELECT " else if e.negated then "NOT EXISTS (SELECT " else "EXISTS (SELECT ",
                   (if e.Exists? then Negatable(e.negated, "EXISTS") else []) + [Sign('(')] + [Word("SELECT")], true)
  {
    hide Spells;
    if e.Subquery? {
      SpellsNothing(d);
      SelectOpening(d, "", []);
      assert "" + "(SELECT " == "(SELECT ";
    } else {
      ExistsSpells(d, e.negated);
      SelectOpening(d, if e.negated then "NOT EXISTS " else "EXISTS ", Negatable(e.negated, "EXISTS"));
      assert "NOT EXISTS " + "(SELECT " == "NOT EXISTS (SELECT " && "EXISTS " + "(SELECT " == "EXISTS (SELECT ";
    }
  }

  lemma SubquerySpells(d: Dialect, e: Expr, base: nat)
    requires e.Subquery? || e.Exists?
    requires e.query.where.Some? ==> Spells(d, ExprText(d, e.query.where.value, base), ExprTokens(d, e.query.where.value), false)
    ensures Spells(d, ExprText(d, e, base), ExprTokens(d, e), false)
  {
    hide Spells, ExprText, ExprSlots, ExprTokens, SelectText, HeadTokens, ConditionTokens, Negatable, WhereSlots;
    var star, ts := if e.Subquery? then STAR else ONE, if e.Subquery? then [Sign('*')] else [Word("1")];
    SubqueryTokens(d, e);
    SubqueryText(d, e, base);
    SubqueryWordSpells(d, e);
    StarSpells(d);
    BodySpells(d, e.query, star, ts, base);
    Parentheses(d);
    Around(d, if e.Subquery? then "(SELECT " else if e.negated then "NOT EXISTS (SELECT " else "EXISTS (SELECT ",
           (if e.Exists? then Negatable(e.negated, "EXISTS") else []) + [Sign('(')] + [Word("SELECT")],
           SelectText(d, e.query, star, base),
           HeadTokens(e.query, ts) + [Word("FROM"), Name(e.query.table)] + ConditionTokens(d, e.query.where), ")", [Sign(')')], true);
    SpellsLoosely(d, ExprText(d, e, base), ExprTokens(d, e), true);
  }

  lemma InSubqueryTokens(d: Dialect, e: Expr)
    requires e.InSubquery?
    ensures ExprTokens(d, e)
         == [Sign('(')] + ExprTokens(d, e.expr) + (Negatable(e.negated, "IN") + [Sign('(')] + [Word("SELECT")])
            + (HeadTokens(e.query, [Sign('*')]) + [Word("FROM"), Name(e.query.table)] + ConditionTokens(d, e.query.where)) + [Sign(')'), Sign(')')]
  {
    hide HeadTokens, ConditionTokens, Negatable;
    QueryIs(d, e.query, [Sign('*')]);
    RegroupIn(ExprTokens(d, e.expr), Negatable(e.negated, "IN"),
              HeadTokens(e.query, [Sign('*')]) + [Word("FROM"), Name(e.query.table)] + ConditionTokens(d, e.query.where));
  }

  lemma RegroupIn(x: seq<Token>, word: seq<Token>, body: seq<Token>)
    ensures InParentheses(x + word + InParentheses([Word("SELECT")] + body))
         == [Sign('(')] + x + (word + [Sign('(')] + [Word("SELECT")]) + body + [Sign(')'), Sign(')')]
  {
  }

  lemma InSubquerySpells(d: Dialect, e: Expr, base: nat)
    requires e.InSubquery? && Spells(d, ExprText(d, e.expr, base), ExprTokens(d, e.expr), false)
    requires e.query.where.Some? ==>
      Spells(d, ExprText(d, e.query.where.value, base + |ExprSlots(d, e.expr)|), ExprTokens(d, e.query.where.value), false)
    ensures Spells(d, ExprText(d, e, base), ExprTokens(d, e), false)
  {
    hide Spells, ExprText, ExprSlots, ExprTokens, SelectText, HeadTokens, ConditionTokens, Negatable, WhereSlots;
    var word := if e.negated then " NOT IN (SELECT " else " IN (SELECT ";
    var tw := Negatable(e.negated, "IN") + [Sign('(')] + [Word("SELECT")];
    InSubqueryTokens(d, e);
    InSubqueryText(d, e, base);
    Junction(d, InWord(e.negated));
    InWordTokens(e.negated);
    SelectOpening(d, if e.negated then " NOT IN " else " IN ", Negatable(e.negated, "IN"));
    assert (if e.negated then " NOT IN " else " IN ") + "(SELECT " == word;
    StarSpells(d);
    BodySpells(d, e.query, STAR, [Sign('*')], base + |ExprSlots(d, e.expr)|);
    Parentheses(d);
    Around(d, "(", [Sign('(')], ExprText(d, e.expr, base), ExprTokens(d, e.expr), word, tw, true);
    Around(d, "(" + ExprText(d, e.expr, base) + word, [Sign('(')] + ExprTokens(d, e.expr) + tw,
           SelectText(d, e.query, STAR, base + |ExprSlots(d, e.expr)|),
           HeadTokens(e.query, [Sign('*')]) + [Word("FROM"), Name(e.query.table)] + ConditionTokens(d, e.query.where),
           "))", [Sign(')'), Sign(')')], true);
    SpellsLoosely(d, ExprText(d, e, base), ExprTokens(d, e), true);
  }

  lemma InWordTokens(negated: bool)
    ensures PredicateTokens.WordTokens(InWord(negated)) == Negatable(negated, "IN")
  {
  }

  // Dates.

  lemma PartsAreWords(part: DatePart)
    ensures DatePartName(part) == PartName(part) && IsWord(PartName(part)) && !IsHead(PartName(part))
  {
  }

  lemma TimestampSpells(d: Dialect, front: string, tf: seq<Token>, x: string, tx: seq<Token>)
    requires Spells(d, front + "CAST(", tf, true) && Spells(d, x, tx, false)
    ensures Spells(d, front + "CAST(" + x + " AS TIMESTAMP)", tf + tx + [Word("AS"), Word("TIMESTAMP"), Sign(')')], true)
  {
    hide Spells;
    Parentheses(d);
    TwoWords(d, "AS", "TIMESTAMP");
    ThenSign(d, " " + "AS" + (" " + "TIMESTAMP"), [Word("AS"), Word("TIMESTAMP")], false, ')');
    assert " " + "AS" + (" " + "TIMESTAMP") + ")" == " AS TIMESTAMP)";
    assert [Word("AS"), Word("TIMESTAMP")] + [Sign(')')] == [Word("AS"), Word("TIMESTAMP"), Sign(')')];
    Around(d, front + "CAST(", tf, x, tx, " AS TIMESTAMP)", [Word("AS"), Word("TIMESTAMP"), Sign(')')], true);
  }

  lemma CastFrom(part: Token, x: seq<Token>)
    ensures [Word("EXTRACT")] + InParentheses([part, Word("FROM")] + AsTimestamp(x))
         == [Word("EXTRACT"), Sign('('), part, Word("FROM"), Word("CAST"), Sign('(')] + x + [Word("AS"), Word("TIMESTAMP"), Sign(')')] + [Sign(')')]
  {
  }

  lemma ExtractTokens(d: Dialect, e: Expr)
    requires e.Extract?
    ensures d.Mssql? ==> ExprTokens(d, e) == [Word(PartName(e.part))] + InParentheses(ExprTokens(d, e.expr))
    ensures d.Postgres? ==>
      ExprTokens(d, e)
      == [Word("EXTRACT"), Sign('('), Word(PartName(e.part)), Word("FROM"), Word("CAST"), Sign('(')] + ExprTokens(d, e.expr)
         + [Word("AS"), Word("TIMESTAMP"), Sign(')')] + [Sign(')')]
  {
    hide PartName;
    if d.Postgres? {
      CastFrom(Word(PartName(e.part)), ExprTokens(d, e.expr));
    }
  }

  lemma ExtractOpening(d: Dialect, part: DatePart)
    ensures Spells(d, "EXTRACT(" + PartName(part) + " FROM " + "CAST(",
                   [Word("EXTRACT"), Sign('('), Word(PartName(part)), Word("FROM"), Word("CAST"), Sign('(')], true)
  {
    hide Spells, IsWord, PartName, IsHead;
    assert IsWord("EXTRACT") && IsWord("FROM") && IsWord("CAST") by { ExtractWords(); }
    PartsAreWords(part);
    var a, b := "EXTRACT" + "(", PartName(part);
    Opening(d, "EXTRACT");
    ThenClosedWord(d, a, [Word("EXTRACT"), Sign('(')], b);
    ThenWord(d, a + b, [Word("EXTRACT"), Sign('(')] + [Word(b)], "FROM");
    var s, ts := a + b + (" " + "FROM"), [Word("EXTRACT"), Sign('(')] + [Word(b)] + [Word("FROM")];
    WordThenBlank(d, s, ts);
    Opening(d, "CAST");
    SpellsThen(d, s + " ", ts, true, "CAST" + "(", [Word("CAST"), Sign('(')], true);
    assert s + " " + ("CAST" + "(") == "EXTRACT(" + b + " FROM " + "CAST(";
    assert ts + [Word("CAST"), Sign('(')] == [Word("EXTRACT"), Sign('('), Word(b), Word("FROM"), Word("CAST"), Sign('(')];
  }

  lemma ExtractWords()
    ensures IsWord("EXTRACT") && IsWord("FROM") && IsWord("CAST")
  {
  }

  lemma ExtractSpells(d: Dialect, e: Expr, base: nat)
    requires e.Extract? && Spells(d, ExprText(d, e.expr, base), ExprTokens(d, e.expr), false)
    ensures Spells(d, ExprText(d, e, base), ExprTokens(d, e), false)
  {
    hide Spells, ExprText, ExprSlots, ExprTokens, PartName, DatePartName, InParentheses, IsHead, IsWord;
    var x, tx := ExprText(d, e.expr, base), ExprTokens(d, e.expr);
    ExtractTokens(d, e);
    ExtractText(d, e, base);
    PartsAreWords(e.part);
    if d.Mssql? {
      CallSpells(d, PartName(e.part), x, tx);
    } else {
      var front := "EXTRACT(" + PartName(e.part) + " FROM ";
      var tf := [Word("EXTRACT"), Sign('('), Word(PartName(e.part)), Word("FROM"), Word("CAST"), Sign('(')];
      ExtractOpening(d, e.part);
      TimestampSpells(d, front, tf, x, tx);
      Parentheses(d);
      ThenSign(d, front + "CAST(" + x + " AS TIMESTAMP)", tf + tx + [Word("AS"), Word("TIMESTAMP"), Sign(')')], true, ')');
      ExtractGlue(PartName(e.part), x);
    }
    SpellsLoosely(d, ExprText(d, e, base), ExprTokens(d, e), true);
  }

  lemma ExtractGlue(part: string, x: string)
    ensures "EXTRACT(" + part + " FROM " + "CAST(" + x + " AS TIMESTAMP)" + ")" == "EXTRACT(" + part + " FROM CAST(" + x + " AS TIMESTAMP))"
  {
    assert " FROM " + "CAST(" == " FROM CAST(";
    assert " AS TIMESTAMP)" + ")" == " AS TIMESTAMP))";
    var a := "EXTRACT(" + part;
    assert a + " FROM " + "CAST(" == a + " FROM CAST(";
    var b := a + " FROM CAST(" + x;
    assert b + " AS TIMESTAMP)" + ")" == b + " AS TIMESTAMP))";
  }

  lemma DateAddTokens(d: Dialect, e: Expr)
    requires e.DateAdd?
    ensures d.Mssql? ==>
      ExprTokens(d, e)
      == [Word("DATEADD"), Sign('('), Word("day"), Sign(',')] + ExprTokens(d, e.days) + [Sign(',')] + ExprTokens(d, e.expr) + [Sign(')')]
    ensures d.Postgres? ==>
      ExprTokens(d, e)
      == [Sign('('), Word("CAST"), Sign('(')] + ExprTokens(d, e.expr) + [Word("AS"), Word("TIMESTAMP"), Sign(')')]
         + [Sign('+'), Sign('(')] + ExprTokens(d, e.days) + IntervalTokens()
  {
    hide ExprTokens, InParentheses, AsTimestamp, IntervalTokens;
    PlusDays(d, e);
    DaysBeforeDate(ExprTokens(d, e.expr), ExprTokens(d, e.days));
    DatePlusDays(ExprTokens(d, e.expr), ExprTokens(d, e.days));
  }

  lemma PlusDays(d: Dialect, e: Expr)
    requires e.DateAdd?
    ensures var x, n := ExprTokens(d, e.expr), ExprTokens(d, e.days);
      ExprTokens(d, e)
      == if d.Mssql? then [Word("DATEADD")] + InParentheses([Word("day"), Sign(',')] + n + [Sign(',')] + x)
         else InParentheses(AsTimestamp(x) + [Sign('+')] + InParentheses(n + [Sign('|'), Sign('|'), Constant(" days")])
                            + [Sign(':'), Sign(':'), Word("interval")])
  {
    hide InParentheses, AsTimestamp;
  }

  lemma DaysBeforeDate(x: seq<Token>, n: seq<Token>)
    ensures [Word("DATEADD")] + InParentheses([Word("day"), Sign(',')] + n + [Sign(',')] + x)
         == [Word("DATEADD"), Sign('('), Word("day"), Sign(',')] + n + [Sign(',')] + x + [Sign(')')]
  {
  }

  lemma DatePlusDays(x: seq<Token>, n: seq<Token>)
    ensures InParentheses(AsTimestamp(x) + [Sign('+')] + InParentheses(n + [Sign('|'), Sign('|'), Constant(" days")])
                          + [Sign(':'), Sign(':'), Word("interval")])
         == [Sign('('), Word("CAST"), Sign('(')] + x + [Word("AS"), Word("TIMESTAMP"), Sign(')')] + [Sign('+'), Sign('(')] + n + IntervalTokens()
  {
  }

  function IntervalTokens(): seq<Token> {
    [Sign('|'), Sign('|'), Constant(" days"), Sign(')'), Sign(':'), Sign(':'), Word("interval"), Sign(')')]
  }

  lemma ConcatenateSpells(d: Dialect)
    ensures Spells(d, " || ", [Sign('|'), Sign('|')], true)
  {
    hide Spells;
    SpellsBlank(d);
    ThenSign(d, " ", [], true, '|');
    ThenSign(d, " " + "|", [] + [Sign('|')], true, '|');
    SpellsThen(d, " " + "|" + "|", [] + [Sign('|')] + [Sign('|')], true, " ", [], true);
    assert " " + "|" + "|" + " " == " || " && [] + [Sign('|')] + [Sign('|')] + [] == [Sign('|'), Sign('|')];
  }

  lemma CastSpells(d: Dialect)
    ensures Spells(d, ")::interval)", [Sign(')'), Sign(':'), Sign(':'), Word("interval"), Sign(')')], true)
  {
    hide Spells;
    Parentheses(d);
    ThenSign(d, ")", [Sign(')')], true, ':');
    ThenSign(d, ")" + ":", [Sign(')')] + [Sign(':')], true, ':');
    ThenClosedWord(d, ")" + ":" + ":", [Sign(')')] + [Sign(':')] + [Sign(':')], "interval");
    ThenSign(d, ")" + ":" + ":" + "interval", [Sign(')')] + [Sign(':')] + [Sign(':')] + [Word("interval")], false, ')');
    assert ")" + ":" + ":" + "interval" + ")" == ")::interval)";
    assert [Sign(')')] + [Sign(':')] + [Sign(':')] + [Word("interval")] + [Sign(')')]
        == [Sign(')'), Sign(':'), Sign(':'), Word("interval"), Sign(')')];
  }

  lemma IntervalSpells(d: Dialect)
    ensures Spells(d, " || ' days')::interval)", IntervalTokens(), true)
  {
    hide Spells;
    ConcatenateSpells(d);
    SpellsConstant(d, " days");
    assert "'" + " days" + "'" == "' days'";
    SpellsThen(d, " || ", [Sign('|'), Sign('|')], true, "' days'", [Constant(" days")], false);
    CastSpells(d);
    Parentheses(d);
    SpellsThen(d, " || " + "' days'", [Sign('|'), Sign('|')] + [Constant(" days")], false,
               ")::interval)", [Sign(')'), Sign(':'), Sign(':'), Word("interval"), Sign(')')], true);
    assert " || " + "' days'" + ")::interval)" == " || ' days')::interval)";
    assert [Sign('|'), Sign('|')] + [Constant(" days")] + [Sign(')'), Sign(':'), Sign(':'), Word("interval"), Sign(')')] == IntervalTokens();
  }

  lemma PlusSpells(d: Dialect)
    ensures Spells(d, " + (", [Sign('+'), Sign('(')], true)
  {
    hide Spells;
    SpellsBlank(d);
    ThenSign(d, " ", [], true, '+');
    SpellsThen(d, " " + "+", [] + [Sign('+')], true, " ", [], true);
    Parentheses(d);
    SpellsThen(d, " " + "+" + " ", [] + [Sign('+')] + [], true, "(", [Sign('(')], true);
    assert " " + "+" + " " + "(" == " + (" && [] + [Sign('+')] + [] + [Sign('(')] == [Sign('+'), Sign('(')];
  }

  lemma PostgresDateAddSpells(x: string, tx: seq<Token>, n: string, tn: seq<Token>)
    requires Spells(Postgres, x, tx, false) && Spells(Postgres, n, tn, false)
    ensures Spells(Postgres, "(CAST(" + x + " AS TIMESTAMP) + (" + n + " || ' days')::interval)",
                   [Sign('('), Word("CAST"), Sign('(')] + tx + [Word("AS"), Word("TIMESTAMP"), Sign(')')]
                   + [Sign('+'), Sign('(')] + tn + IntervalTokens(), true)
  {
    hide Spells, IntervalTokens;
    Parentheses(Postgres);
    Opening(Postgres, "CAST");
    SpellsThen(Postgres, "(", [Sign('(')], true, "CAST" + "(", [Word("CAST"), Sign('(')], true);
    assert "(" + ("CAST" + "(") == "(" + "CAST(" && [Sign('(')] + [Word("CAST"), Sign('(')] == [Sign('('), Word("CAST"), Sign('(')];
    TimestampSpells(Postgres, "(", [Sign('('), Word("CAST"), Sign('(')], x, tx);
    var s, ts := "(" + "CAST(" + x + " AS TIMESTAMP)", [Sign('('), Word("CAST"), Sign('(')] + tx + [Word("AS"), Word("TIMESTAMP"), Sign(')')];
    PlusSpells(Postgres);
    SpellsThen(Postgres, s, ts, true, " + (", [Sign('+'), Sign('(')], true);
    IntervalSpells(Postgres);
    Around(Postgres, s + " + (", ts + [Sign('+'), Sign('(')], n, tn, " || ' days')::interval)", IntervalTokens(), true);
    assert "(" + "CAST(" == "(CAST(" && " AS TIMESTAMP)" + " + (" == " AS TIMESTAMP) + (";
    assert s + " + (" == "(CAST(" + x + " AS TIMESTAMP) + (";
  }

  lemma MssqlDateAddSpells(x: string, tx: seq<Token>, n: string, tn: seq<Token>)
    requires Spells(Mssql, x, tx, false) && Spells(Mssql, n, tn, false)
    ensures Spells(Mssql, "DATEADD(day, " + n + ", " + x + ")",
                   [Word("DATEADD"), Sign('('), Word("day"), Sign(',')] + tn + [Sign(',')] + tx + [Sign(')')], true)
  {
    hide Spells;
    Parentheses(Mssql);
    PredicateTokens.CommaSpells(Mssql);
    Opening(Mssql, "DATEADD");
    ThenClosedWord(Mssql, "DATEADD" + "(", [Word("DATEADD"), Sign('(')], "day");
    SpellsThen(Mssql, "DATEADD" + "(" + "day", [Word("DATEADD"), Sign('(')] + [Word("day")], false, ", ", [Sign(',')], true);
    assert "DATEADD" + "(" + "day" + ", " == "DATEADD(day, ";
    var ts := [Word("DATEADD"), Sign('('), Word("day"), Sign(',')];
    assert [Word("DATEADD"), Sign('(')] + [Word("day")] + [Sign(',')] == ts;
    Around(Mssql, "DATEADD(day, ", ts, n, tn, ", ", [Sign(',')], true);
    Around(Mssql, "DATEADD(day, " + n + ", ", ts + tn + [Sign(',')], x, tx, ")", [Sign(')')], true);
  }

  lemma DateAddSpells(d: Dialect, e: Expr, base: nat)
    requires e.DateAdd? && Spells(d, ExprText(d, e.expr, base), ExprTokens(d, e.expr), false)
    requires Spells(d, ExprText(d, e.days, base + |ExprSlots(d, e.expr)|), ExprTokens(d, e.days), false)
    ensures Spells(d, ExprText(d, e, base), ExprTokens(d, e), false)
  {
    hide Spells, ExprText, ExprSlots, ExprTokens, IntervalTokens;
    var x, n := ExprText(d, e.expr, base), ExprText(d, e.days, base + |ExprSlots(d, e.expr)|);
    DateAddTokens(d, e);
    DateAddText(d, e, base);
    if d.Mssql? {
      MssqlDateAddSpells(x, ExprTokens(d, e.expr), n, ExprTokens(d, e.days));
    } else {
      PostgresDateAddSpells(x, ExprTokens(d, e.expr), n, ExprTokens(d, e.days));
    }
    SpellsLoosely(d, ExprText(d, e, base), ExprTokens(d, e), true);
  }

  lemma NowSpells(d: Dialect, e: Expr, base: nat)
    requires e.CurrentTimestamp? || e.CurrentDate?
    ensures Spells(d, ExprText(d, e, base), ExprTokens(d, e), false)
  {
    hide Spells, ExprText, ExprSlots;
    FixedTexts(d, e, base);
    if e.CurrentDate? && d.Mssql? {
      TodaySpells(d);
      SpellsLoosely(d, "CAST(GETDATE() AS DATE)", ExprTokens(d, e), true);
    } else {
      assert IsWord("CURRENT_TIMESTAMP") && IsWord("CURRENT_DATE");
      SpellsWord(d, ExprTokens(d, e)[0].text);
    }
  }

  lemma TodaySpells(d: Dialect)
    ensures Spells(d, "CAST(GETDATE() AS DATE)",
                   [Word("CAST")] + InParentheses([Word("GETDATE")] + InParentheses([]) + [Word("AS"), Word("DATE")]), true)
  {
    hide Spells;
    SpellsNothing(d);
    SpellsLoosely(d, "", [], true);
    CallSpells(d, "GETDATE", "", []);
    var now, tn := "GETDATE" + "(" + "" + ")", [Word("GETDATE")] + InParentheses([]);
    TwoWords(d, "AS", "DATE");
    SpellsThen(d, now, tn, true, " " + "AS" + (" " + "DATE"), [Word("AS"), Word("DATE")], false);
    CallSpells(d, "CAST", now + (" " + "AS" + (" " + "DATE")), tn + [Word("AS"), Word("DATE")]);
    assert "CAST" + "(" + (now + (" " + "AS" + (" " + "DATE"))) + ")" == "CAST(GETDATE() AS DATE)";
  }

  // Windows.

  lemma WindowOpeningIs(f: WindowFunction)
    ensures WindowOpening(f) == WindowName(f) + "(" && IsWord(WindowName(f)) && !IsHead(WindowName(f))
  {
  }

  function ArgumentTokens(d: Dialect, e: Expr): seq<Token>
    requires e.Window?
  {
    if TakesArgument(e.kind) && e.arg.Some? then ExprTokens(d, e.arg.value) else if e.kind.Count? then [Sign('*')] else []
  }

  lemma WindowTokens(d: Dialect, e: Expr)
    requires e.Window?
    ensures ExprTokens(d, e)
         == [Word(WindowName(e.kind)), Sign('(')] + ArgumentTokens(d, e) + [Sign(')'), Word("OVER"), Sign('(')]
            + (ByTokens("PARTITION", AllTokens(d, e.partition)) + ByTokens("ORDER", AllKeys(d, e.order))) + [Sign(')')]
  {
    hide WindowName, ByTokens;
    RegroupWindow(WindowName(e.kind), ArgumentTokens(d, e), ByTokens("PARTITION", AllTokens(d, e.partition)) + ByTokens("ORDER", AllKeys(d, e.order)));
  }

  lemma RegroupWindow(name: string, arg: seq<Token>, clauses: seq<Token>)
    ensures [Word(name)] + InParentheses(arg) + [Word("OVER")] + InParentheses(clauses)
         == [Word(name), Sign('(')] + arg + [Sign(')'), Word("OVER"), Sign('(')] + clauses + [Sign(')')]
  {
  }

  lemma ArgumentSpells(d: Dialect, e: Expr, base: nat)
    requires e.Window?
    requires TakesArgument(e.kind) && e.arg.Some? ==> Spells(d, ExprText(d, e.arg.value, base), ExprTokens(d, e.arg.value), false)
    ensures Spells(d, ArgumentText(d, e, base), ArgumentTokens(d, e), false)
  {
    hide Spells, ExprText, ExprTokens;
    SpellsNothing(d);
    SpellsLoosely(d, "", [], true);
    StarSpells(d);
  }

  lemma OverSpells(d: Dialect)
    ensures Spells(d, ") OVER (", [Sign(')'), Word("OVER"), Sign('(')], true) && BreakChar(d, ')')
  {
    hide Spells;
    Parentheses(d);
    OneWord(d, "OVER");
    SpellsThen(d, ")", [Sign(')')], true, " " + "OVER" + " ", [Word("OVER")], true);
    SpellsThen(d, ")" + (" " + "OVER" + " "), [Sign(')')] + [Word("OVER")], true, "(", [Sign('(')], true);
    assert ")" + (" " + "OVER" + " ") + "(" == ") OVER (";
    assert [Sign(')')] + [Word("OVER")] + [Sign('(')] == [Sign(')'), Word("OVER"), Sign('(')];
  }

  /** PARTITION BY or ORDER BY inside a window, if its list is not empty. */
  lemma BySpells(d: Dialect, word: string, parts: seq<seq<Token>>, list: string)
    requires (word == "PARTITION" || word == "ORDER") && (parts != [] ==> Spells(d, list, Commaed(parts), false))
    ensures Spells(d, if parts == [] then "" else word + " BY " + list, ByTokens(word, parts), false)
  {
    hide Spells, Commaed;
    if parts == [] {
      SpellsNothing(d);
      SpellsLoosely(d, "", [], true);
    } else {
      TwoWords(d, word, "BY");
      assert word + (" " + "BY") + " " == word + " BY ";
      SpellsThen(d, word + " BY ", [Word(word), Word("BY")], true, list, Commaed(parts), false);
    }
  }

  /** Two clauses with a blank between them if both are there. */
  lemma SpacedSpells(d: Dialect, a: string, ta: seq<Token>, spaced: bool, b: string, tb: seq<Token>)
    requires Spells(d, a, ta, false) && Spells(d, b, tb, false) && (!spaced ==> (a == "" && ta == []) || (b == "" && tb == []))
    ensures Spells(d, a + (if spaced then " " else "") + b, ta + tb, false)
  {
    hide Spells;
    if spaced {
      WordThenBlank(d, a, ta);
      SpellsThen(d, a + " ", ta, true, b, tb, false);
    } else if a == "" && ta == [] {
      assert a + "" + b == b && ta + tb == tb;
    } else {
      assert a + "" + b == a && ta + tb == ta;
    }
  }

  lemma WindowSpells(d: Dialect, e: Expr, base: nat)
    requires e.Window?
    requires TakesArgument(e.kind) && e.arg.Some? ==> Spells(d, ExprText(d, e.arg.value, base), ExprTokens(d, e.arg.value), false)
    requires var n := base + |ArgumentSlots(d, e)|;
      && Spells(d, ListText(d, e.partition, n), Commaed(AllTokens(d, e.partition)), false)
      && Spells(d, OrderText(d, e.order, n + |ListSlots(d, e.partition)|), Commaed(AllKeys(d, e.order)), false)
    ensures Spells(d, ExprText(d, e, base), ExprTokens(d, e), false)
  {
    hide Spells, ExprText, ExprSlots, ExprTokens, ListText, ListSlots, OrderText, OrderSlots, ArgumentText, ArgumentSlots, ArgumentTokens,
      ByTokens, WindowOpening, WindowName, IsHead, IsWord, Commaed;
    var n := base + |ArgumentSlots(d, e)|;
    var list, keys := ListText(d, e.partition, n), OrderText(d, e.order, n + |ListSlots(d, e.partition)|);
    var p, o := if e.partition == [] then "" else "PARTITION BY " + list, if e.order == [] then "" else "ORDER BY " + keys;
    var space := if e.partition != [] && e.order != [] then " " else "";
    var tp, to := ByTokens("PARTITION", AllTokens(d, e.partition)), ByTokens("ORDER", AllKeys(d, e.order));
    WindowTokens(d, e);
    WindowText(d, e, base);
    WindowOpeningIs(e.kind);
    Opening(d, WindowName(e.kind));
    ArgumentSpells(d, e, base);
    OverSpells(d);
    Parentheses(d);
    var call, tc := WindowOpening(e.kind) + ArgumentText(d, e, base) + ") OVER (",
                    [Word(WindowName(e.kind)), Sign('(')] + ArgumentTokens(d, e) + [Sign(')'), Word("OVER"), Sign('(')];
    Around(d, WindowOpening(e.kind), [Word(WindowName(e.kind)), Sign('(')], ArgumentText(d, e, base), ArgumentTokens(d, e),
           ") OVER (", [Sign(')'), Word("OVER"), Sign('(')], true);
    assert "PARTITION" + " BY " == "PARTITION BY " && "ORDER" + " BY " == "ORDER BY ";
    BySpells(d, "PARTITION", AllTokens(d, e.partition), list);
    BySpells(d, "ORDER", AllKeys(d, e.order), keys);
    EmptyBy();
    SpacedSpells(d, p, tp, e.partition != [] && e.order != [], o, to);
    Around(d, call, tc, p + space + o, tp + to, ")", [Sign(')')], true);
    assert call + (p + space + o) + ")" == call + p + space + o + ")";
    SpellsLoosely(d, ExprText(d, e, base), ExprTokens(d, e), true);
  }

  lemma EmptyBy()
    ensures ByTokens("PARTITION", []) == [] && ByTokens("ORDER", []) == []
  {
  }

  /** Every operand, condition and sort key inside has ordinary names too. */
  lemma OperandsAreOrdinary(e: Expr)
    requires OrdinaryNames(e)
    ensures e.Compare? ==> OrdinaryNames(e.left) && OrdinaryNames(e.right)
    ensures e.Logic? ==> OrdinaryNames(e.left) && OrdinaryNames(e.right)
    ensures e.Not? ==> OrdinaryNames(e.operand)
    ensures e.IsNull? ==> OrdinaryNames(e.operand)
    ensures e.Between? ==> OrdinaryNames(e.expr) && OrdinaryNames(e.low) && OrdinaryNames(e.high)
    ensures e.Like? ==> OrdinaryNames(e.expr) && OrdinaryNames(e.pattern)
    ensures e.InList? ==> OrdinaryNames(e.expr) && AllOrdinary(e.values)
    ensures e.Function? ==> Ordinary(e.name) && AllOrdinary(e.args)
    ensures e.Subquery? || e.Exists? ==> e.query.where.Some? ==> OrdinaryNames(e.query.where.value)
    ensures e.InSubquery? ==> OrdinaryNames(e.expr) && (e.query.where.Some? ==> OrdinaryNames(e.query.where.value))
    ensures e.Extract? ==> OrdinaryNames(e.expr)
    ensures e.DateAdd? ==> OrdinaryNames(e.expr) && OrdinaryNames(e.days)
    ensures e.Window? ==> WindowIsOrdinary(e)
  {
    hide Ordinary;
    var kids := Operands(e);
    match e
    case InList(x, values, _) => assert forall i :: 0 <= i < |values| ==> kids[i + 1] == values[i]; assert kids[0] == x;
    case InSubquery(x, q, _) => assert kids[0] == x; assert q.where.Some? ==> kids[1] == q.where.value;
    case Subquery(q) => assert q.where.Some? ==> kids[0] == q.where.value;
    case Exists(q, _) => assert q.where.Some? ==> kids[0] == q.where.value;
    case Window(_, _, _, _) => OrdinaryWindow(e);
    case Compare(l, _, r) => assert kids[0] == l && kids[1] == r;
    case Logic(l, _, r) => assert kids[0] == l && kids[1] == r;
    case Not(x) => assert kids[0] == x;
    case IsNull(x, _) => assert kids[0] == x;
    case Between(x, l, h, _) => assert kids[0] == x && kids[1] == l && kids[2] == h;
    case Like(x, p, _) => assert kids[0] == x && kids[1] == p;
    case Extract(_, x) => assert kids[0] == x;
    case DateAdd(x, n) => assert kids[0] == x && kids[1] == n;
    case _ =>
  }

  predicate WindowIsOrdinary(e: Expr)
    requires e.Window?
  {
    (TakesArgument(e.kind) && e.arg.Some? ==> OrdinaryNames(e.arg.value)) && AllOrdinary(e.partition) && KeysOrdinary(e.order)
  }

  lemma OrdinaryWindow(e: Expr)
    requires e.Window? && forall i :: 0 <= i < |Operands(e)| ==> OrdinaryNames(Operands(e)[i])
    ensures WindowIsOrdinary(e)
  {
    hide OrdinaryNames;
    var kids, a, p := Operands(e), |Argument(e.kind, e.arg)|, |e.partition|;
    assert kids == Argument(e.kind, e.arg) + e.partition + Keys(e, e.order);
    forall i | 0 <= i < p ensures OrdinaryNames(e.partition[i]) {
      assert kids[a + i] == e.partition[i];
    }
    forall i | 0 <= i < |e.order| ensures OrdinaryNames(e.order[i].expr) {
      assert kids[a + p + i] == e.order[i].expr;
    }
    if TakesArgument(e.kind) && e.arg.Some? { assert kids[0] == e.arg.value; }
  }

  // ---------------------------------------------------------------------------------------------
  // No clause begins inside an expression, outside parentheses
  // ---------------------------------------------------------------------------------------------

  lemma WordIsSolid(w: string)
    requires !IsHead(w)
    ensures Solid([Word(w)], true)
  {
    OneIsSolid(Word(w), true);
  }

  lemma {:induction false} NamesAreFlat(ids: seq<string>)
    ensures NoParentheses(Commaed(NameTokens(ids)))
    decreases |ids|
  {
    if ids != [] {
      var n := |ids| - 1;
      NamesAreFlat(ids[..n]);
      assert NameTokens(ids) == NameTokens(ids[..n]) + [[Name(ids[n])]];
      CommaedSnoc(NameTokens(ids[..n]), [Name(ids[n])]);
    }
  }

  lemma HeadIsFlat(q: Select, star: seq<Token>)
    requires NoParentheses(star)
    ensures NoParentheses([Word("SELECT")] + HeadTokens(q, star) + [Word("FROM"), Name(q.table)])
  {
    NamesAreFlat(q.columns);
  }

  lemma QueryNests(d: Dialect, q: Select, star: seq<Token>)
    requires NoParentheses(star) && (q.where.Some? ==> Solid(ExprTokens(d, q.where.value), true))
    ensures Nested(QueryTokens(d, q, star))
  {
    hide Nested, Solid, HeadTokens, ExprTokens;
    var front := [Word("SELECT")] + HeadTokens(q, star) + [Word("FROM"), Name(q.table)];
    HeadIsFlat(q, star);
    FlatNests(front);
    if q.where.Some? {
      SolidNests(ExprTokens(d, q.where.value), true);
      FlatNests([Word("WHERE")]);
      NestedJoin([Word("WHERE")], ExprTokens(d, q.where.value));
      NestedJoin(front, [Word("WHERE")] + ExprTokens(d, q.where.value));
    } else {
      assert front + [] == front;
    }
  }

  lemma ListNests(parts: seq<seq<Token>>)
    requires AllSolid(parts)
    ensures Nested(Commaed(parts))
  {
    hide Nested, Solid;
    if parts == [] {
      FlatNests([]);
    } else {
      SplitOfCommaed(parts);
      SolidNests(Commaed(parts), false);
    }
  }

  /** Two operands with flat tokens between them, nested. */
  lemma PairNests(x: seq<Token>, mid: seq<Token>, y: seq<Token>)
    requires Solid(x, true) && NoParentheses(mid) && Solid(y, true)
    ensures Nested(x + mid + y)
  {
    hide Nested, Solid;
    SolidNests(x, true);
    SolidNests(y, true);
    FlatNests(mid);
    NestedJoin(x, mid);
    NestedJoin(x + mid, y);
  }

  lemma CallIsSolid(name: string, inner: seq<Token>)
    requires !IsHead(name) && Nested(inner)
    ensures Solid([Word(name)] + InParentheses(inner), true)
  {
    hide Nested, Solid, IsHead;
    WordIsSolid(name);
    ParenthesesAreSolid(inner, true);
    SolidJoin([Word(name)], InParentheses(inner), true);
  }

  lemma {:induction false} AllAreSolid(d: Dialect, es: seq<Expr>)
    requires AllOrdinary(es)
    ensures AllSolid(AllTokens(d, es))
    decreases es, 0
  {
    hide Solid, ExprTokens, OrdinaryNames;
    if es != [] {
      ExprIsSolid(d, es[0]);
      AllAreSolid(d, es[1..]);
    }
  }

  lemma {:induction false} KeyIsSolid(d: Dialect, o: Order)
    requires OrdinaryNames(o.expr)
    ensures Solid(KeyTokens(d, o), true)
    decreases o, 3
  {
    hide Solid, ExprTokens, OrdinaryNames;
    ExprIsSolid(d, o.expr);
    DirectionIsNoHead(o.descending);
    WordIsSolid(if o.descending then "DESC" else "ASC");
    SolidJoin(ExprTokens(d, o.expr), DirectionTokens(o.descending), true);
  }

  lemma DirectionIsNoHead(descending: bool)
    ensures !IsHead(if descending then "DESC" else "ASC")
  {
  }

  lemma {:induction false} KeysAreSolid(d: Dialect, os: seq<Order>)
    requires KeysOrdinary(os)
    ensures AllSolid(AllKeys(d, os))
    decreases os, 0
  {
    hide Solid, KeyTokens, OrdinaryNames;
    if os != [] {
      KeyIsSolid(d, os[0]);
      KeysAreSolid(d, os[1..]);
    }
  }

  lemma {:induction false} ExprIsSolid(d: Dialect, e: Expr)
    requires OrdinaryNames(e)
    ensures Solid(ExprTokens(d, e), true)
    decreases e, 2
  {
    hide Solid, ExprTokens, OrdinaryNames;
    if e.Compare? || e.Logic? || e.Not? || e.IsNull? || e.Between? || e.Like? || e.InList? {
      PredicateIsSolid(d, e);
    } else if e.Subquery? || e.Exists? || e.InSubquery? {
      QueryIsSolid(d, e);
    } else if e.Extract? || e.DateAdd? {
      DateIsSolid(d, e);
    } else if e.Function? || e.Window? {
      CallsAreSolid(d, e);
    } else {
      LeafIsSolid(d, e);
    }
  }

  lemma ColumnIsSolid(table: string, column: string)
    ensures Solid(ColumnTokens(table, column), true)
  {
    hide Solid;
    OneIsSolid(Name(column), true);
    OneIsSolid(Name(table), true);
    OneIsSolid(Sign('.'), true);
    SolidJoin([Name(table)], [Sign('.')], true);
    SolidJoin([Name(table)] + [Sign('.')], [Name(column)], true);
    assert [Name(table)] + [Sign('.')] + [Name(column)] == [Name(table), Sign('.'), Name(column)];
  }

  lemma LeafIsSolid(d: Dialect, e: Expr)
    requires e.Column? || e.Literal? || e.Param? || e.CurrentTimestamp? || e.CurrentDate? || e.Missing?
    ensures Solid(ExprTokens(d, e), true)
  {
    hide Solid;
    NothingIsSolid(true);
    if e.Column? {
      ColumnIsSolid(e.table, e.column);
    } else if e.CurrentDate? && d.Mssql? {
      TodayIsSolid();
    } else if !e.Missing? {
      OneIsSolid(ExprTokens(d, e)[0], true);
    }
  }

  lemma TodayIsSolid()
    ensures Solid([Word("CAST")] + InParentheses([Word("GETDATE")] + InParentheses([]) + [Word("AS"), Word("DATE")]), true)
  {
    hide Solid, Nested, InParentheses;
    FlatNests([]);
    CallIsSolid("GETDATE", []);
    var now := [Word("GETDATE")] + InParentheses([]);
    SolidNests(now, true);
    FlatNests([Word("AS"), Word("DATE")]);
    NestedJoin(now, [Word("AS"), Word("DATE")]);
    CallIsSolid("CAST", now + [Word("AS"), Word("DATE")]);
  }

  lemma ConnectivesAreFlat(e: Expr)
    requires e.Compare? || e.Logic? || e.Like?
    ensures NoParentheses(PredicateTokens.WordTokens(ConnectiveOf(e)))
  {
  }

  lemma NegatableIsFlat(negated: bool, word: string)
    ensures NoParentheses(Negatable(negated, word))
  {
  }

  lemma {:induction false} PredicateIsSolid(d: Dialect, e: Expr)
    requires OrdinaryNames(e) && (e.Compare? || e.Logic? || e.Not? || e.IsNull? || e.Between? || e.Like? || e.InList?)
    ensures Solid(ExprTokens(d, e), true)
    decreases e, 1
  {
    hide Solid, Nested, ExprTokens, OrdinaryNames, InParentheses, Negatable, IsHead, Ordinary;
    OperandsAreOrdinary(e);
    if e.Not? {
      ExprIsSolid(d, e.operand);
      NotIsSolid(d, e);
    } else if e.IsNull? {
      ExprIsSolid(d, e.operand);
      NullTestIsSolid(d, e);
    } else if e.Between? {
      ExprIsSolid(d, e.expr);
      ExprIsSolid(d, e.low);
      ExprIsSolid(d, e.high);
      BetweenIsSolid(d, e);
    } else if e.InList? {
      ExprIsSolid(d, e.expr);
      AllAreSolid(d, e.values);
      InListIsSolid(d, e);
    } else {
      ExprIsSolid(d, LeftOf(e));
      ExprIsSolid(d, RightOf(e));
      InfixTokens(d, e);
      ConnectivesAreFlat(e);
      PairNests(ExprTokens(d, LeftOf(e)), PredicateTokens.WordTokens(ConnectiveOf(e)), ExprTokens(d, RightOf(e)));
      SolidInside(ExprTokens(d, LeftOf(e)) + PredicateTokens.WordTokens(ConnectiveOf(e)) + ExprTokens(d, RightOf(e)));
    }
  }

  lemma SolidInside(ts: seq<Token>)
    requires Nested(ts)
    ensures Solid(InParentheses(ts), true)
  {
    ParenthesesAreSolid(ts, true);
  }

  lemma NotIsSolid(d: Dialect, e: Expr)
    requires e.Not? && Solid(ExprTokens(d, e.operand), true)
    ensures Solid(ExprTokens(d, e), true)
  {
    hide Solid, Nested;
    SolidNests(ExprTokens(d, e.operand), true);
    CallIsSolid("NOT", ExprTokens(d, e.operand));
  }

  lemma NullTestIsSolid(d: Dialect, e: Expr)
    requires e.IsNull? && Solid(ExprTokens(d, e.operand), true)
    ensures Solid(ExprTokens(d, e), true)
  {
    hide Solid;
    WordIsSolid("IS");
    WordIsSolid("NOT");
    WordIsSolid("NULL");
    SolidJoin([Word("IS")], [Word("NULL")], true);
    SolidJoin([Word("IS")], [Word("NOT")], true);
    SolidJoin([Word("IS")] + [Word("NOT")], [Word("NULL")], true);
    assert [Word("IS")] + [Word("NULL")] == NullTokens(false);
    assert [Word("IS")] + [Word("NOT")] + [Word("NULL")] == NullTokens(true);
    SolidJoin(ExprTokens(d, e.operand), NullTokens(e.negated), true);
  }

  lemma BetweenIsSolid(d: Dialect, e: Expr)
    requires e.Between? && Solid(ExprTokens(d, e.expr), true) && Solid(ExprTokens(d, e.low), true) && Solid(ExprTokens(d, e.high), true)
    ensures Solid(ExprTokens(d, e), true)
  {
    hide Solid, Nested, ExprTokens, InParentheses, Negatable;
    var x, word, bounds := ExprTokens(d, e.expr), Negatable(e.negated, "BETWEEN"), ExprTokens(d, e.low) + [Word("AND")] + ExprTokens(d, e.high);
    BetweenTokens(d, e);
    PairNests(ExprTokens(d, e.low), [Word("AND")], ExprTokens(d, e.high));
    SolidNests(x, true);
    NegatableIsFlat(e.negated, "BETWEEN");
    FlatNests(word);
    NestedJoin(x, word);
    NestedJoin(x + word, bounds);
    SolidInside(x + word + bounds);
  }

  lemma InListIsSolid(d: Dialect, e: Expr)
    requires e.InList? && Solid(ExprTokens(d, e.expr), true) && AllSolid(AllTokens(d, e.values))
    ensures Solid(ExprTokens(d, e), true)
  {
    hide Solid, Nested, InParentheses, Negatable;
    if e.values == [] {
      FlatNests([Word("1"), Sign('='), Word(if e.negated then "1" else "0")]);
      SolidInside([Word("1"), Sign('='), Word(if e.negated then "1" else "0")]);
    } else {
      ListNests(AllTokens(d, e.values));
      InIsSolid(ExprTokens(d, e.expr), e.negated, Commaed(AllTokens(d, e.values)));
    }
  }

  /** An operand, IN, and something in parentheses. */
  lemma InIsSolid(x: seq<Token>, negated: bool, inner: seq<Token>)
    requires Solid(x, true) && Nested(inner)
    ensures Solid(InParentheses(x + Negatable(negated, "IN") + InParentheses(inner)), true)
  {
    hide Solid, Nested, InParentheses, Negatable;
    NegatableIsFlat(negated, "IN");
    SolidInside(inner);
    PairNests(x, Negatable(negated, "IN"), InParentheses(inner));
    SolidInside(x + Negatable(negated, "IN") + InParentheses(inner));
  }

  lemma {:induction false} QueryIsSolid(d: Dialect, e: Expr)
    requires OrdinaryNames(e) && (e.Subquery? || e.Exists? || e.InSubquery?)
    ensures Solid(ExprTokens(d, e), true)
    decreases e, 1
  {
    hide Solid, Nested, OrdinaryNames, InParentheses, QueryTokens, Negatable, NoParentheses;
    OperandsAreOrdinary(e);
    StarIsFlat();
    if e.query.where.Some? { ExprIsSolid(d, e.query.where.value); }
    if e.InSubquery? {
      ExprIsSolid(d, e.expr);
      QueryNests(d, e.query, [Sign('*')]);
      InIsSolid(ExprTokens(d, e.expr), e.negated, QueryTokens(d, e.query, [Sign('*')]));
    } else if e.Subquery? {
      QueryNests(d, e.query, [Sign('*')]);
      SolidInside(QueryTokens(d, e.query, [Sign('*')]));
    } else {
      QueryNests(d, e.query, [Word("1")]);
      ExistsIsSolid(e.negated, QueryTokens(d, e.query, [Word("1")]));
    }
  }

  lemma StarIsFlat()
    ensures NoParentheses([Sign('*')]) && NoParentheses([Word("1")])
  {
  }

  lemma ExistsIsSolid(negated: bool, inner: seq<Token>)
    requires Nested(inner)
    ensures Solid(Negatable(negated, "EXISTS") + InParentheses(inner), true)
  {
    hide Solid, Nested;
    WordIsSolid("EXISTS");
    WordIsSolid("NOT");
    SolidJoin([Word("NOT")], [Word("EXISTS")], true);
    assert [] + [Word("EXISTS")] == [Word("EXISTS")];
    SolidInside(inner);
    SolidJoin(Negatable(negated, "EXISTS"), InParentheses(inner), true);
  }

  lemma CastNests(x: seq<Token>)
    requires Solid(x, true)
    ensures Nested(AsTimestamp(x))
  {
    hide Solid, Nested;
    SolidNests(x, true);
    FlatNests([Word("AS"), Word("TIMESTAMP")]);
    NestedJoin(x, [Word("AS"), Word("TIMESTAMP")]);
    CallIsSolid("CAST", x + [Word("AS"), Word("TIMESTAMP")]);
    SolidNests(AsTimestamp(x), true);
  }

  lemma {:induction false} DateIsSolid(d: Dialect, e: Expr)
    requires OrdinaryNames(e) && (e.Extract? || e.DateAdd?)
    ensures Solid(ExprTokens(d, e), true)
    decreases e, 1
  {
    hide Solid, Nested, OrdinaryNames;
    OperandsAreOrdinary(e);
    ExprIsSolid(d, e.expr);
    if e.Extract? {
      ExtractIsSolid(d, e);
    } else {
      ExprIsSolid(d, e.days);
      PlusIsSolid(d, e);
    }
  }

  lemma ExtractIsSolid(d: Dialect, e: Expr)
    requires e.Extract? && Solid(ExprTokens(d, e.expr), true)
    ensures Solid(ExprTokens(d, e), true)
  {
    hide Solid, Nested, InParentheses, AsTimestamp, PartName, IsHead;
    var x := ExprTokens(d, e.expr);
    PartsAreWords(e.part);
    SolidNests(x, true);
    CastNests(x);
    var part := [Word(PartName(e.part)), Word("FROM")];
    FlatNests(part);
    NestedJoin(part, AsTimestamp(x));
    ExtractIsNoHead();
    CallIsSolid("EXTRACT", part + AsTimestamp(x));
    CallIsSolid(PartName(e.part), x);
  }

  lemma ExtractIsNoHead()
    ensures !IsHead("EXTRACT") && !IsHead("DATEADD") && !IsHead("OVER")
  {
  }

  lemma PlusIsSolid(d: Dialect, e: Expr)
    requires e.DateAdd? && Solid(ExprTokens(d, e.expr), true) && Solid(ExprTokens(d, e.days), true)
    ensures Solid(ExprTokens(d, e), true)
  {
    hide Solid, Nested, InParentheses, AsTimestamp, IsHead, ExprTokens;
    var x, n := ExprTokens(d, e.expr), ExprTokens(d, e.days);
    PlusDays(d, e);
    if d.Mssql? {
      FlatNests([Word("day"), Sign(',')]);
      PairNests(n, [Sign(',')], x);
      NestedJoin([Word("day"), Sign(',')], n + [Sign(',')] + x);
      assert [Word("day"), Sign(',')] + (n + [Sign(',')] + x) == [Word("day"), Sign(',')] + n + [Sign(',')] + x;
      ExtractIsNoHead();
      CallIsSolid("DATEADD", [Word("day"), Sign(',')] + n + [Sign(',')] + x);
    } else {
      DaysNest(x, n);
      SolidInside(AsTimestamp(x) + [Sign('+')] + InParentheses(n + [Sign('|'), Sign('|'), Constant(" days")])
                  + [Sign(':'), Sign(':'), Word("interval")]);
    }
  }

  lemma DaysNest(x: seq<Token>, n: seq<Token>)
    requires Solid(x, true) && Solid(n, true)
    ensures Nested(AsTimestamp(x) + [Sign('+')] + InParentheses(n + [Sign('|'), Sign('|'), Constant(" days")])
                   + [Sign(':'), Sign(':'), Word("interval")])
  {
    hide Solid, Nested, InParentheses, AsTimestamp;
    CastNests(x);
    SolidNests(n, true);
    FlatNests([Sign('|'), Sign('|'), Constant(" days")]);
    NestedJoin(n, [Sign('|'), Sign('|'), Constant(" days")]);
    SolidInside(n + [Sign('|'), Sign('|'), Constant(" days")]);
    SolidNests(InParentheses(n + [Sign('|'), Sign('|'), Constant(" days")]), true);
    FlatNests([Sign('+')]);
    FlatNests([Sign(':'), Sign(':'), Word("interval")]);
    NestedJoin(AsTimestamp(x), [Sign('+')]);
    NestedJoin(AsTimestamp(x) + [Sign('+')], InParentheses(n + [Sign('|'), Sign('|'), Constant(" days")]));
    NestedJoin(AsTimestamp(x) + [Sign('+')] + InParentheses(n + [Sign('|'), Sign('|'), Constant(" days")]),
               [Sign(':'), Sign(':'), Word("interval")]);
  }

  lemma {:induction false} CallsAreSolid(d: Dialect, e: Expr)
    requires OrdinaryNames(e) && (e.Function? || e.Window?)
    ensures Solid(ExprTokens(d, e), true)
    decreases e, 1
  {
    hide Solid, Nested, OrdinaryNames, ExprTokens, InParentheses, IsHead, IsWord, FunctionName;
    OperandsAreOrdinary(e);
    if e.Function? {
      AllAreSolid(d, e.args);
      FunctionTokens(d, e);
      ListNests(AllTokens(d, e.args));
      DialectNameIsOrdinary(d, e.name);
      CallIsSolid(FunctionName(d, e.name), Commaed(AllTokens(d, e.args)));
    } else {
      if TakesArgument(e.kind) && e.arg.Some? { ExprIsSolid(d, e.arg.value); }
      AllAreSolid(d, e.partition);
      KeysAreSolid(d, e.order);
      WindowIsSolid(d, e);
    }
  }

  lemma ByNests(word: string, parts: seq<seq<Token>>)
    requires AllSolid(parts)
    ensures Nested(ByTokens(word, parts))
  {
    hide Nested, Commaed;
    FlatNests([]);
    FlatNests([Word(word), Word("BY")]);
    ListNests(parts);
    NestedJoin([Word(word), Word("BY")], Commaed(parts));
  }

  lemma ArgumentNests(d: Dialect, e: Expr)
    requires e.Window? && (TakesArgument(e.kind) && e.arg.Some? ==> Solid(ExprTokens(d, e.arg.value), true))
    ensures Nested(ArgumentTokens(d, e))
  {
    hide Nested, Solid, ExprTokens;
    FlatNests([]);
    FlatNests([Sign('*')]);
    if TakesArgument(e.kind) && e.arg.Some? { SolidNests(ExprTokens(d, e.arg.value), true); }
  }

  lemma WindowIsCalls(d: Dialect, e: Expr)
    requires e.Window?
    ensures ExprTokens(d, e)
         == [Word(WindowName(e.kind))] + InParentheses(ArgumentTokens(d, e))
            + ([Word("OVER")] + InParentheses(ByTokens("PARTITION", AllTokens(d, e.partition)) + ByTokens("ORDER", AllKeys(d, e.order))))
  {
    hide InParentheses, ByTokens, WindowName;
    var a, b, c := [Word(WindowName(e.kind))] + InParentheses(ArgumentTokens(d, e)), [Word("OVER")],
                   InParentheses(ByTokens("PARTITION", AllTokens(d, e.partition)) + ByTokens("ORDER", AllKeys(d, e.order)));
    assert a + b + c == a + (b + c);
  }

  lemma WindowIsSolid(d: Dialect, e: Expr)
    requires e.Window? && AllSolid(AllTokens(d, e.partition)) && AllSolid(AllKeys(d, e.order))
    requires TakesArgument(e.kind) && e.arg.Some? ==> Solid(ExprTokens(d, e.arg.value), true)
    ensures Solid(ExprTokens(d, e), true)
  {
    hide Solid, Nested, ExprTokens, InParentheses, ByTokens, ArgumentTokens, WindowName, IsHead, IsWord, WindowOpening;
    var p, o := ByTokens("PARTITION", AllTokens(d, e.partition)), ByTokens("ORDER", AllKeys(d, e.order));
    WindowIsCalls(d, e);
    WindowOpeningIs(e.kind);
    ArgumentNests(d, e);
    CallIsSolid(WindowName(e.kind), ArgumentTokens(d, e));
    ByNests("PARTITION", AllTokens(d, e.partition));
    ByNests("ORDER", AllKeys(d, e.order));
    NestedJoin(p, o);
    ExtractIsNoHead();
    CallIsSolid("OVER", p + o);
    SolidJoin([Word(WindowName(e.kind))] + InParentheses(ArgumentTokens(d, e)), [Word("OVER")] + InParentheses(p + o), true);
  }
}
