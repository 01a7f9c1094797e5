/** The three-valued meaning of predicates, and what becomes of it when a predicate is printed and read. */
module PredicateMeaning {
  import opened Values
  import opened Dialects
  import opened LayoutTree
  import opened SqlAst
  import opened SqlText
  import opened PredicateParser
  import opened PredicateTokens
  import PredicateText

  /** NULL doubles as the truth value unknown; false comes before true. */
  datatype Value = Unknown | Truth(b: bool) | Datum(n: int)

  datatype Env = Env(column: (string, string) -> Value, argument: nat -> Value, constant: BoundValue -> Value, like: (Value, Value) -> bool)

  predicate Before(u: Value, v: Value) {
    match (u, v)
    case (Truth(a), Truth(b)) => !a && b
    case (Truth(_), Datum(_)) => true
    case (Datum(a), Datum(b)) => a < b
    case _ => false
  }

  predicate Holds(op: CompareOp, u: Value, v: Value) {
    match op
    case Eq => u == v
    case Ne => u != v
    case Lt => Before(u, v)
    case Le => !Before(v, u)
    case Gt => Before(v, u)
    case Ge => !Before(u, v)
  }

  function Compared(op: CompareOp, u: Value, v: Value): Value { if u.Unknown? || v.Unknown? then Unknown else Truth(Holds(op, u, v)) }

  function Negated(v: Value): Value { if v.Truth? then Truth(!v.b) else Unknown }

  function Both(u: Value, v: Value): Value {
    if u == Truth(false) || v == Truth(false) then Truth(false) else if u == Truth(true) && v == Truth(true) then Truth(true) else Unknown
  }

  function Either(u: Value, v: Value): Value { Negated(Both(Negated(u), Negated(v))) }

  function If(negated: bool, v: Value): Value { if negated then Negated(v) else v }

  function Meaning(e: Expr, env: Env): Value
    requires InFragment(e)
    decreases e, 1
  {
    match e
    case Column(table, column) => env.column(table, column)
    case Literal(value) => env.constant(value)
    case Param(index) => env.argument(index)
    case Compare(l, op, r) => Compared(op, Meaning(l, env), Meaning(r, env))
    case Logic(l, isAnd, r) =>
      if isAnd then Both(Meaning(l, env), Meaning(r, env)) else Either(Meaning(l, env), Meaning(r, env))
    case Not(x) => Negated(Meaning(x, env))
    case IsNull(x, negated) => If(negated, Truth(Meaning(x, env).Unknown?))
    case Between(x, lo, hi, negated) =>
      var v := Meaning(x, env);
      If(negated, Both(Compared(Ge, v, Meaning(lo, env)), Compared(Le, v, Meaning(hi, env))))
    case Like(x, p, negated) =>
      var u, v := Meaning(x, env), Meaning(p, env);
      If(negated, if u.Unknown? || v.Unknown? then Unknown else Truth(env.like(u, v)))
    case InList(x, values, negated) => If(negated, Among(Meaning(x, env), values, env))
  }

  function Among(u: Value, es: seq<Expr>, env: Env): Value
    requires forall i :: 0 <= i < |es| ==> InFragment(es[i])
    decreases es, 0
  {
    if es == [] then Truth(false) else Either(Compared(Eq, u, Meaning(es[0], env)), Among(u, es[1..], env))
  }

  /** The text of a well-placed predicate has the predicate's meaning, whatever the columns and arguments. */
  lemma TextKeepsMeaning(d: Dialect, e: Expr, env: Env)
    requires InFragment(e) && WellPlaced(e)
    ensures var read := ReadText(d, ExprText(d, e, 0), ExprSlots(d, e));
      read.Some? && InFragment(read.value) && Meaning(read.value, env) == Meaning(e, env)
  {
    TextReadsBack(d, e);
  }

  predicate IsCondition(v: Value) { !v.Datum? }

  /** Where NOT stands around a comparison of truth values makes no difference for `=` and `<>`, and does for every other sign. */
  lemma NotMovesOverEqualityOnly(op: CompareOp)
    ensures (forall u, v :: IsCondition(u) && IsCondition(v) ==> Compared(op, Negated(u), v) == Negated(Compared(op, u, v)))
       <==> op.Eq? || op.Ne?
  {
    if !op.Eq? && !op.Ne? {
      var u, v := Truth(false), Truth(op.Le? || op.Gt?);
      assert IsCondition(u) && IsCondition(v);
      assert Compared(op, Negated(u), v) != Negated(Compared(op, u, v)) || Compared(op, Negated(u), u) != Negated(Compared(op, u, u));
    }
  }

  /** It always does for a NULL test. */
  lemma NotNeverMovesOverNullTest(v: Value)
    requires IsCondition(v)
    ensures Truth(Negated(v).Unknown?) != Negated(Truth(v.Unknown?))
  {
  }

  /** What is read from the text generated for a predicate. */
  function ReadBack(d: Dialect, e: Expr): Option<Expr> { ReadText(d, ExprText(d, e, 0), ExprSlots(d, e)) }

  lemma MisreadText(d: Dialect, x: Expr, op: CompareOp, y: Expr)
    requires InFragment(x) && InFragment(y) && WellPlaced(x) && WellPlaced(y) && PrintsAsOperand(x) && PrintsAsOperand(y)
    ensures ReadBack(d, Compare(Not(x), op, y)) == Some(Not(Compare(x, op, y)))
    ensures ReadBack(d, IsNull(Not(x), false)) == Some(Not(IsNull(x, false)))
  {
    hide ReadText, ExprText, ExprSlots, Reading, Parse, WellPlaced;
    var e, n := Compare(Not(x), op, y), IsNull(Not(x), false);
    TextReadsBack(d, e);
    TextReadsBack(d, n);
    PredicateText.NotOperandIsMisread(d, x, op, y);
    PredicateText.ParseInvertsGenerate(d, e);
    PredicateText.ParseInvertsGenerate(d, n);
  }

  /** A comparison of NOT x with y, once printed, means the negated comparison: the same for `=` and `<>` of truth values only. */
  lemma MisreadComparisonMeans(d: Dialect, x: Expr, op: CompareOp, y: Expr, env: Env)
    requires InFragment(x) && InFragment(y) && WellPlaced(x) && WellPlaced(y) && PrintsAsOperand(x) && PrintsAsOperand(y)
    requires IsCondition(Meaning(x, env)) && IsCondition(Meaning(y, env))
    ensures ReadBack(d, Compare(Not(x), op, y)) == Some(Not(Compare(x, op, y)))
    ensures op.Eq? || op.Ne? ==> Meaning(Not(Compare(x, op, y)), env) == Meaning(Compare(Not(x), op, y), env)
  {
    hide ReadBack;
    MisreadText(d, x, op, y);
    NotMovesOverEqualityOnly(op);
    assert Meaning(Not(x), env) == Negated(Meaning(x, env));
  }

  /** A NULL test of NOT x never keeps its meaning. */
  lemma MisreadNullTestMeans(d: Dialect, x: Expr, env: Env)
    requires InFragment(x) && WellPlaced(x) && PrintsAsOperand(x) && IsCondition(Meaning(x, env))
    ensures ReadBack(d, IsNull(Not(x), false)) == Some(Not(IsNull(x, false)))
    ensures Meaning(Not(IsNull(x, false)), env) != Meaning(IsNull(Not(x), false), env)
  {
    hide ReadBack;
    MisreadText(d, x, Eq, x);
    NotNeverMovesOverNullTest(Meaning(x, env));
    assert Meaning(Not(x), env) == Negated(Meaning(x, env));
  }
}
