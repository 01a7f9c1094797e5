/** What the fields of the numeric structure mean: the digits at a default scale, the precision, and scales below zero. */
module NumericForms {
  import opened Decimal
  import opened DecimalOrder
  import opened NumericStruct
  import SqlNumeric

  // ---------------------------------------------------------------------------------------------
  // A default scale
  // ---------------------------------------------------------------------------------------------

  /** What is stored for a written decimal with a default scale. */
  function ScaledTo(d: SqlNumeric.Written, scale: nat): Prepared
    requires SqlNumeric.TrimBack(SqlNumeric.TrimFront(SqlNumeric.Text(d))) != ""
  {
    Prepare(SqlNumeric.TrimBack(SqlNumeric.TrimFront(SqlNumeric.Text(d))), scale)
  }

  /** The unit of the last digit kept: one of the scale, or larger when 38 digits do not reach the scale. */
  function LastUnit(scale: nat): nat { Pow10(if scale <= MaxScale then 0 else scale - MaxScale) }

  lemma RescaledFrom(d: SqlNumeric.Written, scale: nat)
    requires SqlNumeric.WellFormed(d)
    ensures SqlNumeric.TrimBack(SqlNumeric.TrimFront(SqlNumeric.Text(d))) != ""
    ensures ScaledTo(d, scale) == Rescale(Prepared(NumericStruct.SignOf(d), KeptDigits(d), KeptScale(d)), scale)
  {
    hide Rescale, WithoutPoint, SqlNumeric.TrimBack, SqlNumeric.TrimFront, SqlNumeric.Text;
    StoredDigits(d);
    NoRescale(d);
  }

  lemma NoRescale(d: SqlNumeric.Written)
    requires SqlNumeric.TrimBack(SqlNumeric.TrimFront(SqlNumeric.Text(d))) != ""
    ensures var s := SqlNumeric.TrimBack(SqlNumeric.TrimFront(SqlNumeric.Text(d)));
      Stored(d) == WithoutPoint(if s[0] == '-' then 0 else 1, if s[0] == '-' || s[0] == '+' then s[1..] else s)
  {
    hide WithoutPoint, SqlNumeric.TrimBack, SqlNumeric.TrimFront, SqlNumeric.Text;
  }

  /** `v` is `m` over `p`, in units of one over `q`, cut to a multiple of `unit`. */
  predicate CutTo(v: nat, m: nat, p: nat, q: nat, unit: nat) { v * p <= m * q < (v + unit) * p }

  lemma AddedZeros(digits: string, n: nat)
    requires AllDigits(digits)
    ensures AllDigits(digits + Zeros(n)) && Value(digits + Zeros(n)) == Value(digits) * Pow10(n)
  {
    hide Value, Pow10;
    ValueOfJoin(digits, Zeros(n));
    NoValue(n);
  }

  lemma Raised(k: nat, lost: nat, p: nat, s: nat, e: nat)
    requires lost < p && s > 0 && e > 0
    ensures CutTo(k * e, k * p + lost, s * p, s * e, e)
  {
    assert k * e * (s * p) == k * p * (s * e);
    assert (k * p + lost) * (s * e) == k * p * (s * e) + lost * (s * e);
    assert (k * e + e) * (s * p) == k * p * (s * e) + p * (s * e);
    Below(lost, p, s * e);
  }

  lemma Regroup(a: nat, b: nat, c: nat, p: nat, lost: nat, s: nat)
    ensures a * (c * p) + (b * p + lost) == (a * c + b) * p + lost
    ensures s * (c * p) == s * c * p
  {
  }

  lemma Lowered(a: nat, b: nat, lost: nat, c: nat, p: nat, s: nat)
    requires b < c && lost < p && s > 0
    ensures CutTo(a, (a * c + b) * p + lost, s * c * p, s, 1)
  {
    var x := b * p + lost;
    assert (b + 1) * p <= c * p;
    Floor(a, x, c * p, s);
    Regroup(a, b, c, p, lost, s);
  }

  lemma DropParts(digits: string, n: nat)
    requires AllDigits(digits) && n <= |digits|
    ensures var front, back := digits[..|digits| - n], digits[|digits| - n..];
      && AllDigits(front) && AllDigits(back) && Value(digits) == Value(front) * Pow10(n) + Value(back) && Value(back) < Pow10(n)
  {
    hide Value, Pow10;
    var front, back := digits[..|digits| - n], digits[|digits| - n..];
    assert digits == front + back;
    ValueOfJoin(front, back);
    ValueIsBelow(back);
  }

  /**
   * With a default scale the structure has that scale, and its number is the written one in units of it, cut towards
   * zero: at the scale, or after the 38th digit where the scale asks for more.
   */
  lemma ScaledDenotes(d: SqlNumeric.Written, scale: nat)
    requires SqlNumeric.WellFormed(d)
    ensures SqlNumeric.TrimBack(SqlNumeric.TrimFront(SqlNumeric.Text(d))) != ""
    ensures var p := ScaledTo(d, scale);
      && p.scale == scale && p.sign == (if d.sign == SqlNumeric.Minus then 0 else 1)
      && AllDigits(p.digits) && OnlyDigits(p.digits) == p.digits
      && CutTo(Value(p.digits), SqlNumeric.Mantissa(d), Pow10(|d.fraction|), Pow10(scale), LastUnit(scale))
  {
    hide Value, Pow10, KeptDigits, Lost, OnlyDigits, CutTo, SqlNumeric.TrimBack, SqlNumeric.TrimFront, SqlNumeric.Text, SqlNumeric.Mantissa;
    RescaledFrom(d, scale);
    SqlNumeric.Digits(d);
    MantissaSplits(d);
    KeptLength(d);
    ValueIsBelow(Lost(d));
    PowSum(KeptScale(d), |Lost(d)|);
    if KeptScale(d) <= scale { Widened(d, scale); } else { Narrowed(d, scale); }
  }

  lemma KeptLength(d: SqlNumeric.Written)
    ensures |KeptDigits(d)| >= KeptScale(d) && |Lost(d)| == |d.fraction| - KeptScale(d)
  {
  }

  lemma WidenedPast(d: SqlNumeric.Written, scale: nat)
    requires AllDigits(KeptDigits(d)) && AllDigits(Lost(d)) && AllDigits(d.whole) && AllDigits(d.fraction)
    requires |d.fraction| > MaxScale && KeptScale(d) <= scale
    ensures CutTo(Value(KeptDigits(d)) * Pow10(scale - KeptScale(d)), SqlNumeric.Mantissa(d), Pow10(|d.fraction|), Pow10(scale), LastUnit(scale))
  {
    hide Value, Pow10, KeptDigits, Lost, CutTo, SqlNumeric.Mantissa;
    var e := scale - KeptScale(d);
    KeptLength(d);
    MantissaSplits(d);
    ValueIsBelow(Lost(d));
    PowSum(KeptScale(d), |Lost(d)|);
    PowSum(KeptScale(d), e);
    Raised(Value(KeptDigits(d)), Value(Lost(d)), Pow10(|Lost(d)|), Pow10(KeptScale(d)), Pow10(e));
  }

  lemma WidenedExactly(d: SqlNumeric.Written, scale: nat)
    requires AllDigits(KeptDigits(d)) && AllDigits(Lost(d)) && AllDigits(d.whole) && AllDigits(d.fraction)
    requires |d.fraction| <= MaxScale && KeptScale(d) <= scale
    ensures CutTo(Value(KeptDigits(d)) * Pow10(scale - KeptScale(d)), SqlNumeric.Mantissa(d), Pow10(|d.fraction|), Pow10(scale), LastUnit(scale))
  {
    hide Value, Pow10, KeptDigits, CutTo, SqlNumeric.Mantissa;
    var e := scale - KeptScale(d);
    MantissaSplits(d);
    UnitIsOne();
    NothingIs();
    assert Lost(d) == "";
    PowSum(KeptScale(d), e);
    ExactUnit(Value(KeptDigits(d)) * Pow10(e), SqlNumeric.Mantissa(d), Pow10(|d.fraction|), Pow10(scale), LastUnit(scale),
              Value(KeptDigits(d)), Pow10(KeptScale(d)), Pow10(e));
  }

  lemma Widened(d: SqlNumeric.Written, scale: nat)
    requires AllDigits(KeptDigits(d)) && AllDigits(Lost(d)) && AllDigits(d.whole) && AllDigits(d.fraction) && KeptScale(d) <= scale
    ensures var digits := KeptDigits(d) + Zeros(scale - KeptScale(d));
      AllDigits(digits) && CutTo(Value(digits), SqlNumeric.Mantissa(d), Pow10(|d.fraction|), Pow10(scale), LastUnit(scale))
  {
    hide Value, Pow10, KeptDigits, Lost, CutTo, SqlNumeric.Mantissa, LastUnit;
    KeptLength(d);
    MantissaSplits(d);
    AddedZeros(KeptDigits(d), scale - KeptScale(d));
    if |d.fraction| <= MaxScale { WidenedExactly(d, scale); } else { WidenedPast(d, scale); }
  }

  /** Nothing is lost when every digit is kept. */
  lemma ExactUnit(v: nat, m: nat, p: nat, q: nat, unit: nat, k: nat, s: nat, e: nat)
    requires v == k * e && m == k && p == s && q == s * e && unit > 0 && s > 0
    ensures CutTo(v, m, p, q, unit)
  {
    assert k * e * s == k * (s * e);
    assert (k * e + unit) * s == k * e * s + unit * s;
  }

  lemma Narrowed(d: SqlNumeric.Written, scale: nat)
    requires AllDigits(KeptDigits(d)) && AllDigits(Lost(d)) && AllDigits(d.whole) && AllDigits(d.fraction)
    requires scale < KeptScale(d) <= |KeptDigits(d)|
    ensures var digits := KeptDigits(d)[..|KeptDigits(d)| - (KeptScale(d) - scale)];
      AllDigits(digits) && CutTo(Value(digits), SqlNumeric.Mantissa(d), Pow10(|d.fraction|), Pow10(scale), LastUnit(scale))
  {
    hide Value, Pow10, KeptDigits, Lost, CutTo, SqlNumeric.Mantissa;
    var n := KeptScale(d) - scale;
    KeptLength(d);
    MantissaSplits(d);
    DropParts(KeptDigits(d), n);
    ValueIsBelow(Lost(d));
    PowSum(scale, n);
    PowSum(KeptScale(d), |Lost(d)|);
    UnitIsOne();
    var front, back := KeptDigits(d)[..|KeptDigits(d)| - n], KeptDigits(d)[|KeptDigits(d)| - n..];
    Lowered(Value(front), Value(back), Value(Lost(d)), Pow10(n), Pow10(|Lost(d)|), Pow10(scale));
  }

  lemma UnitIsOne()
    ensures Pow10(0) == 1
  {
  }

  // ---------------------------------------------------------------------------------------------
  // Precision
  // ---------------------------------------------------------------------------------------------

  lemma {:induction false} LeadingZeros(s: string)
    requires AllDigits(s)
    ensures var k := FirstNonZero(s); AllDigits(s[k..]) && Value(s) == Value(s[k..]) && (k < |s| ==> s[k] != '0')
    decreases |s|
  {
    hide Value;
    if s == "" || s[0] != '0' {
      assert s[0..] == s;
    } else {
      var k := FirstNonZero(s[1..]);
      LeadingZeros(s[1..]);
      assert s == Zeros(1) + s[1..] && s[1..][k..] == s[k + 1..];
      ZerosAreWorthless(1, s[1..]);
    }
  }

  /** A precision that holds a number: at least one digit, all its digits, and as many as follow the point. */
  predicate Holds(k: nat, n: nat, scale: int) { k >= 1 && k >= scale && n < Pow10(k) }

  /** The precision computed is the least that holds the number, or 38 if only more digits do. */
  lemma PrecisionIsLeast(p: Prepared, k: nat)
    requires AllDigits(p.digits)
    ensures 1 <= Precision(p, 0) <= MaxScale
    ensures k < MaxScale ==> (Holds(k, Value(p.digits), p.scale) <==> k >= Precision(p, 0))
  {
    hide Value, Pow10, FirstNonZero;
    var z := FirstNonZero(p.digits);
    LeadingZeros(p.digits);
    var rest := p.digits[z..];
    if rest == "" {
      NothingIs();
    } else {
      ValueIsBelow(rest);
      ValueIsAbove(rest);
      if k >= |rest| { PowGrows(|rest|, k); } else { PowGrows(k, |rest| - 1); }
    }
  }

  lemma NothingIs()
    ensures Value("") == 0
  {
  }

  // ---------------------------------------------------------------------------------------------
  // Scales below zero
  // ---------------------------------------------------------------------------------------------

  /** The text printed at a scale below zero, as a written decimal. */
  function PrintedWhole(n: nat, zeros: nat, sign: nat): SqlNumeric.Written {
    SqlNumeric.Written("", if n != 0 && sign == 0 then SqlNumeric.Minus else SqlNumeric.None,
                       if n == 0 then "0" else ToString(n) + Zeros(zeros), false, "", "")
  }

  /** At a scale below zero the text denotes the number times the power of ten. */
  lemma NegativeScaleDenotes(n: nat, zeros: nat, sign: nat)
    requires zeros > 0
    ensures var w := PrintedWhole(n, zeros, sign);
      SqlNumeric.WellFormed(w) && SqlNumeric.Text(w) == Print(n, -(zeros as int), sign) && SqlNumeric.Mantissa(w) == n * Pow10(zeros)
  {
    hide Value, Pow10, ToString;
    var w := PrintedWhole(n, zeros, sign);
    NoBlanks(SqlNumeric.SignText(w.sign), w.whole);
    NoBlanks("", w.whole);
    UnitIsOne();
    NothingIs();
    if n == 0 {
      ValueOfOne('0');
    } else {
      AddedZeros(ToString(n), zeros);
    }
  }
}
