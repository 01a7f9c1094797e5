/** Exact decimals kept as text: how a string is taken in, and the order of two of them. */
module SqlNumeric {
  import opened Decimal
  import opened DecimalOrder

  /** `precision` is a uint8 and `scale` an int8; both wrap around for very long texts. */
  datatype Numeric = Numeric(value: string, precision: nat, scale: int, isNegative: bool)

  const Zero := Numeric("0", 1, 0, false)

  predicate IsSpace(c: char) { c == ' ' || '\t' <= c <= '\r' }

  function Int8(n: nat): int { if n % 256 < 128 then n % 256 else n % 256 - 256 }

  function TrimFront(s: string): (r: string)
    ensures |r| <= |s|
  {
    if s != "" && IsSpace(s[0]) then TrimFront(s[1..]) else s
  }

  function TrimBack(s: string): (r: string)
    ensures |r| <= |s|
  {
    if s != "" && IsSpace(s[|s| - 1]) then TrimBack(s[..|s| - 1]) else s
  }

  predicate HasDigit(s: string) { exists i :: 0 <= i < |s| && IsDigit(s[i]) }

  predicate AllZero(s: string) { forall i :: 0 <= i < |s| && IsDigit(s[i]) ==> s[i] == '0' }

  /** The place of the first point, or the length. */
  function Point(s: string): (k: nat)
    ensures k <= |s|
    ensures k < |s| ==> s[k] == '.'
    ensures forall i :: 0 <= i < k ==> s[i] != '.'
  {
    if s == "" || s[0] == '.' then 0 else 1 + Point(s[1..])
  }

  function Assign(str: string): Numeric {
    var s := TrimBack(TrimFront(str));
    if s == "" then Zero
    else
      var t := if s[0] == '+' then s[1..] else s;
      if !HasDigit(t) then Zero
      else
        var negative, dot := s[0] == '-', Point(t);
        var marks := (if negative then 1 else 0) + (if dot < |t| then 1 else 0);
        Numeric(if AllZero(t) && t[0] == '-' then t[1..] else t,
                (if |t| >= marks then |t| - marks else 0) % 256,
                if dot < |t| then Int8(|t| - dot - 1) else 0,
                negative && !AllZero(t))
  }

  method Search(s: string) returns (hasDigit: bool, allZero: bool)
    ensures hasDigit == HasDigit(s) && allZero == AllZero(s)
  {
    hasDigit, allZero := false, true;
    for i := 0 to |s|
      invariant hasDigit == HasDigit(s[..i])
      invariant allZero == AllZero(s[..i])
    {
      assert s[..i + 1] == s[..i] + [s[i]];
      if IsDigit(s[i]) {
        assert s[..i + 1][i] == s[i];
        hasDigit := true;
        if s[i] != '0' { allZero := false; }
      }
    }
    assert s[..|s|] == s;
  }

  /** `assign_string`. */
  method AssignString(str: string) returns (n: Numeric)
    ensures n == Assign(str)
  {
    var s := str;
    while s != "" && IsSpace(s[0])
      invariant TrimFront(s) == TrimFront(str)
      decreases |s|
    {
      s := s[1..];
    }
    while s != "" && IsSpace(s[|s| - 1])
      invariant TrimBack(s) == TrimBack(TrimFront(str))
      decreases |s|
    {
      s := s[..|s| - 1];
    }
    if s == "" { return Zero; }
    var negative := s[0] == '-';
    if s[0] == '+' { s := s[1..]; }
    var hasDigit, allZero := Search(s);
    if !hasDigit { return Zero; }
    var dot := Point(s);
    var marks := (if negative then 1 else 0) + (if dot < |s| then 1 else 0);
    n := Numeric(s, (if |s| >= marks then |s| - marks else 0) % 256, if dot < |s| then Int8(|s| - dot - 1) else 0, negative);
    if allZero {
      n := n.(isNegative := false);
      if n.value[0] == '-' { n := n.(value := n.value[1..]); }
    }
  }

  function Unsigned(v: string): string { if v != "" && (v[0] == '-' || v[0] == '+') then v[1..] else v }

  function Whole(v: string): string { v[..Point(v)] }

  function Fraction(v: string): string { if Point(v) < |v| then v[Point(v) + 1..] else "" }

  function NoLeadingZeros(s: string): string { if TrimLeading(s) == "" then "0" else TrimLeading(s) }

  function Magnitudes(v: string, w: string): Ordering {
    var a, b := Unsigned(v), Unsigned(w);
    var i, j := NoLeadingZeros(Whole(a)), NoLeadingZeros(Whole(b));
    if |i| != |j| then (if |i| < |j| then Less else Greater)
    else if i != j then Lexicographic(i, j)
    else Lexicographic(TrimTrailing(Fraction(a)), TrimTrailing(Fraction(b)))
  }

  method TrimLeadingZeros(s: string) returns (r: string)
    ensures r == NoLeadingZeros(s)
  {
    r := s;
    while |r| > 1 && r[0] == '0'
      invariant TrimLeading(r) == TrimLeading(s)
    {
      r := r[1..];
    }
    if r == "" { r := "0"; }
  }

  method TrimTrailingZeros(s: string) returns (r: string)
    ensures r == TrimTrailing(s)
  {
    r := s;
    while r != "" && r[|r| - 1] == '0'
      invariant TrimTrailing(r) == TrimTrailing(s)
      decreases |r|
    {
      r := r[..|r| - 1];
    }
  }

  /** `compare_magnitudes`. */
  method CompareMagnitudes(v: string, w: string) returns (r: Ordering)
    ensures r == Magnitudes(v, w)
  {
    var a, b := Unsigned(v), Unsigned(w);
    var i := TrimLeadingZeros(Whole(a));
    var j := TrimLeadingZeros(Whole(b));
    if |i| != |j| { return if |i| < |j| then Less else Greater; }
    if i != j { return Lexicographic(i, j); }
    var f := TrimTrailingZeros(Fraction(a));
    var g := TrimTrailingZeros(Fraction(b));
    var common := if |f| <= |g| then |f| else |g|;
    var k := 0;
    while k < common
      invariant k <= common
      invariant Lexicographic(f[k..], g[k..]) == Lexicographic(f, g)
    {
      if f[k] != g[k] { return if f[k] < g[k] then Less else Greater; }
      assert f[k..][1..] == f[k + 1..] && g[k..][1..] == g[k + 1..];
      k := k + 1;
    }
    return if |f| < |g| then Less else if |f| > |g| then Greater else Equal;
  }

  function Reverse(o: Ordering): Ordering { if o == Less then Greater else if o == Greater then Less else Equal }

  /** `operator<=>`. */
  function Order(m: Numeric, n: Numeric): Ordering {
    if AllZero(m.value) && AllZero(n.value) then Equal
    else if AllZero(m.value) then (if n.isNegative then Greater else Less)
    else if AllZero(n.value) then (if m.isNegative then Less else Greater)
    else if m.isNegative != n.isNegative then (if m.isNegative then Less else Greater)
    else if m.isNegative then Reverse(Magnitudes(m.value, n.value))
    else Magnitudes(m.value, n.value)
  }

  // ---------------------------------------------------------------------------------------------
  // The order is the order of the rationals
  // ---------------------------------------------------------------------------------------------

  datatype Sign = None | Plus | Minus

  /** A decimal as it may be written: blanks around it, a sign, and a digit before or after the point. */
  datatype Written = Written(lead: string, sign: Sign, whole: string, dot: bool, fraction: string, trail: string)

  ghost predicate WellFormed(d: Written) {
    && (forall i :: 0 <= i < |d.lead| ==> IsSpace(d.lead[i]))
    && (forall i :: 0 <= i < |d.trail| ==> IsSpace(d.trail[i]))
    && AllDigits(d.whole) && AllDigits(d.fraction)
    && (d.whole != "" || d.fraction != "")
    && (!d.dot ==> d.fraction == "")
  }

  function SignText(s: Sign): string { match s case None => "" case Plus => "+" case Minus => "-" }

  function Body(d: Written): string { d.whole + (if d.dot then "." + d.fraction else "") }

  function Text(d: Written): string { d.lead + (SignText(d.sign) + Body(d)) + d.trail }

  /** The digits without the point, a number in units of ten to the minus length of the fraction. */
  function Mantissa(d: Written): nat
    requires AllDigits(d.whole) && AllDigits(d.fraction)
  {
    Value(d.whole) * Pow10(|d.fraction|) + Value(d.fraction)
  }

  /** The number a decimal denotes. */
  ghost function Amount(d: Written): real
    requires WellFormed(d)
  {
    var m := Mantissa(d) as real / Pow10(|d.fraction|) as real;
    if d.sign == Minus then -m else m
  }

  lemma {:induction false} TrimFrontDrops(lead: string, rest: string)
    requires forall i :: 0 <= i < |lead| ==> IsSpace(lead[i])
    requires rest != "" && !IsSpace(rest[0])
    ensures TrimFront(lead + rest) == rest
    decreases |lead|
  {
    if lead == "" {
      assert lead + rest == rest;
    } else {
      assert (lead + rest)[1..] == lead[1..] + rest;
      TrimFrontDrops(lead[1..], rest);
    }
  }

  lemma {:induction false} TrimBackDrops(rest: string, trail: string)
    requires forall i :: 0 <= i < |trail| ==> IsSpace(trail[i])
    requires rest != "" && !IsSpace(rest[|rest| - 1])
    ensures TrimBack(rest + trail) == rest
    decreases |trail|
  {
    if trail == "" {
      assert rest + trail == rest;
    } else {
      var front := trail[..|trail| - 1];
      assert (rest + trail)[..|rest + trail| - 1] == rest + front;
      TrimBackDrops(rest, front);
    }
  }

  predicate IsBodyChar(c: char) { IsDigit(c) || c == '.' }

  lemma BodyParts(d: Written)
    requires WellFormed(d)
    ensures var b, n := Body(d), |d.whole|;
      && |b| == n + (if d.dot then 1 + |d.fraction| else 0)
      && (forall i :: 0 <= i < n ==> b[i] == d.whole[i])
      && (d.dot ==> b[n] == '.' && forall i :: n < i < |b| ==> b[i] == d.fraction[i - n - 1])
      && b[..n] == d.whole && (d.dot ==> b[n + 1..] == d.fraction)
  {
    var b := Body(d);
    assert b[..|d.whole|] == d.whole;
    assert d.dot ==> b[|d.whole| + 1..] == d.fraction;
  }

  lemma BodyIsCut(d: Written)
    requires WellFormed(d)
    ensures Whole(Body(d)) == d.whole && Fraction(Body(d)) == d.fraction
  {
    hide Body;
    BodyParts(d);
    assert Point(Body(d)) == |d.whole|;
  }

  lemma BodyDigits(d: Written)
    requires WellFormed(d)
    ensures var b := Body(d);
      b != "" && (forall i :: 0 <= i < |b| ==> IsBodyChar(b[i])) && HasDigit(b) && (AllZero(b) <==> AllZero(d.whole) && AllZero(d.fraction))
  {
    hide Body;
    BodyParts(d);
    var b, n := Body(d), |d.whole|;
    if d.whole != "" { assert IsDigit(b[0]); } else { assert IsDigit(b[1]); }
    assert forall i :: 0 <= i < |d.fraction| ==> d.fraction[i] == b[n + 1 + i];
  }

  lemma BodyShape(d: Written)
    requires WellFormed(d)
    ensures var b := Body(d);
      && b != "" && (forall i :: 0 <= i < |b| ==> IsBodyChar(b[i])) && HasDigit(b)
      && Whole(b) == d.whole && Fraction(b) == d.fraction
      && (AllZero(b) <==> AllZero(d.whole) && AllZero(d.fraction))
  {
    hide Body, HasDigit, AllZero, Whole, Fraction;
    BodyIsCut(d);
    BodyDigits(d);
  }

  lemma BlanksGo(d: Written)
    requires WellFormed(d)
    ensures TrimBack(TrimFront(Text(d))) == SignText(d.sign) + Body(d)
  {
    hide TrimFront, TrimBack, Body;
    var b, signed := Body(d), SignText(d.sign) + Body(d);
    BodyShape(d);
    assert signed[|signed| - 1] == b[|b| - 1];
    assert d.sign == None ==> signed[0] == b[0];
    assert d.lead + signed + d.trail == d.lead + (signed + d.trail);
    TrimFrontDrops(d.lead, signed + d.trail);
    TrimBackDrops(signed, d.trail);
  }

  lemma MinusIsNoDigit(b: string)
    ensures AllZero("-" + b) <==> AllZero(b)
    ensures HasDigit(b) ==> HasDigit("-" + b)
    ensures ("-" + b)[1..] == b && ("+" + b)[1..] == b && "" + b == b
  {
    var s := "-" + b;
    assert forall i :: 0 <= i < |b| ==> s[i + 1] == b[i];
    assert forall i :: 0 < i < |s| ==> s[i] == b[i - 1];
    if HasDigit(b) {
      var i :| 0 <= i < |b| && IsDigit(b[i]);
      assert IsDigit(s[i + 1]);
    }
  }

  /** What is stored for a decimal: its digits and point, and a minus sign unless it is zero. */
  lemma AssignKeepsDigits(d: Written)
    requires WellFormed(d)
    ensures var n := Assign(Text(d)); var minus := d.sign == Minus && !AllZero(Body(d));
      n.value == (if minus then "-" else "") + Body(d) && n.isNegative == minus
  {
    hide TrimFront, TrimBack, Body, Text, HasDigit, AllZero, Point, Whole, Fraction;
    BlanksGo(d);
    BodyShape(d);
    MinusIsNoDigit(Body(d));
  }

  lemma {:induction false} AllZeroIsZero(s: string)
    requires AllDigits(s)
    ensures AllZero(s) <==> Value(s) == 0
    decreases |s|
  {
    if s != "" {
      var front := s[..|s| - 1];
      AllZeroIsZero(front);
      assert forall i :: 0 <= i < |front| ==> s[i] == front[i];
    }
  }

  lemma ZeroBody(d: Written)
    requires WellFormed(d)
    ensures AllZero(Body(d)) <==> Mantissa(d) == 0
  {
    BodyShape(d);
    AllZeroIsZero(d.whole);
    AllZeroIsZero(d.fraction);
    ZeroSum(Value(d.whole), Pow10(|d.fraction|), Value(d.fraction));
  }

  lemma ZeroSum(a: nat, p: nat, b: nat)
    requires p > 0
    ensures a * p + b == 0 <==> a == 0 && b == 0
  {
  }

  /** The fraction in units of ten to the minus `n`, with or without its trailing zeros. */
  lemma ScaledWithoutZeros(f: string, n: nat)
    requires AllDigits(f) && |f| <= n
    ensures AllDigits(TrimTrailing(f)) && NoTrailingZero(TrimTrailing(f))
    ensures Scaled(f, n) == Scaled(TrimTrailing(f), n)
  {
    hide Value, Pow10, TrimTrailing;
    TrimTrailingScales(f);
    var t := TrimTrailing(f);
    PowSum(|f| - |t|, n - |f|);
    Reassociate(Value(t), Pow10(|f| - |t|), Pow10(n - |f|));
  }

  lemma Reassociate(a: int, p: int, q: int)
    ensures a * p * q == a * (p * q)
  {
  }

  lemma WholeDigits(w: string)
    requires AllDigits(w)
    ensures var t := NoLeadingZeros(w);
      AllDigits(t) && t != "" && (|t| > 1 ==> t[0] != '0') && Value(t) == Value(w)
  {
    TrimLeadingKeepsValue(w);
    ValueOfOne('0');
  }

  /** Both mantissas in the same unit. */
  lemma CommonUnit(d: Written, n: nat)
    requires AllDigits(d.whole) && AllDigits(d.fraction) && |d.fraction| <= n
    ensures Mantissa(d) * Pow10(n - |d.fraction|) == Value(d.whole) * Pow10(n) + Scaled(d.fraction, n)
  {
    hide Value, Pow10;
    PowSum(|d.fraction|, n - |d.fraction|);
    Distribute(Value(d.whole), Pow10(|d.fraction|), Value(d.fraction), Pow10(n - |d.fraction|));
  }

  lemma MagnitudesAreNumeric(d: Written, e: Written)
    requires WellFormed(d) && WellFormed(e)
    ensures Magnitudes(Body(d), Body(e)) == Compare(Mantissa(d) * Pow10(|e.fraction|), Mantissa(e) * Pow10(|d.fraction|))
  {
    hide Body, Value, Pow10, TrimTrailing, NoLeadingZeros, Whole, Fraction, Mantissa, Scaled, Lexicographic, HasDigit;
    var n := |d.fraction| + |e.fraction|;
    BodyShape(d);
    BodyShape(e);
    CommonUnit(d, n);
    CommonUnit(e, n);
    WholeDigits(d.whole);
    WholeDigits(e.whole);
    WholeOrderIsNumeric(NoLeadingZeros(d.whole), NoLeadingZeros(e.whole));
    LexicographicSelf(NoLeadingZeros(d.whole));
    ScaledIsBelow(d.fraction, n);
    ScaledIsBelow(e.fraction, n);
    OrderOfParts(Value(d.whole), Scaled(d.fraction, n), Value(e.whole), Scaled(e.fraction, n), Pow10(n));
    ScaledWithoutZeros(d.fraction, n);
    ScaledWithoutZeros(e.fraction, n);
    LexicographicIsNumeric(TrimTrailing(d.fraction), TrimTrailing(e.fraction), n);
    SameValueSameDigits(NoLeadingZeros(d.whole), NoLeadingZeros(e.whole));
  }

  lemma LexicographicSelf(a: string)
    ensures Lexicographic(a, a) == Equal
  {
  }

  lemma {:induction false} LexicographicEqual(a: string, b: string)
    ensures Lexicographic(a, b) == Equal <==> a == b
    decreases |a|
  {
    if a != "" && b != "" && a[0] == b[0] {
      LexicographicEqual(a[1..], b[1..]);
      assert a == [a[0]] + a[1..] && b == [b[0]] + b[1..];
    }
  }

  lemma SameValueSameDigits(a: string, b: string)
    ensures WholeOrder(a, b) == Equal <==> a == b
  {
    LexicographicEqual(a, b);
  }

  lemma CrossMultiply(m: nat, p: nat, n: nat, q: nat)
    requires p > 0 && q > 0
    ensures var x, y := m as real / p as real, n as real / q as real;
      (m * q < n * p <==> x < y) && (m * q > n * p <==> x > y)
  {
    var x, y := m as real / p as real, n as real / q as real;
    var pq := p as real * q as real;
    assert (m * q) as real == m as real * q as real && (n * p) as real == n as real * p as real;
    assert x * p as real == m as real && y * q as real == n as real;
    assert (m * q) as real == x * pq by { assert x * pq == x * p as real * q as real; }
    assert (n * p) as real == y * pq by { assert y * pq == y * q as real * p as real; }
    Scale(x, y, pq);
  }

  lemma Scale(x: real, y: real, k: real)
    requires k > 0.0
    ensures x < y <==> x * k < y * k
    ensures x > y <==> x * k > y * k
  {
  }

  ghost function CompareReals(x: real, y: real): Ordering { if x < y then Less else if x > y then Greater else Equal }

  /** `operator<=>` on any two written decimals is the order of the numbers they denote. */
  lemma OrderIsExact(d: Written, e: Written)
    requires WellFormed(d) && WellFormed(e)
    ensures Order(Assign(Text(d)), Assign(Text(e))) == CompareReals(Amount(d), Amount(e))
  {
    hide Assign, Text, Body, Mantissa, Pow10, Magnitudes, WellFormed, HasDigit;
    StoredForm(d);
    StoredForm(e);
    UnsignedForm(d, e);
    MagnitudesAreNumeric(d, e);
    SignOfRatio(Mantissa(d), Pow10(|d.fraction|));
    SignOfRatio(Mantissa(e), Pow10(|e.fraction|));
    Digits(d);
    Digits(e);
    CrossMultiply(Mantissa(d), Pow10(|d.fraction|), Mantissa(e), Pow10(|e.fraction|));
  }

  lemma Digits(d: Written)
    requires WellFormed(d)
    ensures AllDigits(d.whole) && AllDigits(d.fraction)
  {
  }

  lemma SignOfRatio(m: nat, p: nat)
    requires p > 0
    ensures m == 0 <==> m as real / p as real == 0.0
    ensures m as real / p as real >= 0.0
  {
  }

  lemma SignedBody(d: Written)
    requires WellFormed(d)
    ensures Unsigned("-" + Body(d)) == Body(d) && Unsigned("" + Body(d)) == Body(d)
    ensures AllZero("-" + Body(d)) <==> AllZero(Body(d))
    ensures "" + Body(d) == Body(d)
  {
    hide Body, HasDigit, AllZero, Point, Whole, Fraction;
    BodyShape(d);
    MinusIsNoDigit(Body(d));
  }

  lemma StoredForm(d: Written)
    requires WellFormed(d)
    ensures AllDigits(d.whole) && AllDigits(d.fraction)
    ensures var n := Assign(Text(d));
      && n.isNegative == (d.sign == Minus && Mantissa(d) != 0)
      && (AllZero(n.value) <==> Mantissa(d) == 0)
      && Unsigned(n.value) == Body(d)
  {
    hide Assign, Text, Body, HasDigit, AllZero, Point, Whole, Fraction;
    AssignKeepsDigits(d);
    ZeroBody(d);
    Digits(d);
    SignedBody(d);
  }

  lemma UnsignedForm(d: Written, e: Written)
    requires WellFormed(d) && WellFormed(e)
    requires Unsigned(Assign(Text(d)).value) == Body(d) && Unsigned(Assign(Text(e)).value) == Body(e)
    ensures Magnitudes(Assign(Text(d)).value, Assign(Text(e)).value) == Magnitudes(Body(d), Body(e))
  {
    hide Assign, Text, Body, HasDigit, AllZero;
    BodyShape(d);
    BodyShape(e);
    assert Unsigned(Body(d)) == Body(d) && Unsigned(Body(e)) == Body(e);
  }

  /** Hence two decimals are equal to `operator==` exactly when they denote the same number, and the order is total. */
  lemma OrderIsTotal(d: Written, e: Written, f: Written)
    requires WellFormed(d) && WellFormed(e) && WellFormed(f)
    ensures var x, y, z := Assign(Text(d)), Assign(Text(e)), Assign(Text(f));
      && (Order(x, y) == Equal <==> Amount(d) == Amount(e))
      && Order(y, x) == Reverse(Order(x, y))
      && (Order(x, y) != Greater && Order(y, z) != Greater ==> Order(x, z) != Greater)
  {
    hide Order, Assign, Text, Amount, WellFormed;
    OrderIsExact(d, e);
    OrderIsExact(e, d);
    OrderIsExact(e, f);
    OrderIsExact(d, f);
  }
}
