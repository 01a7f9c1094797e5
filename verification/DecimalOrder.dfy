/** Comparing digit strings: which comparison of characters is the comparison of the numbers they denote. */
module DecimalOrder {
  import opened Decimal

  datatype Ordering = Less | Equal | Greater

  function Compare(a: int, b: int): Ordering { if a < b then Less else if a > b then Greater else Equal }

  /** Character by character; a proper prefix comes first. */
  function Lexicographic(a: string, b: string): Ordering {
    if a == "" && b == "" then Equal
    else if a == "" then Less
    else if b == "" then Greater
    else if a[0] != b[0] then (if a[0] < b[0] then Less else Greater)
    else Lexicographic(a[1..], b[1..])
  }

  function TrimLeading(s: string): (r: string)
    ensures |r| <= |s|
  {
    if |s| > 1 && s[0] == '0' then TrimLeading(s[1..]) else s
  }

  function TrimTrailing(s: string): (r: string)
    ensures r <= s
  {
    if s != "" && s[|s| - 1] == '0' then TrimTrailing(s[..|s| - 1]) else s
  }

  function Zeros(n: nat): (r: string)
    ensures |r| == n && AllDigits(r)
  {
    seq(n, _ => '0')
  }

  // Values of digit strings.

  lemma PowSum(m: nat, n: nat)
    ensures Pow10(m + n) == Pow10(m) * Pow10(n)
  {
    if m > 0 {
      PowSum(m - 1, n);
      assert Pow10(m + n) == 10 * (Pow10(m - 1) * Pow10(n)) == (10 * Pow10(m - 1)) * Pow10(n);
    }
  }

  lemma {:induction false} ValueOfJoin(a: string, b: string)
    requires AllDigits(a) && AllDigits(b)
    ensures AllDigits(a + b) && Value(a + b) == Value(a) * Pow10(|b|) + Value(b)
    decreases |b|
  {
    if b == "" {
      assert a + b == a;
    } else {
      var front := b[..|b| - 1];
      ValueOfJoin(a, front);
      assert (a + b)[..|a + b| - 1] == a + front;
      TimesTen(Value(a), Pow10(|front|));
    }
  }

  lemma TimesTen(x: int, p: int)
    ensures x * (10 * p) == x * p * 10
  {
  }

  lemma ValueOfOne(c: char)
    requires IsDigit(c)
    ensures AllDigits([c]) && Value([c]) == DigitValue(c)
  {
    assert [c][..0] == "";
  }

  lemma ValueOfCons(s: string)
    requires AllDigits(s) && s != ""
    ensures Value(s) == DigitValue(s[0]) * Pow10(|s| - 1) + Value(s[1..])
  {
    assert [s[0]] + s[1..] == s;
    ValueOfOne(s[0]);
    ValueOfJoin([s[0]], s[1..]);
  }

  lemma {:induction false} ValueIsBelow(s: string)
    requires AllDigits(s)
    ensures Value(s) < Pow10(|s|)
    decreases |s|
  {
    if s != "" {
      ValueIsBelow(s[..|s| - 1]);
    }
  }

  lemma ValueIsAbove(s: string)
    requires AllDigits(s) && s != "" && s[0] != '0'
    ensures Value(s) >= Pow10(|s| - 1)
  {
    ValueOfCons(s);
    AtLeastOne(DigitValue(s[0]), Pow10(|s| - 1));
  }

  lemma AtLeastOne(d: nat, p: nat)
    requires d >= 1
    ensures d * p >= p
  {
  }

  lemma PowGrows(m: nat, n: nat)
    requires m <= n
    ensures Pow10(m) <= Pow10(n)
  {
  }

  lemma {:induction false} TrimLeadingKeepsValue(s: string)
    requires AllDigits(s)
    ensures AllDigits(TrimLeading(s)) && Value(TrimLeading(s)) == Value(s)
    ensures s != "" ==> TrimLeading(s) != ""
    ensures |TrimLeading(s)| > 1 ==> TrimLeading(s)[0] != '0'
    decreases |s|
  {
    if |s| > 1 && s[0] == '0' {
      ValueOfCons(s);
      TrimLeadingKeepsValue(s[1..]);
    }
  }

  lemma {:induction false} TrimTrailingScales(s: string)
    requires AllDigits(s)
    ensures AllDigits(TrimTrailing(s)) && Value(s) == Value(TrimTrailing(s)) * Pow10(|s| - |TrimTrailing(s)|)
    ensures TrimTrailing(s) != "" ==> TrimTrailing(s)[|TrimTrailing(s)| - 1] != '0'
    decreases |s|
  {
    if s != "" && s[|s| - 1] == '0' {
      var front := s[..|s| - 1];
      TrimTrailingScales(front);
      TimesTen(Value(TrimTrailing(s)), Pow10(|front| - |TrimTrailing(s)|));
    }
  }

  lemma ZerosAreWorthless(n: nat, s: string)
    requires AllDigits(s)
    ensures Value(Zeros(n) + s) == Value(s) && Value(Zeros(n)) == 0
  {
    ValueOfJoin(Zeros(n), s);
    NoValue(n);
  }

  lemma NoValue(n: nat)
    ensures Value(Zeros(n)) == 0
  {
    if n > 0 {
      assert Zeros(n)[..n - 1] == Zeros(n - 1);
      NoValue(n - 1);
    }
  }

  // Order.

  predicate NoTrailingZero(s: string) { s == "" || s[|s| - 1] != '0' }

  lemma LastDigitCounts(s: string)
    requires AllDigits(s) && s != "" && NoTrailingZero(s)
    ensures Value(s) > 0
  {
  }

  /** The longer of two integers without leading zeros is the greater. */
  lemma LongerIsGreater(a: string, b: string)
    requires AllDigits(a) && AllDigits(b) && 1 <= |a| < |b| && b[0] != '0'
    ensures Value(a) < Value(b)
  {
    ValueIsBelow(a);
    ValueIsAbove(b);
    PowGrows(|a|, |b| - 1);
  }

  /** `a` read as digits after the point, in units of ten to the minus `n`. */
  function Scaled(a: string, n: nat): nat
    requires AllDigits(a) && |a| <= n
  {
    Value(a) * Pow10(n - |a|)
  }

  lemma ScaledOfCons(a: string, n: nat)
    requires AllDigits(a) && a != "" && |a| <= n
    ensures AllDigits(a[1..]) && Scaled(a, n) == DigitValue(a[0]) * Pow10(n - 1) + Scaled(a[1..], n - 1)
  {
    hide Value, Pow10;
    ValueOfCons(a);
    PowSum(|a| - 1, n - |a|);
    Distribute(DigitValue(a[0]), Pow10(|a| - 1), Value(a[1..]), Pow10(n - |a|));
  }

  lemma Distribute(d: int, p: int, v: int, q: int)
    ensures (d * p + v) * q == d * (p * q) + v * q
  {
  }

  lemma ScaledIsBelow(a: string, n: nat)
    requires AllDigits(a) && |a| <= n
    ensures Scaled(a, n) < Pow10(n)
  {
    ValueIsBelow(a);
    PowSum(|a|, n - |a|);
    Below(Value(a), Pow10(|a|), Pow10(n - |a|));
  }

  lemma Below(v: nat, p: nat, q: nat)
    requires v < p && q > 0
    ensures v * q < p * q
  {
  }

  /** Digits of a higher place decide. */
  lemma HigherPlaceDecides(d: nat, e: nat, p: nat, x: nat, y: nat)
    requires x < p && y < p && d < e
    ensures d * p + x < e * p + y
  {
    assert (d + 1) * p <= e * p;
  }

  /** Lexicographic order is numeric order for strings of one length and for fractions without trailing zeros. */
  lemma {:induction false} LexicographicIsNumeric(a: string, b: string, n: nat)
    requires AllDigits(a) && AllDigits(b) && |a| <= n && |b| <= n
    requires |a| == |b| || (NoTrailingZero(a) && NoTrailingZero(b))
    ensures Lexicographic(a, b) == Compare(Scaled(a, n), Scaled(b, n))
    decreases n
  {
    if a == "" && b == "" {
    } else if a == "" {
      LastDigitCounts(b);
      AtLeastOne(Value(b), Pow10(n - |b|));
    } else if b == "" {
      LastDigitCounts(a);
      AtLeastOne(Value(a), Pow10(n - |a|));
    } else {
      ScaledOfCons(a, n);
      ScaledOfCons(b, n);
      ScaledIsBelow(a[1..], n - 1);
      ScaledIsBelow(b[1..], n - 1);
      if a[0] == b[0] {
        LexicographicIsNumeric(a[1..], b[1..], n - 1);
      } else if a[0] < b[0] {
        HigherPlaceDecides(DigitValue(a[0]), DigitValue(b[0]), Pow10(n - 1), Scaled(a[1..], n - 1), Scaled(b[1..], n - 1));
      } else {
        HigherPlaceDecides(DigitValue(b[0]), DigitValue(a[0]), Pow10(n - 1), Scaled(b[1..], n - 1), Scaled(a[1..], n - 1));
      }
    }
  }

  function WholeOrder(a: string, b: string): Ordering {
    if |a| != |b| then (if |a| < |b| then Less else Greater) else Lexicographic(a, b)
  }

  lemma WholeOrderIsNumeric(a: string, b: string)
    requires AllDigits(a) && AllDigits(b) && a != "" && b != ""
    requires (|a| > 1 ==> a[0] != '0') && (|b| > 1 ==> b[0] != '0')
    ensures WholeOrder(a, b) == Compare(Value(a), Value(b))
  {
    if |a| < |b| { LongerIsGreater(a, b); }
    else if |b| < |a| { LongerIsGreater(b, a); }
    else { LexicographicIsNumeric(a, b, |a|); }
  }

  /** The order of `Value(w).Value(f)`, digits after the point in units of ten to the minus `n`. */
  lemma OrderOfParts(w: nat, f: nat, v: nat, g: nat, p: nat)
    requires f < p && g < p
    ensures Compare(w * p + f, v * p + g) == if w != v then Compare(w, v) else Compare(f, g)
  {
    if w < v { HigherPlaceDecides(w, v, p, f, g); }
    if v < w { HigherPlaceDecides(v, w, p, g, f); }
  }

  /** Dropping the last digits cuts to a whole number of what is left. */
  lemma Floor(a: nat, b: nat, p: nat, q: nat)
    requires b < p && q > 0
    ensures a * (q * p) <= (a * p + b) * q < (a + 1) * (q * p)
  {
    assert (a * p + b) * q == a * (q * p) + b * q;
    assert (a + 1) * (q * p) == a * (q * p) + p * q;
    Below(b, p, q);
  }
}
