/** The 128-bit little-endian numeric of ODBC: decimal text in by repeated multiplication, out by repeated division. */
module NumericStruct {
  import opened Values
  import opened Decimal
  import opened DecimalOrder
  import SqlNumeric

  const Bytes: nat := 16

  /** `sign` is 1 for plus and 0 for minus. */
  datatype Struct = Struct(precision: nat, scale: int, sign: nat, val: seq<byte>)

  function Pow256(n: nat): (p: nat)
    ensures p > 0
  {
    if n == 0 then 1 else 256 * Pow256(n - 1)
  }

  /** The number in little-endian base 256. */
  function Number(s: seq<byte>): nat { if s == [] then 0 else s[0] as nat + 256 * Number(s[1..]) }

  lemma {:induction false} NumberSnoc(s: seq<byte>, b: byte)
    ensures Number(s + [b]) == Number(s) + b as nat * Pow256(|s|)
    decreases |s|
  {
    if s == [] {
      assert s + [b] == [b] && [b][1..] == [];
    } else {
      assert (s + [b])[1..] == s[1..] + [b];
      NumberSnoc(s[1..], b);
      Shift(b as nat, Pow256(|s| - 1));
    }
  }

  lemma Shift(b: nat, p: nat)
    ensures 256 * (b * p) == b * (256 * p)
  {
  }

  lemma {:induction false} NumberFits(s: seq<byte>)
    ensures Number(s) < Pow256(|s|)
    ensures Number(s) == 0 <==> forall i :: 0 <= i < |s| ==> s[i] == 0
    decreases |s|
  {
    if s != [] {
      NumberFits(s[1..]);
      assert forall i :: 0 < i < |s| ==> s[i] == s[1..][i - 1];
    }
  }

  // ---------------------------------------------------------------------------------------------
  // Arithmetic in place
  // ---------------------------------------------------------------------------------------------

  /** `low` and the carry above it are `before` times ten plus a digit. */
  ghost predicate Multiplied(low: seq<byte>, carry: nat, before: seq<byte>, digit: nat) {
    |low| == |before| && Number(low) + carry * Pow256(|low|) == Number(before) * 10 + digit
  }

  /** One digit more: the value times ten plus the digit, in as many bytes as there are. */
  method MultiplyAdd(val: array<byte>, digit: nat)
    requires digit < 10
    modifies val
    ensures Number(val[..]) == (Number(old(val[..])) * 10 + digit) % Pow256(val.Length)
  {
    hide Number, Pow256, Multiplied;
    ghost var was := val[..];
    var carry := digit;
    var i := 0;
    NothingMultiplied(digit);
    assert was[..0] == [] && val[..0] == [];
    while i < val.Length
      invariant i <= val.Length && 0 <= carry < 256
      invariant forall k :: i <= k < val.Length ==> val[k] == was[k]
      invariant Multiplied(val[..i], carry, was[..i], digit)
    {
      var cur: int := val[i] * 10 + carry;
      ghost var low := val[..i];
      val[i] := cur % 256;
      assert was[..i + 1] == was[..i] + [was[i]] && val[..i + 1] == low + [cur % 256];
      MultiplyByte(low, was[..i], was[i], carry, digit);
      carry := cur / 256;
      i := i + 1;
    }
    assert val[..i] == val[..] && was[..i] == was;
    CarryIsLost(val[..], carry, was, digit);
  }

  lemma NothingMultiplied(digit: nat)
    ensures Multiplied([], digit, [], digit)
  {
  }

  lemma CarryIsLost(low: seq<byte>, carry: nat, before: seq<byte>, digit: nat)
    requires Multiplied(low, carry, before, digit)
    ensures Number(low) == (Number(before) * 10 + digit) % Pow256(|low|)
  {
    NumberFits(low);
    RemainderIs(Number(before) * 10 + digit, carry, Pow256(|low|), Number(low));
  }

  lemma MultiplyByte(low: seq<byte>, before: seq<byte>, b: byte, carry: nat, digit: nat)
    requires Multiplied(low, carry, before, digit)
    ensures var cur := b * 10 + carry; Multiplied(low + [cur % 256], cur / 256, before + [b], digit)
  {
    hide Number, Pow256;
    var cur := b * 10 + carry;
    NumberSnoc(before, b);
    NumberSnoc(low, cur % 256);
    PowStep(|low|);
    CarryOn(Number(low), Number(before), b, carry, digit, cur % 256, cur / 256, Pow256(|low|));
  }

  lemma PowStep(n: nat)
    ensures Pow256(n + 1) == 256 * Pow256(n)
  {
  }

  lemma CarryOn(low: nat, before: nat, b: nat, carry: nat, digit: nat, rest: nat, next: nat, p: nat)
    requires low + carry * p == before * 10 + digit
    requires b * 10 + carry == next * 256 + rest
    ensures low + rest * p + next * (256 * p) == (before + b * p) * 10 + digit
  {
    assert (next * 256 + rest) * p == (b * 10 + carry) * p;
    assert next * 256 * p + rest * p == b * 10 * p + carry * p;
  }

  lemma RemainderIs(x: nat, q: nat, m: nat, r: nat)
    requires m > 0 && r < m && r + q * m == x
    ensures x % m == r
  {
    var k, d := q - x / m, x % m - r;
    assert k * m == q * m - x / m * m == d;
    if k >= 1 { MultipleGrows(k, m); }
    if k <= -1 { MultipleGrows(-k, m); }
  }

  lemma MultipleGrows(k: int, m: int)
    requires k >= 1 && m > 0
    ensures k * m >= m && (-k) * m <= -m
  {
  }

  /** Divides by ten in place, from the highest byte down. */
  method DivideByTen(bytes: array<byte>) returns (remainder: nat, zero: bool)
    modifies bytes
    ensures remainder == Number(old(bytes[..])) % 10 && Number(bytes[..]) == Number(old(bytes[..])) / 10
    ensures zero <==> Number(bytes[..]) == 0
  {
    hide Number, Pow256;
    ghost var was := bytes[..];
    remainder, zero := 0, true;
    var i := bytes.Length;
    assert Number([]) == 0 by { NumberFits([]); }
    assert bytes[i..] == [] && was[i..] == [];
    while i > 0
      invariant 0 <= i <= bytes.Length && remainder < 10
      invariant forall k :: 0 <= k < i ==> bytes[k] == was[k]
      invariant Number(was[i..]) == 10 * Number(bytes[i..]) + remainder
      invariant zero <==> Number(bytes[i..]) == 0
    {
      i := i - 1;
      var cur: int := remainder * 256 + bytes[i];
      ghost var high := bytes[i + 1..];
      bytes[i] := cur / 10;
      assert was[i..] == [was[i]] + was[i + 1..] && bytes[i..] == [cur / 10] + high;
      NumberCons(was[i], was[i + 1..]);
      NumberCons(cur / 10, high);
      remainder := cur % 10;
      if bytes[i] != 0 { zero := false; }
    }
    assert bytes[0..] == bytes[..] && was[0..] == was;
  }

  lemma NumberCons(b: byte, s: seq<byte>)
    ensures Number([b] + s) == b + 256 * Number(s)
  {
    assert ([b] + s)[1..] == s;
  }

  // ---------------------------------------------------------------------------------------------
  // Printing
  // ---------------------------------------------------------------------------------------------

  function Reversed(s: string): (r: string)
    ensures |r| == |s|
  {
    if s == "" then "" else Reversed(s[1..]) + [s[0]]
  }

  lemma {:induction false} ReversedSnoc(s: string, c: char)
    ensures Reversed(s + [c]) == [c] + Reversed(s)
    decreases |s|
  {
    if s == "" {
      assert s + [c] == [c];
    } else {
      assert (s + [c])[1..] == s[1..] + [c];
      ReversedSnoc(s[1..], c);
    }
  }

  /** The digits of a number with `scale` of them after the point; a negative scale adds zeros. */
  function Placed(digits: string, scale: int): string {
    if scale > 0 then
      var padded := (if |digits| <= scale then Zeros(scale + 1 - |digits|) else "") + digits;
      padded[..|padded| - scale] + "." + padded[|padded| - scale..]
    else digits + Zeros(-scale)
  }

  function Print(n: nat, scale: int, sign: nat): string {
    if n == 0 then (if scale <= 0 then "0" else "0." + Zeros(scale))
    else (if sign == 0 then "-" else "") + Placed(ToString(n), scale)
  }

  /** The quotients by ten are printed from the last digit to the first. */
  method DecimalDigits(bytes: array<byte>) returns (digits: string)
    requires Number(bytes[..]) > 0
    modifies bytes
    ensures digits == ToString(Number(old(bytes[..])))
  {
    hide Number, Reversed, ToString;
    ghost var n := Number(bytes[..]);
    var backwards := "";
    var zero := false;
    assert Reversed("") == "" by { NothingReversed(); }
    assert ToString(n) == ToString(n) + "";
    while !zero
      invariant !zero ==> Number(bytes[..]) > 0 && ToString(n) == ToString(Number(bytes[..])) + Reversed(backwards)
      invariant zero ==> ToString(n) == Reversed(backwards)
      decreases !zero, Number(bytes[..])
    {
      ghost var m := Number(bytes[..]);
      var remainder;
      remainder, zero := DivideByTen(bytes);
      ReversedSnoc(backwards, DigitChar(remainder));
      LastDigit(m);
      JoinDigit(ToString(m / 10), DigitChar(m % 10), Reversed(backwards));
      backwards := backwards + [DigitChar(remainder)];
    }
    digits := Reversed(backwards);
  }

  lemma NothingReversed()
    ensures Reversed("") == ""
  {
  }

  lemma LastDigit(m: nat)
    requires m > 0
    ensures ToString(m) == (if m / 10 == 0 then "" else ToString(m / 10)) + [DigitChar(m % 10)]
  {
  }

  lemma JoinDigit(front: string, c: char, rest: string)
    ensures (front + [c]) + rest == front + ([c] + rest)
    ensures "" + [c] + rest == [c] + rest
  {
  }

  method IsZero(bytes: array<byte>) returns (allZero: bool)
    ensures allZero <==> Number(bytes[..]) == 0
  {
    hide Number;
    NumberFits(bytes[..]);
    for i := 0 to bytes.Length
      invariant forall k :: 0 <= k < i ==> bytes[..][k] == 0
    {
      if bytes[i] != 0 {
        assert bytes[..][i] != 0;
        return false;
      }
    }
    allZero := true;
  }

  /** `numeric_struct_to_string`. */
  method NumericStructToString(ns: Struct) returns (text: string)
    requires |ns.val| == Bytes
    ensures text == Print(Number(ns.val), ns.scale, ns.sign)
  {
    hide Number, ToString;
    var bytes := new byte[Bytes](i requires 0 <= i < Bytes => ns.val[i]);
    assert bytes[..] == ns.val;
    var allZero := IsZero(bytes);
    if allZero {
      return if ns.scale <= 0 then "0" else "0." + Zeros(ns.scale);
    }
    var digits := DecimalDigits(bytes);
    if ns.scale > 0 {
      if |digits| <= ns.scale { digits := Zeros(ns.scale + 1 - |digits|) + digits; }
      var dot := |digits| - ns.scale;
      digits := digits[..dot] + "." + digits[dot..];
    } else if ns.scale < 0 {
      digits := digits + Zeros(-ns.scale);
    }
    if ns.sign == 0 { digits := "-" + digits; }
    return digits;
  }

  // ---------------------------------------------------------------------------------------------
  // Reading
  // ---------------------------------------------------------------------------------------------

  /** The text split for storing: its sign, its digits without the point, and how many of them follow the point. */
  datatype Prepared = Prepared(sign: nat, digits: string, scale: int)

  const MaxScale: nat := 38

  function Min(a: int, b: int): int { if a <= b then a else b }

  function Max(a: int, b: int): int { if a >= b then a else b }

  /** At most 38 digits after the point are kept. */
  function WithoutPoint(sign: nat, s: string): Prepared {
    var dot := SqlNumeric.Point(s);
    if dot < |s| then
      var scale := Min(|s| - dot - 1, MaxScale);
      Prepared(sign, s[..dot] + s[dot + 1..][..scale], scale)
    else Prepared(sign, s, 0)
  }

  /** With a default scale, digits are added or dropped at the end until the scale is the default. */
  function Rescale(p: Prepared, defaultScale: int): Prepared {
    if defaultScale < 0 then p
    else if p.scale <= defaultScale then p.(digits := p.digits + Zeros(defaultScale - p.scale), scale := defaultScale)
    else
      var cut := Min(p.scale - defaultScale, |p.digits|);
      p.(digits := p.digits[..|p.digits| - cut], scale := p.scale - cut)
  }

  function Prepare(s: string, defaultScale: int): Prepared
    requires s != ""
  {
    Rescale(WithoutPoint(if s[0] == '-' then 0 else 1, if s[0] == '-' || s[0] == '+' then s[1..] else s), defaultScale)
  }

  function FirstNonZero(s: string): (k: nat)
    ensures k <= |s|
  {
    if s == "" || s[0] != '0' then 0 else 1 + FirstNonZero(s[1..])
  }

  function Precision(p: Prepared, defaultPrecision: nat): nat {
    var nonZero := FirstNonZero(p.digits);
    var significant := if nonZero == |p.digits| then 1 else |p.digits| - nonZero;
    if defaultPrecision > 0 then defaultPrecision else Min(Max(1, Max(p.scale, significant)), MaxScale)
  }

  function OnlyDigits(s: string): (r: string)
    ensures AllDigits(r)
    ensures AllDigits(s) ==> r == s
  {
    if s == "" then "" else (if IsDigit(s[0]) then [s[0]] else "") + OnlyDigits(s[1..])
  }

  lemma Associate(a: string, b: string, c: string)
    ensures a + (b + c) == a + b + c
  {
  }

  lemma {:induction false} OnlyDigitsSnoc(s: string, c: char)
    ensures OnlyDigits(s + [c]) == OnlyDigits(s) + (if IsDigit(c) then [c] else "")
    decreases |s|
  {
    if s == "" {
      assert s + [c] == [c];
      assert [c][1..] == "";
    } else {
      assert (s + [c])[0] == s[0] && (s + [c])[1..] == s[1..] + [c];
      OnlyDigitsSnoc(s[1..], c);
      Associate(if IsDigit(s[0]) then [s[0]] else "", OnlyDigits(s[1..]), if IsDigit(c) then [c] else "");
    }
  }

  lemma DigitsModulo(s: string, c: char, m: nat)
    requires m > 0
    ensures Value(OnlyDigits(s + [c])) % m
         == if IsDigit(c) then (Value(OnlyDigits(s)) % m * 10 + DigitValue(c)) % m else Value(OnlyDigits(s)) % m
  {
    OnlyDigitsSnoc(s, c);
    var front := OnlyDigits(s);
    if IsDigit(c) {
      assert (front + [c])[..|front + [c]| - 1] == front;
      ModuloOfTen(Value(front), DigitValue(c), m);
    } else {
      assert front + "" == front;
    }
  }

  lemma ModuloOfTen(v: nat, d: nat, m: nat)
    requires m > 0
    ensures (v * 10 + d) % m == (v % m * 10 + d) % m
  {
    var r := v % m * 10 + d;
    assert v == v / m * m + v % m;
    assert r == r / m * m + r % m;
    Collect(v / m, r / m, m, r % m);
    assert v * 10 + d == v / m * m * 10 + r;
    RemainderIs(v * 10 + d, v / m * 10 + r / m, m, r % m);
  }

  lemma Collect(a: nat, b: nat, m: nat, c: nat)
    ensures c + (a * 10 + b) * m == a * m * 10 + (b * m + c)
  {
  }

  /** The loop over the digits, on the bytes of the result. */
  method StoreDigits(digits: string) returns (val: array<byte>)
    ensures fresh(val) && val.Length == Bytes
    ensures Number(val[..]) == Value(OnlyDigits(digits)) % Pow256(Bytes)
  {
    hide Number, Pow256, Value, OnlyDigits;
    val := new byte[Bytes](_ => 0);
    NothingStored(val[..], Pow256(Bytes));
    assert digits[..0] == "";
    var k := 0;
    while k < |digits|
      invariant k <= |digits|
      invariant Number(val[..]) == Value(OnlyDigits(digits[..k])) % Pow256(Bytes)
    {
      assert digits[..k + 1] == digits[..k] + [digits[k]];
      DigitsModulo(digits[..k], digits[k], Pow256(Bytes));
      if IsDigit(digits[k]) { MultiplyAdd(val, DigitValue(digits[k])); }
      k := k + 1;
    }
    assert digits[..|digits|] == digits;
  }

  lemma NothingStored(zeros: seq<byte>, m: nat)
    requires m > 0 && forall i :: 0 <= i < |zeros| ==> zeros[i] == 0
    ensures Number(zeros) == Value(OnlyDigits("")) % m
  {
    NumberFits(zeros);
    assert Value(OnlyDigits("")) == 0;
  }

  /** `string_to_numeric_struct`. */
  method StringToNumericStruct(str: string, defaultPrecision: nat, defaultScale: int) returns (ns: Struct)
    ensures var s := SqlNumeric.TrimBack(SqlNumeric.TrimFront(str));
      && |ns.val| == Bytes
      && (s == "" ==> ns == Struct(0, 0, 1, seq(Bytes, _ => 0)))
      && (s != "" ==> var p := Prepare(s, defaultScale);
            && ns == Struct(Precision(p, defaultPrecision), p.scale, p.sign, ns.val)
            && Number(ns.val) == Value(OnlyDigits(p.digits)) % Pow256(Bytes))
  {
    var s := str;
    while s != "" && SqlNumeric.IsSpace(s[0])
      invariant SqlNumeric.TrimFront(s) == SqlNumeric.TrimFront(str)
      decreases |s|
    {
      s := s[1..];
    }
    while s != "" && SqlNumeric.IsSpace(s[|s| - 1])
      invariant SqlNumeric.TrimBack(s) == SqlNumeric.TrimBack(SqlNumeric.TrimFront(str))
      decreases |s|
    {
      s := s[..|s| - 1];
    }
    if s == "" { return Struct(0, 0, 1, seq(Bytes, _ => 0)); }
    var p := Digits(s, defaultScale);
    var val := StoreDigits(p.digits);
    return Struct(Precision(p, defaultPrecision), p.scale, p.sign, val[..]);
  }

  method Digits(s: string, defaultScale: int) returns (p: Prepared)
    requires s != ""
    ensures p == Prepare(s, defaultScale)
  {
    p := WithoutPoint(if s[0] == '-' then 0 else 1, if s[0] == '-' || s[0] == '+' then s[1..] else s);
    if defaultScale >= 0 {
      if p.scale <= defaultScale { p := AddZeros(p, defaultScale); } else { p := DropDigits(p, defaultScale); }
    }
  }

  method AddZeros(p: Prepared, scale: int) returns (r: Prepared)
    requires p.scale <= scale
    ensures r == p.(digits := p.digits + Zeros(scale - p.scale), scale := scale)
  {
    r := p;
    while r.scale < scale
      invariant p.scale <= r.scale <= scale
      invariant r == p.(digits := p.digits + Zeros(r.scale - p.scale), scale := r.scale)
    {
      r := r.(digits := r.digits + "0", scale := r.scale + 1);
    }
  }

  method DropDigits(p: Prepared, scale: int) returns (r: Prepared)
    requires p.scale >= scale
    ensures var cut := Min(p.scale - scale, |p.digits|);
      r == p.(digits := p.digits[..|p.digits| - cut], scale := p.scale - cut)
  {
    r := p;
    while r.scale > scale && r.digits != ""
      invariant scale <= r.scale <= p.scale && p.scale - r.scale <= |p.digits|
      invariant r == p.(digits := p.digits[..|p.digits| - (p.scale - r.scale)], scale := r.scale)
      decreases |r.digits|
    {
      r := r.(digits := r.digits[..|r.digits| - 1], scale := r.scale - 1);
    }
  }

  // ---------------------------------------------------------------------------------------------
  // The round trip
  // ---------------------------------------------------------------------------------------------

  const TwoTo128: nat := 0x1_0000_0000_0000_0000_0000_0000_0000_0000

  /** What is stored for a written decimal without a default scale, and the text made of it again. */
  function Stored(d: SqlNumeric.Written): Prepared
    requires SqlNumeric.TrimBack(SqlNumeric.TrimFront(SqlNumeric.Text(d))) != ""
  {
    Prepare(SqlNumeric.TrimBack(SqlNumeric.TrimFront(SqlNumeric.Text(d))), -1)
  }

  function Again(p: Prepared): string { Print(Value(OnlyDigits(p.digits)) % Pow256(Bytes), p.scale, p.sign) }

  function KeptScale(d: SqlNumeric.Written): nat { if |d.fraction| <= MaxScale then |d.fraction| else MaxScale }

  function SignOf(d: SqlNumeric.Written): nat { if d.sign == SqlNumeric.Minus then 0 else 1 }

  function KeptDigits(d: SqlNumeric.Written): string { d.whole + d.fraction[..KeptScale(d)] }

  lemma BodyWithoutPoint(d: SqlNumeric.Written, sign: nat)
    requires SqlNumeric.WellFormed(d)
    ensures WithoutPoint(sign, SqlNumeric.Body(d)) == Prepared(sign, KeptDigits(d), KeptScale(d))
  {
    hide SqlNumeric.HasDigit, SqlNumeric.AllZero;
    SqlNumeric.BodyShape(d);
    var b := SqlNumeric.Body(d);
    if d.dot {
      assert b[|d.whole| + 1..] == d.fraction;
    } else {
      assert d.whole + d.fraction[..0] == b;
    }
  }

  lemma StoredDigits(d: SqlNumeric.Written)
    requires SqlNumeric.WellFormed(d)
    ensures SqlNumeric.TrimBack(SqlNumeric.TrimFront(SqlNumeric.Text(d))) != ""
    ensures Stored(d) == Prepared(SignOf(d), KeptDigits(d), KeptScale(d))
  {
    hide SqlNumeric.TrimBack, SqlNumeric.TrimFront, SqlNumeric.Text, SqlNumeric.Point, SqlNumeric.HasDigit, SqlNumeric.AllZero,
         SqlNumeric.Body, WithoutPoint, KeptDigits, KeptScale;
    SqlNumeric.BlanksGo(d);
    SqlNumeric.BodyShape(d);
    SqlNumeric.MinusIsNoDigit(SqlNumeric.Body(d));
    BodyWithoutPoint(d, SignOf(d));
  }

  /** The value stored is the digits kept, modulo two to the 128th. */
  lemma StoresTheDigits(d: SqlNumeric.Written)
    requires SqlNumeric.WellFormed(d)
    ensures SqlNumeric.TrimBack(SqlNumeric.TrimFront(SqlNumeric.Text(d))) != ""
    ensures AllDigits(KeptDigits(d)) && OnlyDigits(Stored(d).digits) == KeptDigits(d)
    ensures Pow256(Bytes) == TwoTo128
    ensures |KeptDigits(d)| <= 38 ==> Value(KeptDigits(d)) < TwoTo128
  {
    hide Stored, Value, Pow10, Pow256, SqlNumeric.TrimBack, SqlNumeric.TrimFront, SqlNumeric.Text;
    StoredDigits(d);
    SqlNumeric.Digits(d);
    WidthIs128();
    if |KeptDigits(d)| <= 38 {
      ValueIsBelow(KeptDigits(d));
      PowGrows(|KeptDigits(d)|, 38);
    }
  }

  lemma WidthIs128()
    ensures Pow256(Bytes) == TwoTo128 && Pow10(38) < TwoTo128
  {
    assert Pow256(8) == 0x1_0000_0000_0000_0000;
    assert Pow256(16) == 0x1_0000_0000_0000_0000 * Pow256(8);
    assert Pow10(9) == 1_000_000_000 && Pow10(10) == 10_000_000_000;
    PowSum(10, 9);
    PowSum(19, 19);
  }

  /** All the digits printed, at least one of them before the point. */
  function Padded(n: nat, scale: nat): string {
    if n == 0 then Zeros(scale + 1)
    else (if |ToString(n)| <= scale then Zeros(scale + 1 - |ToString(n)|) else "") + ToString(n)
  }

  /** The printed text read as a written decimal. */
  function Printed(n: nat, scale: nat, sign: nat): SqlNumeric.Written
    requires |Padded(n, scale)| >= scale
  {
    var digits := Padded(n, scale);
    SqlNumeric.Written("", if n != 0 && sign == 0 then SqlNumeric.Minus else SqlNumeric.None,
                       digits[..|digits| - scale], scale > 0, digits[|digits| - scale..], "")
  }

  lemma PaddedDenotes(n: nat, scale: nat)
    ensures var digits := Padded(n, scale); AllDigits(digits) && |digits| > scale && Value(digits) == n
  {
    hide Value, ToString;
    var digits := ToString(n);
    if n == 0 {
      ZerosAreWorthless(scale + 1, "");
    } else if |digits| <= scale {
      ZerosAreWorthless(scale + 1 - |digits|, digits);
    } else {
      assert "" + digits == digits;
    }
  }

  /** What is printed denotes the number in units of ten to the minus scale. */
  lemma PrintDenotes(n: nat, scale: nat, sign: nat)
    ensures |Padded(n, scale)| >= scale
    ensures var w := Printed(n, scale, sign);
      && SqlNumeric.WellFormed(w) && |w.fraction| == scale && SqlNumeric.Mantissa(w) == n
      && w.sign == if n != 0 && sign == 0 then SqlNumeric.Minus else SqlNumeric.None
  {
    hide Value, ToString, Padded;
    PaddedDenotes(n, scale);
    var w := Printed(n, scale, sign);
    assert Padded(n, scale) == w.whole + w.fraction;
    ValueOfJoin(w.whole, w.fraction);
  }

  lemma PrintIsText(n: nat, scale: nat, sign: nat)
    ensures |Padded(n, scale)| >= scale && SqlNumeric.Text(Printed(n, scale, sign)) == Print(n, scale, sign)
  {
    hide Value, ToString, Padded, SqlNumeric.Body, Placed;
    PaddedDenotes(n, scale);
    var w := Printed(n, scale, sign);
    NoBlanks(SqlNumeric.SignText(w.sign), SqlNumeric.Body(w));
    if n == 0 { BodyOfZero(scale, sign); } else { BodyOfNumber(n, scale, sign); }
  }

  lemma BodyOfZero(scale: nat, sign: nat)
    ensures SqlNumeric.Body(Printed(0, scale, sign)) == if scale == 0 then "0" else "0." + Zeros(scale)
  {
    var digits := Zeros(scale + 1);
    assert digits[..1] == "0" && digits[1..] == Zeros(scale);
    Pointed("0", Zeros(scale));
    NoBlanks("", "0");
  }

  /** The placed digits, cut from the padded ones. */
  lemma PlacedParts(digits: string, padded: string, scale: nat)
    requires padded == (if |digits| <= scale then Zeros(scale + 1 - |digits|) else "") + digits
    ensures |padded| > scale || scale == 0
    ensures Placed(digits, scale)
         == if scale > 0 then padded[..|padded| - scale] + ("." + padded[|padded| - scale..]) else digits
  {
    if scale > 0 {
      Pointed(padded[..|padded| - scale], padded[|padded| - scale..]);
    } else {
      assert digits + Zeros(0) == digits;
    }
  }

  lemma BodyParts(n: nat, scale: nat, sign: nat)
    requires |Padded(n, scale)| >= scale
    ensures var p := Padded(n, scale);
      SqlNumeric.Body(Printed(n, scale, sign)) == if scale > 0 then p[..|p| - scale] + ("." + p[|p| - scale..]) else p
  {
    hide Padded;
    var p := Padded(n, scale);
    if scale == 0 {
      assert p[..|p|] == p;
      NoBlanks("", p);
    }
  }

  lemma BodyOfNumber(n: nat, scale: nat, sign: nat)
    requires n > 0
    ensures |Padded(n, scale)| >= scale && SqlNumeric.Body(Printed(n, scale, sign)) == Placed(ToString(n), scale)
  {
    hide Value, ToString, Zeros, Placed, Printed, SqlNumeric.Body;
    PaddedDenotes(n, scale);
    BodyParts(n, scale, sign);
    PlacedParts(ToString(n), Padded(n, scale), scale);
    if scale == 0 && |ToString(n)| > 0 { NoBlanks("", ToString(n)); }
    DigitsExist(n);
  }

  lemma DigitsExist(n: nat)
    ensures |ToString(n)| >= 1
  {
  }

  lemma NoBlanks(sign: string, body: string)
    ensures "" + (sign + body) + "" == sign + body && "" + body == body && body + "" == body
  {
  }

  lemma Pointed(a: string, b: string)
    ensures a + ("." + b) == a + "." + b
  {
  }

  // The round trip itself.

  /** The digits after the 38th, which are not kept. */
  function Lost(d: SqlNumeric.Written): string { d.fraction[KeptScale(d)..] }

  lemma MantissaSplits(d: SqlNumeric.Written)
    requires AllDigits(d.whole) && AllDigits(d.fraction)
    ensures AllDigits(KeptDigits(d)) && AllDigits(Lost(d)) && |d.fraction| == KeptScale(d) + |Lost(d)|
    ensures SqlNumeric.Mantissa(d) == Value(KeptDigits(d)) * Pow10(|Lost(d)|) + Value(Lost(d))
  {
    hide Value, Pow10;
    assert d.whole + d.fraction == KeptDigits(d) + Lost(d);
    ValueOfJoin(d.whole, d.fraction);
    ValueOfJoin(KeptDigits(d), Lost(d));
  }

  /** With `kept` replaced by `stored`, the number stays the same exactly when nothing was lost at either end. */
  lemma SameNumber(kept: nat, lost: nat, stored: nat, p: nat, q: nat)
    requires stored <= kept && p > 0 && q > 0
    ensures stored as real / q as real == (kept * p + lost) as real / (q * p) as real <==> stored == kept && lost == 0
  {
    SqlNumeric.CrossMultiply(stored, q, kept * p + lost, q * p);
    var x, y := stored * p, kept * p + lost;
    assert stored * (q * p) == x * q && (kept * p + lost) * q == y * q;
    Cancel(x, y, q);
    if stored < kept { assert stored * p < kept * p; }
  }

  lemma Cancel(x: nat, y: nat, q: nat)
    requires q > 0
    ensures x * q < y * q <==> x < y
    ensures x * q > y * q <==> x > y
  {
  }

  /**
   * Through the structure and back, a written decimal stays equal exactly when its digits after the 38th are zeros
   * and the digits kept are a number below two to the 128th; 38 digits in all always are.
   */
  lemma RoundTripIffFits(d: SqlNumeric.Written)
    requires SqlNumeric.WellFormed(d)
    ensures SqlNumeric.TrimBack(SqlNumeric.TrimFront(SqlNumeric.Text(d))) != "" && AllDigits(KeptDigits(d)) && AllDigits(Lost(d))
    ensures SqlNumeric.Order(SqlNumeric.Assign(Again(Stored(d))), SqlNumeric.Assign(SqlNumeric.Text(d))) == Equal
       <==> Value(KeptDigits(d)) < TwoTo128 && Value(Lost(d)) == 0
    ensures |d.whole| + |d.fraction| <= 38 ==> Value(KeptDigits(d)) < TwoTo128 && Value(Lost(d)) == 0
  {
    hide Value, Pow10, Pow256, KeptDigits, Lost, Printed, Padded, Print, ToString, OnlyDigits,
         SqlNumeric.Order, SqlNumeric.Assign, SqlNumeric.TrimBack, SqlNumeric.TrimFront, SqlNumeric.Text, SqlNumeric.Mantissa;
    StoresTheDigits(d);
    StoredDigits(d);
    SqlNumeric.Digits(d);
    MantissaSplits(d);
    var kept := Value(KeptDigits(d));
    var stored := kept % TwoTo128;
    PrintIsText(stored, KeptScale(d), SignOf(d));
    PrintDenotes(stored, KeptScale(d), SignOf(d));
    var w := Printed(stored, KeptScale(d), SignOf(d));
    assert Again(Stored(d)) == SqlNumeric.Text(w);
    SqlNumeric.OrderIsTotal(w, d, d);
    AmountsAgree(w, d, stored);
    ShortIsKept(d);
  }

  lemma ShortIsKept(d: SqlNumeric.Written)
    requires AllDigits(Lost(d))
    ensures |d.whole| + |d.fraction| <= 38 ==> |KeptDigits(d)| <= 38 && Value(Lost(d)) == 0
  {
  }

  lemma AmountsAgree(w: SqlNumeric.Written, d: SqlNumeric.Written, stored: nat)
    requires SqlNumeric.WellFormed(d) && SqlNumeric.WellFormed(w) && AllDigits(KeptDigits(d)) && AllDigits(Lost(d))
    requires |w.fraction| == KeptScale(d) && SqlNumeric.Mantissa(w) == stored == Value(KeptDigits(d)) % TwoTo128
    requires w.sign == if stored != 0 && d.sign == SqlNumeric.Minus then SqlNumeric.Minus else SqlNumeric.None
    ensures SqlNumeric.Amount(w) == SqlNumeric.Amount(d) <==> Value(KeptDigits(d)) < TwoTo128 && Value(Lost(d)) == 0
  {
    hide Value, Pow10, KeptDigits, Lost, SqlNumeric.Mantissa;
    SqlNumeric.Digits(d);
    MantissaSplits(d);
    PowSum(KeptScale(d), |Lost(d)|);
    SameNumber(Value(KeptDigits(d)), Value(Lost(d)), stored, Pow10(|Lost(d)|), Pow10(KeptScale(d)));
    SqlNumeric.SignOfRatio(stored, Pow10(KeptScale(d)));
    SqlNumeric.SignOfRatio(SqlNumeric.Mantissa(d), Pow10(|d.fraction|));
  }
}
