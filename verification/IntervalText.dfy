/** The text form of intervals, and its parser with the rules of C++ stream extraction. */
module IntervalText {
  import opened Values
  import opened Decimal
  import opened DecimalOrder
  import opened Interval
  import SqlNumeric

  const MaxInt := 0x7FFF_FFFF

  function Wide(width: nat, n: nat): (r: string)
    ensures AllDigits(r) && r != "" && |r| >= width
  {
    (if |ToString(n)| < width then Zeros(width - |ToString(n)|) else "") + ToString(n)
  }

  function SignOf(iv: SqlInterval): string { if iv.isNegative then "-" else "" }

  function DaysText(iv: SqlInterval): string {
    ToString(iv.days) + (" " + (Wide(2, iv.hours) + (":" + (Wide(2, iv.minutes) + (":" + (Wide(2, iv.seconds) + FractionText(iv.fraction)))))))
  }

  function FractionText(fraction: nat): string { if fraction > 0 then "." + Wide(9, fraction) else "" }

  /** `to_string`. */
  function ToText(iv: SqlInterval): string {
    SignOf(iv)
    + if iv.kind == YearToMonth || iv.kind == Year || iv.kind == Month then ToString(iv.years) + ("-" + ToString(iv.months))
      else DaysText(iv)
  }

  // ---------------------------------------------------------------------------------------------
  // Stream extraction
  // ---------------------------------------------------------------------------------------------

  /** The value stored by an extraction, what is left of the text, and whether the extraction succeeded. */
  datatype Scan = Scan(value: int, rest: string, ok: bool)

  /** How many digits the text begins with. */
  function DigitRun(s: string): (n: nat)
    ensures n <= |s| && AllDigits(s[..n])
    ensures n < |s| ==> !IsDigit(s[n])
  {
    if s == "" || !IsDigit(s[0]) then 0 else 1 + DigitRun(s[1..])
  }

  /** Extraction of an `int`: blanks are skipped; a number out of range is stored as the nearest int and fails. */
  function ReadInt(s: string): Scan {
    var t := SqlNumeric.TrimFront(s);
    var negative := t != "" && t[0] == '-';
    var body := if t != "" && (t[0] == '-' || t[0] == '+') then t[1..] else t;
    var n := DigitRun(body);
    if n == 0 then Scan(0, body, false)
    else
      var v: int := if negative then 0 - Value(body[..n]) else Value(body[..n]);
      if v > MaxInt then Scan(MaxInt, body[n..], false)
      else if v < -MaxInt - 1 then Scan(-MaxInt - 1, body[n..], false)
      else Scan(v, body[n..], true)
  }

  /** Extraction of a character, whichever it is. */
  function SkipChar(s: string): Option<string> {
    var t := SqlNumeric.TrimFront(s);
    if t == "" then None else Some(t[1..])
  }

  function WordRun(s: string): (n: nat)
    ensures n <= |s|
  {
    if s == "" || SqlNumeric.IsSpace(s[0]) then 0 else 1 + WordRun(s[1..])
  }

  /** An integer, any character, and an integer. */
  function ReadPair(s: string): Option<(int, int, string)> {
    var a := ReadInt(s);
    if !a.ok then None
    else match SkipChar(a.rest)
      case None => None
      case Some(t) =>
        var b := ReadInt(t);
        if b.ok then Some((a.value, b.value, b.rest)) else None
  }

  /** Three integers with any two characters between them. */
  function ReadTime(s: string): Option<(int, int, int, string)> {
    match ReadPair(s)
    case None => None
    case Some((h, m, rest)) =>
      match SkipChar(rest)
      case None => None
      case Some(t) =>
        var b := ReadInt(t);
        if b.ok then Some((h, m, b.value, b.rest)) else None
  }

  function ParseFraction(s: string): uint32 {
    if s == "" || s[0] != '.' then 0
    else
      var digits := s[1..][..DigitRun(s[1..])];
      if digits == "" then 0
      else if |digits| > 9 then NineDigits(digits[..9])
      else NineDigits(digits + Zeros(9 - |digits|))
  }

  function NineDigits(s: string): (n: uint32)
    requires AllDigits(s) && |s| == 9
    ensures n == Value(s) < Billion
  {
    ValueIsBelow(s);
    assert Pow10(9) == Billion;
    Value(s)
  }

  predicate HasDay(s: string) { exists i :: 0 <= i <= |s| - 3 && s[i] == 'd' && s[i + 1] == 'a' && s[i + 2] == 'y' }

  const Default := FromDaySecond(0, 0, 0, 0, 0, false)

  function WithTime(iv: SqlInterval, time: Option<(int, int, int, string)>): SqlInterval {
    match time
    case None => iv
    case Some((h, m, sec, rest)) =>
      iv.(hours := Unsigned32(h), minutes := Unsigned32(m), seconds := Unsigned32(sec), fraction := ParseFraction(rest))
  }

  /** The three readings of the text after its sign. */
  function ParseBody(s: string, negative: bool): SqlInterval {
    var iv := Default.(isNegative := negative);
    if '-' in s && ':' !in s && !HasDay(s) then
      match ReadPair(s)
      case None => iv.(kind := YearToMonth)
      case Some((y, m, _)) => iv.(kind := YearToMonth, years := Unsigned32(y), months := Unsigned32(m))
    else if HasDay(s) then
      var d := ReadInt(s);
      var word := SqlNumeric.TrimFront(d.rest);
      WithTime(iv.(days := Unsigned32(d.value)), if d.ok && WordRun(word) > 0 then ReadTime(word[WordRun(word)..]) else None)
    else if ' ' in s then
      var d := ReadInt(s);
      var time := if d.ok then ReadTime(d.rest) else None;
      if time == None then iv else WithTime(iv.(days := Unsigned32(d.value)), time)
    else if ':' in s then WithTime(iv, ReadTime(s))
    else iv
  }

  function Parse(str: string): SqlInterval {
    var s := SqlNumeric.TrimFront(str);
    if s == "" then Default
    else ParseBody(if s[0] == '-' || s[0] == '+' then s[1..] else s, s[0] == '-')
  }

  /** The loop of the fraction's parser. */
  method ReadDigits(s: string) returns (digits: string)
    ensures digits == s[..DigitRun(s)]
  {
    digits := "";
    var i := 0;
    while i < |s| && IsDigit(s[i])
      invariant i <= |s| && digits == s[..i]
      invariant i + DigitRun(s[i..]) == DigitRun(s)
    {
      digits := digits + [s[i]];
      i := i + 1;
    }
  }

  /** The fraction, cut or filled up to nine digits. */
  method ReadFraction(s: string) returns (fraction: uint32)
    ensures fraction == ParseFraction(s)
  {
    hide Value, NineDigits, DigitRun;
    if s == "" || s[0] != '.' { return 0; }
    var digits := ReadDigits(s[1..]);
    if digits == "" { return 0; }
    if |digits| > 9 { return NineDigits(digits[..9]); }
    ghost var read := digits;
    while |digits| < 9
      invariant |read| <= |digits| <= 9 && digits == read + Zeros(|digits| - |read|)
    {
      digits := digits + "0";
    }
    return NineDigits(digits);
  }

  /** `from_string`. */
  method FromString(str: string) returns (iv: SqlInterval)
    ensures iv == Parse(str)
  {
    var s := str;
    while s != "" && SqlNumeric.IsSpace(s[0])
      invariant SqlNumeric.TrimFront(s) == SqlNumeric.TrimFront(str)
      decreases |s|
    {
      s := s[1..];
    }
    iv := Default;
    if s == "" { return; }
    iv := iv.(isNegative := s[0] == '-');
    if s[0] == '-' || s[0] == '+' { s := s[1..]; }
    if '-' in s && ':' !in s && !HasDay(s) {
      iv := iv.(kind := YearToMonth);
      var pair := ReadPair(s);
      if pair.Some? { iv := iv.(years := Unsigned32(pair.value.0), months := Unsigned32(pair.value.1)); }
    } else if HasDay(s) {
      var d := ReadInt(s);
      var word := SqlNumeric.TrimFront(d.rest);
      iv := iv.(days := Unsigned32(d.value));
      if d.ok && WordRun(word) > 0 { iv := SetTime(iv, ReadTime(word[WordRun(word)..])); }
    } else if ' ' in s {
      var d := ReadInt(s);
      if d.ok && ReadTime(d.rest).Some? { iv := SetTime(iv.(days := Unsigned32(d.value)), ReadTime(d.rest)); }
    } else if ':' in s {
      iv := SetTime(iv, ReadTime(s));
    }
  }

  method SetTime(iv: SqlInterval, time: Option<(int, int, int, string)>) returns (r: SqlInterval)
    ensures r == WithTime(iv, time)
  {
    if time == None { return iv; }
    var fraction := ReadFraction(time.value.3);
    return iv.(hours := Unsigned32(time.value.0), minutes := Unsigned32(time.value.1), seconds := Unsigned32(time.value.2),
               fraction := fraction);
  }

  // ---------------------------------------------------------------------------------------------
  // The round trips
  // ---------------------------------------------------------------------------------------------

  lemma WideValue(width: nat, n: nat)
    ensures Value(Wide(width, n)) == n
  {
    if |ToString(n)| < width {
      ZerosAreWorthless(width - |ToString(n)|, ToString(n));
    } else {
      assert "" + ToString(n) == ToString(n);
    }
  }

  predicate NoDigitFirst(s: string) { s == "" || !IsDigit(s[0]) }

  lemma {:induction false} DigitRunIs(p: string, rest: string)
    requires AllDigits(p) && NoDigitFirst(rest)
    ensures DigitRun(p + rest) == |p|
    decreases |p|
  {
    if p == "" {
      assert p + rest == rest;
    } else {
      assert (p + rest)[1..] == p[1..] + rest;
      DigitRunIs(p[1..], rest);
    }
  }

  /** A number is read up to the character after it; out of range it fails. */
  lemma ReadsNumber(p: string, rest: string)
    requires AllDigits(p) && p != "" && NoDigitFirst(rest)
    ensures ReadInt(p + rest) == if Value(p) <= MaxInt then Scan(Value(p), rest, true) else Scan(MaxInt, rest, false)
    ensures ReadInt(" " + (p + rest)) == ReadInt(p + rest)
  {
    hide Value, DigitRun;
    var s := p + rest;
    assert IsDigit(s[0]);
    assert (" " + s)[1..] == s;
    DigitRunIs(p, rest);
    assert s[..|p|] == p && s[|p|..] == rest;
  }

  lemma SkipsChar(c: char, rest: string)
    requires !SqlNumeric.IsSpace(c)
    ensures SkipChar([c] + rest) == Some(rest)
  {
    assert ([c] + rest)[1..] == rest;
  }

  /** A pair of numbers joined by a character reads back unless one of them is too large. */
  lemma ReadsPair(p: string, c: char, q: string, rest: string)
    requires AllDigits(p) && p != "" && AllDigits(q) && q != "" && NoDigitFirst(rest)
    requires !IsDigit(c) && !SqlNumeric.IsSpace(c)
    ensures var s := p + ([c] + (q + rest));
      && ReadPair(s) == (if Value(p) <= MaxInt && Value(q) <= MaxInt then Some((Value(p), Value(q), rest)) else None)
      && ReadPair(" " + s) == ReadPair(s)
  {
    hide Value, ReadInt, SkipChar;
    ReadsNumber(p, [c] + (q + rest));
    SkipsChar(c, q + rest);
    ReadsNumber(q, rest);
  }

  lemma ReadsTime(p: string, q: string, r: string, rest: string)
    requires AllDigits(p) && p != "" && AllDigits(q) && q != "" && AllDigits(r) && r != "" && NoDigitFirst(rest)
    ensures ReadTime(" " + (p + (":" + (q + (":" + (r + rest))))))
         == if Value(p) <= MaxInt && Value(q) <= MaxInt && Value(r) <= MaxInt then Some((Value(p), Value(q), Value(r), rest)) else None
  {
    hide Value, ReadInt, SkipChar, ReadPair;
    ReadsPair(p, ':', q, ":" + (r + rest));
    SkipsChar(':', r + rest);
    ReadsNumber(r, rest);
  }

  lemma ReadsFraction(fraction: uint32)
    ensures NoDigitFirst(FractionText(fraction))
    ensures ParseFraction(FractionText(fraction)) == fraction <==> fraction < Billion
  {
    if fraction > 0 {
      var p := Wide(9, fraction);
      assert ("." + p)[1..] == p;
      assert p + "" == p;
      DigitRunIs(p, "");
      WideValue(9, fraction);
      assert p[..|p|] == p;
      if |p| == 9 {
        assert p + Zeros(0) == p;
      } else {
        TenDigits(fraction);
      }
    }
  }

  lemma TenDigits(n: nat)
    requires |Wide(9, n)| != 9
    ensures n >= Billion
  {
    var s := ToString(n);
    assert "" + s == s;
    ValueIsAbove(s);
    PowGrows(9, |s| - 1);
    assert Pow10(9) == Billion;
  }

  predicate TimeChar(c: char) { IsDigit(c) || c == ' ' || c == ':' || c == '.' }

  predicate OfTime(s: string) { forall i :: 0 <= i < |s| ==> TimeChar(s[i]) }

  lemma JoinTime(a: string, b: string)
    requires OfTime(a) && OfTime(b)
    ensures OfTime(a + b)
  {
  }

  lemma DaysTextChars(iv: SqlInterval)
    ensures OfTime(DaysText(iv)) && DaysText(iv) != "" && IsDigit(DaysText(iv)[0]) && ' ' in DaysText(iv)
  {
    hide ToString;
    var t := Wide(2, iv.seconds) + FractionText(iv.fraction);
    JoinTime(Wide(2, iv.seconds), FractionText(iv.fraction));
    JoinTime(":", t);
    JoinTime(Wide(2, iv.minutes), ":" + t);
    var u := Wide(2, iv.minutes) + (":" + t);
    JoinTime(":", u);
    JoinTime(Wide(2, iv.hours), ":" + u);
    var v := " " + (Wide(2, iv.hours) + (":" + u));
    JoinTime(" ", Wide(2, iv.hours) + (":" + u));
    JoinTime(ToString(iv.days), v);
    assert DaysText(iv)[|ToString(iv.days)|] == ' ';
  }

  lemma DaysParse(iv: SqlInterval)
    ensures var s := DaysText(iv); var d := ReadInt(s);
      if iv.days <= MaxInt then d == Scan(iv.days, s[|ToString(iv.days)|..], true)
        && ReadTime(d.rest) == (if iv.hours <= MaxInt && iv.minutes <= MaxInt && iv.seconds <= MaxInt
                                then Some((iv.hours, iv.minutes, iv.seconds, FractionText(iv.fraction))) else None)
      else !d.ok
  {
    hide Value, ReadInt, ReadTime, Wide, ToString, FractionText;
    var h, m, sec := Wide(2, iv.hours), Wide(2, iv.minutes), Wide(2, iv.seconds);
    WideValue(2, iv.hours);
    WideValue(2, iv.minutes);
    WideValue(2, iv.seconds);
    ReadsFraction(iv.fraction);
    var rest := " " + (h + (":" + (m + (":" + (sec + FractionText(iv.fraction))))));
    ReadsNumber(ToString(iv.days), rest);
    ReadsTime(h, m, sec, FractionText(iv.fraction));
    assert DaysText(iv)[|ToString(iv.days)|..] == rest;
  }

  lemma SignStripped(sign: bool, body: string)
    requires body != "" && IsDigit(body[0])
    ensures Parse((if sign then "-" else "") + body) == ParseBody(body, sign)
  {
    hide ParseBody;
    assert ("-" + body)[1..] == body;
    assert "" + body == body;
  }

  predicate Ints(iv: SqlInterval) { iv.days <= MaxInt && iv.hours <= MaxInt && iv.minutes <= MaxInt && iv.seconds <= MaxInt }

  lemma DaysParseTo(iv: SqlInterval)
    requires iv.kind == DayToSecond && iv.years == 0 && iv.months == 0
    ensures Parse(ToText(iv))
         == if Ints(iv) then iv.(fraction := ParseFraction(FractionText(iv.fraction))) else Default.(isNegative := iv.isNegative)
  {
    hide ReadInt, ReadTime, ParseFraction, FractionText, DaysText, Parse, HasDay;
    DaysTextChars(iv);
    SignStripped(iv.isNegative, DaysText(iv));
    DaysParse(iv);
    NoDayWord(DaysText(iv));
    AllInts(iv);
  }

  lemma NoDayWord(s: string)
    requires OfTime(s)
    ensures !HasDay(s) && '-' !in s
  {
  }

  lemma AllInts(iv: SqlInterval)
    ensures Ints(iv) ==> Unsigned32(iv.days) == iv.days && Unsigned32(iv.hours) == iv.hours && Unsigned32(iv.minutes) == iv.minutes
                         && Unsigned32(iv.seconds) == iv.seconds
  {
  }

  /** A day-to-second interval reads back exactly when its fields are ints and its fraction has nine digits. */
  lemma DayTextRoundTripIffFits(d: uint32, h: uint32, m: uint32, s: uint32, fraction: uint32, negative: bool)
    ensures var iv := FromDaySecond(d, h, m, s, fraction, negative);
      Parse(ToText(iv)) == iv <==> d <= MaxInt && h <= MaxInt && m <= MaxInt && s <= MaxInt && fraction < Billion
  {
    hide Parse, ToText, ParseFraction, FractionText;
    var iv := FromDaySecond(d, h, m, s, fraction, negative);
    DaysParseTo(iv);
    ReadsFraction(fraction);
  }

  lemma YearTextChars(y: nat, m: nat)
    ensures var body := ToString(y) + ("-" + ToString(m)); '-' in body && ':' !in body && !HasDay(body)
  {
    hide ToString;
    var p, q := ToString(y), ToString(m);
    var body := p + ("-" + q);
    assert body[|p|] == '-';
    assert forall i :: 0 <= i < |body| ==> IsDigit(body[i]) || body[i] == '-';
  }

  lemma YearsParse(y: uint32, m: uint32, negative: bool)
    ensures ParseBody(ToString(y) + ("-" + ToString(m)), negative)
         == if y <= MaxInt && m <= MaxInt then FromYearMonth(y, m, negative) else Default.(isNegative := negative, kind := YearToMonth)
  {
    hide ReadPair, Value, ToString, HasDay;
    YearTextChars(y, m);
    var q := ToString(m);
    ReadsPair(ToString(y), '-', q, "");
    assert q + "" == q;
  }

  /** A year-to-month interval reads back exactly when both parts are ints. */
  lemma YearTextRoundTripIffFits(y: uint32, m: uint32, negative: bool)
    ensures var iv := FromYearMonth(y, m, negative); Parse(ToText(iv)) == iv <==> y <= MaxInt && m <= MaxInt
  {
    hide ReadPair, Value, ToString, ParseBody, Parse;
    var iv := FromYearMonth(y, m, negative);
    var p, q := ToString(y), ToString(m);
    var body := p + ("-" + q);
    SignStripped(negative, body);
    YearsParse(y, m, negative);
  }
}
