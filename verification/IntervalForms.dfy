/** What the text forms of an interval denote: any written fields, not only those printed. */
module IntervalForms {
  import opened Decimal
  import opened DecimalOrder
  import opened Values
  import opened Interval
  import opened IntervalText
  import SqlNumeric

  /** Digits as someone may write them: hours, minutes, seconds and, after a point, a fraction of any length. */
  datatype WrittenTime = WrittenTime(hours: string, minutes: string, seconds: string, fraction: Option<string>)

  predicate Number(s: string) { AllDigits(s) && s != "" }

  predicate WellWritten(t: WrittenTime) {
    Number(t.hours) && Number(t.minutes) && Number(t.seconds) && (t.fraction.Some? ==> AllDigits(t.fraction.value))
  }

  function PointText(fraction: Option<string>): string { if fraction.Some? then "." + fraction.value else "" }

  function TimeText(t: WrittenTime): string { t.hours + (":" + (t.minutes + (":" + (t.seconds + PointText(t.fraction))))) }

  predicate AreInts(t: WrittenTime)
    requires WellWritten(t)
  {
    Value(t.hours) <= MaxInt && Value(t.minutes) <= MaxInt && Value(t.seconds) <= MaxInt
  }

  /** `n` is the fraction in nanoseconds, what is smaller being dropped: n / 10^9 <= 0.digits < (n + 1) / 10^9. */
  predicate Nanoseconds(n: nat, fraction: Option<string>)
    requires fraction.Some? ==> AllDigits(fraction.value)
  {
    match fraction
    case None => n == 0
    case Some(digits) =>
      && n * Pow10(|digits|) <= Value(digits) * Billion < (n + 1) * Pow10(|digits|)
  }

  /** The interval holds the written fields. */
  predicate Holds(iv: SqlInterval, days: nat, t: WrittenTime, negative: bool)
    requires WellWritten(t)
  {
    && iv.kind == DayToSecond && iv.isNegative == negative && iv.years == 0 && iv.months == 0
    && iv.days == days && iv.hours == Value(t.hours) && iv.minutes == Value(t.minutes) && iv.seconds == Value(t.seconds)
    && Nanoseconds(iv.fraction, t.fraction)
  }

  // ---------------------------------------------------------------------------------------------
  // Fractions
  // ---------------------------------------------------------------------------------------------

  lemma PointIsNoDigit(fraction: Option<string>)
    ensures NoDigitFirst(PointText(fraction))
  {
  }

  lemma ParsesFraction(digits: string)
    requires AllDigits(digits)
    ensures ParseFraction("." + digits)
         == if digits == "" then 0 else if |digits| > 9 then NineDigits(digits[..9]) else NineDigits(digits + Zeros(9 - |digits|))
  {
    hide NineDigits, DigitRun;
    DigitRunIs(digits, "");
    assert digits + "" == digits && ("." + digits)[1..] == digits && digits[..|digits|] == digits;
  }

  lemma NineValue(s: string)
    requires AllDigits(s) && |s| == 9
    ensures NineDigits(s) == Value(s)
  {
  }

  /** Short fractions are filled up, long ones cut: both are the fraction in nanoseconds. */
  lemma FractionDenotes(fraction: Option<string>)
    requires fraction.Some? ==> AllDigits(fraction.value)
    ensures Nanoseconds(ParseFraction(PointText(fraction)), fraction)
  {
    hide Value, Pow10, ParseFraction, NineDigits, Zeros;
    if fraction.None? {
      NoFraction();
    } else {
      var digits := fraction.value;
      ParsesFraction(digits);
      if digits == "" {
        NothingDenotes();
      } else if |digits| > 9 {
        NineValue(digits[..9]);
        CutDenotes(digits);
      } else {
        NineValue(digits + Zeros(9 - |digits|));
        FilledDenotes(digits);
      }
    }
  }

  lemma NoFraction()
    ensures ParseFraction("") == 0
  {
  }

  lemma NothingDenotes()
    ensures Value("") == 0 && Pow10(0) == 1
  {
  }

  lemma BillionIs()
    ensures Pow10(9) == Billion
  {
  }

  lemma FilledDenotes(digits: string)
    requires AllDigits(digits) && |digits| <= 9
    ensures Nanoseconds(Value(digits + Zeros(9 - |digits|)), Some(digits))
  {
    hide Value, Pow10, Zeros;
    var z := Zeros(9 - |digits|);
    ValueOfJoin(digits, z);
    NoValue(9 - |digits|);
    PowSum(9 - |digits|, |digits|);
    BillionIs();
    Exactly(Value(digits), Pow10(9 - |digits|), Pow10(|digits|));
  }

  lemma Exactly(v: nat, p: nat, q: nat)
    requires p > 0 && q > 0
    ensures v * p * q == v * (p * q) < (v * p + 1) * q
  {
  }

  lemma CutDenotes(digits: string)
    requires AllDigits(digits) && |digits| > 9
    ensures Nanoseconds(Value(digits[..9]), Some(digits))
  {
    hide Value, Pow10;
    var front, back := digits[..9], digits[9..];
    assert digits == front + back;
    ValueOfJoin(front, back);
    ValueIsBelow(back);
    PowSum(9, |back|);
    BillionIs();
    Floor(Value(front), Value(back), Pow10(|back|), Billion);
  }

  // ---------------------------------------------------------------------------------------------
  // Times
  // ---------------------------------------------------------------------------------------------

  lemma TimeReads(t: WrittenTime)
    requires WellWritten(t)
    ensures ReadTime(TimeText(t)) == ReadTime(" " + TimeText(t))
         == if AreInts(t) then Some((Value(t.hours), Value(t.minutes), Value(t.seconds), PointText(t.fraction))) else None
  {
    hide Value, ReadInt, SkipChar, ReadPair;
    var rest := PointText(t.fraction);
    PointIsNoDigit(t.fraction);
    ReadsPair(t.hours, ':', t.minutes, ":" + (t.seconds + rest));
    SkipsChar(':', t.seconds + rest);
    ReadsNumber(t.seconds, rest);
  }

  lemma NarrowInt(n: nat)
    requires n <= MaxInt
    ensures Unsigned32(n) == n
  {
  }

  /** The fields read go into the interval; a field that is no int leaves the time at zero. */
  lemma TimeIsSet(iv: SqlInterval, t: WrittenTime, days: nat, negative: bool)
    requires WellWritten(t) && iv == FromDaySecond(iv.days, 0, 0, 0, 0, negative) && iv.days == days
    ensures var r := WithTime(iv, ReadTime(TimeText(t))); if AreInts(t) then Holds(r, days, t, negative) else r == iv
  {
    hide Value, ReadTime, ParseFraction, Unsigned32, Nanoseconds;
    TimeReads(t);
    FractionDenotes(t.fraction);
    if AreInts(t) {
      NarrowInt(Value(t.hours));
      NarrowInt(Value(t.minutes));
      NarrowInt(Value(t.seconds));
    }
  }

  lemma TimeTextChars(t: WrittenTime)
    requires WellWritten(t)
    ensures OfTime(TimeText(t)) && TimeText(t) != "" && IsDigit(TimeText(t)[0]) && ':' in TimeText(t) && ' ' !in TimeText(t)
  {
    var rest := t.seconds + PointText(t.fraction);
    var s := TimeText(t);
    assert s[|t.hours|] == ':';
    JoinTime(t.seconds, PointText(t.fraction));
    JoinTime(":", rest);
    JoinTime(t.minutes, ":" + rest);
    JoinTime(":", t.minutes + (":" + rest));
    JoinTime(t.hours, ":" + (t.minutes + (":" + rest)));
    forall i | 0 <= i < |rest| ensures rest[i] != ' ' {
    }
    forall i | 0 <= i < |s| ensures s[i] != ' ' {
      var j := i - |t.hours| - 1;
      if 0 <= j < |t.minutes| { assert s[i] == t.minutes[j]; }
      if j > |t.minutes| { assert s[i] == rest[j - |t.minutes| - 1]; }
    }
  }

  /** A sign of either kind, or none, before a digit. */
  function SignText(sign: SqlNumeric.Sign): string {
    match sign
    case Plus => "+"
    case Minus => "-"
    case None => ""
  }

  lemma SignsRead(body: string)
    requires body != "" && IsDigit(body[0])
    ensures Parse("-" + body) == ParseBody(body, true) && Parse("+" + body) == ParseBody(body, false)
    ensures Parse(body) == ParseBody(body, false)
  {
    hide ParseBody;
    var minus, plus := "-" + body, "+" + body;
    assert minus[1..] == body && plus[1..] == body;
    assert SqlNumeric.TrimFront(minus) == minus && SqlNumeric.TrimFront(plus) == plus && SqlNumeric.TrimFront(body) == body;
  }

  lemma SignIsRead(sign: SqlNumeric.Sign, body: string)
    requires body != "" && IsDigit(body[0])
    ensures Parse(SignText(sign) + body) == ParseBody(body, sign == SqlNumeric.Minus)
  {
    hide Parse, ParseBody;
    SignsRead(body);
    assert "" + body == body;
  }

  /** A time by itself is an interval of no days. */
  lemma TimeAlone(sign: SqlNumeric.Sign, t: WrittenTime)
    requires WellWritten(t)
    ensures var iv := Parse(SignText(sign) + TimeText(t)); var negative := sign == SqlNumeric.Minus;
      if AreInts(t) then Holds(iv, 0, t, negative) else iv == FromDaySecond(0, 0, 0, 0, 0, negative)
  {
    hide Value, ReadTime, ParseFraction, WithTime, Nanoseconds, Parse, TimeText, HasDay;
    TimeTextChars(t);
    NoDayWord(TimeText(t));
    SignIsRead(sign, TimeText(t));
    TimeIsSet(FromDaySecond(0, 0, 0, 0, 0, sign == SqlNumeric.Minus), t, 0, sign == SqlNumeric.Minus);
  }

  // ---------------------------------------------------------------------------------------------
  // Days
  // ---------------------------------------------------------------------------------------------

  /** The days, any blanks and the word with the time behind it. */
  function DayText(days: string, word: string, t: WrittenTime): string { days + (" " + (word + (" " + TimeText(t)))) }

  lemma DayWordOccurs(days: string, word: string, t: WrittenTime)
    requires word == "day" || word == "days"
    ensures HasDay(DayText(days, word, t))
  {
    hide TimeText;
    var s, i := DayText(days, word, t), |days| + 1;
    assert s[i..] == word + (" " + TimeText(t));
    assert s[i] == s[i..][0] && s[i + 1] == s[i..][1] && s[i + 2] == s[i..][2];
  }

  lemma {:induction false} WordRunIs(word: string, rest: string)
    requires forall i :: 0 <= i < |word| ==> !SqlNumeric.IsSpace(word[i])
    requires rest == "" || SqlNumeric.IsSpace(rest[0])
    ensures WordRun(word + rest) == |word|
    decreases |word|
  {
    if word == "" {
      assert word + rest == rest;
    } else {
      assert (word + rest)[1..] == word[1..] + rest;
      WordRunIs(word[1..], rest);
    }
  }

  lemma AfterTheWord(word: string, rest: string)
    requires (word == "day" || word == "days") && rest != "" && SqlNumeric.IsSpace(rest[0])
    ensures var s := SqlNumeric.TrimFront(" " + (word + rest)); s == word + rest && WordRun(s) == |word| > 0 && s[WordRun(s)..] == rest
  {
    hide WordRun;
    assert (" " + (word + rest))[1..] == word + rest;
    WordRunIs(word, rest);
  }

  lemma DaysAreRead(days: string, rest: string)
    requires Number(days)
    ensures var d := ReadInt(days + (" " + rest));
      d == if Value(days) <= MaxInt then Scan(Value(days), " " + rest, true) else Scan(MaxInt, " " + rest, false)
  {
    hide Value, ReadInt;
    ReadsNumber(days, " " + rest);
  }

  /** The days are read as an int; a number too large for one is cut to the largest, and the time is not read. */
  lemma DayBody(days: string, word: string, t: WrittenTime, negative: bool)
    requires Number(days) && (word == "day" || word == "days") && WellWritten(t)
    ensures var largest := FromDaySecond(if Value(days) <= MaxInt then Value(days) else MaxInt, 0, 0, 0, 0, negative);
      ParseBody(DayText(days, word, t), negative)
      == if Value(days) <= MaxInt then WithTime(largest, ReadTime(TimeText(t))) else largest
  {
    hide Value, ReadInt, ReadTime, WithTime, HasDay, TimeText, WordRun, SqlNumeric.TrimFront, Unsigned32;
    DayWordOccurs(days, word, t);
    DaysAreRead(days, word + (" " + TimeText(t)));
    AfterTheWord(word, " " + TimeText(t));
    TimeReads(t);
    NoTime(FromDaySecond(MaxInt, 0, 0, 0, 0, negative));
    NarrowInt(MaxInt);
    if Value(days) <= MaxInt { NarrowInt(Value(days)); }
  }

  lemma NoTime(iv: SqlInterval)
    ensures WithTime(iv, None) == iv
  {
  }

  /** Days, the word `day` or `days`, and a time. */
  lemma DaysAndTime(sign: SqlNumeric.Sign, days: string, word: string, t: WrittenTime)
    requires Number(days) && (word == "day" || word == "days") && WellWritten(t)
    ensures var iv := Parse(SignText(sign) + DayText(days, word, t)); var negative := sign == SqlNumeric.Minus;
      if Value(days) <= MaxInt && AreInts(t) then Holds(iv, Value(days), t, negative)
      else iv == FromDaySecond(if Value(days) <= MaxInt then Value(days) else MaxInt, 0, 0, 0, 0, negative)
  {
    hide Value, ReadTime, ParseFraction, WithTime, Nanoseconds, Parse, TimeText, ParseBody;
    var negative := sign == SqlNumeric.Minus;
    SignIsRead(sign, DayText(days, word, t));
    DayBody(days, word, t, negative);
    if Value(days) <= MaxInt {
      TimeIsSet(FromDaySecond(Value(days), 0, 0, 0, 0, negative), t, Value(days), negative);
    }
  }

  /** Days and a time with only a blank between them: all is read, or nothing. */
  lemma DaysBlankTime(sign: SqlNumeric.Sign, days: string, t: WrittenTime)
    requires Number(days) && WellWritten(t)
    ensures var iv := Parse(SignText(sign) + (days + (" " + TimeText(t)))); var negative := sign == SqlNumeric.Minus;
      if Value(days) <= MaxInt && AreInts(t) then Holds(iv, Value(days), t, negative)
      else iv == FromDaySecond(0, 0, 0, 0, 0, negative)
  {
    hide Value, ReadTime, ReadInt, ParseFraction, WithTime, Nanoseconds, Parse, TimeText, HasDay, Unsigned32;
    var body, negative := days + (" " + TimeText(t)), sign == SqlNumeric.Minus;
    TimeTextChars(t);
    JoinTime(" ", TimeText(t));
    JoinTime(days, " " + TimeText(t));
    NoDayWord(body);
    assert body[|days|] == ' ';
    SignIsRead(sign, body);
    DaysAreRead(days, TimeText(t));
    TimeReads(t);
    if Value(days) <= MaxInt {
      NarrowInt(Value(days));
      TimeIsSet(FromDaySecond(Value(days), 0, 0, 0, 0, negative), t, Value(days), negative);
    }
  }
}
