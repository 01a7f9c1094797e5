/** SQL intervals: durations of nanoseconds in 64 bits, and the text form. */
module Interval {
  datatype Kind =
    | Year | Month | Day | Hour | Minute | Second | YearToMonth | DayToHour | DayToMinute | DayToSecond | HourToMinute
    | HourToSecond | MinuteToSecond

  type uint32 = n: nat | n < 0x1_0000_0000

  /** `fraction` is in nanoseconds. */
  datatype SqlInterval = SqlInterval(kind: Kind, isNegative: bool, years: uint32, months: uint32, days: uint32, hours: uint32,
                                     minutes: uint32, seconds: uint32, fraction: uint32)

  function FromYearMonth(y: uint32, m: uint32, negative: bool): SqlInterval {
    SqlInterval(YearToMonth, negative, y, m, 0, 0, 0, 0, 0)
  }

  function FromDaySecond(d: uint32, h: uint32, m: uint32, s: uint32, fraction: uint32, negative: bool): SqlInterval {
    SqlInterval(DayToSecond, negative, 0, 0, d, h, m, s, fraction)
  }

  // ---------------------------------------------------------------------------------------------
  // Durations
  // ---------------------------------------------------------------------------------------------

  const TwoTo63: int := 0x8000_0000_0000_0000
  const TwoTo64: int := 0x1_0000_0000_0000_0000
  const Billion: nat := 1_000_000_000

  predicate IsInt64(n: int) { -TwoTo63 <= n < TwoTo63 }

  function Unsigned64(n: int): nat { n % TwoTo64 }

  function Signed64(n: nat): int { if n % TwoTo64 < TwoTo63 then n % TwoTo64 else n % TwoTo64 - TwoTo64 }

  function Unsigned32(n: int): uint32 { n % 0x1_0000_0000 }

  function SplitNanoseconds(total: nat, negative: bool): SqlInterval {
    var seconds := total / Billion;
    var rest := Unsigned32(seconds % 86400);
    FromDaySecond(Unsigned32(seconds / 86400), rest / 3600, rest % 3600 / 60, rest % 3600 % 60, Unsigned32(total % Billion), negative)
  }

  /** `from_duration`, for a duration of nanoseconds. */
  function FromNanoseconds(count: int): SqlInterval {
    SplitNanoseconds(if count < 0 then Unsigned64(0 - Unsigned64(count)) else Unsigned64(count), count < 0)
  }

  /** The day-to-second part in nanoseconds, computed in 64 bits without sign. */
  function UnsignedNanoseconds(iv: SqlInterval): nat {
    var seconds := Unsigned64(iv.days * 86400 + iv.hours * 3600 + iv.minutes * 60 + iv.seconds);
    Unsigned64(seconds * Billion + iv.fraction)
  }

  /** The kinds whose duration is that of their years and months alone. */
  predicate OfMonths(iv: SqlInterval) { iv.kind == YearToMonth || iv.kind == Year || iv.kind == Month }

  /** `to_duration` to nanoseconds, for an interval without years and months. */
  function ToNanoseconds(iv: SqlInterval): int
    requires iv.years == 0 && iv.months == 0
  {
    if OfMonths(iv) then 0
    else if iv.isNegative then Signed64(Unsigned64(0 - UnsignedNanoseconds(iv))) else Signed64(UnsignedNanoseconds(iv))
  }

  /** Fields in their ranges, no negative zero, and a length that a signed 64-bit count can express. */
  predicate Normal(iv: SqlInterval) {
    && iv.kind == DayToSecond && iv.years == 0 && iv.months == 0
    && iv.hours < 24 && iv.minutes < 60 && iv.seconds < 60 && iv.fraction < Billion
    && var total := (((iv.days * 24 + iv.hours) * 60 + iv.minutes) * 60 + iv.seconds) * Billion + iv.fraction;
       if iv.isNegative then 0 < total <= TwoTo63 else total < TwoTo63
  }

  lemma Widths(n: int)
    ensures 0 <= n < TwoTo64 ==> Unsigned64(n) == n
    ensures -TwoTo64 <= n < 0 ==> Unsigned64(n) == n + TwoTo64
    ensures 0 <= n < TwoTo63 ==> Signed64(n) == n
    ensures TwoTo63 <= n < TwoTo64 ==> Signed64(n) == n - TwoTo64
    ensures IsInt64(Signed64(Unsigned64(n)))
  {
  }

  /** What the sign and the absolute value become in 64 bits. */
  lemma Magnitude(total: int, negative: bool)
    requires if negative then 0 < total <= TwoTo63 else 0 <= total < TwoTo63
    ensures var count := if negative then -total else total;
      && IsInt64(count)
      && (if count < 0 then Unsigned64(0 - Unsigned64(count)) else Unsigned64(count)) == total
      && (if negative then Signed64(Unsigned64(0 - total)) else Signed64(total)) == count
  {
    hide Unsigned64, Signed64;
    Widths(total);
    Widths(-total);
    Widths(0 - (TwoTo64 - total));
    Widths(TwoTo64 - total);
  }

  lemma Decompose(total: nat)
    requires total <= TwoTo63
    ensures var iv := SplitNanoseconds(total, false);
      && iv.hours < 24 && iv.minutes < 60 && iv.seconds < 60 && iv.fraction < Billion && iv.days < 106752
      && iv.days * 86400 + iv.hours * 3600 + iv.minutes * 60 + iv.seconds == total / Billion
      && iv.fraction == total % Billion
  {
  }

  lemma TotalOf(iv: SqlInterval, total: nat)
    requires iv.days * 86400 + iv.hours * 3600 + iv.minutes * 60 + iv.seconds == total / Billion && iv.fraction == total % Billion
    requires total < TwoTo64
    ensures UnsignedNanoseconds(iv) == total
    ensures (((iv.days * 24 + iv.hours) * 60 + iv.minutes) * 60 + iv.seconds) * Billion + iv.fraction == total
  {
    hide Unsigned64;
    Widths(total / Billion);
    Widths(total);
  }

  lemma Recompose(iv: SqlInterval, seconds: nat)
    requires iv.hours < 24 && iv.minutes < 60 && iv.seconds < 60
    requires seconds == iv.days * 86400 + iv.hours * 3600 + iv.minutes * 60 + iv.seconds
    ensures seconds / 86400 == iv.days
    ensures var rest := seconds % 86400; rest / 3600 == iv.hours && rest % 3600 / 60 == iv.minutes && rest % 3600 % 60 == iv.seconds
  {
  }

  /** Every count of nanoseconds survives, -2^63 too, and every field is in its range. */
  lemma DurationRoundTrip(count: int)
    requires IsInt64(count)
    ensures ToNanoseconds(FromNanoseconds(count)) == count && Normal(FromNanoseconds(count))
  {
    hide Unsigned64, Signed64;
    var total := if count < 0 then -count else count;
    Magnitude(total, count < 0);
    Decompose(total);
    TotalOf(SplitNanoseconds(total, count < 0), total);
  }

  /** A day-to-second interval is what `from_duration` makes of its own duration exactly when it is normal. */
  lemma IntervalRoundTripIffNormal(iv: SqlInterval)
    requires iv.years == 0 && iv.months == 0
    ensures FromNanoseconds(ToNanoseconds(iv)) == iv <==> Normal(iv)
  {
    hide Unsigned64, Signed64, FromNanoseconds, UnsignedNanoseconds, Normal;
    if Normal(iv) {
      NormalTotals(iv);
    } else {
      Widths(0 - UnsignedNanoseconds(iv));
      Widths(UnsignedNanoseconds(iv));
      Widened(UnsignedNanoseconds(iv));
      DurationRoundTrip(ToNanoseconds(iv));
    }
  }

  lemma Widened(n: nat)
    ensures IsInt64(Signed64(n))
  {
  }

  lemma NormalTotals(iv: SqlInterval)
    requires Normal(iv)
    ensures FromNanoseconds(ToNanoseconds(iv)) == iv
  {
    hide Unsigned64, Signed64, SplitNanoseconds, UnsignedNanoseconds, Normal;
    var total := NormalLength(iv);
    SplitsBack(iv, total);
    TotalOf(iv, total);
    Magnitude(total, iv.isNegative);
  }

  /** The length of a normal interval, whatever its sign. */
  lemma NormalLength(iv: SqlInterval) returns (total: nat)
    requires Normal(iv)
    ensures !OfMonths(iv) && iv.years == 0 && iv.months == 0
    ensures iv.days * 86400 + iv.hours * 3600 + iv.minutes * 60 + iv.seconds == total / Billion && iv.fraction == total % Billion
    ensures if iv.isNegative then 0 < total <= TwoTo63 else total < TwoTo63
  {
    var seconds := iv.days * 86400 + iv.hours * 3600 + iv.minutes * 60 + iv.seconds;
    total := seconds * Billion + iv.fraction;
    DivideBack(seconds, iv.fraction);
  }

  lemma Narrow(n: int)
    requires 0 <= n < 0x1_0000_0000
    ensures Unsigned32(n) == n
  {
  }

  lemma NormalParts(iv: SqlInterval, total: nat)
    requires Normal(iv)
    ensures iv.hours < 24 && iv.minutes < 60 && iv.seconds < 60 && iv == FromDaySecond(iv.days, iv.hours, iv.minutes, iv.seconds, iv.fraction, iv.isNegative)
  {
  }

  lemma SplitsBack(iv: SqlInterval, total: nat)
    requires Normal(iv)
    requires iv.days * 86400 + iv.hours * 3600 + iv.minutes * 60 + iv.seconds == total / Billion && iv.fraction == total % Billion
    ensures SplitNanoseconds(total, iv.isNegative) == iv
  {
    hide Normal, Unsigned32;
    NormalParts(iv, total);
    Recompose(iv, total / Billion);
    Narrow(iv.days);
    Narrow((total / Billion) % 86400);
    Narrow(iv.fraction);
  }

  lemma DivideBack(seconds: nat, fraction: nat)
    requires fraction < Billion
    ensures (seconds * Billion + fraction) / Billion == seconds && (seconds * Billion + fraction) % Billion == fraction
  {
  }
}
