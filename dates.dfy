/**
  Calendar dates. The model counts days the way Python's `date.toordinal()` does
  (0001-01-01 is day 1), so `d + timedelta(days=k)` is `d + k` and date
  comparison is integer comparison. `to_date_only` is modelled for its text
  case: Python's `strptime(s, "%Y-%m-%d")`.
*/
module Dates {
  import opened Wrappers
  import opened Text
  import opened Numerals

  /** A day number, as `date.toordinal()` gives it. */
  type Day = int

  datatype Civil = Civil(year: int, month: int, day: int)

  predicate IsLeap(y: int) {
    y % 4 == 0 && (y % 100 != 0 || y % 400 == 0)
  }

  function DaysInYear(y: int): int {
    if IsLeap(y) then 366 else 365
  }

  function DaysInMonth(y: int, m: int): int
    requires 1 <= m <= 12
  {
    if m == 2 then (if IsLeap(y) then 29 else 28)
    else if m == 4 || m == 6 || m == 9 || m == 11 then 30
    else 31
  }

  /** The dates Python's `date` accepts. */
  predicate IsValid(c: Civil) {
    1 <= c.year <= 9999 && 1 <= c.month <= 12 && 1 <= c.day <= DaysInMonth(c.year, c.month)
  }

  function DaysBeforeYear(y: int): int
    requires y >= 1
  {
    var p := y - 1;
    p * 365 + p / 4 - p / 100 + p / 400
  }

  function DaysBeforeMonth(y: int, m: int): int
    requires 1 <= m <= 12
  {
    [0, 31, 59, 90, 120, 151, 181, 212, 243, 273, 304, 334][m - 1] + (if m > 2 && IsLeap(y) then 1 else 0)
  }

  /** `date(y, m, d).toordinal()`. */
  function ToOrdinal(c: Civil): Day
    requires IsValid(c)
  {
    DaysBeforeYear(c.year) + DaysBeforeMonth(c.year, c.month) + c.day
  }

  /** Calendar order: earlier year, or same year and earlier month, or same month and earlier day. */
  predicate CivilBefore(a: Civil, b: Civil) {
    a.year < b.year || (a.year == b.year && (a.month < b.month || (a.month == b.month && a.day < b.day)))
  }

  lemma DaysBeforeYearStep(y: int)
    requires y >= 1
    ensures DaysBeforeYear(y + 1) == DaysBeforeYear(y) + DaysInYear(y)
  {
    var p := y - 1;
    DivStep4(p);
    DivStep100(p);
    DivStep400(p);
  }

  // Counting one further, each quotient goes up by one exactly when its divisor divides the new number.

  lemma DivStep4(p: int)
    ensures (p + 1) / 4 == p / 4 + (if (p + 1) % 4 == 0 then 1 else 0)
  {
  }

  lemma DivStep100(p: int)
    ensures (p + 1) / 100 == p / 100 + (if (p + 1) % 100 == 0 then 1 else 0)
  {
  }

  lemma DivStep400(p: int)
    ensures (p + 1) / 400 == p / 400 + (if (p + 1) % 400 == 0 then 1 else 0)
  {
  }

  lemma {:induction false} DaysBeforeYearMonotone(a: int, b: int)
    requires 1 <= a <= b
    ensures DaysBeforeYear(a) + (if a < b then DaysInYear(a) else 0) <= DaysBeforeYear(b)
    decreases b - a
  {
    if a < b {
      DaysBeforeYearStep(a);
      if a + 1 < b {
        DaysBeforeYearMonotone(a + 1, b);
      }
    }
  }

  lemma DaysBeforeMonthStep(y: int, m: int)
    requires 1 <= m <= 12
    ensures m < 12 ==> DaysBeforeMonth(y, m + 1) == DaysBeforeMonth(y, m) + DaysInMonth(y, m)
    ensures m == 12 ==> DaysBeforeMonth(y, m) + DaysInMonth(y, m) == DaysInYear(y)
  {
  }

  lemma {:induction false} DaysBeforeMonthMonotone(y: int, a: int, b: int)
    requires 1 <= a < b <= 12
    ensures DaysBeforeMonth(y, a) + DaysInMonth(y, a) <= DaysBeforeMonth(y, b)
    decreases b - a
  {
    DaysBeforeMonthStep(y, a);
    if a + 1 < b {
      DaysBeforeMonthMonotone(y, a + 1, b);
    }
  }

  /** Ordinals respect calendar order, so comparing day numbers is comparing dates. */
  lemma OrdinalMonotone(a: Civil, b: Civil)
    requires IsValid(a) && IsValid(b) && CivilBefore(a, b)
    ensures ToOrdinal(a) < ToOrdinal(b)
  {
    if a.year < b.year {
      DaysBeforeMonthStep(a.year, 12);
      DaysBeforeMonthMonotoneTo12(a.year, a.month);
      DaysBeforeYearMonotone(a.year, b.year);
    } else if a.month < b.month {
      DaysBeforeMonthMonotone(a.year, a.month, b.month);
    }
  }

  lemma DaysBeforeMonthMonotoneTo12(y: int, m: int)
    requires 1 <= m <= 12
    ensures DaysBeforeMonth(y, m) + DaysInMonth(y, m) <= DaysInYear(y)
  {
    DaysBeforeMonthStep(y, 12);
    if m < 12 {
      DaysBeforeMonthMonotone(y, m, 12);
    }
  }

  /** Calendar order and day-number order agree in both directions; distinct dates have distinct numbers. */
  lemma OrdinalOrder(a: Civil, b: Civil)
    requires IsValid(a) && IsValid(b)
    ensures CivilBefore(a, b) <==> ToOrdinal(a) < ToOrdinal(b)
    ensures a == b <==> ToOrdinal(a) == ToOrdinal(b)
  {
    if CivilBefore(a, b) {
      OrdinalMonotone(a, b);
    } else if CivilBefore(b, a) {
      OrdinalMonotone(b, a);
    }
  }

  // ---- From a day number back to the calendar ----

  /** `date(9999, 12, 31).toordinal()`, the last day Python's `date` has. */
  const MaxDay: Day := 3652059

  /** The year holding day `d`, searching from year `y` on. */
  function YearOf(d: Day, y: int): (r: int)
    requires 1 <= y <= 9999 && DaysBeforeYear(y) < d <= MaxDay
    ensures y <= r <= 9999 && DaysBeforeYear(r) < d <= DaysBeforeYear(r) + DaysInYear(r)
    decreases 9999 - y
  {
    DaysBeforeYearStep(y);
    if d <= DaysBeforeYear(y) + DaysInYear(y) then y else YearOf(d, y + 1)
  }

  /** The month holding day `n` of year `y`, searching from month `m` on. */
  function MonthOf(y: int, n: int, m: int): (r: int)
    requires 1 <= m <= 12 && DaysBeforeMonth(y, m) < n <= DaysInYear(y)
    ensures m <= r <= 12 && DaysBeforeMonth(y, r) < n <= DaysBeforeMonth(y, r) + DaysInMonth(y, r)
    decreases 12 - m
  {
    DaysBeforeMonthStep(y, m);
    if n <= DaysBeforeMonth(y, m) + DaysInMonth(y, m) then m else MonthOf(y, n, m + 1)
  }

  /** `date.fromordinal(d)`: the valid date whose day number is `d`. */
  function FromOrdinal(d: Day): (c: Civil)
    requires 1 <= d <= MaxDay
    ensures IsValid(c) && ToOrdinal(c) == d
  {
    var y := YearOf(d, 1);
    var n := d - DaysBeforeYear(y);
    var m := MonthOf(y, n, 1);
    Civil(y, m, n - DaysBeforeMonth(y, m))
  }

  /** Every valid date has a day number in range, and `FromOrdinal` gives the date back. */
  lemma OrdinalRoundTrip(c: Civil)
    requires IsValid(c)
    ensures 1 <= ToOrdinal(c) <= MaxDay
    ensures FromOrdinal(ToOrdinal(c)) == c
  {
    var last := Civil(9999, 12, 31);
    assert ToOrdinal(last) == MaxDay;
    if c != last {
      OrdinalMonotone(c, last);
    }
    OrdinalOrder(FromOrdinal(ToOrdinal(c)), c);
  }

  /**
    `date.isoformat()` of the day numbered `d`: ten characters that
    `strptime(..., "%Y-%m-%d")` reads back as that day. Days outside years
    1 to 9999 are not Python dates; they get the empty text.
  */
  function IsoText(d: Day): (s: string)
    ensures 1 <= d <= MaxDay ==> |s| == 10 && ParseYmd(s).Some? && ToOrdinal(ParseYmd(s).value) == d
  {
    if 1 <= d <= MaxDay then
      ParseFormatIso(FromOrdinal(d));
      FormatIso(FromOrdinal(d))
    else ""
  }

  /** The ISO text of a date's day number is the date's own `isoformat()`. */
  lemma IsoTextOfDate(c: Civil)
    requires IsValid(c)
    ensures IsoText(ToOrdinal(c)) == FormatIso(c)
  {
    OrdinalRoundTrip(c);
  }

  // ---- to_date_only, text case ----

  predicate IsNonZeroDigit(c: char) { '1' <= c <= '9' }

  /** `%m`: `1[0-2]|0[1-9]|[1-9]`. */
  function MonthField(t: string): Option<int> {
    if |t| == 1 && IsNonZeroDigit(t[0]) then Some(DigitValue(t[0]))
    else if |t| == 2 && ((t[0] == '1' && '0' <= t[1] <= '2') || (t[0] == '0' && IsNonZeroDigit(t[1])))
    then Some(DigitValue(t[0]) * 10 + DigitValue(t[1]))
    else None
  }

  /** `%d`: `3[01]|[12]\d|0[1-9]|[1-9]| [1-9]`, which must reach the end of the text. */
  function DayField(t: string): Option<int> {
    if |t| == 1 && IsNonZeroDigit(t[0]) then Some(DigitValue(t[0]))
    else if |t| == 2 && t[0] == ' ' && IsNonZeroDigit(t[1]) then Some(DigitValue(t[1]))
    else if |t| == 2 && ((t[0] == '3' && (t[1] == '0' || t[1] == '1'))
                        || ((t[0] == '1' || t[0] == '2') && IsDigit(t[1]))
                        || (t[0] == '0' && IsNonZeroDigit(t[1])))
    then Some(DigitValue(t[0]) * 10 + DigitValue(t[1]))
    else None
  }

  /** `datetime.strptime(s, "%Y-%m-%d").date()`, `None` where Python raises `ValueError`. */
  function ParseYmd(s: string): (r: Option<Civil>)
    ensures r.Some? ==> IsValid(r.value)
  {
    if |s| < 5 || !AllDigits(s[..4]) || s[4] != '-' then None
    else
      var rest := s[5..];
      var mlen := if |rest| >= 2 && rest[1] == '-' then 1
                  else if |rest| >= 3 && rest[2] == '-' then 2
                  else 0;
      if mlen == 0 then None
      else
        match (MonthField(rest[..mlen]), DayField(rest[mlen + 1..]))
        case (Some(m), Some(d)) =>
          var c := Civil(DigitsValue(s[..4]), m, d);
          if IsValid(c) then Some(c) else None
        case _ => None
  }

  function Pad2(n: int): (s: string)
    requires 0 <= n < 100
    ensures |s| == 2 && AllDigits(s)
  {
    [DigitChar(n / 10), DigitChar(n % 10)]
  }

  function Pad4(n: int): (s: string)
    requires 0 <= n < 10000
    ensures |s| == 4 && AllDigits(s)
  {
    [DigitChar(n / 1000), DigitChar(n / 100 % 10), DigitChar(n / 10 % 10), DigitChar(n % 10)]
  }

  /** `date.isoformat()`: `YYYY-MM-DD`, zero-padded. */
  function FormatIso(c: Civil): (s: string)
    requires IsValid(c)
    ensures |s| == 10
  {
    Pad4(c.year) + "-" + Pad2(c.month) + "-" + Pad2(c.day)
  }

  lemma Pad4Value(n: int)
    requires 0 <= n < 10000
    ensures DigitsValue(Pad4(n)) == n
  {
    var s := Pad4(n);
    assert s[..3][..2][..1] == [s[0]];
    assert s[..3][..2] == s[..2];
    assert DigitsValue(s[..1]) == n / 1000;
    assert DigitsValue(s[..2]) == n / 100;
    assert DigitsValue(s[..3]) == n / 10;
  }

  /** `isoformat` then `strptime(..., "%Y-%m-%d")` gives the date back. */
  lemma ParseFormatIso(c: Civil)
    requires IsValid(c)
    ensures ParseYmd(FormatIso(c)) == Some(c)
  {
    var s := FormatIso(c);
    Pad4Value(c.year);
    assert s[..4] == Pad4(c.year);
    assert s[4] == '-';
    var rest := s[5..];
    assert rest[2] == '-' && rest[1] != '-';
    assert rest[..2] == Pad2(c.month);
    assert rest[3..] == Pad2(c.day);
    assert MonthField(Pad2(c.month)) == Some(c.month);
    assert DayField(Pad2(c.day)) == Some(c.day);
  }

  /** The kinds of value a database driver hands to `to_date_only`. */
  datatype DbValue =
    | NullValue
    | DateTimeValue(date: Day, secondOfDay: nat)
    | DateValue(day: Day)
    | TextValue(text: string)
    | OtherValue

  /**
    `to_date_only(v)`. For text, the first format tried is `%Y-%m-%d`; the
    remaining attempts (two timestamp formats and `fromisoformat`) are the
    library parsers `laterFormats`, consulted only when that first one fails.
  */
  function ToDateOnly(v: DbValue, laterFormats: string -> Option<Day>): (r: Option<Day>)
    ensures v.NullValue? || v.OtherValue? ==> r == None
    ensures v.DateTimeValue? ==> r == Some(v.date)
    ensures v.DateValue? ==> r == Some(v.day)
  {
    match v
    case NullValue => None
    case DateTimeValue(d, _) => Some(d)
    case DateValue(d) => Some(d)
    case TextValue(s) =>
      var t := Strip(s);
      (match ParseYmd(t)
       case Some(c) => Some(ToOrdinal(c))
       case None => laterFormats(t))
    case OtherValue => None
  }

  /** A `YYYY-MM-DD` text, with any surrounding whitespace, is read as that date whatever the later parsers do. */
  lemma ToDateOnlyOfIsoText(c: Civil, sp1: string, sp2: string, laterFormats: string -> Option<Day>)
    requires IsValid(c) && AllSpace(sp1) && AllSpace(sp2)
    ensures ToDateOnly(TextValue(sp1 + FormatIso(c) + sp2), laterFormats) == Some(ToOrdinal(c))
  {
    var t := FormatIso(c);
    assert IsDigit(t[0]) && IsDigit(t[9]);
    StripPadded(sp1, t, sp2);
    ParseFormatIso(c);
  }
}
