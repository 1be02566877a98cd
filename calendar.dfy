/** Calendar dates in the fixed form YYYY-MM-DD, clock times in the fixed
    form HH:MM, and the whole-day difference between two dates.

    Day numbers follow the proleptic Gregorian ordinal of Python's `date`
    type (day 1 is 0001-01-01), so that `DaysBetween(a, b)` is the `.days` of
    the difference of the two parsed datetimes at midnight. */
module Calendar {
  import opened Results

  // ---------------------------------------------------------------------
  // Fixed-width decimal fields

  predicate IsDigit(c: char) { '0' <= c <= '9' }

  predicate AllDigits(s: string) { forall i :: 0 <= i < |s| ==> IsDigit(s[i]) }

  function Pow10(n: nat): (r: nat)
    ensures r >= 1
  {
    if n == 0 then 1 else 10 * Pow10(n - 1)
  }

  /** The value of a run of decimal digits, most significant first. */
  function DigitsValue(s: string): (v: nat)
    requires AllDigits(s)
    ensures v < Pow10(|s|)
  {
    if s == [] then 0
    else 10 * DigitsValue(s[..|s| - 1]) + (s[|s| - 1] as int - '0' as int)
  }

  /** `n` written with exactly `width` digits, padded with leading zeros. */
  function Digits(n: nat, width: nat): (s: string)
    requires n < Pow10(width)
    ensures |s| == width && AllDigits(s)
    ensures DigitsValue(s) == n
  {
    if width == 0 then ""
    else
      var prefix := Digits(n / 10, width - 1);
      var s := prefix + [('0' as int + n % 10) as char];
      assert s[..|s| - 1] == prefix;
      s
  }

  /** Reading a digit field and writing its value back at the same width gives the field. */
  lemma {:induction false} DigitsOfValue(s: string)
    requires AllDigits(s)
    ensures Digits(DigitsValue(s), |s|) == s
  {
    if s != [] {
      var p := s[..|s| - 1];
      assert AllDigits(p);
      DigitsOfValue(p);
      var v := DigitsValue(s);
      assert v / 10 == DigitsValue(p);
      assert s == p + [s[|s| - 1]];
    }
  }

  // ---------------------------------------------------------------------
  // Gregorian calendar

  datatype Date = Date(year: int, month: int, day: int)

  predicate IsLeap(y: int) {
    y % 4 == 0 && (y % 100 != 0 || y % 400 == 0)
  }

  function DaysInMonth(y: int, m: int): (n: int)
    requires 1 <= m <= 12
    ensures 28 <= n <= 31
    ensures m == 2 ==> (n == 29 <==> IsLeap(y))
    ensures m != 2 ==> (n == 30 <==> m in {4, 6, 9, 11})
  {
    if m == 2 then (if IsLeap(y) then 29 else 28)
    else if m == 4 || m == 6 || m == 9 || m == 11 then 30
    else 31
  }

  function DaysInYear(y: int): int {
    if IsLeap(y) then 366 else 365
  }

  /** Years 1 to 9999 (the range of Python's `datetime`), months 1 to 12, and a day
      that exists in that month of that year. */
  predicate ValidDate(d: Date) {
    && 1 <= d.year <= 9999
    && 1 <= d.month <= 12
    && 1 <= d.day <= DaysInMonth(d.year, d.month)
  }

  /** Calendar order: earlier year, or same year and earlier month, or same month and earlier day. */
  predicate Before(a: Date, b: Date) {
    || a.year < b.year
    || (a.year == b.year && a.month < b.month)
    || (a.year == b.year && a.month == b.month && a.day < b.day)
  }

  /** The day after `d` on the calendar. */
  function NextDay(d: Date): Date
    requires ValidDate(d)
  {
    if d.day < DaysInMonth(d.year, d.month) then Date(d.year, d.month, d.day + 1)
    else if d.month < 12 then Date(d.year, d.month + 1, 1)
    else Date(d.year + 1, 1, 1)
  }

  /** Days in the years before year `y`: the lengths of years 1 to y - 1 added up. */
  function DaysBeforeYear(y: int): (days: int)
    requires y >= 1
    ensures 365 * (y - 1) <= days <= 366 * (y - 1)
  {
    if y == 1 then 0 else DaysBeforeYear(y - 1) + DaysInYear(y - 1)
  }

  /** Days in the months of year `y` before month `m`. */
  function DaysBeforeMonth(y: int, m: int): int
    requires 1 <= m <= 12
  {
    [0, 31, 59, 90, 120, 151, 181, 212, 243, 273, 304, 334][m - 1]
    + (if m > 2 && IsLeap(y) then 1 else 0)
  }

  /** Days before year `y` counted the other way round: 365 for each earlier year, plus
      one for each earlier year divisible by 4, less those divisible by 100, plus those
      divisible by 400. */
  function LeapCountedDaysBeforeYear(y: int): int
    requires y >= 1
  {
    var n := y - 1;
    n * 365 + n / 4 - n / 100 + n / 400
  }

  /** The running sum of year lengths and the leap-year count agree. */
  lemma {:induction false} DaysBeforeYearCounted(y: int)
    requires y >= 1
    ensures DaysBeforeYear(y) == LeapCountedDaysBeforeYear(y)
  {
    if y > 1 {
      DaysBeforeYearCounted(y - 1);
      LeapCountStep(y - 1);
    }
  }

  /** Going from `n - 1` to `n` earlier years adds one leap day exactly when year `n` is leap. */
  lemma LeapCountStep(n: int)
    requires n >= 1
    ensures (n / 4 - (n - 1) / 4) - (n / 100 - (n - 1) / 100) + (n / 400 - (n - 1) / 400)
            == if IsLeap(n) then 1 else 0
  {
    var by4, by100, by400 := n / 4 - (n - 1) / 4, n / 100 - (n - 1) / 100, n / 400 - (n - 1) / 400;
    assert by4 == if n % 4 == 0 then 1 else 0;
    assert by100 == if n % 100 == 0 then 1 else 0;
    assert by400 == if n % 400 == 0 then 1 else 0;
    DivisorsNest(n);
  }

  /** A multiple of 400 is a multiple of 100, and a multiple of 100 is a multiple of 4. */
  lemma DivisorsNest(n: int)
    ensures n % 400 == 0 ==> n % 100 == 0
    ensures n % 100 == 0 ==> n % 4 == 0
  {
    if n % 100 == 0 {
      var q := n / 100;
      assert n == 4 * (25 * q);
    }
    if n % 400 == 0 {
      var q := n / 400;
      assert n == 100 * (4 * q);
    }
  }

  /** The day number of a date; 0001-01-01 is day 1. */
  function Ordinal(d: Date): (n: int)
    requires ValidDate(d)
    ensures n >= 1
  {
    DaysBeforeYear(d.year) + DaysBeforeMonth(d.year, d.month) + d.day
  }

  /** The day number is the count of days before the year by the leap-year rule, plus
      the days before the month, plus the day. */
  lemma OrdinalCounted(d: Date)
    requires ValidDate(d)
    ensures Ordinal(d) == LeapCountedDaysBeforeYear(d.year) + DaysBeforeMonth(d.year, d.month) + d.day
  {
    DaysBeforeYearCounted(d.year);
  }

  lemma {:induction false} DaysBeforeYearMonotone(y1: int, y2: int)
    requires 1 <= y1 <= y2
    ensures DaysBeforeYear(y1) <= DaysBeforeYear(y2)
    ensures y1 < y2 ==> DaysBeforeYear(y1) < DaysBeforeYear(y2)
    decreases y2 - y1
  {
    if y1 < y2 {
      DaysBeforeYearMonotone(y1 + 1, y2);
    }
  }

  lemma DaysBeforeMonthStep(y: int, m: int)
    requires 1 <= m < 12
    ensures DaysBeforeMonth(y, m + 1) == DaysBeforeMonth(y, m) + DaysInMonth(y, m)
  {
  }

  lemma {:induction false} DaysBeforeMonthMonotone(y: int, m1: int, m2: int)
    requires 1 <= m1 <= m2 <= 12
    ensures DaysBeforeMonth(y, m1) <= DaysBeforeMonth(y, m2)
    decreases m2 - m1
  {
    if m1 < m2 {
      DaysBeforeMonthStep(y, m1);
      DaysBeforeMonthMonotone(y, m1 + 1, m2);
    }
  }

  /** A date's day number never passes the first day of the following year. */
  lemma OrdinalWithinYear(d: Date)
    requires ValidDate(d)
    ensures DaysBeforeYear(d.year) < Ordinal(d) <= DaysBeforeYear(d.year + 1)
  {
    if d.month < 12 {
      DaysBeforeMonthStep(d.year, d.month);
      DaysBeforeMonthMonotone(d.year, d.month + 1, 12);
    }
  }

  /** Day numbers follow calendar order, so a later date always has a larger day number. */
  lemma OrdinalIncreasing(a: Date, b: Date)
    requires ValidDate(a) && ValidDate(b)
    requires Before(a, b)
    ensures Ordinal(a) < Ordinal(b)
  {
    if a.year < b.year {
      OrdinalWithinYear(a);
      OrdinalWithinYear(b);
      DaysBeforeYearMonotone(a.year + 1, b.year);
    } else if a.month < b.month {
      DaysBeforeMonthStep(a.year, a.month);
      DaysBeforeMonthMonotone(a.year, a.month + 1, b.month);
    }
  }

  /** New Year's Day 2024 is day 738886, the number Python's `date.toordinal` gives it. */
  lemma OrdinalOfNewYear2024()
    ensures Ordinal(Date(2024, 1, 1)) == 738886
  {
    OrdinalCounted(Date(2024, 1, 1));
  }

  /** Whole days from `a` to `b`, as the `days` of the difference of two dates. The span
      is positive exactly when `b` is later on the calendar, zero exactly when the two
      dates are the same, and negative exactly when `b` is earlier. */
  function DaysBetween(a: Date, b: Date): (days: int)
    requires ValidDate(a) && ValidDate(b)
    ensures days > 0 <==> Before(a, b)
    ensures days == 0 <==> a == b
    ensures days < 0 <==> Before(b, a)
  {
    if Before(a, b) then OrdinalIncreasing(a, b); Ordinal(b) - Ordinal(a)
    else if Before(b, a) then OrdinalIncreasing(b, a); Ordinal(b) - Ordinal(a)
    else Ordinal(b) - Ordinal(a)
  }

  /** The last day `datetime` can represent. */
  predicate IsLastDay(d: Date) { d.year == 9999 && d.month == 12 && d.day == 31 }

  /** The next calendar day is one day later. */
  lemma NextDayIsOneDayLater(d: Date)
    requires ValidDate(d) && !IsLastDay(d)
    ensures ValidDate(NextDay(d)) && Before(d, NextDay(d))
    ensures DaysBetween(d, NextDay(d)) == 1
  {
    OrdinalOfNextDay(d);
  }

  lemma OrdinalOfNextDay(d: Date)
    requires ValidDate(d) && !IsLastDay(d)
    ensures ValidDate(NextDay(d))
    ensures Ordinal(NextDay(d)) == Ordinal(d) + 1
  {
    if d.day < DaysInMonth(d.year, d.month) {
      assert NextDay(d) == Date(d.year, d.month, d.day + 1);
    } else if d.month < 12 {
      OrdinalOfNextMonth(d);
    } else {
      OrdinalOfNextYear(d);
    }
  }

  /** From the last day of a month other than December to the first of the next month. */
  lemma OrdinalOfNextMonth(d: Date)
    requires ValidDate(d) && d.day == DaysInMonth(d.year, d.month) && d.month < 12
    ensures NextDay(d) == Date(d.year, d.month + 1, 1) && ValidDate(NextDay(d))
    ensures Ordinal(NextDay(d)) == Ordinal(d) + 1
  {
    DaysBeforeMonthStep(d.year, d.month);
  }

  /** From December 31st to January 1st of the following year. */
  lemma OrdinalOfNextYear(d: Date)
    requires ValidDate(d) && d.month == 12 && d.day == 31 && d.year < 9999
    ensures NextDay(d) == Date(d.year + 1, 1, 1) && ValidDate(NextDay(d))
    ensures Ordinal(NextDay(d)) == Ordinal(d) + 1
  {
    assert DaysBeforeMonth(d.year, 12) + 31 == DaysInYear(d.year);
  }

  // ---------------------------------------------------------------------
  // YYYY-MM-DD

  /** The date written with a four-digit year and two-digit month and day. */
  function FormatDate(d: Date): (s: string)
    requires ValidDate(d)
    ensures |s| == 10 && s[4] == '-' && s[7] == '-'
  {
    Digits(d.year, 4) + "-" + Digits(d.month, 2) + "-" + Digits(d.day, 2)
  }

  /** Strict `%Y-%m-%d`: ten characters, digit fields of widths 4, 2 and 2 separated
      by '-', naming a date that exists. */
  function ParseDate(s: string): (r: Option<Date>)
    ensures r.Some? ==> ValidDate(r.value) && FormatDate(r.value) == s
  {
    if |s| == 10 && s[4] == '-' && s[7] == '-'
       && AllDigits(s[..4]) && AllDigits(s[5..7]) && AllDigits(s[8..])
    then
      var d := Date(DigitsValue(s[..4]), DigitsValue(s[5..7]), DigitsValue(s[8..]));
      if ValidDate(d) then
        FormatDateOfFields(s[..4], s[5..7], s[8..]);
        assert s == s[..4] + "-" + s[5..7] + "-" + s[8..];
        Some(d)
      else None
    else None
  }

  /** Writing back the date read from three digit fields gives the fields joined by '-'. */
  lemma FormatDateOfFields(year: string, month: string, day: string)
    requires |year| == 4 && |month| == 2 && |day| == 2
    requires AllDigits(year) && AllDigits(month) && AllDigits(day)
    requires ValidDate(Date(DigitsValue(year), DigitsValue(month), DigitsValue(day)))
    ensures FormatDate(Date(DigitsValue(year), DigitsValue(month), DigitsValue(day)))
            == year + "-" + month + "-" + day
  {
    DigitsOfValue(year);
    DigitsOfValue(month);
    DigitsOfValue(day);
  }

  /** Every date that exists is accepted in its written form, and read back unchanged. */
  lemma ParseFormatDate(d: Date)
    requires ValidDate(d)
    ensures ParseDate(FormatDate(d)) == Some(d)
  {
    var s := FormatDate(d);
    assert s[..4] == Digits(d.year, 4);
    assert s[5..7] == Digits(d.month, 2);
    assert s[8..] == Digits(d.day, 2);
  }

  /** Both texts are dates in `YYYY-MM-DD` form and the second is a later day. */
  predicate ValidStay(startDate: string, endDate: string) {
    var start, end := ParseDate(startDate), ParseDate(endDate);
    start.Some? && end.Some? && Before(start.value, end.value)
  }

  // ---------------------------------------------------------------------
  // HH:MM

  datatype Time = Time(hour: int, minute: int)

  predicate ValidTime(t: Time) {
    0 <= t.hour < 24 && 0 <= t.minute < 60
  }

  function FormatTime(t: Time): (s: string)
    requires ValidTime(t)
    ensures |s| == 5 && s[2] == ':'
  {
    Digits(t.hour, 2) + ":" + Digits(t.minute, 2)
  }

  /** Strict `%H:%M`: five characters, two-digit hour 00-23, ':', two-digit minute 00-59. */
  function ParseTime(s: string): (r: Option<Time>)
    ensures r.Some? ==> ValidTime(r.value) && FormatTime(r.value) == s
  {
    if |s| == 5 && s[2] == ':' && AllDigits(s[..2]) && AllDigits(s[3..]) then
      var t := Time(DigitsValue(s[..2]), DigitsValue(s[3..]));
      if ValidTime(t) then
        FormatTimeOfFields(s[..2], s[3..]);
        assert s == s[..2] + ":" + s[3..];
        Some(t)
      else None
    else None
  }

  /** Writing back the time read from two digit fields gives the fields around ':'. */
  lemma FormatTimeOfFields(hour: string, minute: string)
    requires |hour| == 2 && |minute| == 2 && AllDigits(hour) && AllDigits(minute)
    requires ValidTime(Time(DigitsValue(hour), DigitsValue(minute)))
    ensures FormatTime(Time(DigitsValue(hour), DigitsValue(minute))) == hour + ":" + minute
  {
    DigitsOfValue(hour);
    DigitsOfValue(minute);
  }

  /** Every 24-hour clock time is accepted in its written form, and read back unchanged. */
  lemma ParseFormatTime(t: Time)
    requires ValidTime(t)
    ensures ParseTime(FormatTime(t)) == Some(t)
  {
    var s := FormatTime(t);
    assert s[..2] == Digits(t.hour, 2);
    assert s[3..] == Digits(t.minute, 2);
  }
}
