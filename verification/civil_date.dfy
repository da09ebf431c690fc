/** Calendar dates in the proleptic Gregorian calendar, counted as whole day
    numbers from 1970-01-01 (day 0, a Thursday). This is the part of the
    JavaScript `Date` object the calendar relies on: `setDate(getDate() + k)`
    is `n + k`, `getDay()` is the weekday, and `getFullYear()`, `getMonth()`
    and `getDate()` are the fields of FromDayNumber. Time of day and time
    zones are not modelled. */
module CivilDate {
  import opened Text

  const EpochYear := 1970

  predicate IsLeapYear(y: int) {
    y % 4 == 0 && (y % 100 != 0 || y % 400 == 0)
  }

  function DaysInYear(y: int): int {
    if IsLeapYear(y) then 366 else 365
  }

  function DaysInMonth(y: int, m: int): int
    requires 1 <= m <= 12
  {
    if m == 2 then (if IsLeapYear(y) then 29 else 28)
    else if m == 4 || m == 6 || m == 9 || m == 11 then 30
    else 31
  }

  /** Days from January 1st to the first day of month `m`; month 13 stands
      for the following January 1st. */
  function DaysBeforeMonth(y: int, m: int): int
    requires 1 <= m <= 13
  {
    var common := [0, 31, 59, 90, 120, 151, 181, 212, 243, 273, 304, 334, 365][m - 1];
    if m > 2 && IsLeapYear(y) then common + 1 else common
  }

  lemma DaysBeforeMonthStep(y: int, m: int)
    requires 1 <= m <= 12
    ensures DaysBeforeMonth(y, m + 1) == DaysBeforeMonth(y, m) + DaysInMonth(y, m)
    ensures DaysBeforeMonth(y, 13) == DaysInYear(y)
  {
  }

  /** Day number of January 1st of year `y`. */
  function YearStart(y: int): int
    decreases if y >= EpochYear then y - EpochYear else EpochYear - y
  {
    if y == EpochYear then 0
    else if y > EpochYear then YearStart(y - 1) + DaysInYear(y - 1)
    else YearStart(y + 1) - DaysInYear(y)
  }

  lemma YearStartStep(y: int)
    ensures YearStart(y + 1) == YearStart(y) + DaysInYear(y)
  {
  }

  lemma {:induction false} YearStartMonotone(a: int, b: int)
    requires a < b
    ensures YearStart(a + 1) <= YearStart(b)
    decreases b - a
  {
    if a + 1 < b {
      YearStartMonotone(a + 1, b);
      YearStartStep(a + 1);
    }
  }

  datatype Date = Date(year: int, month: int, day: int)

  predicate Valid(d: Date) {
    1 <= d.month <= 12 && 1 <= d.day <= DaysInMonth(d.year, d.month)
  }

  /** Position of a valid date on the day-number line. */
  function DayNumber(d: Date): int
    requires Valid(d)
  {
    YearStart(d.year) + DaysBeforeMonth(d.year, d.month) + d.day - 1
  }

  lemma DayNumberInYear(d: Date)
    requires Valid(d)
    ensures YearStart(d.year) <= DayNumber(d) < YearStart(d.year + 1)
  {
    DaysBeforeMonthStep(d.year, d.month);
    YearStartStep(d.year);
    assert DaysBeforeMonth(d.year, d.month + 1) <= DaysBeforeMonth(d.year, 13);
  }

  /** The year containing day `n`, searched forwards from year `y`. */
  function YearUp(n: int, y: int): (r: int)
    requires YearStart(y) <= n
    ensures YearStart(r) <= n < YearStart(r + 1)
    decreases n - YearStart(y)
  {
    YearStartStep(y);
    if n < YearStart(y + 1) then y else YearUp(n, y + 1)
  }

  /** The year containing day `n`, searched backwards from year `y`. */
  function YearDown(n: int, y: int): (r: int)
    requires n < YearStart(y)
    ensures YearStart(r) <= n < YearStart(r + 1)
    decreases YearStart(y) - n
  {
    YearStartStep(y - 1);
    if YearStart(y - 1) <= n then y - 1 else YearDown(n, y - 1)
  }

  /** Month and day of the `rem`-th day (from 0) after the first of month `m`. */
  function MonthFrom(y: int, m: int, rem: int): (r: (int, int))
    requires 1 <= m <= 12
    requires 0 <= rem < DaysBeforeMonth(y, 13) - DaysBeforeMonth(y, m)
    ensures m <= r.0 <= 12
    ensures 1 <= r.1 <= DaysInMonth(y, r.0)
    ensures DaysBeforeMonth(y, r.0) + r.1 - 1 == DaysBeforeMonth(y, m) + rem
    decreases 12 - m
  {
    DaysBeforeMonthStep(y, m);
    if rem < DaysInMonth(y, m) then (m, rem + 1)
    else MonthFrom(y, m + 1, rem - DaysInMonth(y, m))
  }

  /** The calendar date of day number `n`. */
  function FromDayNumber(n: int): (d: Date)
    ensures Valid(d)
    ensures DayNumber(d) == n
  {
    var y := if n >= YearStart(EpochYear) then YearUp(n, EpochYear) else YearDown(n, EpochYear);
    YearStartStep(y);
    DaysBeforeMonthStep(y, 12);
    var md := MonthFrom(y, 1, n - YearStart(y));
    Date(y, md.0, md.1)
  }

  lemma YearUnique(n: int, a: int, b: int)
    requires YearStart(a) <= n < YearStart(a + 1)
    requires YearStart(b) <= n < YearStart(b + 1)
    ensures a == b
  {
    if a < b {
      YearStartMonotone(a, b);
    } else if b < a {
      YearStartMonotone(b, a);
    }
  }

  lemma MonthUnique(y: int, m1: int, d1: int, m2: int, d2: int)
    requires 1 <= m1 <= 12 && 1 <= d1 <= DaysInMonth(y, m1)
    requires 1 <= m2 <= 12 && 1 <= d2 <= DaysInMonth(y, m2)
    requires DaysBeforeMonth(y, m1) + d1 == DaysBeforeMonth(y, m2) + d2
    ensures m1 == m2 && d1 == d2
  {
    DaysBeforeMonthStep(y, m1);
    DaysBeforeMonthStep(y, m2);
  }

  /** Day numbers and valid dates are in one-to-one correspondence:
      reading a valid date's day number back gives the same date. */
  lemma FromDayNumberInverse(d: Date)
    requires Valid(d)
    ensures FromDayNumber(DayNumber(d)) == d
  {
    var n := DayNumber(d);
    var e := FromDayNumber(n);
    DayNumberInYear(d);
    DayNumberInYear(e);
    YearUnique(n, d.year, e.year);
    MonthUnique(d.year, d.month, d.day, e.month, e.day);
  }

  /** `getDay()`: 0 is Sunday, 1 is Monday, ... 6 is Saturday. */
  function Weekday(n: int): (w: int)
    ensures 0 <= w < 7
  {
    (n + 4) % 7
  }

  /** Moving `k` days on moves the weekday `k` places round the week;
      day 0, 1970-01-01, is a Thursday. */
  lemma WeekdayShift(n: int, k: int)
    ensures Weekday(n + k) == (Weekday(n) + k) % 7
    ensures Weekday(0) == 4
  {
    var q := (n + 4) / 7;
    assert n + 4 == 7 * q + Weekday(n);
    assert n + k + 4 == 7 * q + (Weekday(n) + k);
  }

  // ---------------------------------------------------------------------
  // "YYYY-MM-DD"
  // ---------------------------------------------------------------------

  /** `${getFullYear()}-${month padded}-${day padded}` (formatDate in the calendar). */
  function FormatDate(n: int): string {
    FormatFields(FromDayNumber(n))
  }

  function FormatFields(d: Date): string {
    DecimalString(d.year) + "-" + Pad2(d.month) + "-" + Pad2(d.day)
  }

  /** Reads back the year, month and day of a formatted date. */
  function ParseDate(s: string): Date
    requires IsDateText(s)
  {
    Date(ParseDecimal(s[..|s| - 6]), ParseDigits(s[|s| - 5..|s| - 3]), ParseDigits(s[|s| - 2..]))
  }

  predicate IsDateText(s: string) {
    && 7 <= |s|
    && IsDecimal(s[..|s| - 6])
    && AllDigits(s[|s| - 5..|s| - 3])
    && AllDigits(s[|s| - 2..])
  }

  lemma DigitRoundTrip(d: int)
    requires 0 <= d <= 9
    ensures DigitValue(DigitChar(d)) == d
  {
  }

  lemma TwoDigits(n: int)
    requires 0 <= n <= 99
    ensures |Pad2(n)| == 2 && AllDigits(Pad2(n))
    ensures ParseDigits(Pad2(n)) == n
  {
    Pad2Digits(n);
    var p := Pad2(n);
    DigitRoundTrip(n / 10);
    DigitRoundTrip(n % 10);
    assert p[..1] == [DigitChar(n / 10)];
    assert p[..1][..0] == [];
    assert ParseDigits(p[..1]) == n / 10;
  }

  lemma {:induction false} FormatFieldsInverse(d: Date)
    requires 0 <= d.month <= 99 && 0 <= d.day <= 99
    ensures IsDateText(FormatFields(d))
    ensures ParseDate(FormatFields(d)) == d
  {
    TwoDigits(d.month);
    TwoDigits(d.day);
    DecimalStringInverse(d.year);
    JoinedSlices(DecimalString(d.year), Pad2(d.month), Pad2(d.day));
  }

  /** Where the three fields sit in `y + "-" + m + "-" + d` for two-character m and d. */
  lemma JoinedSlices(ys: string, ms: string, ds: string)
    requires |ms| == 2 && |ds| == 2
    ensures var s := ys + "-" + ms + "-" + ds;
      && |s| == |ys| + 6
      && s[..|s| - 6] == ys
      && s[|s| - 5..|s| - 3] == ms
      && s[|s| - 2..] == ds
      && s[|ys|] == '-' && s[|ys| + 3] == '-'
  {
  }

  /** The formatted date reads back as the calendar date of that day. */
  lemma FormatDateInverse(n: int)
    ensures IsDateText(FormatDate(n))
    ensures ParseDate(FormatDate(n)) == FromDayNumber(n)
  {
    FormatFieldsInverse(FromDayNumber(n));
  }

  /** Distinct days never share a date string, so a date string picks out
      one day. */
  lemma FormatDateInjective(a: int, b: int)
    requires FormatDate(a) == FormatDate(b)
    ensures a == b
  {
    FormatDateInverse(a);
    FormatDateInverse(b);
  }

  /** For four-digit years the string is the zero-padded "YYYY-MM-DD" form. */
  lemma FormatDateShape(n: int)
    requires 1000 <= FromDayNumber(n).year <= 9999
    ensures |FormatDate(n)| == 10
    ensures FormatDate(n)[4] == '-' && FormatDate(n)[7] == '-'
    ensures forall i :: 0 <= i < 10 && i != 4 && i != 7 ==> IsDigit(FormatDate(n)[i])
  {
    FieldsShape(FromDayNumber(n));
  }

  lemma FieldsShape(d: Date)
    requires 1000 <= d.year <= 9999 && 0 <= d.month <= 99 && 0 <= d.day <= 99
    ensures |FormatFields(d)| == 10
    ensures FormatFields(d)[4] == '-' && FormatFields(d)[7] == '-'
    ensures forall i :: 0 <= i < 10 && i != 4 && i != 7 ==> IsDigit(FormatFields(d)[i])
  {
    TwoDigits(d.month);
    TwoDigits(d.day);
    FourDigits(d.year);
    DigitSlots(DecimalString(d.year), Pad2(d.month), Pad2(d.day));
  }

  lemma DigitSlots(ys: string, ms: string, ds: string)
    requires |ys| == 4 && |ms| == 2 && |ds| == 2
    requires AllDigits(ys) && AllDigits(ms) && AllDigits(ds)
    ensures var s := ys + "-" + ms + "-" + ds;
      && |s| == 10 && s[4] == '-' && s[7] == '-'
      && forall i :: 0 <= i < 10 && i != 4 && i != 7 ==> IsDigit(s[i])
  {
    var s := ys + "-" + ms + "-" + ds;
    assert forall i :: 0 <= i < 4 ==> s[i] == ys[i];
    assert s[5] == ms[0] && s[6] == ms[1] && s[8] == ds[0] && s[9] == ds[1];
  }

  lemma FourDigits(y: int)
    requires 1000 <= y <= 9999
    ensures |DecimalString(y)| == 4 && AllDigits(DecimalString(y))
  {
    assert Digits(y) == Digits(y / 10) + [DigitChar(y % 10)];
    assert 100 <= y / 10 < 1000;
    assert Digits(y / 10) == Digits(y / 100) + [DigitChar((y / 10) % 10)];
  }

  lemma DigitsHaveNoT(s: string)
    requires AllDigits(s)
    ensures 'T' !in s
  {
  }

  /** A formatted date is made of digits and hyphens only, so it holds no
      'T' and comes back whole from `split('T')[0]`. */
  lemma FormatDateHasNoT(n: int)
    ensures 'T' !in FormatDate(n)
  {
    FieldsHaveNoT(FromDayNumber(n));
  }

  lemma FieldsHaveNoT(d: Date)
    requires 0 <= d.month <= 99 && 0 <= d.day <= 99
    ensures 'T' !in FormatFields(d)
  {
    TwoDigits(d.month);
    TwoDigits(d.day);
    DecimalStringInverse(d.year);
    PartsHaveNoT(DecimalString(d.year), Pad2(d.month), Pad2(d.day));
  }

  lemma PartsHaveNoT(ys: string, ms: string, ds: string)
    requires IsDecimal(ys) && AllDigits(ms) && AllDigits(ds)
    ensures 'T' !in ys + "-" + ms + "-" + ds
  {
    DigitsHaveNoT(ms);
    DigitsHaveNoT(ds);
    if AllDigits(ys) {
      DigitsHaveNoT(ys);
    } else {
      DigitsHaveNoT(ys[1..]);
      assert ys == [ys[0]] + ys[1..];
    }
  }
}
