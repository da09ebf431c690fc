/** Clock-time labels: the zero-padded "HH:mm" strings every component uses
    for time slots, picker options and occupied ranges, and the hourly grids
    built from them. */
module Clock {
  import opened Text

  /** A zero-padded "HH:mm" label: two digits, a colon, two digits. */
  predicate IsClockText(s: string) {
    && |s| == 5
    && IsDigit(s[0]) && IsDigit(s[1])
    && s[2] == ':'
    && IsDigit(s[3]) && IsDigit(s[4])
  }

  function HourOf(s: string): nat
    requires IsClockText(s)
  {
    10 * DigitValue(s[0]) + DigitValue(s[1])
  }

  function MinuteOf(s: string): nat
    requires IsClockText(s)
  {
    10 * DigitValue(s[3]) + DigitValue(s[4])
  }

  /** Minutes since midnight denoted by a label. */
  function MinutesOf(s: string): nat
    requires IsClockText(s)
  {
    60 * HourOf(s) + MinuteOf(s)
  }

  /** `s` is the label of the whole hour `h`: hour field `h`, minute field 0. */
  predicate DenotesHour(s: string, h: int) {
    IsClockText(s) && HourOf(s) == h && MinuteOf(s) == 0
  }

  /** A label is determined by its hour and minute fields. */
  lemma ClockTextUnique(a: string, b: string)
    requires IsClockText(a) && IsClockText(b)
    requires HourOf(a) == HourOf(b) && MinuteOf(a) == MinuteOf(b)
    ensures a == b
  {
    assert DigitValue(a[0]) == DigitValue(b[0]) && DigitValue(a[1]) == DigitValue(b[1]);
    assert DigitValue(a[3]) == DigitValue(b[3]) && DigitValue(a[4]) == DigitValue(b[4]);
    assert a[0] == DigitChar(DigitValue(a[0])) == b[0];
    assert a[1] == DigitChar(DigitValue(a[1])) == b[1];
    assert a[3] == DigitChar(DigitValue(a[3])) == b[3];
    assert a[4] == DigitChar(DigitValue(a[4])) == b[4];
  }

  /** The only label of the whole hour `h` is `HourLabel(h)`, "HH:00". */
  lemma HourLabelOnly(s: string, h: int)
    requires 0 <= h <= 99 && DenotesHour(s, h)
    ensures s == HourLabel(h)
  {
    HourLabelIsClock(h);
    ClockTextUnique(s, HourLabel(h));
  }

  /** `${hours}:${minutes}` with both fields padded to two digits. */
  function FormatClock(h: int, m: int): string {
    Pad2(h) + ":" + Pad2(m)
  }

  /** Formatting an hour and minute below 100 gives a label that reads back
      as that hour and minute. */
  lemma FormatClockInverse(h: int, m: int)
    requires 0 <= h <= 99 && 0 <= m <= 99
    ensures IsClockText(FormatClock(h, m))
    ensures HourOf(FormatClock(h, m)) == h
    ensures MinuteOf(FormatClock(h, m)) == m
  {
    Pad2Digits(h);
    Pad2Digits(m);
  }

  /** `${hour.toString().padStart(2, '0')}:00` */
  function HourLabel(h: int): string {
    Pad2(h) + ":00"
  }

  /** The label of a two-digit hour, character by character. */
  lemma HourLabelText(h: int)
    requires 0 <= h <= 99
    ensures HourLabel(h) == [DigitChar(h / 10), DigitChar(h % 10), ':', '0', '0']
  {
    Pad2Digits(h);
  }

  lemma HourLabelIsClock(h: int)
    requires 0 <= h <= 99
    ensures HourLabel(h) == FormatClock(h, 0)
    ensures DenotesHour(HourLabel(h), h)
  {
    HourLabelIsFormat(h);
    FormatClockInverse(h, 0);
  }

  lemma HourLabelIsFormat(h: int)
    ensures HourLabel(h) == FormatClock(h, 0)
  {
    Pad2Zero();
    assert ":" + Pad2(0) == ":00";
  }

  lemma Pad2Zero()
    ensures Pad2(0) == "00"
  {
    assert DigitChar(0) == '0';
    assert Digits(0) == "0";
    assert DecimalString(0) == "0";
    assert Repeat('0', 1) == "0";
  }

  /** Labels for every whole hour from `first` to `last` inclusive, in order. */
  function HourGrid(first: int, last: int): (r: seq<string>)
    ensures |r| == if first <= last then last - first + 1 else 0
  {
    var n := if first <= last then last - first + 1 else 0;
    seq(n, i requires 0 <= i < n => HourLabel(first + i))
  }

  // ---------------------------------------------------------------------
  // String order on labels is clock order
  // ---------------------------------------------------------------------

  lemma StrLessStep(a: string, b: string)
    requires |a| > 0 && |b| > 0
    ensures StrLess(a, b) <==> a[0] < b[0] || (a[0] == b[0] && StrLess(a[1..], b[1..]))
  {
  }

  /** Two labels compare as strings exactly as their hour and minute fields
      compare, hour first. */
  lemma {:induction false} ClockTextOrder(a: string, b: string)
    requires IsClockText(a) && IsClockText(b)
    ensures StrLess(a, b) <==> 100 * HourOf(a) + MinuteOf(a) < 100 * HourOf(b) + MinuteOf(b)
  {
    StrLessStep(a, b);
    StrLessStep(a[1..], b[1..]);
    StrLessStep(a[2..], b[2..]);
    StrLessStep(a[3..], b[3..]);
    StrLessStep(a[4..], b[4..]);
    assert a[1..][1..] == a[2..] && b[1..][1..] == b[2..];
    assert a[2..][1..] == a[3..] && b[2..][1..] == b[3..];
    assert a[3..][1..] == a[4..] && b[3..][1..] == b[4..];
    assert a[4..][1..] == [] && b[4..][1..] == [];
  }

  /** For labels whose minute field is below 60, `a < b` on strings is
      `a` before `b` on the clock. */
  lemma ClockOrder(a: string, b: string)
    requires IsClockText(a) && IsClockText(b)
    requires MinuteOf(a) < 60 && MinuteOf(b) < 60
    ensures StrLess(a, b) <==> MinutesOf(a) < MinutesOf(b)
  {
    ClockTextOrder(a, b);
    FieldOrder(HourOf(a), MinuteOf(a), HourOf(b), MinuteOf(b));
  }

  /** Comparing (hour, minute) pairs by `100 * h + m` or by minutes of the
      day agrees when the minutes are below 60. */
  lemma FieldOrder(h1: int, m1: int, h2: int, m2: int)
    requires 0 <= m1 < 60 && 0 <= m2 < 60
    ensures 100 * h1 + m1 < 100 * h2 + m2 <==> 60 * h1 + m1 < 60 * h2 + m2
  {
    if h1 < h2 {
      assert 100 * h1 + m1 < 100 * h2 + m2;
      assert 60 * h1 + m1 < 60 * h2 + m2;
    } else if h1 > h2 {
      assert 100 * h1 + m1 > 100 * h2 + m2;
      assert 60 * h1 + m1 > 60 * h2 + m2;
    }
  }

  /** For hours 0..99 the grid is a strictly increasing run of labels, each
      denoting its hour exactly. */
  lemma HourGridLabels(first: int, last: int)
    requires 0 <= first && last <= 99
    ensures forall i :: 0 <= i < |HourGrid(first, last)| ==> DenotesHour(HourGrid(first, last)[i], first + i)
    ensures forall i, j :: 0 <= i < j < |HourGrid(first, last)| ==>
      StrLess(HourGrid(first, last)[i], HourGrid(first, last)[j])
  {
    forall i | 0 <= i < |HourGrid(first, last)|
      ensures DenotesHour(HourGrid(first, last)[i], first + i)
    {
      GridLabelAt(first, last, i);
    }
    forall i, j | 0 <= i < j < |HourGrid(first, last)|
      ensures StrLess(HourGrid(first, last)[i], HourGrid(first, last)[j])
    {
      GridLabelsOrdered(first, last, i, j);
    }
  }

  lemma GridLabelAt(first: int, last: int, i: int)
    requires 0 <= first && last <= 99 && 0 <= i < |HourGrid(first, last)|
    ensures DenotesHour(HourGrid(first, last)[i], first + i)
  {
    HourGridAt(first, last, i);
    LabelDenotesHour(HourGrid(first, last)[i], first + i);
  }

  lemma GridLabelsOrdered(first: int, last: int, i: int, j: int)
    requires 0 <= first && last <= 99 && 0 <= i < j < |HourGrid(first, last)|
    ensures StrLess(HourGrid(first, last)[i], HourGrid(first, last)[j])
  {
    HourGridAt(first, last, i);
    HourGridAt(first, last, j);
    HourLabelOrder(first + i, first + j);
  }

  /** The i-th label of a grid is the label of hour `first + i`. */
  lemma HourGridAt(first: int, last: int, i: int)
    requires 0 <= i < |HourGrid(first, last)|
    ensures HourGrid(first, last)[i] == HourLabel(first + i)
  {
  }

  lemma LabelDenotesHour(s: string, h: int)
    requires 0 <= h <= 99 && s == HourLabel(h)
    ensures DenotesHour(s, h)
  {
    HourLabelIsClock(h);
  }

  lemma HourLabelOrder(h: int, k: int)
    requires 0 <= h < k <= 99
    ensures StrLess(HourLabel(h), HourLabel(k))
  {
    HourLabelIsClock(h);
    HourLabelIsClock(k);
    FormatClockInverse(h, 0);
    FormatClockInverse(k, 0);
    ClockOrder(HourLabel(h), HourLabel(k));
  }

  /** A clock label holds no 'T', so it survives being joined to a date
      with the ISO separator and split again. */
  lemma ClockTextHasNoT(s: string)
    requires IsClockText(s)
    ensures 'T' !in s
  {
  }

  /** The label of an hour and minute of the day reads back as that minute. */
  lemma ClockOfParts(h: int, m: int)
    requires 0 <= h <= 23 && 0 <= m <= 59
    ensures IsClockText(FormatClock(h, m))
    ensures MinuteOf(FormatClock(h, m)) < 60
    ensures MinutesOf(FormatClock(h, m)) == 60 * h + m
  {
    FormatClockInverse(h, m);
  }
}
