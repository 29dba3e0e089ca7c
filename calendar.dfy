/** Calendar arithmetic behind `getWeekNumber` and `formatWeekDisplay`
    (src/lib/utils.ts) and the week derivation of the task-time-entry route.

    A date is a year of the proleptic Gregorian calendar and a 0-based day of
    that year; `Ordinal` counts days from 1 January 2000, a Saturday, which
    fixes every weekday. Time of day and time zones are not modelled: every
    date is a UTC midnight. */
module Calendar {
  import opened Wrappers

  predicate IsLeap(y: int) {
    y % 4 == 0 && (y % 100 != 0 || y % 400 == 0)
  }

  function YearLength(y: int): (n: int)
    ensures n == 365 || n == 366
  {
    if IsLeap(y) then 366 else 365
  }

  datatype Date = Date(year: int, dayOfYear: int)

  predicate ValidDate(d: Date) {
    0 <= d.dayOfYear < YearLength(d.year)
  }

  type CalendarDate = d: Date | ValidDate(d) witness Date(2000, 0)

  /** Days from 1 January 2000 to 1 January of year `y`. */
  function YearStart(y: int): int
    decreases if y >= 2000 then y - 2000 else 2000 - y
  {
    if y == 2000 then 0
    else if y > 2000 then YearStart(y - 1) + YearLength(y - 1)
    else YearStart(y + 1) - YearLength(y)
  }

  lemma YearStartNext(y: int)
    ensures YearStart(y + 1) == YearStart(y) + YearLength(y)
  {
  }

  /** Later years start after the whole of every earlier year. */
  lemma {:induction false} YearStartMonotone(a: int, b: int)
    requires a < b
    ensures YearStart(b) >= YearStart(a) + YearLength(a)
    decreases b - a
  {
    YearStartNext(a);
    if a + 1 < b {
      YearStartMonotone(a + 1, b);
    }
  }

  /** The day number of a date, counted from 1 January 2000. */
  function Ordinal(d: Date): int {
    YearStart(d.year) + d.dayOfYear
  }

  /** Distinct calendar dates have distinct day numbers. */
  lemma OrdinalInjective(a: CalendarDate, b: CalendarDate)
    requires Ordinal(a) == Ordinal(b)
    ensures a == b
  {
    if a.year < b.year {
      YearStartMonotone(a.year, b.year);
    } else if b.year < a.year {
      YearStartMonotone(b.year, a.year);
    }
  }

  /** `Date.prototype.getUTCDay`: 0 is Sunday, 6 is Saturday. */
  function Weekday(d: Date): (w: int)
    ensures 0 <= w < 7
  {
    (Ordinal(d) + 6) % 7
  }

  /** `d.getUTCDay() || 7`: Monday is 1 and Sunday is 7. */
  function IsoWeekday(d: Date): (w: int)
    ensures 1 <= w <= 7
    ensures w % 7 == Weekday(d)
  {
    var wd := Weekday(d);
    if wd == 0 then 7 else wd
  }

  /** `d.setUTCDate(d.getUTCDate() + n)` for a shift of at most a year;
      the result may fall in the previous or the next year. */
  function ShiftDays(d: CalendarDate, n: int): (r: CalendarDate)
    requires -365 <= n <= 365
    ensures Ordinal(r) == Ordinal(d) + n
  {
    YearStartNext(d.year - 1);
    YearStartNext(d.year);
    var k := d.dayOfYear + n;
    if k < 0 then Date(d.year - 1, k + YearLength(d.year - 1))
    else if k >= YearLength(d.year) then Date(d.year + 1, k - YearLength(d.year))
    else Date(d.year, k)
  }

  /** `Math.ceil(a / b)` for a positive divisor. */
  function CeilDiv(a: int, b: int): (q: int)
    requires b > 0
    ensures (q - 1) * b < a <= q * b
  {
    -((-a) / b)
  }

  /** The Thursday of the Monday-to-Sunday week that holds `d`. */
  function WeekThursday(d: CalendarDate): (t: CalendarDate)
    ensures Weekday(t) == 4
    ensures Ordinal(t) - 3 <= Ordinal(d) <= Ordinal(t) + 3
  {
    ShiftDays(d, 4 - IsoWeekday(d))
  }

  /** `getWeekNumber` (src/lib/utils.ts:5-11): the number of the week of
      the Thursday, counted in the Thursday's own year. */
  function WeekNumber(d: CalendarDate): (w: int)
    ensures 1 <= w <= 53
  {
    var t := WeekThursday(d);
    CeilDiv(t.dayOfYear + 1, 7)
  }

  /** Adding to a number adds to its remainder modulo 7. */
  lemma ModSeven(a: int, b: int)
    ensures (a + b) % 7 == (a % 7 + b) % 7
  {
    var q := a / 7;
    assert a == 7 * q + a % 7;
    assert (7 * q + (a % 7 + b)) % 7 == (a % 7 + b) % 7;
  }

  /** Numbers with equal remainders modulo 7 lie a whole number of weeks apart. */
  lemma SameRemainder(a: int, b: int)
    requires a % 7 == b % 7
    ensures (a - b) % 7 == 0
  {
    var p, q := a / 7, b / 7;
    assert a == 7 * p + a % 7 && b == 7 * q + b % 7;
    assert a - b == 7 * (p - q);
  }

  /** The 0-based day of the first Thursday of year `y` (0..6). */
  function FirstThursday(y: int): (f: int)
    ensures 0 <= f < 7
    ensures Weekday(Date(y, f)) == 4
  {
    var w0 := Weekday(Date(y, 0));
    var f := if w0 <= 4 then 4 - w0 else 11 - w0;
    assert (w0 + f) % 7 == 4;
    assert Weekday(Date(y, f)) == 4 by {
      ModSeven(YearStart(y) + 6, f);
      assert Ordinal(Date(y, f)) + 6 == YearStart(y) + 6 + f;
    }
    f
  }

  /** ISO 8601 week numbering: weeks run Monday to Sunday, a week belongs to
      the year of its Thursday, and week 1 is the week of that year's first
      Thursday, so the week number is one more than the number of whole
      weeks from the first Thursday to this week's Thursday. */
  lemma IsoWeekRule(d: CalendarDate)
    ensures var t := WeekThursday(d);
            WeekNumber(d) == (t.dayOfYear - FirstThursday(t.year)) / 7 + 1
  {
    var t := WeekThursday(d);
    var f := FirstThursday(t.year);
    // both are Thursdays of one year, so they lie a whole number of weeks apart
    SameRemainder(Ordinal(t) + 6, Ordinal(Date(t.year, f)) + 6);
    assert (t.dayOfYear - f) % 7 == 0;
    var k := (t.dayOfYear - f) / 7;
    assert t.dayOfYear == 7 * k + f;
    assert k >= 0;
    assert t.dayOfYear / 7 == k;
  }

  /** All seven days of one Monday-to-Sunday week share one week number. */
  lemma SameWeekSameNumber(a: CalendarDate, b: CalendarDate)
    requires Ordinal(a) - IsoWeekday(a) == Ordinal(b) - IsoWeekday(b)
    ensures WeekNumber(a) == WeekNumber(b)
  {
    OrdinalInjective(WeekThursday(a), WeekThursday(b));
  }

  /** A 1 January that falls on Friday, Saturday or Sunday belongs to the
      last week of the previous year, numbered 52 or 53. */
  lemma NewYearInPreviousYearsWeek(y: int)
    requires Weekday(Date(y, 0)) in {5, 6, 0}
    ensures var dec31 := Date(y - 1, YearLength(y - 1) - 1);
            WeekNumber(Date(y, 0)) == WeekNumber(dec31) &&
            52 <= WeekNumber(Date(y, 0)) <= 53
  {
    var jan1 := Date(y, 0);
    var dec31 := Date(y - 1, YearLength(y - 1) - 1);
    YearStartNext(y - 1);
    assert Ordinal(dec31) == Ordinal(jan1) - 1;
    assert IsoWeekday(dec31) == IsoWeekday(jan1) - 1;
    SameWeekSameNumber(jan1, dec31);
    var t := WeekThursday(jan1);
    assert t.year == y - 1;
  }

  /** Week 1 is the week holding the year's first Thursday. */
  lemma FirstThursdayIsWeekOne(y: int)
    ensures WeekNumber(Date(y, FirstThursday(y))) == 1
  {
  }

  /** The week number of the task-time-entry handler
      (src/app/api/task-time-entries/route.ts:44-47): the days since
      1 January, plus the weekday of 1 January (0 for Sunday), plus one,
      divided by seven and rounded up. Weeks here run Sunday to Saturday and
      the one holding 1 January is week 1, however short. */
  function SundayWeekNumber(d: CalendarDate): (w: int)
    ensures 1 <= w <= 54
  {
    CeilDiv(d.dayOfYear + Weekday(Date(d.year, 0)) + 1, 7)
  }

  /** 1 January is always in week 1. */
  lemma NewYearIsSundayWeekOne(y: int)
    ensures SundayWeekNumber(Date(y, 0)) == 1
  {
    var q := SundayWeekNumber(Date(y, 0));
    assert (q - 1) * 7 < Weekday(Date(y, 0)) + 1 <= q * 7;
  }

  /** From one day to the next of the same year the number grows by one
      exactly when the next day is a Sunday, and stays put otherwise. */
  lemma SundayWeekStep(d: CalendarDate)
    requires d.dayOfYear + 1 < YearLength(d.year)
    ensures var next := Date(d.year, d.dayOfYear + 1);
            SundayWeekNumber(next) == SundayWeekNumber(d) + (if Weekday(next) == 0 then 1 else 0)
  {
    var next := Date(d.year, d.dayOfYear + 1);
    var a := d.dayOfYear + Weekday(Date(d.year, 0)) + 1;
    ModSeven(YearStart(d.year) + 6, d.dayOfYear + 1);
    assert Weekday(next) == a % 7;
    var p, q := SundayWeekNumber(d), SundayWeekNumber(next);
    assert (p - 1) * 7 < a <= p * 7;
    assert (q - 1) * 7 < a + 1 <= q * 7;
    if a % 7 == 0 {
      assert a == 7 * (a / 7);
      assert p == a / 7;
    } else {
      assert a == 7 * (a / 7) + a % 7;
      assert p == a / 7 + 1;
    }
  }

  /** Decimal digits of a natural number, most significant first. */
  function NatToString(n: nat): (s: string)
    ensures |s| >= 1
    ensures forall i :: 0 <= i < |s| ==> '0' <= s[i] <= '9'
    decreases n
  {
    var digit := ['0' + (n % 10) as char];
    if n < 10 then digit else NatToString(n / 10) + digit
  }

  /** The value of a string of decimal digits. */
  function DigitsValue(s: string): int
    requires forall i :: 0 <= i < |s| ==> '0' <= s[i] <= '9'
  {
    if s == [] then 0
    else 10 * DigitsValue(s[..|s| - 1]) + (s[|s| - 1] - '0') as int
  }

  lemma {:induction false} NatToStringValue(n: nat)
    ensures DigitsValue(NatToString(n)) == n
    decreases n
  {
    if n >= 10 {
      NatToStringValue(n / 10);
      var s := NatToString(n);
      assert s[..|s| - 1] == NatToString(n / 10);
    }
  }

  /** A JavaScript template literal's rendering of an integer. */
  function IntToString(n: int): (s: string)
    ensures n >= 0 ==> s == NatToString(n)
    ensures n < 0 ==> s == "-" + NatToString(-n)
  {
    if n >= 0 then NatToString(n) else "-" + NatToString(-n)
  }

  /** `formatWeekDisplay` (src/lib/utils.ts:23-25). */
  function FormatWeekDisplay(weekNumber: int, year: int): (s: string)
    ensures |s| > 12 && s[..7] == "Semana "
  {
    "Semana " + IntToString(weekNumber) + " del " + IntToString(year)
  }

  /** An integer as text: decimal digits, with a leading minus sign when
      negative. */
  predicate IsIntText(t: string) {
    || (|t| >= 1 && forall i :: 0 <= i < |t| ==> '0' <= t[i] <= '9')
    || (|t| >= 2 && t[0] == '-' && forall i :: 1 <= i < |t| ==> '0' <= t[i] <= '9')
  }

  /** The integer an integer text denotes. */
  function IntOfText(t: string): int
    requires IsIntText(t)
  {
    if t[0] == '-' then -DigitsValue(t[1..]) else DigitsValue(t)
  }

  /** The text of an integer is an integer text that denotes it. */
  lemma IntToStringReadsBack(n: int)
    ensures IsIntText(IntToString(n)) && IntOfText(IntToString(n)) == n
  {
    if n >= 0 {
      NatToStringValue(n);
    } else {
      NatToStringValue(-n);
      assert IntToString(n)[1..] == NatToString(-n);
    }
  }

  /** The index of the first space of `t`, or `|t|` when there is none. */
  function FirstSpace(t: string): (i: nat)
    ensures i <= |t| && (i < |t| ==> t[i] == ' ')
    ensures forall j :: 0 <= j < i ==> t[j] != ' '
  {
    if t == [] then 0
    else if t[0] == ' ' then 0
    else
      var i := FirstSpace(t[1..]);
      assert forall j :: 1 <= j < i + 1 ==> t[j] == t[1..][j - 1];
      i + 1
  }

  /** The first space after a text without spaces is the one that
      follows it. */
  lemma FirstSpaceAfter(w: string, tail: string)
    requires forall j :: 0 <= j < |w| ==> w[j] != ' '
    requires tail != [] && tail[0] == ' '
    ensures FirstSpace(w + tail) == |w|
  {
    var t := w + tail;
    assert t[|w|] == ' ';
  }

  /** Reads a text of the form `Semana <week> del <year>` back into its
      week and year, or `None` when it does not have that form. */
  function ReadWeekDisplay(s: string): Option<(int, int)> {
    if |s| < 7 || s[..7] != "Semana " then None else ReadWeekAndYear(s[7..])
  }

  /** Reads `<week> del <year>`: the week runs up to the first space. */
  function ReadWeekAndYear(rest: string): Option<(int, int)> {
    var i := FirstSpace(rest);
    if i + 5 <= |rest| && rest[i..i + 5] == " del " && IsIntText(rest[..i]) && IsIntText(rest[i + 5..])
    then Some((IntOfText(rest[..i]), IntOfText(rest[i + 5..])))
    else None
  }

  /** The displayed text names its week and its year, whatever their
      signs: reading it back gives both. */
  lemma FormatWeekDisplayReadsBack(weekNumber: int, year: int)
    ensures ReadWeekDisplay(FormatWeekDisplay(weekNumber, year)) == Some((weekNumber, year))
  {
    IntToStringReadsBack(weekNumber);
    IntToStringReadsBack(year);
    ReadDisplayParts(IntToString(weekNumber), IntToString(year));
  }

  /** `Semana <w> del <y>` reads back as the integers `w` and `y` denote. */
  lemma ReadDisplayParts(w: string, y: string)
    requires IsIntText(w) && IsIntText(y)
    ensures ReadWeekDisplay("Semana " + w + " del " + y) == Some((IntOfText(w), IntOfText(y)))
  {
    var rest := w + " del " + y;
    assert "Semana " + w + " del " + y == "Semana " + rest;
    PrefixRead("Semana ", rest);
    ReadWeekAndYearParts(w, y);
  }

  lemma PrefixRead(p: string, rest: string)
    requires |p| == 7
    ensures (p + rest)[..7] == p && (p + rest)[7..] == rest
  {
  }

  /** `<w> del <y>` reads back as the integers `w` and `y` denote. */
  lemma ReadWeekAndYearParts(w: string, y: string)
    requires IsIntText(w) && IsIntText(y)
    ensures ReadWeekAndYear(w + " del " + y) == Some((IntOfText(w), IntOfText(y)))
  {
    assert forall j :: 0 <= j < |w| ==> w[j] != ' ';
    SeparatorSlices(w, y);
    FirstSpaceAfter(w, " del " + y);
  }

  /** The three pieces of `<w> del <y>`, cut where they were joined. */
  lemma SeparatorSlices(w: string, y: string)
    ensures w + " del " + y == w + (" del " + y)
    ensures (w + " del " + y)[..|w|] == w
    ensures (w + " del " + y)[|w|..|w| + 5] == " del "
    ensures (w + " del " + y)[|w| + 5..] == y
  {
    var tail := " del " + y;
    var rest := w + tail;
    assert w + " del " + y == rest;
    assert rest[|w|..] == tail;
    assert tail[..5] == " del " && tail[5..] == y;
  }


}
