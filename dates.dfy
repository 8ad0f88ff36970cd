/**
 * Civil calendar dates and the JavaScript `Date` arithmetic the backend
 * relies on. A date is a proleptic Gregorian (year, month 1..12, day); the
 * overflowing field arithmetic of `new Date(y, m, d)`, `setDate`, `setMonth`
 * and `setFullYear` is ECMAScript's MakeDay: normalise the month into the
 * year, then count the day from the first of that month, so January 31 plus
 * one month is March 2 or 3 and day 0 is the last day of the month before.
 * Time zones are not modelled: every date is a local calendar day.
 */
module Dates {
  import opened Common

  datatype Date = Date(year: int, month: int, day: int)

  /** A JavaScript `Date` seen as a local calendar day plus milliseconds since midnight. */
  datatype DateTime = DateTime(date: Date, millis: int)

  const MillisPerDay: int := 86_400_000

  predicate IsLeapYear(y: int) {
    (y % 4 == 0 && y % 100 != 0) || y % 400 == 0
  }

  function DaysInMonth(y: int, m: int): (n: int)
    requires 1 <= m <= 12
    ensures 28 <= n <= 31
  {
    if m == 2 then (if IsLeapYear(y) then 29 else 28)
    else if m == 4 || m == 6 || m == 9 || m == 11 then 30
    else 31
  }

  predicate Valid(d: Date) {
    1 <= d.month <= 12 && 1 <= d.day <= DaysInMonth(d.year, d.month)
  }

  predicate ValidDateTime(t: DateTime) {
    Valid(t.date) && 0 <= t.millis < MillisPerDay
  }

  /** Strict chronological order of calendar days. */
  predicate Before(a: Date, b: Date) {
    a.year < b.year
    || (a.year == b.year && a.month < b.month)
    || (a.year == b.year && a.month == b.month && a.day < b.day)
  }

  predicate NotAfter(a: Date, b: Date) { a == b || Before(a, b) }

  /** `d.setHours(0, 0, 0, 0)` on a copy. */
  function Midnight(t: DateTime): (r: DateTime)
    ensures r.date == t.date && r.millis == 0
  {
    DateTime(t.date, 0)
  }

  function NextDay(d: Date): (r: Date)
    requires Valid(d)
    ensures Valid(r) && Before(d, r)
  {
    if d.day < DaysInMonth(d.year, d.month) then Date(d.year, d.month, d.day + 1)
    else if d.month < 12 then Date(d.year, d.month + 1, 1)
    else Date(d.year + 1, 1, 1)
  }

  function PrevDay(d: Date): (r: Date)
    requires Valid(d)
    ensures Valid(r) && Before(r, d) && NextDay(r) == d
  {
    if d.day > 1 then Date(d.year, d.month, d.day - 1)
    else if d.month > 1 then Date(d.year, d.month - 1, DaysInMonth(d.year, d.month - 1))
    else Date(d.year - 1, 12, 31)
  }

  /** The day `n` days after `d` (before it when `n` is negative). */
  function AddDays(d: Date, n: int): (r: Date)
    requires Valid(d)
    ensures Valid(r)
    decreases if n < 0 then -n else n
  {
    if n == 0 then d
    else if n > 0 then AddDays(NextDay(d), n - 1)
    else AddDays(PrevDay(d), n + 1)
  }

  /**
   * ECMAScript MakeDay with a 0-based month of any size and a day of any size:
   * what `new Date(y, m0, day)` and the `set…` methods compute.
   */
  function MakeDate(y: int, m0: int, day: int): (r: Date)
    ensures Valid(r)
  {
    AddDays(Date(y + m0 / 12, m0 % 12 + 1, 1), day - 1)
  }

  /** `d.setDate(d.getDate() + n)`. */
  function SetDatePlus(d: Date, n: int): Date requires Valid(d) {
    MakeDate(d.year, d.month - 1, d.day + n)
  }

  /** `d.setMonth(d.getMonth() + n)`. */
  function SetMonthPlus(d: Date, n: int): Date requires Valid(d) {
    MakeDate(d.year, d.month - 1 + n, d.day)
  }

  /** `d.setFullYear(d.getFullYear() + n)`. */
  function SetFullYearPlus(d: Date, n: int): Date requires Valid(d) {
    MakeDate(d.year + n, d.month - 1, d.day)
  }

  // ---------------------------------------------------------------------
  // Lemmas
  // ---------------------------------------------------------------------

  lemma BeforeTransitive(a: Date, b: Date, c: Date)
    requires Before(a, b) && Before(b, c)
    ensures Before(a, c)
  {
  }

  /** Adding a non-negative number of days never goes back in time. */
  lemma {:induction false} AddDaysMonotone(d: Date, n: nat)
    requires Valid(d)
    ensures NotAfter(d, AddDays(d, n))
    ensures n > 0 ==> Before(d, AddDays(d, n))
    decreases n
  {
    if n > 0 {
      AddDaysMonotone(NextDay(d), n - 1);
    }
  }

  lemma {:induction false} AddDaysAdditive(d: Date, a: nat, b: nat)
    requires Valid(d)
    ensures AddDays(d, a + b) == AddDays(AddDays(d, a), b)
    decreases a
  {
    if a > 0 {
      AddDaysAdditive(NextDay(d), a - 1, b);
    }
  }

  /** Counting days from the first of a month stays in that month up to its last day. */
  lemma {:induction false} AddDaysWithinMonth(y: int, m: int, k: nat)
    requires 1 <= m <= 12 && k < DaysInMonth(y, m)
    ensures AddDays(Date(y, m, 1), k) == Date(y, m, k + 1)
    decreases k
  {
    if k > 0 {
      AddDaysWithinMonth(y, m, k - 1);
      AddDaysAdditive(Date(y, m, 1), k - 1, 1);
    }
  }

  /** The first day of the month after (y, m). */
  function FirstOfNextMonth(y: int, m: int): Date
    requires 1 <= m <= 12
  {
    if m < 12 then Date(y, m + 1, 1) else Date(y + 1, 1, 1)
  }

  /** Counting past the end of a month continues into the next one. */
  lemma AddDaysIntoNextMonth(y: int, m: int, k: nat)
    requires 1 <= m <= 12
    requires DaysInMonth(y, m) <= k
    requires k - DaysInMonth(y, m) < DaysInMonth(FirstOfNextMonth(y, m).year, FirstOfNextMonth(y, m).month)
    ensures AddDays(Date(y, m, 1), k)
         == Date(FirstOfNextMonth(y, m).year, FirstOfNextMonth(y, m).month, k - DaysInMonth(y, m) + 1)
  {
    var dim := DaysInMonth(y, m);
    var nx := FirstOfNextMonth(y, m);
    AddDaysWithinMonth(y, m, dim - 1);
    AddDaysAdditive(Date(y, m, 1), dim - 1, k - dim + 1);
    AddDaysAdditive(Date(y, m, dim), 1, k - dim);
    assert AddDays(Date(y, m, dim), 1) == nx;
    AddDaysWithinMonth(nx.year, nx.month, k - dim);
  }

  /** A valid date survives the round trip through MakeDate unchanged. */
  lemma MakeDateOfValid(d: Date)
    requires Valid(d)
    ensures MakeDate(d.year, d.month - 1, d.day) == d
  {
    assert (d.month - 1) / 12 == 0 && (d.month - 1) % 12 == d.month - 1;
    AddDaysWithinMonth(d.year, d.month, d.day - 1);
  }

  /** For a month already in range, MakeDate counts from the first of that month. */
  lemma MakeDateInMonth(y: int, m: int, day: int)
    requires 1 <= m <= 12
    ensures MakeDate(y, m - 1, day) == AddDays(Date(y, m, 1), day - 1)
  {
    assert (m - 1) / 12 == 0 && (m - 1) % 12 == m - 1;
  }

  /** Counting `k + n` days from the first of a month is counting `n` days from day `k + 1`. */
  lemma AddDaysFromDay(y: int, m: int, k: nat, n: nat)
    requires 1 <= m <= 12 && k < DaysInMonth(y, m)
    ensures AddDays(Date(y, m, 1), k + n) == AddDays(Date(y, m, k + 1), n)
  {
    AddDaysAdditive(Date(y, m, 1), k, n);
    AddDaysWithinMonth(y, m, k);
  }

  /** `setDate(getDate() + n)` counts from the first of the month. */
  lemma SetDatePlusFromFirst(d: Date, n: nat, k: nat)
    requires Valid(d) && k == d.day - 1
    ensures SetDatePlus(d, n) == AddDays(Date(d.year, d.month, 1), k + n)
  {
    MakeDateInMonth(d.year, d.month, d.day + n);
    assert d.day + n - 1 == k + n;
  }

  /** `setDate(getDate() + n)` is plain day arithmetic. */
  lemma SetDatePlusIsAddDays(d: Date, n: nat)
    requires Valid(d)
    ensures SetDatePlus(d, n) == AddDays(d, n)
  {
    var k: nat := d.day - 1;
    SetDatePlusFromFirst(d, n, k);
    AddDaysFromDay(d.year, d.month, k, n);
    assert Date(d.year, d.month, k + 1) == d;
  }

  /**
   * `new Date(y, m - 1, 1)` and `new Date(y, m, 0)` for any month number:
   * the first and the last day of month m of year y once an out-of-range
   * month is carried into the year.
   */
  lemma MonthBounds(y: int, m: int)
    ensures var s := MakeDate(y, m - 1, 1);
            && s.year * 12 + s.month == y * 12 + m
            && s.day == 1
            && MakeDate(y, m, 0) == Date(s.year, s.month, DaysInMonth(s.year, s.month))
  {
    var m0 := m - 1;
    var ny := y + m0 / 12;
    var nm := m0 % 12 + 1;
    LastDayOfMonth(ny, nm);
    MakeDateOfValid(Date(ny, nm, 1));
    assert MakeDate(y, m0, 1) == MakeDate(ny, nm - 1, 1) by {
      assert (nm - 1) / 12 == 0 && (nm - 1) % 12 == nm - 1;
    }
    assert MakeDate(y, m, 0) == MakeDate(ny, nm, 0) by {
      assert m == 12 * (m0 / 12) + nm;
      if nm < 12 {
        assert m / 12 == m0 / 12 && m % 12 == nm;
        assert nm / 12 == 0 && nm % 12 == nm;
      } else {
        assert m / 12 == m0 / 12 + 1 && m % 12 == 0;
        assert nm / 12 == 1 && nm % 12 == 0;
      }
    }
  }

  /** Day 0 of month m + 1 (0-based m) is the last day of month m: the month bounds of the calendars. */
  lemma LastDayOfMonth(y: int, m: int)
    requires 1 <= m <= 12
    ensures MakeDate(y, m, 0) == Date(y, m, DaysInMonth(y, m))
    ensures MakeDate(y, m - 1, 1) == Date(y, m, 1)
  {
    MakeDateOfValid(Date(y, m, 1));
    var nx := FirstOfNextMonth(y, m);
    if m < 12 {
      assert m / 12 == 0 && m % 12 == m;
      assert MakeDate(y, m, 0) == AddDays(Date(y, m + 1, 1), -1);
    } else {
      assert m / 12 == 1 && m % 12 == 0;
      assert MakeDate(y, m, 0) == AddDays(Date(y + 1, 1, 1), -1);
    }
    assert AddDays(nx, -1) == PrevDay(nx);
  }

  /** Month arithmetic: the normalised (year, month) advances by exactly n months. */
  lemma MonthIndex(y: int, m0: int)
    ensures (y + m0 / 12) * 12 + m0 % 12 == y * 12 + m0
  {
  }

  /** Moving a day forward by whole months or years never goes back in time. */
  lemma SetMonthPlusMonotone(d: Date, n: nat)
    requires Valid(d)
    ensures NotAfter(d, SetMonthPlus(d, n))
  {
    var m0 := d.month - 1 + n;
    var first := Date(d.year + m0 / 12, m0 % 12 + 1, 1);
    MonthIndex(d.year, m0);
    AddDaysMonotone(first, d.day - 1);
    if n == 0 {
      MakeDateOfValid(d);
    } else {
      assert first.year * 12 + first.month > d.year * 12 + d.month;
      assert Before(d, first);
    }
  }

  lemma SetFullYearPlusMonotone(d: Date, n: nat)
    requires Valid(d)
    ensures NotAfter(d, SetFullYearPlus(d, n))
  {
    var first := Date(d.year + n, d.month, 1);
    assert (d.month - 1) / 12 == 0 && (d.month - 1) % 12 == d.month - 1;
    AddDaysMonotone(first, d.day - 1);
    if n == 0 {
      MakeDateOfValid(d);
    } else {
      assert Before(d, first);
    }
  }

  /** January 31 plus one month is March 2 in a leap year and March 3 otherwise. */
  lemma EndOfJanuaryPlusOneMonth(y: int)
    ensures SetMonthPlus(Date(y, 1, 31), 1) == (if IsLeapYear(y) then Date(y, 3, 2) else Date(y, 3, 3))
  {
    AddDaysIntoNextMonth(y, 2, 30);
  }

  /** The year after a leap year is not one. */
  lemma CommonYearAfterLeap(y: int, z: int)
    requires IsLeapYear(y) && z == y + 1
    ensures !IsLeapYear(z)
  {
    var q := y / 4;
    assert y == 4 * q by {
      if y % 400 == 0 {
        var h := y / 400;
        assert y == 400 * h;
        assert y == 4 * (100 * h) + 0;
      }
    }
    assert z == 4 * q + 1;
  }

  /** February 29 plus one year is March 1 (the next year is never a leap year). */
  lemma LeapDayPlusOneYear(y: int)
    requires IsLeapYear(y)
    ensures SetFullYearPlus(Date(y, 2, 29), 1) == Date(y + 1, 3, 1)
  {
    var z := y + 1;
    CommonYearAfterLeap(y, z);
    assert SetFullYearPlus(Date(y, 2, 29), 1) == MakeDate(z, 2 - 1, 29);
    MakeDateInMonth(z, 2, 29);
    AddDaysIntoNextMonth(z, 2, 28);
  }

  /** A date string `YYYY-MM-DD` read by `new Date(s)`: its fields, normalised as MakeDay does. */
  function IsoDate(s: string): (d: Date)
    requires IsIsoDateString(s)
    ensures Valid(d)
  {
    MakeDate(DigitsValue(s[..4]), DigitsValue(s[5..7]) - 1, DigitsValue(s[8..]))
  }

  /**
   * The days a JavaScript `Date` can hold: at most 8.64e15 ms, that is
   * 100,000,000 days, either side of 1970-01-01, from -271821-04-20 to
   * 275760-09-13. A `Date` built beyond them is an Invalid Date.
   */
  const FirstJsDay: Date := Date(-271821, 4, 20)
  const LastJsDay: Date := Date(275760, 9, 13)

  predicate InJsRange(d: Date) {
    NotAfter(FirstJsDay, d) && NotAfter(d, LastJsDay)
  }

  /**
   * The ORM refuses an Invalid Date, in a write or in a query, with an
   * error of its own, which answers 500; the text of that error is not
   * modelled, and this stands for it.
   */
  const InvalidDate: string := "Invalid Date"

  /**
   * Whether `new Date(s)` of a `YYYY-MM-DD` string is a date at all: the
   * month must be 01 to 12 and the day 01 to 31, and anything else is an
   * Invalid Date. A day past the month's end is still read, and carried
   * into the next month.
   */
  predicate IsoReadable(s: string)
    requires IsIsoDateString(s)
  {
    1 <= DigitsValue(s[5..7]) <= 12 && 1 <= DigitsValue(s[8..]) <= 31
  }

  /** The two digits of a month or day field. */
  lemma TwoDigits(s: string, a: char, b: char)
    requires s == [a, b] && IsDigit(a) && IsDigit(b)
    ensures AllDigits(s) && DigitsValue(s) == (a as int - '0' as int) * 10 + (b as int - '0' as int)
  {
    assert s[..1] == [a];
    DigitValue(s[..1], a);
  }

  /** Month 13, month 00 and day 00 are Invalid Dates; day 30 of February is read. */
  lemma IsoReadableExamples()
    ensures IsIsoDateString("2024-13-01") && !IsoReadable("2024-13-01")
    ensures IsIsoDateString("2024-00-10") && !IsoReadable("2024-00-10")
    ensures IsIsoDateString("2024-01-00") && !IsoReadable("2024-01-00")
    ensures IsIsoDateString("2024-02-30") && IsoReadable("2024-02-30")
  {
    TwoDigits("2024-13-01"[5..7], '1', '3');
    TwoDigits("2024-00-10"[5..7], '0', '0');
    TwoDigits("2024-01-00"[8..], '0', '0');
    TwoDigits("2024-02-30"[5..7], '0', '2');
    TwoDigits("2024-02-30"[8..], '3', '0');
  }

  /** A readable text naming a day that exists is read as exactly that day. */
  lemma IsoDateOfReadable(s: string)
    requires IsIsoDateString(s) && IsoReadable(s)
    requires DigitsValue(s[8..]) <= DaysInMonth(DigitsValue(s[..4]), DigitsValue(s[5..7]))
    ensures IsoDate(s) == Date(DigitsValue(s[..4]), DigitsValue(s[5..7]), DigitsValue(s[8..]))
  {
    MakeDateOfValid(Date(DigitsValue(s[..4]), DigitsValue(s[5..7]), DigitsValue(s[8..])));
  }

  /**
   * A day as one integer that grows with the calendar: how a database
   * compares the values of a date column.
   */
  function DayKey(d: Date): int { (d.year * 13 + d.month) * 32 + d.day }

  /** On valid days the key orders exactly as the calendar does, and only equal days share a key. */
  lemma DayKeyOrder(a: Date, b: Date)
    requires Valid(a) && Valid(b)
    ensures DayKey(a) < DayKey(b) <==> Before(a, b)
    ensures DayKey(a) == DayKey(b) <==> a == b
  {
    if a.year < b.year {
      assert DayKey(a) <= a.year * 416 + 415;
      assert DayKey(b) >= b.year * 416 + 33;
    } else if a.year > b.year {
      assert DayKey(b) <= b.year * 416 + 415;
      assert DayKey(a) >= a.year * 416 + 33;
    }
  }

  /** `NotAfter` is a total preorder on dates: any two are comparable, and it chains. */
  lemma NotAfterTotal(a: Date, b: Date)
    ensures NotAfter(a, b) || NotAfter(b, a)
  {
  }

  lemma NotAfterTransitive(a: Date, b: Date, c: Date)
    requires NotAfter(a, b) && NotAfter(b, c)
    ensures NotAfter(a, c)
  {
  }

  /** `z.string().regex(/^\d{4}-\d{2}-\d{2}$/).optional()`: a `YYYY-MM-DD` string when present. */
  predicate IsoDateField(s: Option<string>) { s.Some? ==> IsIsoDateString(s.value) }

  /** `body.d ? new Date(body.d) : null`. */
  function StoredDate(s: Option<string>): (r: Option<Date>)
    requires IsoDateField(s)
    ensures r.Some? <==> s.Some?
    ensures r.Some? ==> Valid(r.value)
  {
    if s.Some? then Some(IsoDate(s.value)) else None
  }

  /** An optional date field that `new Date` can read: left out, or a readable text. */
  predicate StoredDateOk(s: Option<string>)
    requires IsoDateField(s)
  {
    s.Some? ==> IsoReadable(s.value)
  }

  /** A date patch that `new Date` can read: left out, `null`, or a readable text. */
  predicate PatchedDateOk(p: Patch<string>)
    requires p.Value? ==> IsIsoDateString(p.value)
  {
    p.Value? ==> IsoReadable(p.value)
  }

  /** `if (body.d !== undefined) data.d = body.d ? new Date(body.d) : null`. */
  function PatchedDate(p: Patch<string>, current: Option<Date>): (r: Option<Date>)
    requires p.Value? ==> IsIsoDateString(p.value)
  {
    match p
    case Absent => current
    case Null => None
    case Value(s) => Some(IsoDate(s))
  }
}
