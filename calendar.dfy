/**
 * The query-string handling the events and diary controllers share: the
 * `year`/`month` pair of the calendar endpoints (read with `parseInt` and
 * turned into the first and the last day of that month by `new Date`), the
 * `date` parameter of the by-date endpoints, the `distinct: ["date"]`
 * listing of days and the `toISOString().slice(0, 10)` text of each day.
 */
module Calendar {
  import opened Common
  import opened ErrorHandler
  import Seqs
  import Ordering
  import Dates

  const MonthParamsMissing: string := "Parametri year e month richiesti"
  const DateParamMissing: string := "Parametro date richiesto (YYYY-MM-DD)"

  // ---------------------------------------------------------------------
  // parseInt(s, 10)
  // ---------------------------------------------------------------------

  /** Where the digits start: after leading whitespace and one optional sign. */
  function DigitsStart(s: string): (k: nat)
    ensures k <= |s|
  {
    var a := SpaceEnd(s, 0);
    if a < |s| && (s[a] == '-' || s[a] == '+') then a + 1 else a
  }

  /** The digits `d` occupy s[from..to]: DigitEnd's postcondition, as a digit string. */
  lemma DigitRun(s: string, from: nat, to: nat)
    requires from <= to <= |s|
    requires forall x :: from <= x < to ==> IsDigit(s[x])
    ensures AllDigits(s[from..to])
  {
    forall i | 0 <= i < to - from ensures IsDigit(s[from..to][i]) {
      assert s[from..to][i] == s[from + i];
    }
  }

  /**
   * `parseInt(s, 10)`: skip leading whitespace, read one optional sign and
   * then the longest run of decimal digits; what follows is ignored. No
   * digit at all is NaN, here `None`.
   */
  function ParseInt(s: string): (r: Option<int>)
  {
    var start := DigitsStart(s);
    var b := DigitEnd(s, start);
    DigitRun(s, start, b);
    var neg := start > 0 && s[start - 1] == '-';
    if b == start then None
    else Some(if neg then -(DigitsValue(s[start..b]) as int) else DigitsValue(s[start..b]))
  }

  /** A maximal run of digits from where the digits start: its value, negated after a minus sign. */
  lemma ParseIntRun(s: string, start: nat, b: nat)
    requires DigitsStart(s) == start && start < b <= |s|
    requires forall x :: start <= x < b ==> IsDigit(s[x])
    requires b == |s| || !IsDigit(s[b])
    ensures ParseInt(s) == Some(if start > 0 && s[start - 1] == '-' then -(DigitsValue(s[start..b]) as int) else DigitsValue(s[start..b]))
  {
    DigitEndExact(s, start, b);
  }

  /** A prefix that ends where the digits start, a run of digits and anything not starting with a digit. */
  lemma ParseIntParts(pre: string, d: string, rest: string, neg: bool)
    requires DigitsStart(pre + d + rest) == |pre|
    requires neg == (|pre| > 0 && pre[|pre| - 1] == '-')
    requires AllDigits(d) && d != []
    requires rest == [] || !IsDigit(rest[0])
    ensures ParseInt(pre + d + rest) == Some(if neg then -(DigitsValue(d) as int) else DigitsValue(d))
  {
    var s := pre + d + rest;
    var a, b := |pre|, |pre| + |d|;
    assert forall x :: a <= x < b ==> IsDigit(s[x]) by {
      forall x | a <= x < b ensures IsDigit(s[x]) { assert s[x] == d[x - a]; }
    }
    assert b == |s| || !IsDigit(s[b]) by { if b < |s| { assert s[b] == rest[0]; } }
    ParseIntRun(s, a, b);
    assert s[a..b] == d;
    if a > 0 { assert s[a - 1] == pre[a - 1]; }
  }

  /** Leading whitespace, a run of digits and anything not starting with a digit: the run's value. */
  lemma ParseIntReadsDigits(ws: string, d: string, rest: string)
    requires AllSpace(ws) && AllDigits(d) && d != []
    requires rest == [] || !IsDigit(rest[0])
    ensures ParseInt(ws + d + rest) == Some(DigitsValue(d))
  {
    var s := ws + d + rest;
    assert DigitsStart(s) == |ws| by {
      forall x | 0 <= x < |ws| ensures IsSpace(s[x]) { assert s[x] == ws[x]; }
      assert s[|ws|] == d[0];
      SpaceEndExact(s, 0, |ws|);
    }
    ParseIntParts(ws, d, rest, false);
  }

  /** The same with a minus sign before the digits: the run's value, negated. */
  lemma ParseIntReadsNegative(ws: string, d: string, rest: string)
    requires AllSpace(ws) && AllDigits(d) && d != []
    requires rest == [] || !IsDigit(rest[0])
    ensures ParseInt(ws + "-" + d + rest) == Some(-(DigitsValue(d) as int))
  {
    var pre := ws + "-";
    var s := pre + d + rest;
    assert DigitsStart(s) == |pre| by {
      forall x | 0 <= x < |ws| ensures IsSpace(s[x]) { assert s[x] == ws[x]; }
      assert s[|ws|] == '-';
      SpaceEndExact(s, 0, |ws|);
    }
    ParseIntParts(pre, d, rest, true);
  }

  /** After the whitespace, anything but a sign or a digit: NaN. */
  lemma ParseIntNaN(ws: string, rest: string)
    requires AllSpace(ws)
    requires rest == [] || (!IsSpace(rest[0]) && !IsDigit(rest[0]) && rest[0] != '-' && rest[0] != '+')
    ensures ParseInt(ws + rest) == None
  {
    SpaceEndExact(ws + rest, 0, |ws|);
  }

  function DigitChar(n: nat): (c: char)
    requires n < 10
    ensures IsDigit(c) && c as int - '0' as int == n
  {
    ('0' as int + n) as char
  }

  /** `String(n)` for a natural number: its decimal digits, with no leading zero. */
  function Decimal(n: nat): (r: string)
    ensures AllDigits(r) && r != []
    ensures |r| > 1 ==> r[0] != '0'
    decreases n
  {
    if n < 10 then [DigitChar(n)] else Decimal(n / 10) + [DigitChar(n % 10)]
  }

  lemma {:induction false} DecimalValue(n: nat)
    ensures DigitsValue(Decimal(n)) == n
    decreases n
  {
    if n >= 10 {
      DecimalValue(n / 10);
      var r := Decimal(n);
      assert r[..|r| - 1] == Decimal(n / 10);
    }
  }

  /** Reading back the decimal text of a number gives the number: `parseInt(String(n), 10) == n`. */
  lemma ParseIntOfDecimal(n: nat)
    ensures ParseInt(Decimal(n)) == Some(n)
  {
    DecimalValue(n);
    ParseIntReadsDigits([], Decimal(n), []);
    assert [] + Decimal(n) + [] == Decimal(n);
  }

  // ---------------------------------------------------------------------
  // The month of the calendar endpoints
  // ---------------------------------------------------------------------

  /** `new Date(y, …)` reads a year from 0 to 99 as 1900 to 1999. */
  function FullYear(y: int): (r: int)
    ensures 0 <= y <= 99 ==> r == 1900 + y
    ensures !(0 <= y <= 99) ==> r == y
  {
    if 0 <= y <= 99 then 1900 + y else y
  }

  datatype Span = Span(start: Dates.Date, end: Dates.Date)

  /** `new Date(y, m - 1, 1)` and `new Date(y, m, 0)`. */
  function SpanOf(y: int, m: int): Span {
    Span(Dates.MakeDate(FullYear(y), m - 1, 1), Dates.MakeDate(FullYear(y), m, 0))
  }

  /**
   * The `year`/`month` check and bounds of `calendarDaysWithEvents` and
   * `calendarDaysWithEntries`: a missing or empty parameter is a 400; a
   * parameter with no digits is NaN, and a bound beyond the range of a
   * `Date` an Invalid Date, either of which the ORM refuses (500);
   * otherwise `new Date(y, m - 1, 1)` and `new Date(y, m, 0)`.
   */
  function MonthSpan(year: Option<string>, month: Option<string>): (r: Result<Span>)
    ensures (year.None? || year.value == [] || month.None? || month.value == []) <==>
      r == Err(BadRequest(MonthParamsMissing, "VALIDATION_ERROR"))
    ensures r.Err? && r != Err(BadRequest(MonthParamsMissing, "VALIDATION_ERROR")) <==>
      r == Err(Failure(Dates.InvalidDate))
    ensures r == Err(Failure(Dates.InvalidDate)) <==>
      && year.Some? && month.Some? && year.value != [] && month.value != []
      && (|| ParseInt(year.value).None? || ParseInt(month.value).None?
          || !Dates.InJsRange(SpanOf(ParseInt(year.value).value, ParseInt(month.value).value).start)
          || !Dates.InJsRange(SpanOf(ParseInt(year.value).value, ParseInt(month.value).value).end))
    ensures r.Ok? ==> Dates.Valid(r.value.start) && Dates.Valid(r.value.end)
    ensures r.Ok? ==> Dates.InJsRange(r.value.start) && Dates.InJsRange(r.value.end)
  {
    if year.None? || year.value == [] || month.None? || month.value == [] then
      Err(BadRequest(MonthParamsMissing, "VALIDATION_ERROR"))
    else
      match (ParseInt(year.value), ParseInt(month.value))
      case (Some(y), Some(m)) =>
        var s := SpanOf(y, m);
        if Dates.InJsRange(s.start) && Dates.InJsRange(s.end) then Ok(s) else Err(Failure(Dates.InvalidDate))
      case _ => Err(Failure(Dates.InvalidDate))
  }

  /**
   * The two bounds are the first and the last day of one month: month m of
   * year y once an out-of-range month is carried into the year, so month 13
   * is January of the next year and month 0 December of the one before.
   */
  lemma MonthSpanIsMonth(year: string, month: string)
    requires MonthSpan(Some(year), Some(month)).Ok?
    ensures var y := FullYear(ParseInt(year).value);
            var m := ParseInt(month).value;
            var s := MonthSpan(Some(year), Some(month)).value;
            && s.start.year * 12 + s.start.month == y * 12 + m
            && s.start.day == 1
            && s.end == Dates.Date(s.start.year, s.start.month, Dates.DaysInMonth(s.start.year, s.start.month))
  {
    var y, m := FullYear(ParseInt(year).value), ParseInt(month).value;
    assert MonthSpan(Some(year), Some(month)).value == Span(Dates.MakeDate(y, m - 1, 1), Dates.MakeDate(y, m, 0));
    Dates.MonthBounds(y, m);
  }

  /**
   * The query the calendar page sends, `year=<getFullYear()>&month=<getMonth() + 1>`,
   * spans exactly that month, for every year a `Date` holds in full.
   */
  lemma MonthSpanOfCalendarQuery(y: nat, m: nat)
    requires 100 <= y < 275760 && 1 <= m <= 12
    ensures MonthSpan(Some(Decimal(y)), Some(Decimal(m))) ==
      Ok(Span(Dates.Date(y, m, 1), Dates.Date(y, m, Dates.DaysInMonth(y, m))))
  {
    ParseIntOfDecimal(y);
    ParseIntOfDecimal(m);
    Dates.LastDayOfMonth(y, m);
  }

  /** A year past the range of a `Date` is an Invalid Date, which answers 500. */
  lemma MonthSpanBeyondRange(y: nat, m: nat)
    requires y > 275760 && 1 <= m <= 12
    ensures MonthSpan(Some(Decimal(y)), Some(Decimal(m))) == Err(Failure(Dates.InvalidDate))
  {
    ParseIntOfDecimal(y);
    ParseIntOfDecimal(m);
    Dates.LastDayOfMonth(y, m);
  }

  /** `date: { gte: start, lte: end }`. */
  function InSpan(s: Span): Dates.Date -> bool {
    (d: Dates.Date) => Dates.NotAfter(s.start, d) && Dates.NotAfter(d, s.end)
  }

  /** The days a month's span admits are exactly the valid days of that month. */
  lemma InSpanIsSameMonth(y: int, m: int, d: Dates.Date)
    requires 1 <= m <= 12 && Dates.Valid(d)
    ensures InSpan(Span(Dates.Date(y, m, 1), Dates.Date(y, m, Dates.DaysInMonth(y, m))))(d) <==>
      d.year == y && d.month == m
  {
  }

  // ---------------------------------------------------------------------
  // The by-date endpoints
  // ---------------------------------------------------------------------

  /**
   * `getEventsByDate` and `getEntriesByDate`: a missing parameter or one not
   * of the form `YYYY-MM-DD` is a 400; otherwise `new Date(dateStr)`, and a
   * month or day out of range is an Invalid Date that the query refuses
   * with a 500.
   */
  function DateParam(date: Option<string>): (r: Result<Dates.Date>)
    ensures r == Err(BadRequest(DateParamMissing, "VALIDATION_ERROR")) <==> date.None? || !IsIsoDateString(date.value)
    ensures r == Err(Failure(Dates.InvalidDate)) <==>
      date.Some? && IsIsoDateString(date.value) && !Dates.IsoReadable(date.value)
    ensures r.Ok? ==>
      && IsIsoDateString(date.value) && Dates.IsoReadable(date.value)
      && r.value == Dates.IsoDate(date.value) && Dates.Valid(r.value)
  {
    if date.None? || date.value == [] || !IsIsoDateString(date.value) then
      Err(BadRequest(DateParamMissing, "VALIDATION_ERROR"))
    else if !Dates.IsoReadable(date.value) then Err(Failure(Dates.InvalidDate))
    else Ok(Dates.IsoDate(date.value))
  }

  // ---------------------------------------------------------------------
  // distinct and toISOString
  // ---------------------------------------------------------------------

  /** `distinct`: each value once, at its first occurrence. */
  function Dedup<T(==,!new)>(s: seq<T>): (r: seq<T>)
    ensures forall x :: x in r <==> x in s
    ensures Ordering.Distinct(r)
    ensures |r| <= |s|
  {
    if s == [] then []
    else
      var r := Dedup(s[..|s| - 1]);
      assert forall x :: x in s <==> x in s[..|s| - 1] || x == s[|s| - 1] by {
        assert s == s[..|s| - 1] + [s[|s| - 1]];
      }
      if s[|s| - 1] in r then r else r + [s[|s| - 1]]
  }

  /** `n` written with exactly `w` digits, zero-padded on the left (the low `w` digits when it is longer). */
  function Padded(n: nat, w: nat): (r: string)
    ensures |r| == w && AllDigits(r)
  {
    if w == 0 then [] else Padded(n / 10, w - 1) + [DigitChar(n % 10)]
  }

  function Pow10(w: nat): (p: nat)
    ensures p >= 1
  {
    if w == 0 then 1 else 10 * Pow10(w - 1)
  }

  lemma {:induction false} PaddedValue(n: nat, w: nat)
    requires n < Pow10(w)
    ensures DigitsValue(Padded(n, w)) == n
  {
    if w > 0 {
      PaddedValue(n / 10, w - 1);
      var r := Padded(n, w);
      assert r[..|r| - 1] == Padded(n / 10, w - 1);
    }
  }

  /**
   * `d.toISOString().slice(0, 10)` for a stored day: `YYYY-MM-DD` for the
   * years 0 to 9999, otherwise the first ten characters of the extended
   * form `±YYYYYY-MM-DD`.
   */
  function DayText(d: Dates.Date): (r: string)
    requires Dates.Valid(d)
    ensures 0 <= d.year <= 9999 ==> IsIsoDateString(r)
  {
    var tail := "-" + Padded(d.month, 2) + "-" + Padded(d.day, 2);
    if 0 <= d.year <= 9999 then
      var r := Padded(d.year, 4) + tail;
      assert r[..4] == Padded(d.year, 4) && r[5..7] == Padded(d.month, 2) && r[8..] == Padded(d.day, 2);
      r
    else
      var y := if d.year < 0 then -d.year else d.year;
      ((if d.year < 0 then "-" else "+") + Padded(y, 6) + tail)[..10]
  }

  /** Reading a day's text back with `new Date` gives the day again: the by-date query of a listed day finds that day. */
  lemma DayTextRoundTrip(d: Dates.Date)
    requires Dates.Valid(d) && 0 <= d.year <= 9999
    ensures IsIsoDateString(DayText(d)) && Dates.IsoReadable(DayText(d))
    ensures Dates.IsoDate(DayText(d)) == d
  {
    var r := DayText(d);
    assert r[..4] == Padded(d.year, 4) && r[5..7] == Padded(d.month, 2) && r[8..] == Padded(d.day, 2);
    assert DigitsValue(r[..4]) == d.year by { PaddedValue(d.year, 4); }
    assert DigitsValue(r[5..7]) == d.month by { PaddedValue(d.month, 2); }
    assert DigitsValue(r[8..]) == d.day by { PaddedValue(d.day, 2); }
    assert Dates.IsoDate(r) == Dates.MakeDate(d.year, d.month - 1, d.day);
    Dates.MakeDateOfValid(d);
  }

  lemma DayTextInjective(a: Dates.Date, b: Dates.Date)
    requires Dates.Valid(a) && 0 <= a.year <= 9999
    requires Dates.Valid(b) && 0 <= b.year <= 9999
    ensures DayText(a) == DayText(b) ==> a == b
  {
    DayTextRoundTrip(a);
    DayTextRoundTrip(b);
  }

  function DayTexts(days: seq<Dates.Date>): (r: seq<string>)
    requires forall i :: 0 <= i < |days| ==> Dates.Valid(days[i])
    ensures |r| == |days| && forall i :: 0 <= i < |days| ==> r[i] == DayText(days[i])
  {
    if days == [] then [] else [DayText(days[0])] + DayTexts(days[1..])
  }

  /** `distinct: ["date"]` over the rows in the span: each day of the span that some row has, once. */
  function SpanDays(dates: seq<Dates.Date>, s: Span): (r: seq<Dates.Date>)
    requires forall i :: 0 <= i < |dates| ==> Dates.Valid(dates[i])
    ensures forall d :: d in r <==> d in dates && InSpan(s)(d)
    ensures Ordering.Distinct(r)
    ensures forall k :: 0 <= k < |r| ==> Dates.Valid(r[k])
  {
    var r := Dedup(Seqs.Filter(dates, InSpan(s)));
    forall d | d in dates && InSpan(s)(d) ensures d in r {
      var i :| 0 <= i < |dates| && dates[i] == d;
    }
    forall k | 0 <= k < |r| ensures Dates.Valid(r[k]) {
      assert r[k] in dates;
    }
    r
  }

  /** Distinct days of the years 0 to 9999 have distinct texts. */
  lemma DayTextsDistinct(days: seq<Dates.Date>)
    requires Ordering.Distinct(days)
    requires forall k :: 0 <= k < |days| ==> Dates.Valid(days[k]) && 0 <= days[k].year <= 9999
    ensures Ordering.Distinct(DayTexts(days))
  {
    var r := DayTexts(days);
    forall i, j | 0 <= i < j < |r| ensures r[i] != r[j] {
      DayTextInjective(days[i], days[j]);
    }
  }

  /**
   * The `{ dates }` answer of a calendar endpoint: the days among `dates`
   * (the project's rows' days, in table order) that fall in the span, each
   * once, as text; no text twice while the days lie in the years 0 to 9999.
   */
  function DaysIn(dates: seq<Dates.Date>, s: Span): (r: seq<string>)
    requires forall i :: 0 <= i < |dates| ==> Dates.Valid(dates[i])
    ensures forall i :: 0 <= i < |dates| && InSpan(s)(dates[i]) ==> DayText(dates[i]) in r
    ensures forall t :: t in r ==> exists i :: 0 <= i < |dates| && InSpan(s)(dates[i]) && t == DayText(dates[i])
    ensures (forall i :: 0 <= i < |dates| ==> 0 <= dates[i].year <= 9999) ==> Ordering.Distinct(r)
  {
    DaysInCovers(dates, s);
    DaysInSound(dates, s);
    DaysInDistinct(dates, s);
    DayTexts(SpanDays(dates, s))
  }

  lemma DaysInCovers(dates: seq<Dates.Date>, s: Span)
    requires forall i :: 0 <= i < |dates| ==> Dates.Valid(dates[i])
    ensures var r := DayTexts(SpanDays(dates, s));
      forall i :: 0 <= i < |dates| && InSpan(s)(dates[i]) ==> DayText(dates[i]) in r
  {
    var days := SpanDays(dates, s);
    var r := DayTexts(days);
    forall i | 0 <= i < |dates| && InSpan(s)(dates[i]) ensures DayText(dates[i]) in r {
      assert dates[i] in days;
      var k :| 0 <= k < |days| && days[k] == dates[i];
      assert r[k] == DayText(dates[i]);
    }
  }

  lemma DaysInSound(dates: seq<Dates.Date>, s: Span)
    requires forall i :: 0 <= i < |dates| ==> Dates.Valid(dates[i])
    ensures var r := DayTexts(SpanDays(dates, s));
      forall t :: t in r ==> exists i :: 0 <= i < |dates| && InSpan(s)(dates[i]) && t == DayText(dates[i])
  {
    var days := SpanDays(dates, s);
    var r := DayTexts(days);
    forall t | t in r ensures exists i :: 0 <= i < |dates| && InSpan(s)(dates[i]) && t == DayText(dates[i]) {
      var k :| 0 <= k < |r| && r[k] == t;
      assert days[k] in days;
      var i :| 0 <= i < |dates| && dates[i] == days[k];
    }
  }

  lemma DaysInDistinct(dates: seq<Dates.Date>, s: Span)
    requires forall i :: 0 <= i < |dates| ==> Dates.Valid(dates[i])
    ensures (forall i :: 0 <= i < |dates| ==> 0 <= dates[i].year <= 9999) ==>
      Ordering.Distinct(DayTexts(SpanDays(dates, s)))
  {
    var days := SpanDays(dates, s);
    if (forall i :: 0 <= i < |dates| ==> 0 <= dates[i].year <= 9999) {
      forall k | 0 <= k < |days| ensures 0 <= days[k].year <= 9999 {
        assert days[k] in days;
      }
      DayTextsDistinct(days);
    }
  }

  /** The days of the rows in scope, in table order. */
  function RowDates<T>(rows: seq<T>, inScope: T -> bool, dateOf: T -> Dates.Date): (r: seq<Dates.Date>)
    ensures forall d :: d in r <==> exists i :: 0 <= i < |rows| && inScope(rows[i]) && d == dateOf(rows[i])
  {
    if rows == [] then []
    else
      var rest := RowDates(rows[1..], inScope, dateOf);
      assert forall i :: 0 < i < |rows| ==> rows[i] == rows[1..][i - 1];
      assert forall d :: d in rest ==> exists i :: 0 <= i < |rows| && inScope(rows[i]) && d == dateOf(rows[i]) by {
        forall d | d in rest ensures exists i :: 0 <= i < |rows| && inScope(rows[i]) && d == dateOf(rows[i]) {
          var i :| 0 <= i < |rows[1..]| && inScope(rows[1..][i]) && d == dateOf(rows[1..][i]);
          assert rows[i + 1] == rows[1..][i];
        }
      }
      if inScope(rows[0]) then [dateOf(rows[0])] + rest else rest
  }

  /**
   * The `{ dates }` answer of a calendar endpoint over a table: the text of
   * every day in the span on which some row in scope falls, and nothing
   * else; no text twice while those days lie in the years 0 to 9999.
   */
  function RowDays<T>(rows: seq<T>, inScope: T -> bool, dateOf: T -> Dates.Date, s: Span): (r: seq<string>)
    requires forall i :: 0 <= i < |rows| && inScope(rows[i]) ==> Dates.Valid(dateOf(rows[i]))
    ensures forall t :: t in r <==>
      exists i :: 0 <= i < |rows| && inScope(rows[i]) && InSpan(s)(dateOf(rows[i])) && t == DayText(dateOf(rows[i]))
    ensures (forall i :: 0 <= i < |rows| && inScope(rows[i]) ==> 0 <= dateOf(rows[i]).year <= 9999) ==>
      Ordering.Distinct(r)
  {
    var dates := RowDates(rows, inScope, dateOf);
    RowDatesFacts(rows, inScope, dateOf, dates);
    RowDaysMembers(rows, inScope, dateOf, s, dates);
    DaysIn(dates, s)
  }

  /** Every collected date is a valid date of some row in scope, and inherits the rows' year bound. */
  lemma RowDatesFacts<T>(rows: seq<T>, inScope: T -> bool, dateOf: T -> Dates.Date, dates: seq<Dates.Date>)
    requires forall i :: 0 <= i < |rows| && inScope(rows[i]) ==> Dates.Valid(dateOf(rows[i]))
    requires dates == RowDates(rows, inScope, dateOf)
    ensures forall k :: 0 <= k < |dates| ==> Dates.Valid(dates[k]) && DateOfRow(rows, inScope, dateOf, dates[k])
    ensures forall i :: 0 <= i < |rows| && inScope(rows[i]) ==> dateOf(rows[i]) in dates
    ensures (forall i :: 0 <= i < |rows| && inScope(rows[i]) ==> 0 <= dateOf(rows[i]).year <= 9999) ==>
      (forall k :: 0 <= k < |dates| ==> 0 <= dates[k].year <= 9999)
  {
    forall k | 0 <= k < |dates| ensures Dates.Valid(dates[k]) && DateOfRow(rows, inScope, dateOf, dates[k]) {
      assert dates[k] in dates;
    }
    forall k | 0 <= k < |dates| && (forall i :: 0 <= i < |rows| && inScope(rows[i]) ==> 0 <= dateOf(rows[i]).year <= 9999)
      ensures 0 <= dates[k].year <= 9999
    {
      assert dates[k] in dates;
    }
  }

  ghost predicate DateOfRow<T>(rows: seq<T>, inScope: T -> bool, dateOf: T -> Dates.Date, d: Dates.Date) {
    exists i :: 0 <= i < |rows| && inScope(rows[i]) && d == dateOf(rows[i])
  }

  lemma RowDaysMembers<T>(rows: seq<T>, inScope: T -> bool, dateOf: T -> Dates.Date, s: Span, dates: seq<Dates.Date>)
    requires forall i :: 0 <= i < |rows| && inScope(rows[i]) ==> Dates.Valid(dateOf(rows[i]))
    requires forall k :: 0 <= k < |dates| ==> Dates.Valid(dates[k]) && DateOfRow(rows, inScope, dateOf, dates[k])
    requires forall i :: 0 <= i < |rows| && inScope(rows[i]) ==> dateOf(rows[i]) in dates
    ensures forall t :: t in DaysIn(dates, s) <==>
      exists i :: 0 <= i < |rows| && inScope(rows[i]) && InSpan(s)(dateOf(rows[i])) && t == DayText(dateOf(rows[i]))
  {
    var r := DaysIn(dates, s);
    forall t | t in r
      ensures exists i :: 0 <= i < |rows| && inScope(rows[i]) && InSpan(s)(dateOf(rows[i])) && t == DayText(dateOf(rows[i]))
    {
      var k :| 0 <= k < |dates| && InSpan(s)(dates[k]) && t == DayText(dates[k]);
      assert DateOfRow(rows, inScope, dateOf, dates[k]);
      var i :| 0 <= i < |rows| && inScope(rows[i]) && dates[k] == dateOf(rows[i]);
    }
    forall i | 0 <= i < |rows| && inScope(rows[i]) && InSpan(s)(dateOf(rows[i])) ensures DayText(dateOf(rows[i])) in r {
      var k :| 0 <= k < |dates| && dates[k] == dateOf(rows[i]);
    }
  }
}
