/**
 * The relative-date resolver of the JSON import: expressions `T0` and
 * `T0+<N><unit>` evaluated against a project's anchor date, and the
 * classification of an imported value as relative, absolute (`YYYY-MM-DD`)
 * or unrecognised.
 */
module RelativeDate {
  import opened Common
  import opened Dates

  datatype Unit = Days | Weeks | Months | Years

  /**
   * The unit alternation `(giorni?|settimane?|mes(e|i)|ann(o|i))` under the `i`
   * flag. Note that `giorni?` is "giorn" with an optional "i", so the singular
   * "giorno" and "settimana" are NOT units, even though the doc comment of the
   * source lists them.
   */
  function UnitWord(w: string): Option<Unit> {
    var l := LowerAsciiString(w);
    if l == "giorn" || l == "giorni" then Some(Days)
    else if l == "settiman" || l == "settimane" then Some(Weeks)
    else if l == "mese" || l == "mesi" then Some(Months)
    else if l == "anno" || l == "anni" then Some(Years)
    else None
  }

  /** `T0` at the start of the string, either case of the letter (`i` flag). */
  predicate StartsWithT0(t: string) {
    |t| >= 2 && (t[0] == 'T' || t[0] == 't') && t[1] == '0'
  }

  /**
   * `/^T0\s*\+\s*(\d+)\s*(unit)$/i` on `t`, read greedily from left to right:
   * the number and the unit when the whole string matches.
   */
  function MatchOffset(t: string): Option<(nat, Unit)> {
    if !StartsWithT0(t) then None
    else
      var i := SpaceEnd(t, 2);
      if i == |t| || t[i] != '+' then None
      else
        var j := SpaceEnd(t, i + 1);
        var k := DigitEnd(t, j);
        if k == j then None
        else
          var l := SpaceEnd(t, k);
          assert AllDigits(t[j..k]);
          match UnitWord(t[l..])
          case None => None
          case Some(u) => Some((DigitsValue(t[j..k]), u))
  }

  /**
   * The regular expression as a pattern: `T0`, spaces in [2, i), the `+` at
   * `i`, spaces in (i, j), digits in [j, k), spaces in [k, l), a unit word from `l`.
   */
  ghost predicate OffsetShape(t: string, i: nat, j: nat, k: nat, l: nat) {
    && StartsWithT0(t)
    && 2 <= i < j < k <= l <= |t|
    && t[i] == '+'
    && (forall x :: 2 <= x < i ==> IsSpace(t[x]))
    && (forall x :: i + 1 <= x < j ==> IsSpace(t[x]))
    && (forall x :: j <= x < k ==> IsDigit(t[x]))
    && (forall x :: k <= x < l ==> IsSpace(t[x]))
    && UnitWord(t[l..]).Some?
  }

  /** `/^T0\s*\+/i.test(t)`. */
  predicate HasOffsetPrefix(t: string) {
    StartsWithT0(t) && SpaceEnd(t, 2) < |t| && t[SpaceEnd(t, 2)] == '+'
  }

  /**
   * `isRelativeDate`: absent and empty input are not relative; otherwise the
   * trimmed text is exactly "T0" or starts with `T0`/`t0`, spaces and `+`.
   */
  function IsRelativeDate(s: Option<string>): (r: bool)
    ensures s.None? || s.value == "" ==> !r
    ensures r ==> StartsWithT0(Trim(s.value))
  {
    if s.None? || s.value == "" then false
    else
      var t := Trim(s.value);
      t == "T0" || HasOffsetPrefix(t)
  }

  /** The date arithmetic of each unit, on the day of `t0` at midnight. */
  function Advance(d: Date, n: nat, u: Unit): Date
    requires Valid(d)
  {
    match u
    case Days => SetDatePlus(d, n)
    case Weeks => SetDatePlus(d, n * 7)
    case Months => SetMonthPlus(d, n)
    case Years => SetFullYearPlus(d, n)
  }

  /**
   * `parseRelativeDate(expr, t0)`: `T0` in either case gives midnight of `t0`;
   * `T0+N<unit>` gives midnight of `t0` moved by N units; anything else is null.
   * Every result is a valid day at midnight, never before the day of `t0`.
   */
  function ParseRelativeDate(expr: Option<string>, t0: DateTime): (r: Option<DateTime>)
    requires ValidDateTime(t0)
    ensures r.Some? ==> ValidDateTime(r.value) && r.value.millis == 0 && NotAfter(t0.date, r.value.date)
    ensures expr.None? || expr.value == "" ==> r.None?
  {
    if expr.None? || expr.value == "" then None
    else
      var t := Trim(expr.value);
      // `t === "T0" || t.toUpperCase() === "T0"`: only "T0" and "t0" upper-case to "T0".
      if t == "T0" || t == "t0" then Some(Midnight(t0))
      else
        match MatchOffset(t)
        case None => None
        case Some((n, u)) =>
          AdvanceNotBefore(t0.date, n, u);
          Some(DateTime(Advance(t0.date, n, u), 0))
  }

  datatype Resolved = Resolved(date: Option<DateTime>, relative: Option<string>)

  /**
   * `parseDateOrRelative(value, t0)`: a relative expression keeps its trimmed
   * text as the marker and resolves only when `t0` is known; a `YYYY-MM-DD`
   * string gives that day with no marker; anything else gives neither.
   */
  function ParseDateOrRelative(value: Option<string>, t0: Option<DateTime>): (r: Resolved)
    requires t0.Some? ==> ValidDateTime(t0.value)
    ensures r.relative.Some? ==> value.Some? && r.relative.value == Trim(value.value)
                                 && IsRelativeDate(Some(Trim(value.value)))
    ensures r.relative.None? && r.date.Some? ==> value.Some? && IsIsoDateString(Trim(value.value))
    ensures t0.None? ==> r.relative.Some? || r.date.None? || IsIsoDateString(Trim(value.value))
  {
    if value.None? || value.value == "" then Resolved(None, None)
    else
      var v := Trim(value.value);
      if IsRelativeDate(Some(v)) then
        if t0.None? then Resolved(None, Some(v))
        else Resolved(ParseRelativeDate(Some(v), t0.value), Some(v))
      else if IsIsoDateString(v) then Resolved(Some(DateTime(IsoDate(v), 0)), None)
      else Resolved(None, None)
  }

  // ---------------------------------------------------------------------
  // Lemmas
  // ---------------------------------------------------------------------

  lemma AdvanceNotBefore(d: Date, n: nat, u: Unit)
    requires Valid(d)
    ensures NotAfter(d, Advance(d, n, u))
  {
    match u
    case Days => SetDatePlusIsAddDays(d, n); AddDaysMonotone(d, n);
    case Weeks => SetDatePlusIsAddDays(d, n * 7); AddDaysMonotone(d, n * 7);
    case Months => SetMonthPlusMonotone(d, n);
    case Years => SetFullYearPlusMonotone(d, n);
  }

  /** A unit word starts with a letter: it is neither a digit nor whitespace. */
  lemma UnitWordStartsWithLetter(w: string)
    requires UnitWord(w).Some?
    ensures |w| > 0 && !IsDigit(w[0]) && !IsSpace(w[0])
  {
    var l := LowerAsciiString(w);
    LowerAsciiAt(w, 0);
    assert l[0] == 'g' || l[0] == 's' || l[0] == 'm' || l[0] == 'a';
  }

  /** Every string the regular expression matches is read with its own number and unit. */
  /** MatchOffset once its four scans are known. */
  lemma MatchOffsetAt(t: string, i: nat, j: nat, k: nat, l: nat)
    requires StartsWithT0(t) && 2 <= i < |t| && t[i] == '+' && i + 1 <= j < k <= l <= |t|
    requires SpaceEnd(t, 2) == i && SpaceEnd(t, i + 1) == j && DigitEnd(t, j) == k && SpaceEnd(t, k) == l
    ensures AllDigits(t[j..k])
    ensures MatchOffset(t) == match UnitWord(t[l..])
                              case None => None
                              case Some(u) => Some((DigitsValue(t[j..k]), u))
  {
    assert AllDigits(t[j..k]);
  }

  lemma MatchOffsetComplete(t: string, i: nat, j: nat, k: nat, l: nat)
    requires OffsetShape(t, i, j, k, l)
    ensures AllDigits(t[j..k])
    ensures MatchOffset(t) == Some((DigitsValue(t[j..k]), UnitWord(t[l..]).value))
  {
    assert SpaceEnd(t, 2) == i by {
      SpaceEndExact(t, 2, i);
    }
    assert SpaceEnd(t, i + 1) == j by {
      assert IsDigit(t[j]);
      SpaceEndExact(t, i + 1, j);
    }
    assert l < |t| && !IsDigit(t[l]) && !IsSpace(t[l]) by {
      UnitWordStartsWithLetter(t[l..]);
      assert t[l..][0] == t[l];
    }
    assert DigitEnd(t, j) == k by {
      DigitEndExact(t, j, k);
    }
    assert SpaceEnd(t, k) == l by {
      SpaceEndExact(t, k, l);
    }
    MatchOffsetAt(t, i, j, k, l);
  }

  /** Every string MatchOffset accepts has the shape of the regular expression. */
  lemma MatchOffsetSound(t: string)
    requires MatchOffset(t).Some?
    ensures exists i, j, k, l :: OffsetShape(t, i, j, k, l)
  {
    var i := SpaceEnd(t, 2);
    assert StartsWithT0(t) && i < |t| && t[i] == '+';
    var j := SpaceEnd(t, i + 1);
    var k := DigitEnd(t, j);
    assert j < k;
    var l := SpaceEnd(t, k);
    MatchOffsetAt(t, i, j, k, l);
    assert OffsetShape(t, i, j, k, l);
  }

  /** `T0` in either case, with any surrounding whitespace, resolves to midnight of `t0`. */
  lemma T0IsMidnight(s: string, t0: DateTime)
    requires ValidDateTime(t0)
    requires Trim(s) == "T0" || Trim(s) == "t0"
    ensures ParseRelativeDate(Some(s), t0) == Some(Midnight(t0))
  {
  }

  /** `T0+N giorni` is N days after midnight of `t0`; `T0+N settimane` is 7N days after. */
  lemma DaysAndWeeks(t0: DateTime, t: string, n: nat, u: Unit)
    requires ValidDateTime(t0)
    requires MatchOffset(Trim(t)) == Some((n, u)) && (u == Days || u == Weeks)
    ensures t != "" && Trim(t) != "T0" && Trim(t) != "t0"
    ensures ParseRelativeDate(Some(t), t0)
         == Some(DateTime(AddDays(t0.date, if u == Days then n else 7 * n), 0))
  {
    OffsetResolves(t0, t, n, u);
    if u == Days {
      SetDatePlusIsAddDays(t0.date, n);
    } else {
      SetDatePlusIsAddDays(t0.date, n * 7);
    }
  }

  /** A non-empty text whose trimmed form is neither `T0` nor an offset resolves to nothing. */
  lemma OffsetRejected(t0: DateTime, t: string)
    requires ValidDateTime(t0)
    requires t != "" && Trim(t) != "T0" && Trim(t) != "t0" && MatchOffset(Trim(t)).None?
    ensures ParseRelativeDate(Some(t), t0).None?
  {
  }

  /** A text whose trimmed form is an offset is neither empty nor `T0`, and resolves to `t0` advanced by it. */
  lemma OffsetResolves(t0: DateTime, t: string, n: nat, u: Unit)
    requires ValidDateTime(t0)
    requires MatchOffset(Trim(t)) == Some((n, u))
    ensures t != "" && Trim(t) != "T0" && Trim(t) != "t0"
    ensures ParseRelativeDate(Some(t), t0) == Some(DateTime(Advance(t0.date, n, u), 0))
  {
  }

  /** An expression the resolver evaluates is one `isRelativeDate` recognises, except bare lower-case "t0". */
  lemma ResolvedImpliesRelative(s: string, t0: DateTime)
    requires ValidDateTime(t0)
    requires ParseRelativeDate(Some(s), t0).Some? && Trim(s) != "t0"
    ensures IsRelativeDate(Some(s))
  {
    var t := Trim(s);
    if t != "T0" {
      MatchOffsetSound(t);
      var i, j, k, l :| OffsetShape(t, i, j, k, l);
      SpaceEndExact(t, 2, i);
    }
  }

  /**
   * Bare lower-case "t0" is resolved by `parseRelativeDate` but not recognised
   * by `isRelativeDate` (strict `=== "T0"`, and no `+`), so the import drops it.
   */
  lemma LowerCaseT0Dropped(t0: DateTime)
    requires ValidDateTime(t0)
    ensures ParseRelativeDate(Some("t0"), t0) == Some(Midnight(t0))
    ensures !IsRelativeDate(Some("t0"))
    ensures ParseDateOrRelative(Some("t0"), Some(t0)) == Resolved(None, None)
  {
    TrimOfTrimmed("t0");
    assert !IsIsoDateString("t0");
  }

  /** A one-digit offset written without spaces, `T0+<d><word>`, is read as that digit and word. */
  lemma OneDigitOffset(t: string)
    requires |t| >= 5 && t[0] == 'T' && t[1] == '0' && t[2] == '+' && IsDigit(t[3])
    requires !IsDigit(t[4]) && !IsSpace(t[4])
    ensures AllDigits(t[3..4])
    ensures MatchOffset(t) == if UnitWord(t[4..]).None? then None
                              else Some((DigitsValue(t[3..4]), UnitWord(t[4..]).value))
  {
    assert SpaceEnd(t, 2) == 2 by { SpaceEndExact(t, 2, 2); }
    assert SpaceEnd(t, 3) == 3 by { SpaceEndExact(t, 3, 3); }
    assert DigitEnd(t, 3) == 4 by { DigitEndExact(t, 3, 4); }
    assert SpaceEnd(t, 4) == 4 by { SpaceEndExact(t, 4, 4); }
    MatchOffsetAt(t, 2, 3, 4, 4);
  }

  /**
   * The only unit words of six and of nine letters are "giorni" and
   * "settimane": a six-letter word ending in `o` (such as "giorno") or a
   * nine-letter word ending in `a` (such as "settimana") is no unit, in either case.
   */
  lemma SingularNotUnit(w: string)
    requires (|w| == 6 && LowerAscii(w[5]) == 'o') || (|w| == 9 && LowerAscii(w[8]) == 'a')
    ensures UnitWord(w).None?
  {
    var l := LowerAsciiString(w);
    LowerAsciiAt(w, |w| - 1);
    assert l[|l| - 1] != "giorni"[5] && l[|l| - 1] != "settimane"[8];
  }

  /** A four-letter word spelling "mesi" is the month unit. */
  lemma MesiIsMonths(w: string)
    requires |w| == 4 && w[0] == 'm' && w[1] == 'e' && w[2] == 's' && w[3] == 'i'
    ensures UnitWord(w) == Some(Months)
  {
    var l := LowerAsciiString(w);
    LowerAsciiAt(w, 0);
    LowerAsciiAt(w, 1);
    LowerAsciiAt(w, 2);
    LowerAsciiAt(w, 3);
    assert l == "mesi";
  }

  /**
   * `T0+<d><word>` with no surrounding whitespace resolves to midnight of `t0`
   * moved by the digit's value in the word's unit, or to null when the word is no unit.
   */
  lemma OneDigitResolves(t: string, t0: DateTime)
    requires ValidDateTime(t0)
    requires |t| >= 5 && t[0] == 'T' && t[1] == '0' && t[2] == '+' && IsDigit(t[3])
    requires !IsDigit(t[4]) && !IsSpace(t[4]) && !IsSpace(t[|t| - 1])
    ensures ParseRelativeDate(Some(t), t0)
         == match UnitWord(t[4..])
            case None => None
            case Some(u) => Some(DateTime(Advance(t0.date, t[3] as int - '0' as int, u), 0))
  {
    TrimOfTrimmed(t);
    OneDigitOffset(t);
    var n := DigitsValue(t[3..4]);
    assert n == t[3] as int - '0' as int by {
      DigitValue(t[3..4], t[3]);
    }
    match UnitWord(t[4..])
    case None =>
      assert t != "" && t != "T0" && t != "t0" by { assert |t| >= 5; }
      OffsetRejected(t0, t);
    case Some(u) =>
      OffsetResolves(t0, t, n, u);
  }

  /** The singular "giorno" of the doc comment is rejected by the regular expression. */
  lemma SingularDayRejected(t0: DateTime)
    requires ValidDateTime(t0)
    ensures ParseRelativeDate(Some("T0+1giorno"), t0).None?
  {
    var a := "T0+1giorno";
    SingularNotUnit(a[4..]);
    OneDigitResolves(a, t0);
  }

  /** The singular "settimana" of the doc comment is rejected by the regular expression. */
  lemma SingularWeekRejected(t0: DateTime)
    requires ValidDateTime(t0)
    ensures ParseRelativeDate(Some("T0+1settimana"), t0).None?
  {
    var b := "T0+1settimana";
    SingularNotUnit(b[4..]);
    OneDigitResolves(b, t0);
  }

  /** A well-formed offset such as "T0+3mesi" moves midnight of `t0` by three months. */
  lemma ThreeMonths(t0: DateTime)
    requires ValidDateTime(t0)
    ensures ParseRelativeDate(Some("T0+3mesi"), t0) == Some(DateTime(SetMonthPlus(t0.date, 3), 0))
  {
    var a := "T0+3mesi";
    MesiIsMonths(a[4..]);
    OneDigitResolves(a, t0);
    assert a[3] as int - '0' as int == 3;
    assert Advance(t0.date, 3, Months) == SetMonthPlus(t0.date, 3);
  }

  /** A relative string with an unknown anchor keeps only its marker. */
  lemma RelativeWithoutAnchor(value: string)
    requires IsRelativeDate(Some(Trim(value))) && value != ""
    ensures ParseDateOrRelative(Some(value), None) == Resolved(None, Some(Trim(value)))
  {
  }

  /** A relative string with a known anchor is resolved, or null when malformed, and keeps its marker. */
  lemma RelativeWithAnchor(value: string, t0: DateTime)
    requires ValidDateTime(t0)
    requires IsRelativeDate(Some(Trim(value))) && value != ""
    ensures ParseDateOrRelative(Some(value), Some(t0))
         == Resolved(ParseRelativeDate(Some(Trim(value)), t0), Some(Trim(value)))
  {
  }

  /** A malformed offset such as "T0+xyz" is recognised as relative but resolves to no date. */
  lemma MalformedOffset(t0: DateTime)
    requires ValidDateTime(t0)
    ensures ParseDateOrRelative(Some("T0+xyz"), Some(t0)) == Resolved(None, Some("T0+xyz"))
  {
    var a := "T0+xyz";
    TrimOfTrimmed(a);
    SpaceEndExact(a, 2, 2);
    assert IsRelativeDate(Some(a));
    SpaceEndExact(a, 3, 3);
    DigitEndExact(a, 3, 3);
    assert MatchOffset(a).None?;
  }

  /** A `YYYY-MM-DD` string is that day, whatever the anchor. */
  lemma IsoIgnoresAnchor(value: string, t1: Option<DateTime>, t2: Option<DateTime>)
    requires t1.Some? ==> ValidDateTime(t1.value)
    requires t2.Some? ==> ValidDateTime(t2.value)
    requires IsIsoDateString(Trim(value))
    ensures ParseDateOrRelative(Some(value), t1) == ParseDateOrRelative(Some(value), t2)
         == Resolved(Some(DateTime(IsoDate(Trim(value)), 0)), None)
  {
    var v := Trim(value);
    assert !StartsWithT0(v) by { assert IsDigit(v[0]); }
  }
}
