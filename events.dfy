/**
 * The events controller: dated project events (a call, a meeting or
 * anything else) with an optional time of day `H:MM` or `HH:MM`, listed by
 * date and time, filtered to a month for the calendar, to the days from
 * today on for the home page, or to one day.
 */
module Events {
  import opened Common
  import opened Seqs
  import opened Ordering
  import opened ErrorHandler
  import Dates
  import Calendar
  import Projects

  /** A `projectEvent` row; `kind` holds the `type` column. */
  datatype Event = Event(
    id: Id, projectId: Id, date: Dates.Date, time: Option<string>, kind: string, name: string, notes: Option<string>)

  const EventNotFound: string := "Evento non trovato"

  /** The error `createEvent` answers when the generated ORM client has no event model. */
  const ClientOutdated: string :=
    "Modello eventi non disponibile. Nella cartella backend esegui: npx prisma generate e riavvia il server."

  const Kinds: seq<string> := ["call", "meeting", "other"]

  /** `take: 15` of `getFutureEvents`. */
  const FutureLimit: nat := 15

  function EventId(e: Event): Id { e.id }

  function InProject(p: Id): Event -> bool {
    (e: Event) => e.projectId == p
  }

  function IsEvent(p: Id, id: Id): Event -> bool {
    (e: Event) => e.id == id && e.projectId == p
  }

  function NotEvent(p: Id, id: Id): Event -> bool {
    (e: Event) => !(e.id == id && e.projectId == p)
  }

  /** `where: { projectId, date: { gte: today } }`. */
  function FromDay(p: Id, today: Dates.Date): Event -> bool {
    (e: Event) => e.projectId == p && Dates.NotAfter(today, e.date)
  }

  /** `where: { projectId, date }`. */
  function OnDay(p: Id, d: Dates.Date): Event -> bool {
    (e: Event) => e.projectId == p && e.date == d
  }

  function EventDate(e: Event): Dates.Date { e.date }

  // ---------------------------------------------------------------------
  // Times of day: /^([01]?\d|2[0-3]):[0-5]\d$/
  // ---------------------------------------------------------------------

  /** `timeRegex`: an hour `d`, `0d`, `1d` or `20`..`23`, a colon, and a minute `00`..`59`. */
  predicate TimeOk(s: string) {
    || (|s| == 4 && IsDigit(s[0]) && s[1] == ':' && '0' <= s[2] <= '5' && IsDigit(s[3]))
    || (|s| == 5 && (((s[0] == '0' || s[0] == '1') && IsDigit(s[1])) || (s[0] == '2' && '0' <= s[1] <= '3'))
        && s[2] == ':' && '0' <= s[3] <= '5' && IsDigit(s[4]))
  }

  function DigitOf(c: char): int { c as int - '0' as int }

  function Hour(s: string): int requires TimeOk(s) {
    if |s| == 4 then DigitOf(s[0]) else 10 * DigitOf(s[0]) + DigitOf(s[1])
  }

  function MinuteOfHour(s: string): int requires TimeOk(s) {
    10 * DigitOf(s[|s| - 2]) + DigitOf(s[|s| - 1])
  }

  /** The minutes since midnight a valid time names. */
  function Minutes(s: string): (n: int)
    requires TimeOk(s)
    ensures 0 <= n < 1440
  {
    60 * Hour(s) + MinuteOfHour(s)
  }

  /** The text of hour `h` and minute `m`: `HH:MM`, or `H:MM` unpadded. */
  function TimeText(h: nat, m: nat, padded: bool): string
    requires h < 24 && m < 60 && (padded || h < 10)
  {
    (if padded then Calendar.Padded(h, 2) else [Calendar.DigitChar(h)]) + ":" + Calendar.Padded(m, 2)
  }

  lemma PaddedTwo(n: nat)
    requires n < 100
    ensures Calendar.Padded(n, 2) == [Calendar.DigitChar(n / 10), Calendar.DigitChar(n % 10)]
  {
    var q, r := n / 10, n % 10;
    assert q < 10 && q % 10 == q && q / 10 == 0;
    assert Calendar.Padded(q, 1) == Calendar.Padded(0, 0) + [Calendar.DigitChar(q)];
    assert Calendar.Padded(n, 2) == Calendar.Padded(q, 1) + [Calendar.DigitChar(r)];
  }

  /** Two digits read as a number and written back with width two are those digits. */
  lemma TwoDigitText(c0: char, c1: char)
    requires IsDigit(c0) && IsDigit(c1)
    ensures Calendar.Padded(10 * DigitOf(c0) + DigitOf(c1), 2) == [c0, c1]
  {
    var n := 10 * DigitOf(c0) + DigitOf(c1);
    assert n / 10 == DigitOf(c0) && n % 10 == DigitOf(c1);
    PaddedTwo(n);
  }

  /** Every hour 0..23 and minute 0..59, written `HH:MM` or (below 10) `H:MM`, is accepted and read back. */
  lemma TimeTextAccepted(h: nat, m: nat, padded: bool)
    requires h < 24 && m < 60 && (padded || h < 10)
    ensures TimeOk(TimeText(h, m, padded))
    ensures Hour(TimeText(h, m, padded)) == h && MinuteOfHour(TimeText(h, m, padded)) == m
  {
    PaddedTwo(h);
    PaddedTwo(m);
  }

  /** An accepted time is exactly such a text: its hour is at most 23 and its minute at most 59. */
  lemma TimeOkIsTimeText(s: string)
    requires TimeOk(s)
    ensures 0 <= Hour(s) <= 23 && 0 <= MinuteOfHour(s) <= 59
    ensures s == TimeText(Hour(s), MinuteOfHour(s), |s| == 5)
  {
    var n := |s|;
    TwoDigitText(s[n - 2], s[n - 1]);
    if n == 5 {
      TwoDigitText(s[0], s[1]);
      assert s == [s[0], s[1]] + ":" + [s[3], s[4]];
    } else {
      assert Calendar.DigitChar(Hour(s)) == s[0];
      assert s == [s[0]] + ":" + [s[2], s[3]];
    }
  }

  /** `"7:30"` and `"23:59"` pass; `"24:00"` and `"12:60"` do not. */
  lemma TimeExamples()
    ensures TimeOk("7:30") && TimeOk("23:59")
    ensures !TimeOk("24:00") && !TimeOk("12:60")
  {
  }

  // ---------------------------------------------------------------------
  // Order of listings
  // ---------------------------------------------------------------------

  /** A time's place in the day; a missing time sorts after every time, as `NULL` does in an ascending order. */
  function TimeKey(t: Option<string>): (k: int)
    ensures 0 <= k <= 1440
  {
    if t.Some? && TimeOk(t.value) then Minutes(t.value) else 1440
  }

  /** `orderBy: [{ date: "asc" }, { time: "asc" }]`, with times compared as times of day. */
  function EventKey(e: Event): int {
    Dates.DayKey(e.date) * 1441 + TimeKey(e.time)
  }

  /** `a` is listed no later than `b`: an earlier day, or the same day and no later time (no time last). */
  predicate NoLater(a: Event, b: Event) {
    Dates.Before(a.date, b.date) || (a.date == b.date && TimeKey(a.time) <= TimeKey(b.time))
  }

  lemma EventKeyOrder(a: Event, b: Event)
    requires Dates.Valid(a.date) && Dates.Valid(b.date)
    ensures EventKey(a) <= EventKey(b) <==> NoLater(a, b)
  {
    Dates.DayKeyOrder(a.date, b.date);
  }

  /** Code-unit order of strings, the order of a text column under a byte-wise collation. */
  predicate TextLe(a: string, b: string)
    decreases |a|
  {
    a == [] || (b != [] && (a[0] < b[0] || (a[0] == b[0] && TextLe(a[1..], b[1..]))))
  }

  /** `time: "asc"` as the database runs it on the text column, with `NULL` last. */
  predicate TimeTextLe(a: Option<string>, b: Option<string>) {
    b.None? || (a.Some? && TextLe(a.value, b.value))
  }

  /** The listing order of the code as written: by date, then by time as text. */
  function DateThenText(): (Event, Event) -> bool {
    (a: Event, b: Event) => Dates.Before(a.date, b.date) || (a.date == b.date && TimeTextLe(a.time, b.time))
  }

  /** `listEvents` as written: the project's events by date and then by the text of their time. */
  function ListEventsAsWritten(events: seq<Event>, p: Id): (r: seq<Event>)
    ensures multiset(r) == multiset(Filter(events, InProject(p)))
  {
    Sort(Filter(events, InProject(p)), DateThenText())
  }

  /** `9:30` and `10:00` are accepted times, half an hour apart. */
  lemma HalfPastNineAndTen()
    ensures TimeOk("9:30") && Minutes("9:30") == 570
    ensures TimeOk("10:00") && Minutes("10:00") == 600
  {
  }

  /**
   * The validator accepts `9:30`, and as text `10:00` sorts before it: on
   * one day the code lists a 10:00 event before a 9:30 one.
   */
  lemma TextOrderMisplacesShortHours(early: Event, late: Event)
    requires early.date == late.date && early.projectId == late.projectId
    requires early.time == Some("9:30") && late.time == Some("10:00")
    ensures Minutes("9:30") < Minutes("10:00")
    ensures ListEventsAsWritten([early, late], early.projectId) == [late, early]
  {
    var p := early.projectId;
    assert Minutes("9:30") < Minutes("10:00") by {
      HalfPastNineAndTen();
    }
    assert !DateThenText()(early, late) by {
      assert !TextLe("9:30", "10:00");
    }
    SortFilteredPair(early, late, InProject(p), DateThenText());
  }

  /** The chronological listing keeps the 9:30 event first. */
  lemma TimeOrderKeepsShortHours(early: Event, late: Event)
    requires early.date == late.date && early.projectId == late.projectId
    requires early.time == Some("9:30") && late.time == Some("10:00")
    ensures Listing([early, late], InProject(early.projectId), EventKey) == [early, late]
  {
    var p := early.projectId;
    assert EventKey(early) < EventKey(late) by {
      HalfPastNineAndTen();
    }
    ListingPair(early, late, InProject(p), EventKey);
  }

  /** The order `getEventsByDate` asks for: by the text of the time alone, `NULL` last. */
  function ByTimeText(): (Event, Event) -> bool {
    (a: Event, b: Event) => TimeTextLe(a.time, b.time)
  }

  /**
   * `getFutureEvents` as written: the first 15 of the project's events dated
   * today or later, by date and then by the text of their time.
   */
  function FutureEventsAsWritten(events: seq<Event>, p: Id, today: Dates.Date): (r: seq<Event>)
    ensures |r| == if Count(events, FromDay(p, today)) < FutureLimit then Count(events, FromDay(p, today)) else FutureLimit
    ensures forall i :: 0 <= i < |r| ==> r[i] in events && r[i].projectId == p && Dates.NotAfter(today, r[i].date)
  {
    var sorted := Sort(Filter(events, FromDay(p, today)), DateThenText());
    var r := Take(sorted, FutureLimit);
    forall i | 0 <= i < |r| ensures r[i] in events && FromDay(p, today)(r[i]) {
      assert r[i] in multiset(sorted);
    }
    r
  }

  /** `getEventsByDate` as written: the project's events of one day by the text of their time. */
  function EventsOnDayAsWritten(events: seq<Event>, p: Id, d: Dates.Date): (r: seq<Event>)
    ensures multiset(r) == multiset(Filter(events, OnDay(p, d)))
  {
    Sort(Filter(events, OnDay(p, d)), ByTimeText())
  }

  /** On today's list the code as written puts a 10:00 event before a 9:30 one of the same day. */
  lemma FutureTextOrderMisplacesShortHours(early: Event, late: Event, today: Dates.Date)
    requires early.date == today && late.date == today && early.projectId == late.projectId
    requires early.time == Some("9:30") && late.time == Some("10:00")
    ensures FutureEventsAsWritten([early, late], early.projectId, today) == [late, early]
    ensures Take(Listing([early, late], FromDay(early.projectId, today), EventKey), FutureLimit) == [early, late]
  {
    var p := early.projectId;
    assert !DateThenText()(early, late) by {
      assert !TextLe("9:30", "10:00");
    }
    SortFilteredPair(early, late, FromDay(p, today), DateThenText());
    assert EventKey(early) < EventKey(late) by {
      HalfPastNineAndTen();
    }
    ListingPair(early, late, FromDay(p, today), EventKey);
  }

  /** On one day's list the code as written puts a 10:00 event before a 9:30 one. */
  lemma ByDateTextOrderMisplacesShortHours(early: Event, late: Event)
    requires early.date == late.date && early.projectId == late.projectId
    requires early.time == Some("9:30") && late.time == Some("10:00")
    ensures EventsOnDayAsWritten([early, late], early.projectId, early.date) == [late, early]
    ensures Listing([early, late], OnDay(early.projectId, early.date), EventKey) == [early, late]
  {
    var p, d := early.projectId, early.date;
    assert !ByTimeText()(early, late) by {
      assert !TextLe("9:30", "10:00");
    }
    SortFilteredPair(early, late, OnDay(p, d), ByTimeText());
    assert EventKey(early) < EventKey(late) by {
      HalfPastNineAndTen();
    }
    ListingPair(early, late, OnDay(p, d), EventKey);
  }

  /** One step of the text order: compare the first characters, then the rest. */
  lemma TextLeStep(a: string, b: string)
    requires a != [] && b != []
    ensures TextLe(a, b) <==> a[0] < b[0] || (a[0] == b[0] && TextLe(a[1..], b[1..]))
  {
  }

  /** Two strings of five characters in text order: compare position by position. */
  lemma TextLeFive(a: string, b: string)
    requires |a| == 5 && |b| == 5
    ensures TextLe(a, b) <==>
      a[0] < b[0] || (a[0] == b[0] && (a[1] < b[1] || (a[1] == b[1] && (a[2] < b[2] || (a[2] == b[2] &&
      (a[3] < b[3] || (a[3] == b[3] && a[4] <= b[4])))))))
  {
    TextLeStep(a, b);
    TextLeStep(a[1..], b[1..]);
    TextLeStep(a[2..], b[2..]);
    TextLeStep(a[3..], b[3..]);
    TextLeStep(a[4..], b[4..]);
    assert a[1..][1..] == a[2..] && b[1..][1..] == b[2..];
    assert a[2..][1..] == a[3..] && b[2..][1..] == b[3..];
    assert a[3..][1..] == a[4..] && b[3..][1..] == b[4..];
    assert a[4..][1..] == [] && b[4..][1..] == [];
  }

  /**
   * Where both times are written `HH:MM`, as the calendar's time input
   * sends them, text order and time-of-day order agree.
   */
  lemma TextOrderAgreesOnPadded(a: string, b: string)
    requires TimeOk(a) && TimeOk(b) && |a| == 5 && |b| == 5
    ensures TextLe(a, b) <==> Minutes(a) <= Minutes(b)
  {
    TextLeFive(a, b);
  }

  // ---------------------------------------------------------------------
  // Request bodies
  // ---------------------------------------------------------------------

  /** The fields of a `createEvent` body; `None` is a field left out. */
  datatype EventDraft = EventDraft(
    date: Option<string>, time: Option<string>, kind: Option<string>, name: Option<string>, notes: Option<string>)

  /** The fields of an `updateEvent` body: all optional, `time` and `notes` also nullable. */
  datatype EventPatch = EventPatch(
    date: Option<string>, time: Patch<string>, kind: Option<string>, name: Option<string>, notes: Patch<string>)

  /** `z.string().min(1).max(300)`. */
  predicate ValidName(s: string) { LengthIn(s, 1, 300) }

  /** `z.string().max(2000)`. */
  predicate ValidNotes(s: string) { LengthAtMost(s, 2000) }

  /** `createSchema.parse` succeeds. */
  predicate ValidDraft(d: EventDraft) {
    && d.date.Some? && IsIsoDateString(d.date.value)
    && (d.time.Some? ==> TimeOk(d.time.value))
    && d.kind.Some? && d.kind.value in Kinds
    && d.name.Some? && ValidName(d.name.value)
    && (d.notes.Some? ==> ValidNotes(d.notes.value))
  }

  /** `updateSchema.parse` succeeds. */
  predicate ValidPatch(u: EventPatch) {
    && (u.date.Some? ==> IsIsoDateString(u.date.value))
    && (u.time.Value? ==> TimeOk(u.time.value))
    && (u.kind.Some? ==> u.kind.value in Kinds)
    && (u.name.Some? ==> ValidName(u.name.value))
    && (u.notes.Value? ==> ValidNotes(u.notes.value))
  }

  /** What every stored event satisfies: the schema's constraints on each column. */
  predicate StoredOk(e: Event) {
    && Dates.Valid(e.date)
    && (e.time.Some? ==> TimeOk(e.time.value))
    && e.kind in Kinds && ValidName(e.name)
    && (e.notes.Some? ==> ValidNotes(e.notes.value))
  }

  /** The row `createEvent` inserts: an absent time or notes is stored as null. */
  function NewEvent(d: EventDraft, id: Id, p: Id): (e: Event)
    requires ValidDraft(d)
    ensures StoredOk(e)
    ensures e.id == id && e.projectId == p && e.date == Dates.IsoDate(d.date.value)
    ensures e.time == d.time && e.notes == d.notes
    ensures e.kind == d.kind.value && e.name == d.name.value
  {
    Event(id, p, Dates.IsoDate(d.date.value), d.time, d.kind.value, d.name.value, d.notes)
  }

  /** The `data` record of `updateEvent`, applied to the row. */
  function PatchEvent(e: Event, u: EventPatch): Event
    requires ValidPatch(u)
  {
    e.(date := if u.date.Some? then Dates.IsoDate(u.date.value) else e.date,
       time := Patched(u.time, e.time),
       kind := Kept(u.kind, e.kind),
       name := Kept(u.name, e.name),
       notes := Patched(u.notes, e.notes))
  }

  /**
   * `updateEvent` changes only the fields provided, `null` clears the time
   * or the notes, and the row still satisfies the schema.
   */
  lemma PatchEventFields(e: Event, u: EventPatch)
    requires ValidPatch(u)
    ensures var r := PatchEvent(e, u);
      && r.id == e.id && r.projectId == e.projectId
      && (u.date.None? ==> r.date == e.date) && (u.date.Some? ==> r.date == Dates.IsoDate(u.date.value))
      && (u.time.Absent? ==> r.time == e.time) && (u.time.Null? ==> r.time.None?)
      && (u.time.Value? ==> r.time == Some(u.time.value))
      && (u.kind.None? ==> r.kind == e.kind) && (u.kind.Some? ==> r.kind == u.kind.value)
      && (u.name.None? ==> r.name == e.name) && (u.name.Some? ==> r.name == u.name.value)
      && (u.notes.Absent? ==> r.notes == e.notes) && (u.notes.Null? ==> r.notes.None?)
      && (u.notes.Value? ==> r.notes == Some(u.notes.value))
      && (StoredOk(e) ==> StoredOk(r))
  {
  }

  /** Applying the same update twice is applying it once, and an empty body changes nothing. */
  lemma PatchEventIdempotent(e: Event, u: EventPatch)
    requires ValidPatch(u)
    ensures PatchEvent(PatchEvent(e, u), u) == PatchEvent(e, u)
    ensures u == EventPatch(None, Absent, None, None, Absent) ==> PatchEvent(e, u) == e
  {
  }

  /** The listing order is chronological: earlier days first, and within a day earlier times, no time last. */
  lemma ListingIsChronological(events: seq<Event>, inScope: Event -> bool)
    requires forall i :: 0 <= i < |events| ==> StoredOk(events[i])
    ensures var r := Listing(events, inScope, EventKey);
            forall i, j :: 0 <= i < j < |r| ==> NoLater(r[i], r[j])
  {
    var r := Listing(events, inScope, EventKey);
    forall i, j | 0 <= i < j < |r| ensures NoLater(r[i], r[j]) {
      SortedPairwise(r, ByKey(EventKey), i, j);
      ListedRowInScope(events, inScope, EventKey, i);
      ListedRowInScope(events, inScope, EventKey, j);
      EventKeyOrder(r[i], r[j]);
    }
  }

  lemma FuturePrefixMembers(events: seq<Event>, p: Id, today: Dates.Date)
    ensures var r := Take(Listing(events, FromDay(p, today), EventKey), FutureLimit);
      forall i :: 0 <= i < |r| ==> r[i] in events && r[i].projectId == p && Dates.NotAfter(today, r[i].date)
  {
    var all := Listing(events, FromDay(p, today), EventKey);
    var r := Take(all, FutureLimit);
    forall i | 0 <= i < |r| ensures r[i] in events && r[i].projectId == p && Dates.NotAfter(today, r[i].date) {
      ListedRowInScope(events, FromDay(p, today), EventKey, i);
    }
  }

  lemma FuturePrefixSorted(events: seq<Event>, p: Id, today: Dates.Date)
    requires forall i :: 0 <= i < |events| ==> StoredOk(events[i])
    ensures var r := Take(Listing(events, FromDay(p, today), EventKey), FutureLimit);
      forall i, j :: 0 <= i < j < |r| ==> NoLater(r[i], r[j])
  {
    var all := Listing(events, FromDay(p, today), EventKey);
    ListingIsChronological(events, FromDay(p, today));
    var r := Take(all, FutureLimit);
    forall i, j | 0 <= i < j < |r| ensures NoLater(r[i], r[j]) {
      assert r[i] == all[i] && r[j] == all[j];
    }
  }

  lemma FuturePrefixLeftOut(events: seq<Event>, p: Id, today: Dates.Date)
    requires forall i :: 0 <= i < |events| ==> StoredOk(events[i])
    ensures var r := Take(Listing(events, FromDay(p, today), EventKey), FutureLimit);
      forall i :: 0 <= i < |events| && FromDay(p, today)(events[i]) && events[i] !in r ==>
        |r| == FutureLimit && forall k :: 0 <= k < |r| ==> NoLater(r[k], events[i])
  {
    var all := Listing(events, FromDay(p, today), EventKey);
    ListingIsChronological(events, FromDay(p, today));
    var r := Take(all, FutureLimit);
    forall i | 0 <= i < |events| && FromDay(p, today)(events[i]) && events[i] !in r
      ensures |r| == FutureLimit && forall k :: 0 <= k < |r| ==> NoLater(r[k], events[i])
    {
      RowListed(events, FromDay(p, today), EventKey, i);
      TakeSortedPrefix(all, FutureLimit, NoLater, events[i]);
    }
  }

  /** The `projectEvent` table. */
  class EventStore {
    var events: seq<Event>

    ghost predicate Valid()
      reads this
    {
      && UniqueKeys(events, EventId)
      && forall i :: 0 <= i < |events| ==> StoredOk(events[i])
    }

    predicate Unused(id: Id)
      reads this
    {
      forall i :: 0 <= i < |events| ==> events[i].id != id
    }

    constructor ()
      ensures events == [] && Valid()
    {
      events := [];
    }

    /** `listEvents`: the project's events, by date and then by time, events with no time last on their day. */
    function ListEvents(p: Id): (r: seq<Event>)
      reads this
      requires Valid()
      ensures multiset(r) == multiset(Filter(events, InProject(p)))
      ensures forall i, j :: 0 <= i < j < |r| ==> NoLater(r[i], r[j])
    {
      ListingIsChronological(events, InProject(p));
      Listing(events, InProject(p), EventKey)
    }

    /**
     * `calendarDaysWithEvents`: the errors of the month parameters, or the
     * days of the month on which the project has an event, each once.
     */
    function CalendarDaysWithEvents(p: Id, year: Option<string>, month: Option<string>): (r: Result<seq<string>>)
      reads this
      requires Valid()
      ensures r.Err? <==> Calendar.MonthSpan(year, month).Err?
      ensures r.Err? ==> r.error == Calendar.MonthSpan(year, month).error
      ensures r.Ok? ==> forall t :: t in r.value <==>
        exists i :: 0 <= i < |events| && events[i].projectId == p
          && Calendar.InSpan(Calendar.MonthSpan(year, month).value)(events[i].date)
          && t == Calendar.DayText(events[i].date)
    {
      match Calendar.MonthSpan(year, month)
      case Err(e) => Err(e)
      case Ok(span) => Ok(Calendar.RowDays(events, InProject(p), EventDate, span))
    }

    /**
     * `getFutureEvents`: the first 15 of the project's events dated today or
     * later, in listing order. `today` is the server's current day.
     */
    function GetFutureEvents(p: Id, today: Dates.Date): (r: seq<Event>)
      reads this
      requires Valid()
      ensures |r| <= FutureLimit
      ensures |r| == if Count(events, FromDay(p, today)) < FutureLimit then Count(events, FromDay(p, today)) else FutureLimit
      ensures forall i :: 0 <= i < |r| ==> r[i] in events && r[i].projectId == p && Dates.NotAfter(today, r[i].date)
      ensures forall i, j :: 0 <= i < j < |r| ==> NoLater(r[i], r[j])
      ensures forall i :: 0 <= i < |events| && FromDay(p, today)(events[i]) && events[i] !in r ==>
        |r| == FutureLimit && forall k :: 0 <= k < |r| ==> NoLater(r[k], events[i])
    {
      FuturePrefixMembers(events, p, today);
      FuturePrefixSorted(events, p, today);
      FuturePrefixLeftOut(events, p, today);
      Take(Listing(events, FromDay(p, today), EventKey), FutureLimit)
    }

    /** `getEventsByDate`: the date parameter's error, or the project's events of that day by time. */
    function GetEventsByDate(p: Id, date: Option<string>): (r: Result<seq<Event>>)
      reads this
      requires Valid()
      ensures r.Err? <==> Calendar.DateParam(date).Err?
      ensures r.Err? ==> r.error == Calendar.DateParam(date).error
      ensures r.Ok? ==> multiset(r.value) == multiset(Filter(events, OnDay(p, Calendar.DateParam(date).value)))
      ensures r.Ok? ==> forall i, j :: 0 <= i < j < |r.value| ==> TimeKey(r.value[i].time) <= TimeKey(r.value[j].time)
    {
      match Calendar.DateParam(date)
      case Err(e) => Err(e)
      case Ok(d) =>
        var l := Listing(events, OnDay(p, d), EventKey);
        ListingIsChronological(events, OnDay(p, d));
        forall i, j | 0 <= i < j < |l| ensures TimeKey(l[i].time) <= TimeKey(l[j].time) {
          ListedRowInScope(events, OnDay(p, d), EventKey, i);
          ListedRowInScope(events, OnDay(p, d), EventKey, j);
        }
        Ok(l)
    }

    /**
     * `createEvent`, whose checks run in this order: the ORM client must
     * know the event model (500 PRISMA_CLIENT_OUTDATED), the body must
     * parse (400), and the project must exist (404); a date `new Date`
     * cannot read then fails the insert (500).
     */
    method CreateEvent(clientReady: bool, projects: seq<Projects.Project>, p: Id, d: EventDraft, newId: Id)
      returns (r: Result<Event>)
      requires Valid() && Unused(newId)
      modifies this
      ensures Valid()
      ensures r.Err? ==> events == old(events)
      ensures !clientReady ==> r == Err(App(NewAppError(500, ClientOutdated, Some("PRISMA_CLIENT_OUTDATED"))))
      ensures clientReady && !ValidDraft(d) ==> r == Err(Invalid())
      ensures clientReady && ValidDraft(d) && FindIndex(projects, Projects.HasId(p)).None? ==>
        r == Err(NotFound(Projects.ProjectNotFound))
      ensures clientReady && ValidDraft(d) && FindIndex(projects, Projects.HasId(p)).Some? ==>
        if !Dates.IsoReadable(d.date.value) then r == Err(Failure(Dates.InvalidDate))
        else r == Ok(NewEvent(d, newId, p)) && events == old(events) + [r.value]
    {
      if !clientReady {
        return Err(App(NewAppError(500, ClientOutdated, Some("PRISMA_CLIENT_OUTDATED"))));
      }
      if !ValidDraft(d) {
        return Err(Invalid());
      }
      if FindIndex(projects, Projects.HasId(p)).None? {
        return Err(NotFound(Projects.ProjectNotFound));
      }
      if !Dates.IsoReadable(d.date.value) {
        return Err(Failure(Dates.InvalidDate));
      }
      var e := NewEvent(d, newId, p);
      UniqueKeysAppend(events, e, EventId);
      events := events + [e];
      r := Ok(e);
    }

    /**
     * `updateEvent`: an event outside the project is "Evento non trovato";
     * otherwise a date `new Date` cannot read fails the update (500), and
     * else only the fields sent change.
     */
    method UpdateEvent(p: Id, id: Id, u: EventPatch) returns (r: Result<Event>)
      requires Valid()
      modifies this
      ensures Valid()
      ensures !ValidPatch(u) ==> r == Err(Invalid()) && events == old(events)
      ensures ValidPatch(u) ==>
        match FindIndex(old(events), IsEvent(p, id))
        case None => r == Err(NotFound(EventNotFound)) && events == old(events)
        case Some(k) =>
          if !Dates.StoredDateOk(u.date) then r == Err(Failure(Dates.InvalidDate)) && events == old(events)
          else events == old(events)[k := PatchEvent(old(events)[k], u)] && r == Ok(events[k])
    {
      if !ValidPatch(u) {
        return Err(Invalid());
      }
      var found := FindIndex(events, IsEvent(p, id));
      if found.None? {
        return Err(NotFound(EventNotFound));
      }
      if !Dates.StoredDateOk(u.date) {
        return Err(Failure(Dates.InvalidDate));
      }
      var k := found.value;
      var e := PatchEvent(events[k], u);
      PatchEventFields(events[k], u);
      assert forall i :: 0 <= i < |events| ==> events[k := e][i].id == events[i].id;
      events := events[k := e];
      r := Ok(e);
    }

    /** `deleteEvent`: no event of the project with that id is "Evento non trovato"; otherwise it is removed. */
    method DeleteEvent(p: Id, id: Id) returns (r: Result<()>)
      requires Valid()
      modifies this
      ensures Valid()
      ensures FindIndex(old(events), IsEvent(p, id)).None? ==>
        r == Err(NotFound(EventNotFound)) && events == old(events)
      ensures FindIndex(old(events), IsEvent(p, id)).Some? ==>
        r == Ok(()) && events == Filter(old(events), NotEvent(p, id))
    {
      if FindIndex(events, IsEvent(p, id)).None? {
        return Err(NotFound(EventNotFound));
      }
      var kept := Filter(events, NotEvent(p, id));
      UniqueKeysSub(events, kept, EventId);
      assert forall i :: 0 <= i < |kept| ==> kept[i] in events;
      events := kept;
      r := Ok(());
    }
  }
}
