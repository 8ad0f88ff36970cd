/**
 * The diary controller: dated entries of a project ("resoconti"), each with
 * its uploaded images and its comments, listed newest day first, by month
 * for the calendar, or by day.
 */
module Diary {
  import opened Common
  import opened Seqs
  import opened Ordering
  import opened ErrorHandler
  import Dates
  import Calendar
  import Files

  /** A `diaryEntry` row; `createdAt` is the creation instant in milliseconds. */
  datatype Entry = Entry(id: Id, projectId: Id, date: Dates.Date, content: Option<string>, createdAt: int)

  /** A `diaryImage` row: the client's file name and the stored relative path. */
  datatype Image = Image(id: Id, entryId: Id, filename: string, path: string)

  /** A `diaryComment` row. */
  datatype DiaryComment = DiaryComment(id: Id, entryId: Id, content: string, createdAt: int)

  /** An entry with `include: { images: true, comments: true }`. */
  datatype EntryView = EntryView(entry: Entry, images: seq<Image>, comments: seq<DiaryComment>)

  const EntryNotFound: string := "Resoconto non trovato"
  const ImageNotFound: string := "Immagine non trovata"

  function EntryId(e: Entry): Id { e.id }
  function ImageId(m: Image): Id { m.id }
  function CommentId(c: DiaryComment): Id { c.id }
  function EntryDate(e: Entry): Dates.Date { e.date }
  function EntryCreatedAt(e: Entry): int { e.createdAt }

  /** `orderBy: { date: "desc" }` as an ascending key. */
  function NewestDayFirst(e: Entry): int { -Dates.DayKey(e.date) }

  function InProject(p: Id): Entry -> bool {
    (e: Entry) => e.projectId == p
  }

  function IsEntry(p: Id, id: Id): Entry -> bool {
    (e: Entry) => e.id == id && e.projectId == p
  }

  function NotEntry(id: Id): Entry -> bool {
    (e: Entry) => e.id != id
  }

  function OnDay(p: Id, d: Dates.Date): Entry -> bool {
    (e: Entry) => e.projectId == p && e.date == d
  }

  function ImageOf(entryId: Id): Image -> bool {
    (m: Image) => m.entryId == entryId
  }

  function ImageNotOf(entryId: Id): Image -> bool {
    (m: Image) => m.entryId != entryId
  }

  /** `where: { id: imageId, diaryEntry: { id: entryId, … } }`. */
  function IsImageOf(imageId: Id, entryId: Id): Image -> bool {
    (m: Image) => m.id == imageId && m.entryId == entryId
  }

  function NotImage(imageId: Id): Image -> bool {
    (m: Image) => m.id != imageId
  }

  function CommentOf(entryId: Id): DiaryComment -> bool {
    (c: DiaryComment) => c.entryId == entryId
  }

  function CommentNotOf(entryId: Id): DiaryComment -> bool {
    (c: DiaryComment) => c.entryId != entryId
  }

  // ---------------------------------------------------------------------
  // Request bodies
  // ---------------------------------------------------------------------

  /** The fields of a `createEntry` or `updateEntry` body; `None` is a field left out. */
  datatype EntryDraft = EntryDraft(date: Option<string>, content: Option<string>)

  /** `z.string().max(50000)`. */
  predicate ValidContent(s: string) { LengthAtMost(s, 50000) }

  /** `commentSchema`: `z.string().min(1).max(2000)`. */
  predicate ValidComment(s: string) { LengthIn(s, 1, 2000) }

  /** `createSchema.parse` succeeds: a `YYYY-MM-DD` date and, optionally, content. */
  predicate ValidDraft(d: EntryDraft) {
    d.date.Some? && IsIsoDateString(d.date.value) && (d.content.Some? ==> ValidContent(d.content.value))
  }

  /** `updateSchema.parse` succeeds: both fields optional. */
  predicate ValidPatch(u: EntryDraft) {
    (u.date.Some? ==> IsIsoDateString(u.date.value)) && (u.content.Some? ==> ValidContent(u.content.value))
  }

  /** What every stored entry satisfies. */
  predicate StoredOk(e: Entry) {
    Dates.Valid(e.date) && (e.content.Some? ==> ValidContent(e.content.value))
  }

  /** The row `createEntry` inserts: absent content is stored as null. */
  function NewEntry(d: EntryDraft, id: Id, p: Id, createdAt: int): (e: Entry)
    requires ValidDraft(d)
    ensures StoredOk(e)
    ensures e.id == id && e.projectId == p && e.date == Dates.IsoDate(d.date.value)
    ensures e.content == d.content && e.createdAt == createdAt
  {
    Entry(id, p, Dates.IsoDate(d.date.value), d.content, createdAt)
  }

  /** The `data` record of `updateEntry`, applied to the row. */
  function PatchEntry(e: Entry, u: EntryDraft): Entry
    requires ValidPatch(u)
  {
    e.(date := if u.date.Some? && u.date.value != [] then Dates.IsoDate(u.date.value) else e.date,
       content := if u.content.Some? then u.content else e.content)
  }

  /**
   * `updateEntry` sets the date only when one is sent and the content only
   * when it is not left out; nothing else changes and the row stays valid.
   */
  lemma PatchEntryFields(e: Entry, u: EntryDraft)
    requires ValidPatch(u)
    ensures var r := PatchEntry(e, u);
      && r.id == e.id && r.projectId == e.projectId && r.createdAt == e.createdAt
      && (u.date.None? ==> r.date == e.date) && (u.date.Some? ==> r.date == Dates.IsoDate(u.date.value))
      && (u.content.None? ==> r.content == e.content) && (u.content.Some? ==> r.content == u.content)
      && (StoredOk(e) ==> StoredOk(r))
  {
  }

  /** Applying the same update twice is applying it once, and an empty body changes nothing. */
  lemma PatchEntryIdempotent(e: Entry, u: EntryDraft)
    requires ValidPatch(u)
    ensures PatchEntry(PatchEntry(e, u), u) == PatchEntry(e, u)
    ensures PatchEntry(e, EntryDraft(None, None)) == e
  {
  }

  // ---------------------------------------------------------------------
  // The tables
  // ---------------------------------------------------------------------

  /** Ids are unique in each table, entries are well formed, and every image and comment belongs to a stored entry. */
  ghost predicate ValidTables(entries: seq<Entry>, images: seq<Image>, comments: seq<DiaryComment>) {
    && UniqueKeys(entries, EntryId) && UniqueKeys(images, ImageId) && UniqueKeys(comments, CommentId)
    && (forall i :: 0 <= i < |entries| ==> StoredOk(entries[i]))
    && (forall i :: 0 <= i < |images| ==> images[i].entryId in Keys(entries, EntryId))
    && (forall i :: 0 <= i < |comments| ==> comments[i].entryId in Keys(entries, EntryId))
  }

  /** An id other than the deleted one survives a delete. */
  lemma IdSurvives(entries: seq<Entry>, id: Id, x: Id)
    requires x in Keys(entries, EntryId) && x != id
    ensures x in Keys(Filter(entries, NotEntry(id)), EntryId)
  {
    var j :| 0 <= j < |entries| && Keys(entries, EntryId)[j] == x;
    var f := Filter(entries, NotEntry(id));
    assert entries[j] in f;
    var q :| 0 <= q < |f| && f[q] == entries[j];
    assert Keys(f, EntryId)[q] == x;
  }

  /** Deleting an entry together with its images and comments keeps the tables valid. */
  lemma DeleteEntryKeepsValid(entries: seq<Entry>, images: seq<Image>, comments: seq<DiaryComment>, id: Id)
    requires ValidTables(entries, images, comments)
    ensures ValidTables(Filter(entries, NotEntry(id)), Filter(images, ImageNotOf(id)), Filter(comments, CommentNotOf(id)))
  {
    var entries' := Filter(entries, NotEntry(id));
    var images' := Filter(images, ImageNotOf(id));
    var comments' := Filter(comments, CommentNotOf(id));
    UniqueKeysSub(entries, entries', EntryId);
    UniqueKeysSub(images, images', ImageId);
    UniqueKeysSub(comments, comments', CommentId);
    forall i | 0 <= i < |entries'| ensures StoredOk(entries'[i]) {
      assert entries'[i] in entries;
    }
    forall i | 0 <= i < |images'| ensures images'[i].entryId in Keys(entries', EntryId) {
      assert images'[i] in images;
      IdSurvives(entries, id, images'[i].entryId);
    }
    forall i | 0 <= i < |comments'| ensures comments'[i].entryId in Keys(entries', EntryId) {
      assert comments'[i] in comments;
      IdSurvives(entries, id, comments'[i].entryId);
    }
  }

  /** Deleting one image keeps the tables valid. */
  lemma RemoveImageKeepsValid(entries: seq<Entry>, images: seq<Image>, comments: seq<DiaryComment>, id: Id)
    requires ValidTables(entries, images, comments)
    ensures ValidTables(entries, Filter(images, NotImage(id)), comments)
  {
    var images' := Filter(images, NotImage(id));
    UniqueKeysSub(images, images', ImageId);
    forall i | 0 <= i < |images'| ensures images'[i].entryId in Keys(entries, EntryId) {
      assert images'[i] in images;
    }
  }

  /** Adding a stored entry under a fresh id keeps the tables valid. */
  lemma AddEntryKeepsValid(entries: seq<Entry>, images: seq<Image>, comments: seq<DiaryComment>, e: Entry)
    requires ValidTables(entries, images, comments) && StoredOk(e)
    requires forall i :: 0 <= i < |entries| ==> entries[i].id != e.id
    ensures ValidTables(entries + [e], images, comments)
  {
    var entries' := entries + [e];
    assert Keys(entries', EntryId) == Keys(entries, EntryId) + [e.id];
    UniqueKeysAppend(entries, e, EntryId);
    forall i | 0 <= i < |entries'| ensures StoredOk(entries'[i]) {
      if i < |entries| { assert entries'[i] == entries[i]; }
    }
  }

  /** An entry id no stored entry has owns no image and no comment. */
  lemma FreshEntryOwnsNothing(entries: seq<Entry>, images: seq<Image>, comments: seq<DiaryComment>, id: Id)
    requires ValidTables(entries, images, comments)
    requires forall i :: 0 <= i < |entries| ==> entries[i].id != id
    ensures Filter(images, ImageOf(id)) == [] && Filter(comments, CommentOf(id)) == []
  {
    forall i | 0 <= i < |images| ensures !ImageOf(id)(images[i]) {
      var j :| 0 <= j < |entries| && Keys(entries, EntryId)[j] == images[i].entryId;
    }
    forall i | 0 <= i < |comments| ensures !CommentOf(id)(comments[i]) {
      var j :| 0 <= j < |entries| && Keys(entries, EntryId)[j] == comments[i].entryId;
    }
    FilterNone(images, ImageOf(id));
    FilterNone(comments, CommentOf(id));
  }

  /** An entry with the images and comments of the given tables that belong to it, in table order. */
  function Gather(e: Entry, images: seq<Image>, comments: seq<DiaryComment>): (v: EntryView)
    ensures v.entry == e
    ensures forall m :: m in v.images <==> m in images && m.entryId == e.id
    ensures forall c :: c in v.comments <==> c in comments && c.entryId == e.id
  {
    var v := EntryView(e, Filter(images, ImageOf(e.id)), Filter(comments, CommentOf(e.id)));
    assert forall m :: m in images && m.entryId == e.id ==> m in v.images by {
      forall m | m in images && m.entryId == e.id ensures m in v.images {
        var i :| 0 <= i < |images| && images[i] == m;
      }
    }
    assert forall c :: c in comments && c.entryId == e.id ==> c in v.comments by {
      forall c | c in comments && c.entryId == e.id ensures c in v.comments {
        var i :| 0 <= i < |comments| && comments[i] == c;
      }
    }
    v
  }

  /** `Gather` applied to each entry of a listing. */
  function GatherAll(l: seq<Entry>, images: seq<Image>, comments: seq<DiaryComment>): (r: seq<EntryView>)
    ensures |r| == |l|
    ensures forall i :: 0 <= i < |l| ==> r[i] == Gather(l[i], images, comments)
  {
    seq(|l|, i requires 0 <= i < |l| => Gather(l[i], images, comments))
  }

  /** The views of the project's entries, newest day first: each entry of the project once, and no other. */
  lemma NewestFirstViews(entries: seq<Entry>, images: seq<Image>, comments: seq<DiaryComment>, p: Id, r: seq<EntryView>)
    requires forall i :: 0 <= i < |entries| ==> StoredOk(entries[i])
    requires r == GatherAll(Listing(entries, InProject(p), NewestDayFirst), images, comments)
    ensures
      && |r| == Count(entries, InProject(p))
      && (forall i :: 0 <= i < |r| ==> r[i].entry in entries && r[i].entry.projectId == p && r[i] == Gather(r[i].entry, images, comments))
      && (forall k :: 0 <= k < |entries| && entries[k].projectId == p ==> exists i :: 0 <= i < |r| && r[i].entry == entries[k])
      && (forall i, j :: 0 <= i < j < |r| ==> Dates.NotAfter(r[j].entry.date, r[i].entry.date))
  {
    var l := Listing(entries, InProject(p), NewestDayFirst);
    NewestFirstListing(entries, p);
    forall i | 0 <= i < |r| ensures r[i].entry == l[i] { }
    forall k | 0 <= k < |entries| && entries[k].projectId == p ensures exists i :: 0 <= i < |r| && r[i].entry == entries[k] {
      var i :| 0 <= i < |l| && l[i] == entries[k];
      assert r[i].entry == entries[k];
    }
  }

  /** The project's entries newest day first: each entry of the project once, and no other. */
  lemma NewestFirstListing(entries: seq<Entry>, p: Id)
    requires forall i :: 0 <= i < |entries| ==> StoredOk(entries[i])
    ensures var l := Listing(entries, InProject(p), NewestDayFirst);
      && |l| == Count(entries, InProject(p))
      && (forall i :: 0 <= i < |l| ==> l[i] in entries && l[i].projectId == p)
      && (forall k :: 0 <= k < |entries| && entries[k].projectId == p ==> entries[k] in l)
      && (forall i, j :: 0 <= i < j < |l| ==> Dates.NotAfter(l[j].date, l[i].date))
  {
    var l := Listing(entries, InProject(p), NewestDayFirst);
    forall i | 0 <= i < |l| ensures l[i] in entries && l[i].projectId == p {
      ListedRowInScope(entries, InProject(p), NewestDayFirst, i);
    }
    forall k | 0 <= k < |entries| && entries[k].projectId == p ensures entries[k] in l {
      RowListed(entries, InProject(p), NewestDayFirst, k);
    }
    forall i, j | 0 <= i < j < |l| ensures Dates.NotAfter(l[j].date, l[i].date) {
      SortedPairwise(l, ByKey(NewestDayFirst), i, j);
      Dates.DayKeyOrder(l[j].date, l[i].date);
    }
  }

  /** The project's entries of one day, oldest first. */
  lemma OldestFirstListing(entries: seq<Entry>, p: Id, d: Dates.Date)
    ensures var l := Listing(entries, OnDay(p, d), EntryCreatedAt);
      && |l| == Count(entries, OnDay(p, d))
      && (forall i :: 0 <= i < |l| ==> l[i] in entries && l[i].projectId == p && l[i].date == d)
      && (forall i, j :: 0 <= i < j < |l| ==> l[i].createdAt <= l[j].createdAt)
  {
    var l := Listing(entries, OnDay(p, d), EntryCreatedAt);
    forall i | 0 <= i < |l| ensures l[i] in entries && l[i].projectId == p && l[i].date == d {
      ListedRowInScope(entries, OnDay(p, d), EntryCreatedAt, i);
    }
    forall i, j | 0 <= i < j < |l| ensures l[i].createdAt <= l[j].createdAt {
      SortedPairwise(l, ByKey(EntryCreatedAt), i, j);
    }
  }

  /** The stored paths of some images. */
  function ImagePaths(images: seq<Image>): set<string> {
    set m | m in images :: m.path
  }

  /** `for (const img of entry.images) try { await fs.unlink(…img.path) } catch {}`: every path is gone afterwards. */
  method UnlinkImages(disk: Files.Disk, images: seq<Image>)
    modifies disk
    ensures disk.files == old(disk.files) - ImagePaths(images)
  {
    for i := 0 to |images|
      invariant disk.files == old(disk.files) - ImagePaths(images[..i])
    {
      var _ := disk.Unlink(images[i].path);
      assert images[..i + 1] == images[..i] + [images[i]];
    }
    assert images[..|images|] == images;
  }

  /** The `diaryEntry`, `diaryImage` and `diaryComment` tables. */
  class DiaryStore {
    var entries: seq<Entry>
    var images: seq<Image>
    var comments: seq<DiaryComment>

    ghost predicate Valid()
      reads this
    {
      ValidTables(entries, images, comments)
    }

    /** The database's choice of a fresh id for each table. */
    predicate UnusedEntry(id: Id) reads this { forall i :: 0 <= i < |entries| ==> entries[i].id != id }
    predicate UnusedImage(id: Id) reads this { forall i :: 0 <= i < |images| ==> images[i].id != id }
    predicate UnusedComment(id: Id) reads this { forall i :: 0 <= i < |comments| ==> comments[i].id != id }

    constructor ()
      ensures entries == [] && images == [] && comments == [] && Valid()
    {
      entries, images, comments := [], [], [];
    }

    /** An entry with its own images and comments, in table order. */
    function View(e: Entry): (v: EntryView)
      reads this
      ensures v.entry == e
      ensures forall m :: m in v.images <==> m in images && m.entryId == e.id
      ensures forall c :: c in v.comments <==> c in comments && c.entryId == e.id
    {
      Gather(e, images, comments)
    }

    /** Entries, each with its images and comments. */
    function Views(l: seq<Entry>): (r: seq<EntryView>)
      reads this
      ensures |r| == |l|
      ensures forall i :: 0 <= i < |l| ==> r[i] == View(l[i]) && r[i].entry == l[i]
    {
      GatherAll(l, images, comments)
    }

    /**
     * `listEntries`: every entry of the project, once each, newest day
     * first, with its images and comments.
     */
    function ListEntries(p: Id): (r: seq<EntryView>)
      reads this
      requires Valid()
      ensures |r| == Count(entries, InProject(p))
      ensures forall i :: 0 <= i < |r| ==> r[i].entry in entries && r[i].entry.projectId == p && r[i] == View(r[i].entry)
      ensures forall k :: 0 <= k < |entries| && entries[k].projectId == p ==> exists i :: 0 <= i < |r| && r[i].entry == entries[k]
      ensures forall i, j :: 0 <= i < j < |r| ==> Dates.NotAfter(r[j].entry.date, r[i].entry.date)
    {
      var r := GatherAll(Listing(entries, InProject(p), NewestDayFirst), images, comments);
      ListedViews(p, r);
      r
    }

    /** The views of `NewestFirstViews`, stated with this store's `View`. */
    lemma ListedViews(p: Id, r: seq<EntryView>)
      requires Valid()
      requires r == GatherAll(Listing(entries, InProject(p), NewestDayFirst), images, comments)
      ensures |r| == Count(entries, InProject(p))
      ensures forall i :: 0 <= i < |r| ==> r[i].entry in entries && r[i].entry.projectId == p && r[i] == View(r[i].entry)
      ensures forall k :: 0 <= k < |entries| && entries[k].projectId == p ==> exists i :: 0 <= i < |r| && r[i].entry == entries[k]
      ensures forall i, j :: 0 <= i < j < |r| ==> Dates.NotAfter(r[j].entry.date, r[i].entry.date)
    {
      NewestFirstViews(entries, images, comments, p, r);
    }

    /**
     * `calendarDaysWithEntries`: the errors of the month parameters, or the
     * days of the month on which the project has an entry, each once.
     */
    function CalendarDaysWithEntries(p: Id, year: Option<string>, month: Option<string>): (r: Result<seq<string>>)
      reads this
      requires Valid()
      ensures r.Err? <==> Calendar.MonthSpan(year, month).Err?
      ensures r.Err? ==> r.error == Calendar.MonthSpan(year, month).error
      ensures r.Ok? ==> forall t :: t in r.value <==>
        exists i :: 0 <= i < |entries| && entries[i].projectId == p
          && Calendar.InSpan(Calendar.MonthSpan(year, month).value)(entries[i].date)
          && t == Calendar.DayText(entries[i].date)
    {
      match Calendar.MonthSpan(year, month)
      case Err(e) => Err(e)
      case Ok(span) => Ok(Calendar.RowDays(entries, InProject(p), EntryDate, span))
    }

    /** `getEntriesByDate`: the date parameter's error, or the project's entries of that day, oldest first. */
    function GetEntriesByDate(p: Id, date: Option<string>): (r: Result<seq<EntryView>>)
      reads this
      requires Valid()
      ensures r.Err? <==> Calendar.DateParam(date).Err?
      ensures r.Err? ==> r.error == Calendar.DateParam(date).error
      ensures r.Ok? ==> |r.value| == Count(entries, OnDay(p, Calendar.DateParam(date).value))
      ensures r.Ok? ==> forall i :: 0 <= i < |r.value| ==>
        && r.value[i].entry in entries && r.value[i].entry.projectId == p
        && r.value[i].entry.date == Calendar.DateParam(date).value && r.value[i] == View(r.value[i].entry)
      ensures r.Ok? ==> forall i, j :: 0 <= i < j < |r.value| ==> r.value[i].entry.createdAt <= r.value[j].entry.createdAt
    {
      match Calendar.DateParam(date)
      case Err(e) => Err(e)
      case Ok(d) =>
        OldestFirstListing(entries, p, d);
        Ok(Views(Listing(entries, OnDay(p, d), EntryCreatedAt)))
    }

    /** `getEntry`: the project's entry with this id and its images and comments, else "Resoconto non trovato". */
    function GetEntry(p: Id, id: Id): (r: Result<EntryView>)
      reads this
      ensures r.Err? <==> forall i :: 0 <= i < |entries| ==> !(entries[i].id == id && entries[i].projectId == p)
      ensures r.Err? ==> r.error == NotFound(EntryNotFound)
      ensures r.Ok? ==> r.value.entry in entries && r.value.entry.id == id && r.value.entry.projectId == p
      ensures r.Ok? ==> r.value == View(r.value.entry)
    {
      match FindIndex(entries, IsEntry(p, id))
      case None => Err(NotFound(EntryNotFound))
      case Some(k) => Ok(View(entries[k]))
    }

    /**
     * `createEntry`: a valid body is stored as it is, with no check of the
     * project, unless `new Date` cannot read its date, which fails the
     * insert (500); the new entry comes back with no images and no comments.
     */
    method CreateEntry(p: Id, d: EntryDraft, newId: Id, createdAt: int) returns (r: Result<EntryView>)
      requires Valid() && UnusedEntry(newId)
      modifies this
      ensures Valid()
      ensures images == old(images) && comments == old(comments)
      ensures !ValidDraft(d) ==> r == Err(Invalid()) && entries == old(entries)
      ensures ValidDraft(d) && !Dates.IsoReadable(d.date.value) ==> r == Err(Failure(Dates.InvalidDate)) && entries == old(entries)
      ensures ValidDraft(d) && Dates.IsoReadable(d.date.value) ==>
        && entries == old(entries) + [NewEntry(d, newId, p, createdAt)]
        && r == Ok(EntryView(NewEntry(d, newId, p, createdAt), [], []))
    {
      if !ValidDraft(d) {
        return Err(Invalid());
      }
      if !Dates.IsoReadable(d.date.value) {
        return Err(Failure(Dates.InvalidDate));
      }
      var e := NewEntry(d, newId, p, createdAt);
      FreshEntryOwnsNothing(entries, images, comments, newId);
      AddEntryKeepsValid(entries, images, comments, e);
      entries := entries + [e];
      r := Ok(EntryView(e, Filter(images, ImageOf(newId)), Filter(comments, CommentOf(newId))));
    }

    /**
     * `updateEntry`: an invalid body is rejected; a date `new Date` cannot
     * read fails the `updateMany` (500) before any row is matched; no entry
     * of the project with this id is "Resoconto non trovato"; otherwise the entry is
     * patched and returned with its images and comments.
     */
    method UpdateEntry(p: Id, id: Id, u: EntryDraft) returns (r: Result<EntryView>)
      requires Valid()
      modifies this
      ensures Valid()
      ensures images == old(images) && comments == old(comments)
      ensures !ValidPatch(u) ==> r == Err(Invalid()) && entries == old(entries)
      ensures ValidPatch(u) && !Dates.StoredDateOk(u.date) ==> r == Err(Failure(Dates.InvalidDate)) && entries == old(entries)
      ensures ValidPatch(u) && Dates.StoredDateOk(u.date) ==>
        match FindIndex(old(entries), IsEntry(p, id))
        case None => r == Err(NotFound(EntryNotFound)) && entries == old(entries)
        case Some(k) =>
          && entries == old(entries)[k := PatchEntry(old(entries)[k], u)]
          && r == Ok(View(entries[k]))
    {
      if !ValidPatch(u) {
        return Err(Invalid());
      }
      if !Dates.StoredDateOk(u.date) {
        return Err(Failure(Dates.InvalidDate));
      }
      var found := FindIndex(entries, IsEntry(p, id));
      if found.None? {
        return Err(NotFound(EntryNotFound));
      }
      var k := found.value;
      var e := PatchEntry(entries[k], u);
      PatchEntryFields(entries[k], u);
      assert Keys(entries[k := e], EntryId) == Keys(entries, EntryId);
      assert forall i :: 0 <= i < |entries| ==> entries[k := e][i].id == entries[i].id;
      entries := entries[k := e];
      r := Ok(View(e));
    }

    /**
     * `deleteEntry`: no entry of the project with this id is "Resoconto non
     * trovato"; otherwise each of its image files is unlinked, a failure
     * being ignored, and the entry row is deleted; its images and comments
     * go with it by the schema's `onDelete: Cascade`.
     */
    method DeleteEntry(p: Id, id: Id, disk: Files.Disk) returns (r: Result<()>)
      requires Valid()
      modifies this, disk
      ensures Valid()
      ensures FindIndex(old(entries), IsEntry(p, id)).None? ==>
        && r == Err(NotFound(EntryNotFound))
        && entries == old(entries) && images == old(images) && comments == old(comments)
        && disk.files == old(disk.files)
      ensures FindIndex(old(entries), IsEntry(p, id)).Some? ==>
        && r == Ok(())
        && entries == Filter(old(entries), NotEntry(id))
        && images == Filter(old(images), ImageNotOf(id))
        && comments == Filter(old(comments), CommentNotOf(id))
        && disk.files == old(disk.files) - ImagePaths(Filter(old(images), ImageOf(id)))
    {
      if FindIndex(entries, IsEntry(p, id)).None? {
        return Err(NotFound(EntryNotFound));
      }
      UnlinkImages(disk, Filter(images, ImageOf(id)));
      DeleteEntryKeepsValid(entries, images, comments, id);
      entries, images, comments := Filter(entries, NotEntry(id)), Filter(images, ImageNotOf(id)),
                                   Filter(comments, CommentNotOf(id));
      r := Ok(());
    }

    /**
     * `addImage`: no file is "Nessun file caricato", checked first; an entry
     * outside the project is "Resoconto non trovato"; otherwise the image
     * records the client's file name and the path under the uploads
     * directory.
     */
    method AddImage(p: Id, entryId: Id, file: Option<Files.UploadedFile>, uploadsDir: Option<string>, newId: Id)
      returns (r: Result<Image>)
      requires Valid() && UnusedImage(newId)
      modifies this
      ensures Valid()
      ensures entries == old(entries) && comments == old(comments)
      ensures file.None? ==> r == Err(BadRequest(Files.NoFileUploaded, "VALIDATION_ERROR")) && images == old(images)
      ensures file.Some? ==>
        if FindIndex(old(entries), IsEntry(p, entryId)).None?
        then r == Err(NotFound(EntryNotFound)) && images == old(images)
        else
          && r == Ok(Image(newId, entryId, file.value.originalname, Files.StoredPath(uploadsDir, file.value.filename)))
          && images == old(images) + [r.value]
    {
      if file.None? {
        return Err(BadRequest(Files.NoFileUploaded, "VALIDATION_ERROR"));
      }
      var found := FindIndex(entries, IsEntry(p, entryId));
      if found.None? {
        return Err(NotFound(EntryNotFound));
      }
      assert Keys(entries, EntryId)[found.value] == entryId;
      var image := Image(newId, entryId, file.value.originalname, Files.StoredPath(uploadsDir, file.value.filename));
      UniqueKeysAppend(images, image, ImageId);
      images := images + [image];
      r := Ok(image);
    }

    /**
     * `removeImage`: the image must belong to that entry of the project,
     * else "Immagine non trovata"; its file is unlinked, a failure being
     * ignored, and the row deleted.
     */
    method RemoveImage(p: Id, entryId: Id, imageId: Id, disk: Files.Disk) returns (r: Result<()>)
      requires Valid()
      modifies this, disk
      ensures Valid()
      ensures entries == old(entries) && comments == old(comments)
      ensures FindIndex(old(entries), IsEntry(p, entryId)).None? || FindIndex(old(images), IsImageOf(imageId, entryId)).None? ==>
        r == Err(NotFound(ImageNotFound)) && images == old(images) && disk.files == old(disk.files)
      ensures FindIndex(old(entries), IsEntry(p, entryId)).Some? ==>
        match FindIndex(old(images), IsImageOf(imageId, entryId))
        case None => true
        case Some(a) =>
          && r == Ok(())
          && images == Filter(old(images), NotImage(imageId))
          && disk.files == old(disk.files) - {old(images)[a].path}
    {
      var owner := FindIndex(entries, IsEntry(p, entryId));
      var found := FindIndex(images, IsImageOf(imageId, entryId));
      if owner.None? || found.None? {
        return Err(NotFound(ImageNotFound));
      }
      var _ := disk.Unlink(images[found.value].path);
      RemoveImageKeepsValid(entries, images, comments, imageId);
      images := Filter(images, NotImage(imageId));
      r := Ok(());
    }

    /** `addComment`: 1..2000 characters, on an entry of the project. */
    method AddComment(p: Id, entryId: Id, content: Option<string>, newId: Id, createdAt: int)
      returns (r: Result<DiaryComment>)
      requires Valid() && UnusedComment(newId)
      modifies this
      ensures Valid()
      ensures entries == old(entries) && images == old(images)
      ensures (content.None? || !ValidComment(content.value)) ==> r == Err(Invalid()) && comments == old(comments)
      ensures content.Some? && ValidComment(content.value) ==>
        if FindIndex(old(entries), IsEntry(p, entryId)).None?
        then r == Err(NotFound(EntryNotFound)) && comments == old(comments)
        else r == Ok(DiaryComment(newId, entryId, content.value, createdAt)) && comments == old(comments) + [r.value]
    {
      if content.None? || !ValidComment(content.value) {
        return Err(Invalid());
      }
      var found := FindIndex(entries, IsEntry(p, entryId));
      if found.None? {
        return Err(NotFound(EntryNotFound));
      }
      assert Keys(entries, EntryId)[found.value] == entryId;
      var comment := DiaryComment(newId, entryId, content.value, createdAt);
      UniqueKeysAppend(comments, comment, CommentId);
      comments := comments + [comment];
      r := Ok(comment);
    }
  }
}
