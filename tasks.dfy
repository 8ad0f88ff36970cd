/**
 * The tasks controller: tasks on a project's board, each in a column at an
 * integer `order`, with their comments and file attachments. The core is
 * `moveTask`, which splices a task into a column and renumbers it.
 */
module Tasks {
  import opened Common
  import opened Seqs
  import opened Ordering
  import opened ErrorHandler
  import Dates
  import Files

  datatype Task = Task(
    id: Id, projectId: Id, columnId: Id, title: string, description: Option<string>, order: int,
    startDate: Option<Dates.Date>, dueDate: Option<Dates.Date>,
    phaseId: Option<Id>, workPackageId: Option<Id>, createdAt: string)

  datatype Comment = Comment(id: Id, taskId: Id, content: string, createdAt: string)

  datatype Attachment = Attachment(id: Id, taskId: Id, filename: string, path: string, uploadedAt: string)

  const TaskNotFound: string := "Task non trovato"
  const AttachmentNotFound: string := "Allegato non trovato"

  function TaskId(t: Task): Id { t.id }
  function TaskOrder(t: Task): int { t.order }
  function WithTaskOrder(t: Task, n: int): Task { t.(order := n) }
  function CommentId(c: Comment): Id { c.id }
  function AttachmentId(a: Attachment): Id { a.id }

  /** A `where` clause on the id alone selects a row in any column. */
  function Everywhere(t: Task): bool { true }

  /** `where: { projectId }`. */
  function InProject(p: Id): Task -> bool {
    (t: Task) => t.projectId == p
  }

  /** `where: { columnId }`. */
  function InColumn(c: Id): Task -> bool {
    (t: Task) => t.columnId == c
  }

  /** `where: { id, projectId }`. */
  function IsTask(p: Id, id: Id): Task -> bool {
    (t: Task) => t.id == id && t.projectId == p
  }

  /** `(t) => t.id === id`. */
  function HasId(id: Id): Task -> bool {
    (t: Task) => t.id == id
  }

  function NotTask(id: Id): Task -> bool {
    (t: Task) => t.id != id
  }

  function CommentNotOf(id: Id): Comment -> bool {
    (c: Comment) => c.taskId != id
  }

  function AttachmentNotOf(id: Id): Attachment -> bool {
    (a: Attachment) => a.taskId != id
  }

  function AttachmentOf(id: Id): Attachment -> bool {
    (a: Attachment) => a.taskId == id
  }

  function NotAttachment(id: Id): Attachment -> bool {
    (a: Attachment) => a.id != id
  }

  function Min(a: int, b: int): int { if a < b then a else b }

  // ---------------------------------------------------------------------
  // Request bodies
  // ---------------------------------------------------------------------

  /** The fields of a `createTask` body; `None` is a field left out. */
  datatype TaskDraft = TaskDraft(
    title: Option<string>, description: Option<string>, columnId: Option<Id>,
    startDate: Option<string>, dueDate: Option<string>,
    phaseId: Option<Id>, workPackageId: Option<Id>)

  /** The fields of an `updateTask` body: title and description are optional, the rest also nullable. */
  datatype TaskPatch = TaskPatch(
    title: Option<string>, description: Option<string>,
    startDate: Patch<string>, dueDate: Patch<string>,
    phaseId: Patch<Id>, workPackageId: Patch<Id>)

  predicate ValidTitle(s: string) { LengthIn(s, 1, 300) }
  predicate ValidDescription(s: string) { LengthAtMost(s, 5000) }
  predicate ValidComment(s: string) { LengthIn(s, 1, 2000) }

  /** `createSchema.parse` succeeds. */
  predicate ValidDraft(d: TaskDraft) {
    && d.title.Some? && ValidTitle(d.title.value)
    && (d.description.Some? ==> ValidDescription(d.description.value))
    && d.columnId.Some?
    && Dates.IsoDateField(d.startDate) && Dates.IsoDateField(d.dueDate)
  }

  /** `updateSchema.parse` succeeds. */
  predicate ValidPatch(u: TaskPatch) {
    && (u.title.Some? ==> ValidTitle(u.title.value))
    && (u.description.Some? ==> ValidDescription(u.description.value))
    && (u.startDate.Value? ==> IsIsoDateString(u.startDate.value))
    && (u.dueDate.Value? ==> IsIsoDateString(u.dueDate.value))
  }

  /** The dates of a parsed `createTask` body are ones `new Date` reads; otherwise the insert fails. */
  predicate DraftDatesReadable(d: TaskDraft)
    requires ValidDraft(d)
  {
    Dates.StoredDateOk(d.startDate) && Dates.StoredDateOk(d.dueDate)
  }

  /** The dates of a parsed `updateTask` body are ones `new Date` reads; otherwise the update fails. */
  predicate PatchDatesReadable(u: TaskPatch)
    requires ValidPatch(u)
  {
    Dates.PatchedDateOk(u.startDate) && Dates.PatchedDateOk(u.dueDate)
  }

  /** The row `createTask` inserts: every field left out is stored as null. */
  function NewTask(d: TaskDraft, id: Id, p: Id, order: int, createdAt: string): (t: Task)
    requires ValidDraft(d)
    ensures t.id == id && t.projectId == p && t.columnId == d.columnId.value && t.order == order
    ensures t.title == d.title.value && t.description == d.description
    ensures t.startDate.None? <==> d.startDate.None?
    ensures t.dueDate.None? <==> d.dueDate.None?
    ensures t.phaseId == d.phaseId && t.workPackageId == d.workPackageId
  {
    Task(id, p, d.columnId.value, d.title.value, d.description, order,
         Dates.StoredDate(d.startDate), Dates.StoredDate(d.dueDate), d.phaseId, d.workPackageId, createdAt)
  }

  /** The `data` record of `updateTask`, applied to the row. */
  function PatchTask(t: Task, u: TaskPatch): Task
    requires ValidPatch(u)
  {
    t.(title := Kept(u.title, t.title),
       description := if u.description.Some? then u.description else t.description,
       startDate := Dates.PatchedDate(u.startDate, t.startDate),
       dueDate := Dates.PatchedDate(u.dueDate, t.dueDate),
       phaseId := Patched(u.phaseId, t.phaseId),
       workPackageId := Patched(u.workPackageId, t.workPackageId))
  }

  /**
   * `updateTask` changes only the fields provided: the id, project, column,
   * order and creation time never change; a field left out keeps its value,
   * `null` clears a date or a link, and a value replaces it.
   */
  lemma PatchTaskFields(t: Task, u: TaskPatch)
    requires ValidPatch(u)
    ensures var r := PatchTask(t, u);
      && r.id == t.id && r.projectId == t.projectId && r.columnId == t.columnId
      && r.order == t.order && r.createdAt == t.createdAt
      && (u.title.None? ==> r.title == t.title) && (u.title.Some? ==> r.title == u.title.value)
      && (u.description.None? ==> r.description == t.description)
      && (u.description.Some? ==> r.description == u.description)
      && (u.startDate.Absent? ==> r.startDate == t.startDate) && (u.startDate.Null? ==> r.startDate.None?)
      && (u.startDate.Value? ==> r.startDate == Some(Dates.IsoDate(u.startDate.value)))
      && (u.dueDate.Absent? ==> r.dueDate == t.dueDate) && (u.dueDate.Null? ==> r.dueDate.None?)
      && (u.dueDate.Value? ==> r.dueDate == Some(Dates.IsoDate(u.dueDate.value)))
      && (u.phaseId.Absent? ==> r.phaseId == t.phaseId) && (u.phaseId.Null? ==> r.phaseId.None?)
      && (u.workPackageId.Absent? ==> r.workPackageId == t.workPackageId)
      && (u.workPackageId.Null? ==> r.workPackageId.None?)
  {
  }

  /** Applying the same update twice is applying it once, and an empty body changes nothing. */
  lemma PatchTaskIdempotent(t: Task, u: TaskPatch)
    requires ValidPatch(u)
    ensures PatchTask(PatchTask(t, u), u) == PatchTask(t, u)
    ensures u == TaskPatch(None, None, Absent, Absent, Absent, Absent) ==> PatchTask(t, u) == t
  {
  }

  // ---------------------------------------------------------------------
  // moveTask
  // ---------------------------------------------------------------------

  /** Writing a task's order changes nothing else. */
  lemma TaskOrderLaws()
    ensures OrderSetter(TaskId, Everywhere, WithTaskOrder)
    ensures ReadsBack(TaskOrder, WithTaskOrder)
  {
  }

  /** `findMany({ where: { columnId }, orderBy: { order: "asc" } })`. */
  function ColumnListing(tasks: seq<Task>, c: Id): seq<Task> {
    Listing(tasks, InColumn(c), TaskOrder)
  }

  /** The writes `ids.map((id, i) => update({ where: { id }, data: { order: base + i } }))`. */
  function Renumbered(tasks: seq<Task>, ids: seq<Id>, base: int): (r: seq<Task>)
    ensures |r| == |tasks|
  {
    Reordered(tasks, ids, base, TaskId, Everywhere, WithTaskOrder)
  }

  /**
   * The same-column branch: take the task out of the column's listing, put
   * it back at `min(order, n - 1)`, and write every position (of the ids of
   * the spliced rows, which are the spliced ids); nothing when the index does
   * not change.
   */
  function MoveWithin(tasks: seq<Task>, id: Id, c: Id, order: nat): seq<Task> {
    var l := ColumnListing(tasks, c);
    match FindIndex(l, HasId(id))
    case None => tasks
    case Some(from) =>
      var to := Min(order, |l| - 1);
      if from == to then tasks else Renumbered(tasks, Move(Keys(l, TaskId), from, to), 0)
  }

  /**
   * The cross-column branch, as one transaction: the target column's tasks
   * from `min(order, n)` on are shifted one place up, the task is moved there,
   * and the tasks before it are renumbered from 0.
   */
  function MoveAcross(tasks: seq<Task>, k: nat, c: Id, order: nat): (r: seq<Task>)
    requires k < |tasks|
    ensures |r| == |tasks|
  {
    var ids := Keys(ColumnListing(tasks, c), TaskId);
    var n := Min(order, |ids|);
    var shifted := Renumbered(tasks, ids[n..], n + 1);
    var placed := shifted[k := shifted[k].(columnId := c, order := n)];
    Renumbered(placed, ids[..n], 0)
  }

  /** One row after a renumbering: a listed id gets `base` plus its position, any other row is kept. */
  lemma RenumberedRow(tasks: seq<Task>, ids: seq<Id>, base: int, j: nat)
    requires j < |tasks|
    ensures Renumbered(tasks, ids, base)[j]
         == if tasks[j].id in ids then tasks[j].(order := base + LastIndex(ids, tasks[j].id)) else tasks[j]
  {
    TaskOrderLaws();
    ReorderedRow(tasks, ids, 0 + base, TaskId, Everywhere, WithTaskOrder, j);
  }

  /** A task of the column is at some position of its listing. */
  lemma ListedAt(tasks: seq<Task>, c: Id, j: nat) returns (q: nat)
    requires j < |tasks| && tasks[j].columnId == c
    ensures q < |ColumnListing(tasks, c)| && ColumnListing(tasks, c)[q] == tasks[j]
  {
    RowListed(tasks, InColumn(c), TaskOrder, j);
    q :| 0 <= q < |ColumnListing(tasks, c)| && ColumnListing(tasks, c)[q] == tasks[j];
  }

  /** A task is found in its own column's listing. */
  lemma ListedTask(tasks: seq<Task>, k: nat)
    requires k < |tasks|
    ensures FindIndex(ColumnListing(tasks, tasks[k].columnId), HasId(tasks[k].id)).Some?
  {
    var q := ListedAt(tasks, tasks[k].columnId, k);
    assert HasId(tasks[k].id)(ColumnListing(tasks, tasks[k].columnId)[q]);
  }

  /** Each position of the listing holds a task of the column. */
  lemma ListedIsRow(tasks: seq<Task>, c: Id, q: nat) returns (j: nat)
    requires q < |ColumnListing(tasks, c)|
    ensures j < |tasks| && tasks[j] == ColumnListing(tasks, c)[q] && tasks[j].columnId == c
  {
    ListedRowInScope(tasks, InColumn(c), TaskOrder, q);
    j :| 0 <= j < |tasks| && tasks[j] == ColumnListing(tasks, c)[q];
  }

  /** The ids of a listing are free of repeats. */
  lemma ListingIdsDistinct(tasks: seq<Task>, c: Id)
    requires UniqueKeys(tasks, TaskId)
    ensures Distinct(Keys(ColumnListing(tasks, c), TaskId))
  {
    UniqueKeysSub(tasks, ColumnListing(tasks, c), TaskId);
    UniqueKeysIds(ColumnListing(tasks, c), TaskId);
  }

  /** The ids of a column's listing hold no task of another column. */
  lemma NotListed(tasks: seq<Task>, c: Id, j: nat)
    requires UniqueKeys(tasks, TaskId) && j < |tasks| && tasks[j].columnId != c
    ensures tasks[j].id !in Keys(ColumnListing(tasks, c), TaskId)
  {
    var ids := Keys(ColumnListing(tasks, c), TaskId);
    if tasks[j].id in ids {
      var q :| 0 <= q < |ids| && ids[q] == tasks[j].id;
      var j' := ListedIsRow(tasks, c, q);
    }
  }

  /** The same ids, each list holding every member of the other. */
  predicate SameIds(a: seq<Id>, b: seq<Id>) {
    (forall x :: x in a ==> x in b) && (forall x :: x in b ==> x in a)
  }

  /**
   * Renumbering a column by a list holding exactly its ids: each task of the
   * column gets the position of its id, every other task is unchanged.
   */
  lemma RenumberedColumnRow(tasks: seq<Task>, c: Id, ids: seq<Id>, j: nat)
    requires UniqueKeys(tasks, TaskId) && j < |tasks|
    requires SameIds(ids, Keys(ColumnListing(tasks, c), TaskId))
    ensures tasks[j].columnId != c ==> Renumbered(tasks, ids, 0)[j] == tasks[j]
    ensures tasks[j].columnId == c ==>
      tasks[j].id in ids && Renumbered(tasks, ids, 0)[j] == tasks[j].(order := LastIndex(ids, tasks[j].id))
  {
    RenumberedRow(tasks, ids, 0, j);
    if tasks[j].columnId == c {
      var p := ListedAt(tasks, c, j);
      assert Keys(ColumnListing(tasks, c), TaskId)[p] == tasks[j].id;
    } else {
      NotListed(tasks, c, j);
    }
  }

  /** After renumbering by its ids, each task of the column carries the position of its id. */
  lemma RenumberedColumnPositions(tasks: seq<Task>, c: Id, ids: seq<Id>)
    requires UniqueKeys(tasks, TaskId)
    requires SameIds(ids, Keys(ColumnListing(tasks, c), TaskId))
    ensures forall j :: 0 <= j < |tasks| && InColumn(c)(Renumbered(tasks, ids, 0)[j]) ==>
      Renumbered(tasks, ids, 0)[j].id in ids &&
      Renumbered(tasks, ids, 0)[j].order == LastIndex(ids, Renumbered(tasks, ids, 0)[j].id)
  {
    forall j | 0 <= j < |tasks| && InColumn(c)(Renumbered(tasks, ids, 0)[j])
      ensures Renumbered(tasks, ids, 0)[j].id in ids &&
              Renumbered(tasks, ids, 0)[j].order == LastIndex(ids, Renumbered(tasks, ids, 0)[j].id)
    {
      RenumberedColumnRow(tasks, c, ids, j);
    }
  }

  /** After renumbering by its ids, each of those ids is still a task of the column. */
  lemma RenumberedColumnCovers(tasks: seq<Task>, c: Id, ids: seq<Id>, i: nat) returns (j: nat)
    requires UniqueKeys(tasks, TaskId) && i < |ids|
    requires SameIds(ids, Keys(ColumnListing(tasks, c), TaskId))
    ensures j < |tasks| && InColumn(c)(Renumbered(tasks, ids, 0)[j]) && Renumbered(tasks, ids, 0)[j].id == ids[i]
  {
    var listed := Keys(ColumnListing(tasks, c), TaskId);
    assert ids[i] in listed;
    var p :| 0 <= p < |listed| && listed[p] == ids[i];
    j := ListedIsRow(tasks, c, p);
    RenumberedColumnRow(tasks, c, ids, j);
  }

  /**
   * Renumbering a column by a list of its ids without repeats: the column
   * then lists its tasks in the order of the list, numbered 0, 1, …, n - 1.
   */
  lemma RenumberedColumn(tasks: seq<Task>, c: Id, ids: seq<Id>)
    requires UniqueKeys(tasks, TaskId) && Distinct(ids)
    requires SameIds(ids, Keys(ColumnListing(tasks, c), TaskId))
    ensures Keys(ColumnListing(Renumbered(tasks, ids, 0), c), TaskId) == ids
    ensures forall i :: 0 <= i < |ids| ==> ColumnListing(Renumbered(tasks, ids, 0), c)[i].order == i
  {
    var after := Renumbered(tasks, ids, 0);
    RenumberedColumnIndexed(tasks, c, ids, after);
    ListingFollowsIds(after, ids, TaskId, InColumn(c), TaskOrder);
  }

  /** The renumbered tasks meet the requirements of `ListingFollowsIds` for the column. */
  lemma RenumberedColumnIndexed(tasks: seq<Task>, c: Id, ids: seq<Id>, after: seq<Task>)
    requires UniqueKeys(tasks, TaskId)
    requires SameIds(ids, Keys(ColumnListing(tasks, c), TaskId))
    requires after == Renumbered(tasks, ids, 0)
    ensures UniqueKeys(after, TaskId)
    ensures forall k :: 0 <= k < |after| && InColumn(c)(after[k]) ==>
      TaskId(after[k]) in ids && TaskOrder(after[k]) == LastIndex(ids, TaskId(after[k]))
    ensures forall j :: 0 <= j < |ids| ==> HasRow(after, ids[j], TaskId, InColumn(c))
  {
    TaskOrderLaws();
    ReorderedKeepsIds(tasks, ids, 0, TaskId, Everywhere, WithTaskOrder);
    RenumberedColumnPositions(tasks, c, ids);
    forall i | 0 <= i < |ids|
      ensures HasRow(after, ids[i], TaskId, InColumn(c))
    {
      var j := RenumberedColumnCovers(tasks, c, ids, i);
      assert InColumn(c)(after[j]) && TaskId(after[j]) == ids[i];
    }
  }

  /** A move keeps the same ids. */
  lemma MoveSameIds(ids: seq<Id>, from: nat, to: nat)
    requires from < |ids| && to < |ids|
    ensures SameIds(Move(ids, from, to), ids)
  {
    MoveSpec(ids, from, to);
    forall x | x in Move(ids, from, to) ensures x in ids {
      assert x in multiset(Move(ids, from, to));
    }
    forall x | x in ids ensures x in Move(ids, from, to) {
      assert x in multiset(ids);
    }
  }

  /**
   * A same-column move of a listed task: nothing changes when the clamped
   * index is its own, and otherwise the column is renumbered in the order of the splice.
   */
  lemma MoveWithinSplice(tasks: seq<Task>, id: Id, c: Id, order: nat, from: nat, to: nat)
    requires FindIndex(ColumnListing(tasks, c), HasId(id)) == Some(from)
    requires to == Min(order, |ColumnListing(tasks, c)| - 1)
    ensures MoveWithin(tasks, id, c, order)
         == if from == to then tasks else Renumbered(tasks, Move(Keys(ColumnListing(tasks, c), TaskId), from, to), 0)
  {
  }

  /**
   * A same-column move: the task is in its column's listing; when the
   * clamped index is its own index nothing changes, and otherwise the column
   * lists the same tasks in the order of the splice, numbered 0, 1, …, n - 1.
   */
  lemma MoveWithinListing(tasks: seq<Task>, k: nat, order: nat)
    requires UniqueKeys(tasks, TaskId) && k < |tasks|
    ensures FindIndex(ColumnListing(tasks, tasks[k].columnId), HasId(tasks[k].id)).Some?
    ensures
      var c := tasks[k].columnId;
      var l := ColumnListing(tasks, c);
      var from := FindIndex(l, HasId(tasks[k].id)).value;
      var to := Min(order, |l| - 1);
      var l' := ColumnListing(MoveWithin(tasks, tasks[k].id, c, order), c);
      && (from == to ==> MoveWithin(tasks, tasks[k].id, c, order) == tasks)
      && (from != to ==> Keys(l', TaskId) == Move(Keys(l, TaskId), from, to))
      && (from != to ==> forall i :: 0 <= i < |l'| ==> l'[i].order == i)
  {
    var id, c := tasks[k].id, tasks[k].columnId;
    var l := ColumnListing(tasks, c);
    ListedTask(tasks, k);
    var from := FindIndex(l, HasId(id)).value;
    var to := Min(order, |l| - 1);
    if from != to {
      var ids := Keys(l, TaskId);
      var moved := Move(ids, from, to);
      MoveWithinSplice(tasks, id, c, order, from, to);
      assert Distinct(moved) by {
        ListingIdsDistinct(tasks, c);
        MoveDistinct(ids, from, to);
      }
      assert SameIds(moved, ids) by {
        MoveSameIds(ids, from, to);
      }
      RenumberedColumn(tasks, c, moved);
    } else {
      MoveWithinSplice(tasks, id, c, order, from, to);
    }
  }

  /** After a same-column move to a new index the task sits at that index and the others keep their relative order. */
  lemma MoveWithinPlacement(tasks: seq<Task>, k: nat, order: nat)
    requires UniqueKeys(tasks, TaskId) && k < |tasks|
    ensures
      var c := tasks[k].columnId;
      var l := ColumnListing(tasks, c);
      var to := Min(order, |l| - 1);
      var l' := ColumnListing(MoveWithin(tasks, tasks[k].id, c, order), c);
      FindIndex(l, HasId(tasks[k].id)).Some? &&
      (FindIndex(l, HasId(tasks[k].id)).value != to ==>
        && |l'| == |l| && l'[to].id == tasks[k].id
        && Remove(Keys(l', TaskId), to) == Remove(Keys(l, TaskId), FindIndex(l, HasId(tasks[k].id)).value))
  {
    MoveWithinListing(tasks, k, order);
    var c := tasks[k].columnId;
    var l := ColumnListing(tasks, c);
    var from := FindIndex(l, HasId(tasks[k].id)).value;
    var to := Min(order, |l| - 1);
    if from != to {
      MoveSpec(Keys(l, TaskId), from, to);
      var l' := ColumnListing(MoveWithin(tasks, tasks[k].id, c, order), c);
      assert Keys(l', TaskId)[to] == l'[to].id;
    }
  }

  /** Renumbering a column by its ids changes only the orders, and only in that column. */
  lemma RenumberedColumnKeeps(tasks: seq<Task>, c: Id, ids: seq<Id>)
    requires UniqueKeys(tasks, TaskId)
    requires SameIds(ids, Keys(ColumnListing(tasks, c), TaskId))
    ensures forall j :: 0 <= j < |tasks| ==>
      Renumbered(tasks, ids, 0)[j] == tasks[j].(order := Renumbered(tasks, ids, 0)[j].order)
    ensures forall j :: 0 <= j < |tasks| && tasks[j].columnId != c ==> Renumbered(tasks, ids, 0)[j] == tasks[j]
  {
    forall j | 0 <= j < |tasks|
      ensures Renumbered(tasks, ids, 0)[j] == tasks[j].(order := Renumbered(tasks, ids, 0)[j].order)
      ensures tasks[j].columnId != c ==> Renumbered(tasks, ids, 0)[j] == tasks[j]
    {
      RenumberedColumnRow(tasks, c, ids, j);
    }
  }

  /** A same-column move changes no task's id, column or other fields, and no task of another column. */
  lemma MoveWithinKeeps(tasks: seq<Task>, id: Id, c: Id, order: nat)
    requires UniqueKeys(tasks, TaskId)
    ensures |MoveWithin(tasks, id, c, order)| == |tasks|
    ensures forall j :: 0 <= j < |tasks| ==>
      MoveWithin(tasks, id, c, order)[j] == tasks[j].(order := MoveWithin(tasks, id, c, order)[j].order)
    ensures forall j :: 0 <= j < |tasks| && tasks[j].columnId != c ==> MoveWithin(tasks, id, c, order)[j] == tasks[j]
  {
    var l := ColumnListing(tasks, c);
    match FindIndex(l, HasId(id))
    case None =>
    case Some(from) =>
      var to := Min(order, |l| - 1);
      if from != to {
        var ids := Keys(l, TaskId);
        MoveSameIds(ids, from, to);
        RenumberedColumnKeeps(tasks, c, Move(ids, from, to));
      }
  }

  /** The parts of a list without repeats have none either. */
  /** Where an id of a list without repeats falls once the list is cut at `n`. */
  lemma SplitPosition(ids: seq<Id>, n: nat, q: nat, x: Id)
    requires Distinct(ids) && n <= |ids| && q < |ids| && ids[q] == x
    ensures q < n ==> x in ids[..n] && LastIndex(ids[..n], x) == q && x !in ids[n..]
    ensures n <= q ==> x in ids[n..] && LastIndex(ids[n..], x) == q - n && x !in ids[..n]
  {
    DistinctParts(ids, n);
    if q < n {
      assert ids[..n][q] == x;
      LastIndexDistinct(ids[..n], q);
    } else {
      assert ids[n..][q - n] == x;
      LastIndexDistinct(ids[n..], q - n);
    }
  }

  lemma DistinctParts(ids: seq<Id>, n: nat)
    requires Distinct(ids) && n <= |ids|
    ensures Distinct(ids[..n]) && Distinct(ids[n..])
    ensures forall i, j :: 0 <= i < n <= j < |ids| ==> ids[i] != ids[j]
  {
    assert forall i :: 0 <= i < n ==> ids[..n][i] == ids[i];
    assert forall i :: 0 <= i < |ids| - n ==> ids[n..][i] == ids[n + i];
  }

  /** The moved task lands in the target column at `min(order, n)`. */
  lemma MoveAcrossMoved(tasks: seq<Task>, k: nat, c: Id, order: nat)
    requires UniqueKeys(tasks, TaskId) && k < |tasks| && tasks[k].columnId != c
    ensures MoveAcross(tasks, k, c, order)[k]
         == tasks[k].(columnId := c, order := Min(order, |ColumnListing(tasks, c)|))
  {
    var ids := Keys(ColumnListing(tasks, c), TaskId);
    var n := Min(order, |ids|);
    var shifted := Renumbered(tasks, ids[n..], n + 1);
    var placed := shifted[k := shifted[k].(columnId := c, order := n)];
    NotListed(tasks, c, k);
    assert tasks[k].id !in ids[n..] && tasks[k].id !in ids[..n];
    RenumberedRow(tasks, ids[n..], n + 1, k);
    RenumberedRow(placed, ids[..n], 0, k);
  }

  /** A cross-column move leaves every other task outside the target column, those of the origin column included, unchanged. */
  lemma MoveAcrossOther(tasks: seq<Task>, k: nat, c: Id, order: nat, j: nat)
    requires UniqueKeys(tasks, TaskId) && k < |tasks| && j < |tasks| && j != k && tasks[j].columnId != c
    ensures MoveAcross(tasks, k, c, order)[j] == tasks[j]
  {
    var ids := Keys(ColumnListing(tasks, c), TaskId);
    var n := Min(order, |ids|);
    var shifted := Renumbered(tasks, ids[n..], n + 1);
    var placed := shifted[k := shifted[k].(columnId := c, order := n)];
    NotListed(tasks, c, j);
    assert tasks[j].id !in ids[n..] && tasks[j].id !in ids[..n];
    RenumberedRow(tasks, ids[n..], n + 1, j);
    RenumberedRow(placed, ids[..n], 0, j);
  }

  /** The cross-column move in its three steps, named. */
  lemma MoveAcrossIs(tasks: seq<Task>, k: nat, c: Id, order: nat, ids: seq<Id>, n: nat, placed: seq<Task>)
    requires k < |tasks| && ids == Keys(ColumnListing(tasks, c), TaskId) && n == Min(order, |ids|)
    requires var shifted := Renumbered(tasks, ids[n..], n + 1);
             placed == shifted[k := shifted[k].(columnId := c, order := n)]
    ensures MoveAcross(tasks, k, c, order) == Renumbered(placed, ids[..n], 0)
  {
  }

  /** A task of the target column before `min(order, n)` keeps its position. */
  lemma MoveAcrossHead(tasks: seq<Task>, k: nat, c: Id, order: nat, j: nat, q: nat)
    requires UniqueKeys(tasks, TaskId) && k < |tasks| && tasks[k].columnId != c && j < |tasks|
    requires q < Min(order, |ColumnListing(tasks, c)|)
    requires Keys(ColumnListing(tasks, c), TaskId)[q] == tasks[j].id
    ensures MoveAcross(tasks, k, c, order)[j] == tasks[j].(order := q)
  {
    var ids := Keys(ColumnListing(tasks, c), TaskId);
    var n := Min(order, |ids|);
    var shifted := Renumbered(tasks, ids[n..], n + 1);
    var placed := shifted[k := shifted[k].(columnId := c, order := n)];
    ListingIdsDistinct(tasks, c);
    NotListed(tasks, c, k);
    HeadRow(tasks, k, c, j, q, ids, n, shifted, placed);
    MoveAcrossIs(tasks, k, c, order, ids, n, placed);
  }

  /** `MoveAcrossHead` on the two renumberings of `MoveAcross`. */
  lemma HeadRow(tasks: seq<Task>, k: nat, c: Id, j: nat, q: nat, ids: seq<Id>, n: nat, shifted: seq<Task>, placed: seq<Task>)
    requires k < |tasks| && j < |tasks|
    requires Distinct(ids) && tasks[k].id !in ids && q < n <= |ids| && ids[q] == tasks[j].id
    requires shifted == Renumbered(tasks, ids[n..], n + 1)
    requires placed == shifted[k := shifted[k].(columnId := c, order := n)]
    ensures Renumbered(placed, ids[..n], 0)[j] == tasks[j].(order := q)
  {
    SplitPosition(ids, n, q, tasks[j].id);
    assert placed[j] == shifted[j];
    RenumberedRow(tasks, ids[n..], n + 1, j);
    RenumberedRow(placed, ids[..n], 0, j);
    assert 0 + LastIndex(ids[..n], tasks[j].id) == q;
  }

  /** A task of the target column at or after `min(order, n)` moves one place up. */
  lemma MoveAcrossTail(tasks: seq<Task>, k: nat, c: Id, order: nat, j: nat, q: nat)
    requires UniqueKeys(tasks, TaskId) && k < |tasks| && tasks[k].columnId != c && j < |tasks|
    requires Min(order, |ColumnListing(tasks, c)|) <= q < |ColumnListing(tasks, c)|
    requires Keys(ColumnListing(tasks, c), TaskId)[q] == tasks[j].id
    ensures MoveAcross(tasks, k, c, order)[j] == tasks[j].(order := q + 1)
  {
    var ids := Keys(ColumnListing(tasks, c), TaskId);
    var n := Min(order, |ids|);
    var shifted := Renumbered(tasks, ids[n..], n + 1);
    var placed := shifted[k := shifted[k].(columnId := c, order := n)];
    ListingIdsDistinct(tasks, c);
    SplitPosition(ids, n, q, tasks[j].id);
    assert placed[j] == tasks[j].(order := q + 1) by {
      assert j != k by { NotListed(tasks, c, k); }
      RenumberedRow(tasks, ids[n..], n + 1, j);
      assert n + 1 + LastIndex(ids[n..], tasks[j].id) == q + 1;
    }
    assert Renumbered(placed, ids[..n], 0)[j] == tasks[j].(order := q + 1) by {
      RenumberedRow(placed, ids[..n], 0, j);
    }
    MoveAcrossIs(tasks, k, c, order, ids, n, placed);
  }

  /**
   * A task of the target column keeps its listing position when that is
   * before `min(order, n)`, and moves one place up otherwise.
   */
  lemma MoveAcrossTarget(tasks: seq<Task>, k: nat, c: Id, order: nat, j: nat)
    requires UniqueKeys(tasks, TaskId) && k < |tasks| && tasks[k].columnId != c
    requires j < |tasks| && tasks[j].columnId == c
    ensures tasks[j].id in Keys(ColumnListing(tasks, c), TaskId)
    ensures
      var ids := Keys(ColumnListing(tasks, c), TaskId);
      var q := LastIndex(ids, tasks[j].id);
      MoveAcross(tasks, k, c, order)[j]
        == tasks[j].(order := if q < Min(order, |ids|) then q else q + 1)
  {
    var ids := Keys(ColumnListing(tasks, c), TaskId);
    ListingIdsDistinct(tasks, c);
    var q := ListedAt(tasks, c, j);
    assert ids[q] == tasks[j].id;
    LastIndexDistinct(ids, q);
    if q < Min(order, |ids|) {
      MoveAcrossHead(tasks, k, c, order, j, q);
    } else {
      MoveAcrossTail(tasks, k, c, order, j, q);
    }
  }

  /**
   * A cross-column move changes no task's id, and afterwards the target
   * column holds exactly its former tasks and the moved one.
   */
  lemma MoveAcrossShape(tasks: seq<Task>, k: nat, c: Id, order: nat, j: nat)
    requires UniqueKeys(tasks, TaskId) && k < |tasks| && tasks[k].columnId != c && j < |tasks|
    ensures MoveAcross(tasks, k, c, order)[j].id == tasks[j].id
    ensures MoveAcross(tasks, k, c, order)[j].columnId == c <==> (j == k || tasks[j].columnId == c)
  {
    if j == k {
      MoveAcrossMoved(tasks, k, c, order);
    } else if tasks[j].columnId == c {
      MoveAcrossTarget(tasks, k, c, order, j);
    } else {
      MoveAcrossOther(tasks, k, c, order, j);
    }
  }

  /** After a cross-column move each task of the target column carries the position of its id in the spliced list. */
  lemma MoveAcrossPosition(tasks: seq<Task>, k: nat, c: Id, order: nat, j: nat)
    requires UniqueKeys(tasks, TaskId) && k < |tasks| && tasks[k].columnId != c && j < |tasks|
    requires MoveAcross(tasks, k, c, order)[j].columnId == c
    ensures
      var ids := Keys(ColumnListing(tasks, c), TaskId);
      var target := InsertAt(ids, Min(order, |ids|), tasks[k].id);
      var r := MoveAcross(tasks, k, c, order);
      r[j].id in target && r[j].order == LastIndex(target, r[j].id)
  {
    var ids := Keys(ColumnListing(tasks, c), TaskId);
    var n := Min(order, |ids|);
    ListingIdsDistinct(tasks, c);
    NotListed(tasks, c, k);
    MoveAcrossShape(tasks, k, c, order, j);
    if j == k {
      MoveAcrossMoved(tasks, k, c, order);
      if ids != [] {
        InsertAtPositions(ids, n, tasks[k].id, 0);
      } else {
        assert InsertAt(ids, n, tasks[k].id) == [tasks[k].id];
      }
    } else {
      MoveAcrossTarget(tasks, k, c, order, j);
      InsertAtPositions(ids, n, tasks[k].id, LastIndex(ids, tasks[j].id));
    }
  }

  /** After a cross-column move each id of the spliced list is a task of the target column. */
  lemma MoveAcrossCover(tasks: seq<Task>, k: nat, c: Id, order: nat, i: nat) returns (j: nat)
    requires UniqueKeys(tasks, TaskId) && k < |tasks| && tasks[k].columnId != c
    requires i <= |ColumnListing(tasks, c)|
    ensures
      var ids := Keys(ColumnListing(tasks, c), TaskId);
      var target := InsertAt(ids, Min(order, |ids|), tasks[k].id);
      var r := MoveAcross(tasks, k, c, order);
      j < |r| && r[j].columnId == c && r[j].id == target[i]
  {
    var ids := Keys(ColumnListing(tasks, c), TaskId);
    var n := Min(order, |ids|);
    var target := InsertAt(ids, n, tasks[k].id);
    if i == n {
      j := k;
    } else if i < n {
      j := ListedIsRow(tasks, c, i);
      assert target[i] == ids[i] == tasks[j].id;
    } else {
      j := ListedIsRow(tasks, c, i - 1);
      assert target[i] == ids[i - 1] == tasks[j].id;
    }
    MoveAcrossShape(tasks, k, c, order, j);
  }

  /** The spliced list of a cross-column move: the target column's ids with the moved id at `min(order, n)`. */
  function Spliced(tasks: seq<Task>, k: nat, c: Id, order: nat): seq<Id>
    requires k < |tasks|
  {
    var ids := Keys(ColumnListing(tasks, c), TaskId);
    InsertAt(ids, Min(order, |ids|), tasks[k].id)
  }

  /** Each task of column `c` carries the (last) position of its id in `ids`. */
  predicate Placed(r: seq<Task>, c: Id, ids: seq<Id>) {
    forall j :: 0 <= j < |r| && InColumn(c)(r[j]) ==> r[j].id in ids && r[j].order == LastIndex(ids, r[j].id)
  }

  /** Each of `ids` is the id of a task of column `c`. */
  ghost predicate Covered(r: seq<Task>, c: Id, ids: seq<Id>) {
    forall i :: 0 <= i < |ids| ==> HasRow(r, ids[i], TaskId, InColumn(c))
  }

  /** The three conditions under which a listing follows the spliced list. */
  lemma MoveAcrossFollows(tasks: seq<Task>, k: nat, c: Id, order: nat)
    requires UniqueKeys(tasks, TaskId) && k < |tasks| && tasks[k].columnId != c
    ensures UniqueKeys(MoveAcross(tasks, k, c, order), TaskId) && Distinct(Spliced(tasks, k, c, order))
    ensures Placed(MoveAcross(tasks, k, c, order), c, Spliced(tasks, k, c, order))
  {
    var ids := Keys(ColumnListing(tasks, c), TaskId);
    var n := Min(order, |ids|);
    var target := Spliced(tasks, k, c, order);
    var r := MoveAcross(tasks, k, c, order);
    ListingIdsDistinct(tasks, c);
    NotListed(tasks, c, k);
    InsertAtDistinct(ids, n, tasks[k].id);
    forall a, b | 0 <= a < b < |r| ensures TaskId(r[a]) != TaskId(r[b]) {
      MoveAcrossShape(tasks, k, c, order, a);
      MoveAcrossShape(tasks, k, c, order, b);
    }
    forall j | 0 <= j < |r| && InColumn(c)(r[j])
      ensures r[j].id in target && r[j].order == LastIndex(target, r[j].id)
    {
      MoveAcrossPosition(tasks, k, c, order, j);
    }
  }

  lemma MoveAcrossCovers(tasks: seq<Task>, k: nat, c: Id, order: nat)
    requires UniqueKeys(tasks, TaskId) && k < |tasks| && tasks[k].columnId != c
    ensures Covered(MoveAcross(tasks, k, c, order), c, Spliced(tasks, k, c, order))
  {
    var r := MoveAcross(tasks, k, c, order);
    var target := Spliced(tasks, k, c, order);
    forall i | 0 <= i < |target|
      ensures HasRow(r, target[i], TaskId, InColumn(c))
    {
      var j := MoveAcrossCover(tasks, k, c, order, i);
      assert InColumn(c)(r[j]) && TaskId(r[j]) == target[i];
    }
  }

  /** A column whose rows sit at the last index of their id in `ids`, covering `ids`, lists `ids`. */
  lemma ColumnFollows(r: seq<Task>, c: Id, ids: seq<Id>)
    requires UniqueKeys(r, TaskId) && Distinct(ids)
    requires Placed(r, c, ids) && Covered(r, c, ids)
    ensures |ColumnListing(r, c)| == |ids|
    ensures forall i :: 0 <= i < |ids| ==> ColumnListing(r, c)[i].id == ids[i] && ColumnListing(r, c)[i].order == i
  {
    ListingFollowsIds(r, ids, TaskId, InColumn(c), TaskOrder);
  }

  /** A listing whose ids are `ids`, read as a list of ids. */
  lemma ListedIds(l: seq<Task>, ids: seq<Id>)
    requires |l| == |ids| && forall i :: 0 <= i < |ids| ==> l[i].id == ids[i]
    ensures Keys(l, TaskId) == ids
  {
  }

  lemma MoveAcrossListed(tasks: seq<Task>, k: nat, c: Id, order: nat)
    requires UniqueKeys(tasks, TaskId) && k < |tasks| && tasks[k].columnId != c
    ensures |ColumnListing(MoveAcross(tasks, k, c, order), c)| == |Spliced(tasks, k, c, order)|
    ensures forall i :: 0 <= i < |Spliced(tasks, k, c, order)| ==>
      ColumnListing(MoveAcross(tasks, k, c, order), c)[i].id == Spliced(tasks, k, c, order)[i] &&
      ColumnListing(MoveAcross(tasks, k, c, order), c)[i].order == i
  {
    MoveAcrossFollows(tasks, k, c, order);
    MoveAcrossCovers(tasks, k, c, order);
    ColumnFollows(MoveAcross(tasks, k, c, order), c, Spliced(tasks, k, c, order));
  }

  /**
   * A cross-column move: the target column then lists its former tasks with
   * the moved task spliced in at `min(order, n)`, numbered 0, 1, …, n.
   */
  lemma MoveAcrossListing(tasks: seq<Task>, k: nat, c: Id, order: nat)
    requires UniqueKeys(tasks, TaskId) && k < |tasks| && tasks[k].columnId != c
    ensures
      var ids := Keys(ColumnListing(tasks, c), TaskId);
      var l' := ColumnListing(MoveAcross(tasks, k, c, order), c);
      && Keys(l', TaskId) == InsertAt(ids, Min(order, |ids|), tasks[k].id)
      && forall i :: 0 <= i < |l'| ==> l'[i].order == i
  {
    MoveAcrossListed(tasks, k, c, order);
    ListedIds(ColumnListing(MoveAcross(tasks, k, c, order), c), Spliced(tasks, k, c, order));
  }

  // ---------------------------------------------------------------------
  // The store
  // ---------------------------------------------------------------------

  /** `where: { id: attachmentId, task: { id: taskId } }`. */
  function IsAttachmentOf(attachmentId: Id, taskId: Id): Attachment -> bool {
    (a: Attachment) => a.id == attachmentId && a.taskId == taskId
  }

  /** The stored paths of some attachments. */
  function Paths(atts: seq<Attachment>): set<string> {
    set a | a in atts :: a.path
  }

  /** Renumbering keeps every task's id, so the table's ids and their uniqueness. */
  lemma RenumberedKeepsIds(tasks: seq<Task>, ids: seq<Id>, base: int)
    requires UniqueKeys(tasks, TaskId)
    ensures UniqueKeys(Renumbered(tasks, ids, base), TaskId)
    ensures Keys(Renumbered(tasks, ids, base), TaskId) == Keys(tasks, TaskId)
  {
    TaskOrderLaws();
    ReorderedKeepsIds(tasks, ids, base, TaskId, Everywhere, WithTaskOrder);
  }

  /** An id other than the deleted one survives a delete. */
  lemma IdSurvives(tasks: seq<Task>, id: Id, x: Id)
    requires x in Keys(tasks, TaskId) && x != id
    ensures x in Keys(Filter(tasks, NotTask(id)), TaskId)
  {
    var j :| 0 <= j < |tasks| && Keys(tasks, TaskId)[j] == x;
    var f := Filter(tasks, NotTask(id));
    assert tasks[j] in f;
    var q :| 0 <= q < |f| && f[q] == tasks[j];
    assert Keys(f, TaskId)[q] == x;
  }

  /** `for (const att of atts) try { await fs.unlink(att.path) } catch {}`: every path is gone afterwards. */
  method UnlinkAll(disk: Files.Disk, atts: seq<Attachment>)
    modifies disk
    ensures disk.files == old(disk.files) - Paths(atts)
  {
    for i := 0 to |atts|
      invariant disk.files == old(disk.files) - Paths(atts[..i])
    {
      var _ := disk.Unlink(atts[i].path);
      assert atts[..i + 1] == atts[..i] + [atts[i]];
    }
    assert atts[..|atts|] == atts;
  }

  /** Ids are unique in each table, and every comment and attachment belongs to a stored task. */
  ghost predicate ValidTables(tasks: seq<Task>, comments: seq<Comment>, attachments: seq<Attachment>) {
    && UniqueKeys(tasks, TaskId) && UniqueKeys(comments, CommentId) && UniqueKeys(attachments, AttachmentId)
    && (forall i :: 0 <= i < |comments| ==> comments[i].taskId in Keys(tasks, TaskId))
    && (forall i :: 0 <= i < |attachments| ==> attachments[i].taskId in Keys(tasks, TaskId))
  }

  /** Appending a task under a fresh id keeps the tables valid. */
  lemma AddTaskKeepsValid(tasks: seq<Task>, comments: seq<Comment>, attachments: seq<Attachment>, t: Task)
    requires ValidTables(tasks, comments, attachments)
    requires forall i :: 0 <= i < |tasks| ==> tasks[i].id != t.id
    ensures ValidTables(tasks + [t], comments, attachments)
  {
    assert Keys(tasks + [t], TaskId) == Keys(tasks, TaskId) + [t.id];
    UniqueKeysAppend(tasks, t, TaskId);
  }

  /** Deleting a task together with its comments and attachments keeps the tables valid. */
  lemma DeleteKeepsValid(tasks: seq<Task>, comments: seq<Comment>, attachments: seq<Attachment>, id: Id)
    requires ValidTables(tasks, comments, attachments)
    ensures ValidTables(Filter(tasks, NotTask(id)), Filter(comments, CommentNotOf(id)), Filter(attachments, AttachmentNotOf(id)))
  {
    var tasks' := Filter(tasks, NotTask(id));
    var comments' := Filter(comments, CommentNotOf(id));
    var attachments' := Filter(attachments, AttachmentNotOf(id));
    UniqueKeysSub(tasks, tasks', TaskId);
    UniqueKeysSub(comments, comments', CommentId);
    UniqueKeysSub(attachments, attachments', AttachmentId);
    forall i | 0 <= i < |comments'| ensures comments'[i].taskId in Keys(tasks', TaskId) {
      assert comments'[i] in comments;
      IdSurvives(tasks, id, comments'[i].taskId);
    }
    forall i | 0 <= i < |attachments'| ensures attachments'[i].taskId in Keys(tasks', TaskId) {
      assert attachments'[i] in attachments;
      IdSurvives(tasks, id, attachments'[i].taskId);
    }
  }

  /** Deleting one attachment keeps the tables valid. */
  lemma RemoveAttachmentKeepsValid(tasks: seq<Task>, comments: seq<Comment>, attachments: seq<Attachment>, id: Id)
    requires ValidTables(tasks, comments, attachments)
    ensures ValidTables(tasks, comments, Filter(attachments, NotAttachment(id)))
  {
    var attachments' := Filter(attachments, NotAttachment(id));
    UniqueKeysSub(attachments, attachments', AttachmentId);
    forall i | 0 <= i < |attachments'| ensures attachments'[i].taskId in Keys(tasks, TaskId) {
      assert attachments'[i] in attachments;
    }
  }

  /** The `task`, `taskComment` and `taskAttachment` tables. */
  class TaskStore {
    var tasks: seq<Task>
    var comments: seq<Comment>
    var attachments: seq<Attachment>

    ghost predicate Valid()
      reads this
    {
      ValidTables(tasks, comments, attachments)
    }

    /** The database's choice of a fresh id for each table. */
    predicate UnusedTask(id: Id) reads this { forall i :: 0 <= i < |tasks| ==> tasks[i].id != id }
    predicate UnusedComment(id: Id) reads this { forall i :: 0 <= i < |comments| ==> comments[i].id != id }
    predicate UnusedAttachment(id: Id) reads this { forall i :: 0 <= i < |attachments| ==> attachments[i].id != id }

    constructor ()
      ensures tasks == [] && comments == [] && attachments == [] && Valid()
    {
      tasks, comments, attachments := [], [], [];
    }

    /**
     * `createTask`: a valid body is stored one past the largest order of its
     * column, or at 0 in an empty column; the fields left out are null. A
     * date `new Date` cannot read makes the insert fail (500).
     */
    method CreateTask(p: Id, d: TaskDraft, newId: Id, createdAt: string) returns (r: Result<Task>)
      requires Valid() && UnusedTask(newId)
      modifies this
      ensures Valid()
      ensures comments == old(comments) && attachments == old(attachments)
      ensures !ValidDraft(d) ==> r == Err(Invalid()) && tasks == old(tasks)
      ensures ValidDraft(d) && !DraftDatesReadable(d) ==> r == Err(Failure(Dates.InvalidDate)) && tasks == old(tasks)
      ensures ValidDraft(d) && DraftDatesReadable(d) ==>
        && r == Ok(NewTask(d, newId, p, NextOrder(old(tasks), InColumn(d.columnId.value), TaskOrder), createdAt))
        && tasks == old(tasks) + [r.value]
    {
      if !ValidDraft(d) {
        return Err(Invalid());
      }
      if !DraftDatesReadable(d) {
        return Err(Failure(Dates.InvalidDate));
      }
      var order := NextOrder(tasks, InColumn(d.columnId.value), TaskOrder);
      var task := NewTask(d, newId, p, order, createdAt);
      AddTaskKeepsValid(tasks, comments, attachments, task);
      tasks := tasks + [task];
      r := Ok(task);
    }

    /**
     * `updateTask`: an invalid body is rejected; a date `new Date` cannot
     * read fails the `updateMany` (500) before any row is matched; a task
     * outside the project is "Task non trovato", and otherwise the patch is
     * applied to the task.
     */
    method UpdateTask(p: Id, id: Id, u: TaskPatch) returns (r: Result<Task>)
      requires Valid()
      modifies this
      ensures Valid()
      ensures comments == old(comments) && attachments == old(attachments)
      ensures !ValidPatch(u) ==> r == Err(Invalid()) && tasks == old(tasks)
      ensures ValidPatch(u) && !PatchDatesReadable(u) ==> r == Err(Failure(Dates.InvalidDate)) && tasks == old(tasks)
      ensures ValidPatch(u) && PatchDatesReadable(u) ==>
        match FindIndex(old(tasks), IsTask(p, id))
        case None => r == Err(NotFound(TaskNotFound)) && tasks == old(tasks)
        case Some(k) => tasks == old(tasks)[k := PatchTask(old(tasks)[k], u)] && r == Ok(tasks[k])
    {
      if !ValidPatch(u) {
        return Err(Invalid());
      }
      if !PatchDatesReadable(u) {
        return Err(Failure(Dates.InvalidDate));
      }
      var found := FindIndex(tasks, IsTask(p, id));
      if found.None? {
        return Err(NotFound(TaskNotFound));
      }
      var k := found.value;
      var task := PatchTask(tasks[k], u);
      PatchTaskFields(tasks[k], u);
      assert Keys(tasks[k := task], TaskId) == Keys(tasks, TaskId);
      tasks := tasks[k := task];
      r := Ok(task);
    }

    /**
     * `deleteTask`: a task outside the project is "Task non trovato";
     * otherwise each of its attachment files is unlinked, a failure being
     * ignored, and the task row is deleted; its comments and attachments
     * go with it by the schema's `onDelete: Cascade`.
     */
    method DeleteTask(p: Id, id: Id, disk: Files.Disk) returns (r: Result<()>)
      requires Valid()
      modifies this, disk
      ensures Valid()
      ensures FindIndex(old(tasks), IsTask(p, id)).None? ==>
        && r == Err(NotFound(TaskNotFound))
        && tasks == old(tasks) && comments == old(comments) && attachments == old(attachments)
        && disk.files == old(disk.files)
      ensures FindIndex(old(tasks), IsTask(p, id)).Some? ==>
        && r == Ok(())
        && tasks == Filter(old(tasks), NotTask(id))
        && comments == Filter(old(comments), CommentNotOf(id))
        && attachments == Filter(old(attachments), AttachmentNotOf(id))
        && disk.files == old(disk.files) - Paths(Filter(old(attachments), AttachmentOf(id)))
    {
      if FindIndex(tasks, IsTask(p, id)).None? {
        return Err(NotFound(TaskNotFound));
      }
      UnlinkAll(disk, Filter(attachments, AttachmentOf(id)));
      DeleteKeepsValid(tasks, comments, attachments, id);
      tasks, comments, attachments := Filter(tasks, NotTask(id)), Filter(comments, CommentNotOf(id)),
                                      Filter(attachments, AttachmentNotOf(id));
      r := Ok(());
    }

    /** The writes of one transaction, `ids.map((id, i) => update({ where: { id }, data: { order: base + i } }))`. */
    method Renumber(ids: seq<Id>, base: int)
      requires Valid()
      modifies this
      ensures Valid()
      ensures tasks == Renumbered(old(tasks), ids, base)
      ensures comments == old(comments) && attachments == old(attachments)
    {
      RenumberedKeepsIds(tasks, ids, base);
      tasks := ApplyWrites(tasks, ids, base, TaskId, Everywhere, WithTaskOrder);
    }

    /**
     * `moveTask`: a missing column or a missing or negative order is rejected
     * and a task outside the project is "Task non trovato", with no writes;
     * otherwise the task is moved within its column or into another one, and
     * the moved task is returned.
     */
    method MoveTask(p: Id, id: Id, columnId: Option<Id>, order: Option<int>) returns (r: Result<Task>)
      requires Valid()
      modifies this
      ensures Valid()
      ensures comments == old(comments) && attachments == old(attachments)
      ensures (columnId.None? || order.None? || order.value < 0) ==> r == Err(Invalid()) && tasks == old(tasks)
      ensures columnId.Some? && order.Some? && order.value >= 0 ==>
        match FindIndex(old(tasks), IsTask(p, id))
        case None => r == Err(NotFound(TaskNotFound)) && tasks == old(tasks)
        case Some(k) =>
          && tasks == (if old(tasks)[k].columnId == columnId.value
                       then MoveWithin(old(tasks), id, columnId.value, order.value)
                       else MoveAcross(old(tasks), k, columnId.value, order.value))
          && r == Ok(tasks[k])
    {
      if columnId.None? || order.None? || order.value < 0 {
        return Err(Invalid());
      }
      var c := columnId.value;
      var n: nat := order.value;
      var found := FindIndex(tasks, IsTask(p, id));
      if found.None? {
        return Err(NotFound(TaskNotFound));
      }
      var k := found.value;
      if tasks[k].columnId == c {
        MoveWithinColumn(k, n);
      } else {
        MoveAcrossColumns(k, c, n);
      }
      r := Ok(tasks[k]);
    }

    /** The same-column branch of `moveTask`: splice the column's listing, then write every position. */
    method MoveWithinColumn(k: nat, order: nat)
      requires Valid() && k < |tasks|
      modifies this
      ensures Valid()
      ensures tasks == MoveWithin(old(tasks), old(tasks)[k].id, old(tasks)[k].columnId, order)
      ensures comments == old(comments) && attachments == old(attachments)
    {
      var id, c := tasks[k].id, tasks[k].columnId;
      var l := ColumnListing(tasks, c);
      ListedTask(tasks, k);
      var from := FindIndex(l, HasId(id)).value;
      var to := Min(order, |l| - 1);
      MoveWithinSplice(tasks, id, c, order, from, to);
      if from != to {
        Renumber(Move(Keys(l, TaskId), from, to), 0);
      }
    }

    /**
     * The cross-column branch of `moveTask`, one transaction: shift the
     * target column's tasks from `min(order, n)` on, move the task there,
     * renumber the tasks before it.
     */
    method MoveAcrossColumns(k: nat, c: Id, order: nat)
      requires Valid() && k < |tasks|
      modifies this
      ensures Valid()
      ensures tasks == MoveAcross(old(tasks), k, c, order)
      ensures comments == old(comments) && attachments == old(attachments)
    {
      var ids := Keys(ColumnListing(tasks, c), TaskId);
      var m := Min(order, |ids|);
      Renumber(ids[m..], m + 1);
      var moved := tasks[k].(columnId := c, order := m);
      assert Keys(tasks[k := moved], TaskId) == Keys(tasks, TaskId);
      tasks := tasks[k := moved];
      Renumber(ids[..m], 0);
    }

    /** `addComment`: 1..2000 characters, on a task of the project. */
    method AddComment(p: Id, id: Id, content: Option<string>, newId: Id, createdAt: string) returns (r: Result<Comment>)
      requires Valid() && UnusedComment(newId)
      modifies this
      ensures Valid()
      ensures tasks == old(tasks) && attachments == old(attachments)
      ensures (content.None? || !ValidComment(content.value)) ==> r == Err(Invalid()) && comments == old(comments)
      ensures content.Some? && ValidComment(content.value) ==>
        if FindIndex(old(tasks), IsTask(p, id)).None?
        then r == Err(NotFound(TaskNotFound)) && comments == old(comments)
        else r == Ok(Comment(newId, id, content.value, createdAt)) && comments == old(comments) + [r.value]
    {
      if content.None? || !ValidComment(content.value) {
        return Err(Invalid());
      }
      var found := FindIndex(tasks, IsTask(p, id));
      if found.None? {
        return Err(NotFound(TaskNotFound));
      }
      assert Keys(tasks, TaskId)[found.value] == id;
      var comment := Comment(newId, id, content.value, createdAt);
      comments := comments + [comment];
      r := Ok(comment);
    }

    /**
     * `addAttachment`: no file is "Nessun file caricato", a task outside the
     * project is "Task non trovato"; otherwise the attachment records the
     * client's file name and the path under the uploads directory.
     */
    method AddAttachment(p: Id, id: Id, file: Option<Files.UploadedFile>, uploadsDir: Option<string>,
                         newId: Id, uploadedAt: string) returns (r: Result<Attachment>)
      requires Valid() && UnusedAttachment(newId)
      modifies this
      ensures Valid()
      ensures tasks == old(tasks) && comments == old(comments)
      ensures file.None? ==> r == Err(BadRequest(Files.NoFileUploaded, "VALIDATION_ERROR")) && attachments == old(attachments)
      ensures file.Some? ==>
        if FindIndex(old(tasks), IsTask(p, id)).None?
        then r == Err(NotFound(TaskNotFound)) && attachments == old(attachments)
        else
          && r == Ok(Attachment(newId, id, file.value.originalname, Files.StoredPath(uploadsDir, file.value.filename), uploadedAt))
          && attachments == old(attachments) + [r.value]
    {
      if file.None? {
        return Err(BadRequest(Files.NoFileUploaded, "VALIDATION_ERROR"));
      }
      var found := FindIndex(tasks, IsTask(p, id));
      if found.None? {
        return Err(NotFound(TaskNotFound));
      }
      assert Keys(tasks, TaskId)[found.value] == id;
      var attachment := Attachment(newId, id, file.value.originalname, Files.StoredPath(uploadsDir, file.value.filename), uploadedAt);
      attachments := attachments + [attachment];
      r := Ok(attachment);
    }

    /**
     * `removeAttachment`: the attachment must belong to that task of the
     * project, else "Allegato non trovato"; its file is unlinked, a failure
     * being ignored, and the row deleted.
     */
    method RemoveAttachment(p: Id, taskId: Id, attachmentId: Id, disk: Files.Disk) returns (r: Result<()>)
      requires Valid()
      modifies this, disk
      ensures Valid()
      ensures tasks == old(tasks) && comments == old(comments)
      ensures FindIndex(old(tasks), IsTask(p, taskId)).None? || FindIndex(old(attachments), IsAttachmentOf(attachmentId, taskId)).None? ==>
        r == Err(NotFound(AttachmentNotFound)) && attachments == old(attachments) && disk.files == old(disk.files)
      ensures FindIndex(old(tasks), IsTask(p, taskId)).Some? ==>
        match FindIndex(old(attachments), IsAttachmentOf(attachmentId, taskId))
        case None => true
        case Some(a) =>
          && r == Ok(())
          && attachments == Filter(old(attachments), NotAttachment(attachmentId))
          && disk.files == old(disk.files) - {old(attachments)[a].path}
    {
      var owner := FindIndex(tasks, IsTask(p, taskId));
      var found := FindIndex(attachments, IsAttachmentOf(attachmentId, taskId));
      if owner.None? || found.None? {
        return Err(NotFound(AttachmentNotFound));
      }
      var _ := disk.Unlink(attachments[found.value].path);
      RemoveAttachmentKeepsValid(tasks, comments, attachments, attachmentId);
      attachments := Filter(attachments, NotAttachment(attachmentId));
      r := Ok(());
    }
  }
}
