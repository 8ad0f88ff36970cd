/**
 * The deliverables controller: a project's deliverables, each attached to a
 * phase, a work package or both, ordered within that parent; patched,
 * deleted, and converted into a task on the project's board.
 */
module Deliverables {
  import opened Common
  import opened Seqs
  import opened Ordering
  import opened ErrorHandler
  import Dates
  import Board
  import Projects
  import Phases
  import WorkPackages
  import Tasks

  /** A deliverable; `kind` holds the `type` column (`type` is a reserved word here). */
  datatype Deliverable = Deliverable(
    id: Id, projectId: Id, phaseId: Option<Id>, workPackageId: Option<Id>, kind: string,
    title: string, description: Option<string>, dueDate: Option<Dates.Date>,
    dueDateRelative: Option<string>, sortOrder: int)

  const DeliverableNotFound: string := "Deliverable non trovato"
  const NoColumns: string := "Nessuna colonna sulla board. Aggiungi almeno una colonna (es. Da fare)."

  /** `TYPES`, the values `z.enum(TYPES)` accepts. */
  const Kinds: seq<string> := ["document", "block_diagram", "prototype", "report", "other"]

  function DeliverableId(d: Deliverable): Id { d.id }
  function DeliverableOrder(d: Deliverable): int { d.sortOrder }

  /** `where: { id, projectId }`. */
  function IsDeliverable(p: Id, id: Id): Deliverable -> bool {
    (d: Deliverable) => d.id == id && d.projectId == p
  }

  function NotDeliverable(p: Id, id: Id): Deliverable -> bool {
    (d: Deliverable) => !(d.id == id && d.projectId == p)
  }

  /** `where: { workPackageId }`. */
  function InWorkPackage(w: Id): Deliverable -> bool {
    (d: Deliverable) => d.workPackageId == Some(w)
  }

  /** `where: { phaseId }`. */
  function InPhase(ph: Id): Deliverable -> bool {
    (d: Deliverable) => d.phaseId == Some(ph)
  }

  /** A JavaScript truthiness test on an optional string: present and not empty. */
  predicate Given(s: Option<Id>) { s.Some? && s.value != "" }

  /** The fields of a `createDeliverable` body. */
  datatype DeliverableDraft = DeliverableDraft(
    phaseId: Option<Id>, workPackageId: Option<Id>, kind: Option<string>, title: Option<string>,
    description: Option<string>, dueDate: Option<string>, dueDateRelative: Option<string>)

  /** The fields of an `updateDeliverable` body: all optional, the last three also nullable. */
  datatype DeliverablePatch = DeliverablePatch(
    kind: Option<string>, title: Option<string>, description: Patch<string>,
    dueDate: Patch<string>, dueDateRelative: Patch<string>)

  predicate ValidTitle(s: string) { LengthIn(s, 1, 500) }
  predicate ValidDescription(s: string) { LengthAtMost(s, 2000) }
  predicate ValidRelative(s: string) { LengthAtMost(s, 50) }

  /**
   * `createSchema.parse` succeeds: the field rules, and the refinement that
   * a phase or a work package (or both) is named.
   */
  predicate ValidDraft(d: DeliverableDraft) {
    && d.kind.Some? && d.kind.value in Kinds
    && d.title.Some? && ValidTitle(d.title.value)
    && (d.description.Some? ==> ValidDescription(d.description.value))
    && Dates.IsoDateField(d.dueDate)
    && (d.dueDateRelative.Some? ==> ValidRelative(d.dueDateRelative.value))
    && (Given(d.phaseId) || Given(d.workPackageId))
  }

  predicate ValidPatch(u: DeliverablePatch) {
    && (u.kind.Some? ==> u.kind.value in Kinds)
    && (u.title.Some? ==> ValidTitle(u.title.value))
    && (u.description.Value? ==> ValidDescription(u.description.value))
    && (u.dueDate.Value? ==> IsIsoDateString(u.dueDate.value))
    && (u.dueDateRelative.Value? ==> ValidRelative(u.dueDateRelative.value))
  }

  /** Both parents may be named at once: the refinement asks for one or more, not exactly one. */
  lemma BothParentsAccepted()
    ensures ValidDraft(DeliverableDraft(Some("ph"), Some("wp"), Some("report"), Some("T"), None, None, None))
    ensures !ValidDraft(DeliverableDraft(Some(""), None, Some("report"), Some("T"), None, None, None))
  {
  }

  /** The deliverables a new one is ordered among: its work package's when it names one, else its phase's. */
  function SiblingScope(d: DeliverableDraft): Deliverable -> bool
    requires Given(d.phaseId) || Given(d.workPackageId)
  {
    if Given(d.workPackageId) then InWorkPackage(d.workPackageId.value) else InPhase(d.phaseId.value)
  }

  /** The row `createDeliverable` inserts; absent optional fields are stored as null. */
  function NewDeliverable(d: DeliverableDraft, id: Id, p: Id, order: int): (r: Deliverable)
    requires ValidDraft(d)
    ensures r.id == id && r.projectId == p && r.sortOrder == order
    ensures r.phaseId == d.phaseId && r.workPackageId == d.workPackageId
    ensures r.kind == d.kind.value && r.kind in Kinds && r.title == d.title.value
    ensures r.description == d.description && r.dueDateRelative == d.dueDateRelative
    ensures r.dueDate.Some? <==> d.dueDate.Some?
  {
    Deliverable(id, p, d.phaseId, d.workPackageId, d.kind.value, d.title.value, d.description,
                Dates.StoredDate(d.dueDate), d.dueDateRelative, order)
  }

  /** The `data` record of `updateDeliverable`, applied to the row. */
  function PatchDeliverable(x: Deliverable, u: DeliverablePatch): Deliverable
    requires ValidPatch(u)
  {
    x.(kind := Kept(u.kind, x.kind),
       title := Kept(u.title, x.title),
       description := Patched(u.description, x.description),
       dueDate := Dates.PatchedDate(u.dueDate, x.dueDate),
       dueDateRelative := Patched(u.dueDateRelative, x.dueDateRelative))
  }

  /**
   * `updateDeliverable` changes only the fields provided: the parents, the
   * project and the sort order never change; `null` clears a nullable field.
   */
  lemma PatchDeliverableFields(x: Deliverable, u: DeliverablePatch)
    requires ValidPatch(u)
    ensures var r := PatchDeliverable(x, u);
      && r.id == x.id && r.projectId == x.projectId && r.sortOrder == x.sortOrder
      && r.phaseId == x.phaseId && r.workPackageId == x.workPackageId
      && (u.kind.None? ==> r.kind == x.kind) && (u.kind.Some? ==> r.kind == u.kind.value)
      && (u.title.None? ==> r.title == x.title) && (u.title.Some? ==> r.title == u.title.value)
      && (u.description.Absent? ==> r.description == x.description)
      && (u.description.Null? ==> r.description.None?)
      && (u.dueDate.Absent? ==> r.dueDate == x.dueDate) && (u.dueDate.Null? ==> r.dueDate.None?)
      && (u.dueDateRelative.Absent? ==> r.dueDateRelative == x.dueDateRelative)
      && (u.dueDateRelative.Null? ==> r.dueDateRelative.None?)
      && (x.kind in Kinds ==> r.kind in Kinds)
  {
  }

  /**
   * `boardColumn.findFirst({ where: { projectId }, orderBy: { order: "asc" } })`:
   * the project's column with the lowest order (the first in table order on a tie).
   */
  function FirstColumn(columns: seq<Board.Column>, p: Id): Option<Board.Column> {
    var l := Listing(columns, Board.InProject(p), Board.ColumnOrder);
    if l == [] then None else Some(l[0])
  }

  /** The first column is absent exactly when the project has none, and otherwise is one of lowest order. */
  lemma FirstColumnLowest(columns: seq<Board.Column>, p: Id)
    ensures FirstColumn(columns, p).None? <==> forall i :: 0 <= i < |columns| ==> columns[i].projectId != p
    ensures FirstColumn(columns, p).Some? ==>
      && FirstColumn(columns, p).value in columns && FirstColumn(columns, p).value.projectId == p
      && forall i :: 0 <= i < |columns| && columns[i].projectId == p ==>
           FirstColumn(columns, p).value.order <= columns[i].order
  {
    var l := Listing(columns, Board.InProject(p), Board.ColumnOrder);
    forall i | 0 <= i < |columns| && columns[i].projectId == p ensures l != [] && l[0].order <= columns[i].order {
      ListingHeadLowest(columns, Board.InProject(p), Board.ColumnOrder, i);
    }
    if l != [] {
      ListedRowInScope(columns, Board.InProject(p), Board.ColumnOrder, 0);
    }
  }

  /** The task `convertDeliverableToTask` creates: the deliverable's fields, no start date. */
  function ConvertedTask(x: Deliverable, id: Id, columnId: Id, order: int, createdAt: string): (t: Tasks.Task)
    ensures t.id == id && t.projectId == x.projectId && t.columnId == columnId && t.order == order
    ensures t.title == x.title && t.description == x.description && t.dueDate == x.dueDate
    ensures t.phaseId == x.phaseId && t.workPackageId == x.workPackageId && t.startDate.None?
  {
    Tasks.Task(id, x.projectId, columnId, x.title, x.description, order, None, x.dueDate,
               x.phaseId, x.workPackageId, createdAt)
  }

  /** The `projectDeliverable` table; the other tables it reads are passed in by the caller. */
  class DeliverableStore {
    var deliverables: seq<Deliverable>

    ghost predicate Valid()
      reads this
    {
      UniqueKeys(deliverables, DeliverableId)
    }

    predicate Unused(id: Id)
      reads this
    {
      forall i :: 0 <= i < |deliverables| ==> deliverables[i].id != id
    }

    constructor ()
      ensures deliverables == [] && Valid()
    {
      deliverables := [];
    }

    /**
     * `createDeliverable`, whose checks run in this order: the body, then the
     * project (404), then a named phase and a named work package, each of
     * which must belong to the project (400); a due date `new Date` cannot
     * read then fails the insert (500). The new row goes one past the
     * largest sort order among its siblings.
     */
    method CreateDeliverable(
      projects: seq<Projects.Project>, phases: seq<Phases.Phase>, workPackages: seq<WorkPackages.WorkPackage>,
      p: Id, d: DeliverableDraft, newId: Id) returns (r: Result<Deliverable>)
      requires Valid() && Unused(newId)
      modifies this
      ensures Valid()
      ensures r.Err? ==> deliverables == old(deliverables)
      ensures !ValidDraft(d) ==> r == Err(Invalid())
      ensures ValidDraft(d) && FindIndex(projects, Projects.HasId(p)).None? ==>
        r == Err(NotFound(Projects.ProjectNotFound))
      ensures ValidDraft(d) && FindIndex(projects, Projects.HasId(p)).Some? ==>
        if Given(d.phaseId) && FindIndex(phases, Phases.IsPhase(p, d.phaseId.value)).None? then
          r == Err(BadRequest(Phases.PhaseNotFound, "NOT_FOUND"))
        else if Given(d.workPackageId) && FindIndex(workPackages, WorkPackages.IsWorkPackage(p, d.workPackageId.value)).None? then
          r == Err(BadRequest(WorkPackages.WorkPackageNotFound, "NOT_FOUND"))
        else if !Dates.StoredDateOk(d.dueDate) then
          r == Err(Failure(Dates.InvalidDate))
        else
          && r == Ok(NewDeliverable(d, newId, p, NextOrder(old(deliverables), SiblingScope(d), DeliverableOrder)))
          && deliverables == old(deliverables) + [r.value]
    {
      if !ValidDraft(d) {
        return Err(Invalid());
      }
      if FindIndex(projects, Projects.HasId(p)).None? {
        return Err(NotFound(Projects.ProjectNotFound));
      }
      if Given(d.phaseId) && FindIndex(phases, Phases.IsPhase(p, d.phaseId.value)).None? {
        return Err(BadRequest(Phases.PhaseNotFound, "NOT_FOUND"));
      }
      if Given(d.workPackageId) && FindIndex(workPackages, WorkPackages.IsWorkPackage(p, d.workPackageId.value)).None? {
        return Err(BadRequest(WorkPackages.WorkPackageNotFound, "NOT_FOUND"));
      }
      if !Dates.StoredDateOk(d.dueDate) {
        return Err(Failure(Dates.InvalidDate));
      }
      var x := NewDeliverable(d, newId, p, NextOrder(deliverables, SiblingScope(d), DeliverableOrder));
      UniqueKeysAppend(deliverables, x, DeliverableId);
      deliverables := deliverables + [x];
      r := Ok(x);
    }

    /**
     * `updateDeliverable`: a deliverable outside the project is "Deliverable
     * non trovato"; otherwise a due date `new Date` cannot read fails the
     * update (500), and any other patch is applied.
     */
    method UpdateDeliverable(p: Id, id: Id, u: DeliverablePatch) returns (r: Result<Deliverable>)
      requires Valid()
      modifies this
      ensures Valid()
      ensures !ValidPatch(u) ==> r == Err(Invalid()) && deliverables == old(deliverables)
      ensures ValidPatch(u) ==>
        match FindIndex(old(deliverables), IsDeliverable(p, id))
        case None => r == Err(NotFound(DeliverableNotFound)) && deliverables == old(deliverables)
        case Some(k) =>
          if !Dates.PatchedDateOk(u.dueDate) then r == Err(Failure(Dates.InvalidDate)) && deliverables == old(deliverables)
          else deliverables == old(deliverables)[k := PatchDeliverable(old(deliverables)[k], u)] && r == Ok(deliverables[k])
    {
      if !ValidPatch(u) {
        return Err(Invalid());
      }
      var found := FindIndex(deliverables, IsDeliverable(p, id));
      if found.None? {
        return Err(NotFound(DeliverableNotFound));
      }
      if !Dates.PatchedDateOk(u.dueDate) {
        return Err(Failure(Dates.InvalidDate));
      }
      var k := found.value;
      var x := PatchDeliverable(deliverables[k], u);
      assert forall i :: 0 <= i < |deliverables| ==> deliverables[k := x][i].id == deliverables[i].id;
      deliverables := deliverables[k := x];
      r := Ok(x);
    }

    /** `deleteDeliverable`: a deliverable outside the project is "Deliverable non trovato"; otherwise it is removed. */
    method DeleteDeliverable(p: Id, id: Id) returns (r: Result<()>)
      requires Valid()
      modifies this
      ensures Valid()
      ensures FindIndex(old(deliverables), IsDeliverable(p, id)).None? ==>
        r == Err(NotFound(DeliverableNotFound)) && deliverables == old(deliverables)
      ensures FindIndex(old(deliverables), IsDeliverable(p, id)).Some? ==>
        r == Ok(()) && deliverables == Filter(old(deliverables), NotDeliverable(p, id))
    {
      if FindIndex(deliverables, IsDeliverable(p, id)).None? {
        return Err(NotFound(DeliverableNotFound));
      }
      UniqueKeysSub(deliverables, Filter(deliverables, NotDeliverable(p, id)), DeliverableId);
      deliverables := Filter(deliverables, NotDeliverable(p, id));
      r := Ok(());
    }

    /**
     * `convertDeliverableToTask`: the deliverable must be in the project
     * (404) and the project must have a column (400); the task goes at the
     * end of the lowest-order column. The deliverable itself is not touched.
     */
    method ConvertDeliverableToTask(columns: seq<Board.Column>, taskStore: Tasks.TaskStore, p: Id, id: Id,
                                    newTaskId: Id, createdAt: string) returns (r: Result<Tasks.Task>)
      requires taskStore.Valid() && taskStore.UnusedTask(newTaskId)
      modifies taskStore
      ensures taskStore.Valid()
      ensures taskStore.comments == old(taskStore.comments) && taskStore.attachments == old(taskStore.attachments)
      ensures r.Err? ==> taskStore.tasks == old(taskStore.tasks)
      ensures FindIndex(deliverables, IsDeliverable(p, id)).None? ==> r == Err(NotFound(DeliverableNotFound))
      ensures FindIndex(deliverables, IsDeliverable(p, id)).Some? ==>
        if FirstColumn(columns, p).None? then r == Err(BadRequest(NoColumns, "VALIDATION_ERROR"))
        else
          var c := FirstColumn(columns, p).value;
          && r == Ok(ConvertedTask(deliverables[FindIndex(deliverables, IsDeliverable(p, id)).value], newTaskId, c.id,
                                   NextOrder(old(taskStore.tasks), Tasks.InColumn(c.id), Tasks.TaskOrder), createdAt))
          && taskStore.tasks == old(taskStore.tasks) + [r.value]
    {
      var found := FindIndex(deliverables, IsDeliverable(p, id));
      if found.None? {
        return Err(NotFound(DeliverableNotFound));
      }
      var first := FirstColumn(columns, p);
      if first.None? {
        return Err(BadRequest(NoColumns, "VALIDATION_ERROR"));
      }
      var c := first.value;
      var order := NextOrder(taskStore.tasks, Tasks.InColumn(c.id), Tasks.TaskOrder);
      var t := ConvertedTask(deliverables[found.value], newTaskId, c.id, order, createdAt);
      Tasks.AddTaskKeepsValid(taskStore.tasks, taskStore.comments, taskStore.attachments, t);
      taskStore.tasks := taskStore.tasks + [t];
      r := Ok(t);
    }
  }
}
