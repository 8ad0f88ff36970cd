/**
 * The work-packages controller: a project's work packages, each optionally
 * attached to one of the project's phases, kept in one project-wide
 * `sortOrder` sequence; created at the end, patched, deleted and reordered.
 * A phase id sent in a body must name a phase of the same project.
 */
module WorkPackages {
  import opened Common
  import opened Seqs
  import opened Ordering
  import opened ErrorHandler
  import Phases

  datatype WorkPackage = WorkPackage(id: Id, projectId: Id, name: string, phaseId: Option<Id>, sortOrder: int)

  const WorkPackageNotFound: string := "Work package non trovato"

  function WorkPackageId(w: WorkPackage): Id { w.id }
  function WorkPackageOrder(w: WorkPackage): int { w.sortOrder }
  function WithWorkPackageOrder(w: WorkPackage, n: int): WorkPackage { w.(sortOrder := n) }

  /** `where: { projectId }`. */
  function InProject(p: Id): WorkPackage -> bool {
    (w: WorkPackage) => w.projectId == p
  }

  /** `where: { id, projectId }`. */
  function IsWorkPackage(p: Id, id: Id): WorkPackage -> bool {
    (w: WorkPackage) => w.id == id && w.projectId == p
  }

  /** Every work package but the one `{ id, projectId }` selects. */
  function NotWorkPackage(p: Id, id: Id): WorkPackage -> bool {
    (w: WorkPackage) => !(w.id == id && w.projectId == p)
  }

  /** `prisma.projectPhase.findFirst({ where: { id, projectId } })` finds a row. */
  predicate PhaseOfProject(phases: seq<Phases.Phase>, p: Id, phaseId: Id) {
    FindIndex(phases, Phases.IsPhase(p, phaseId)).Some?
  }

  /** The 400 "Fase non trovata" (code `NOT_FOUND`) a foreign phase id draws. */
  function PhaseRejected(): Error {
    BadRequest(Phases.PhaseNotFound, "NOT_FOUND")
  }

  /**
   * A stored phase reference is sound when it is null or names a phase of
   * the work package's own project. The empty string, which JavaScript
   * treats as false, skips the lookup on create and is let through.
   */
  predicate PhaseLinked(phases: seq<Phases.Phase>, w: WorkPackage) {
    w.phaseId.None? || w.phaseId.value == "" || PhaseOfProject(phases, w.projectId, w.phaseId.value)
  }

  /** The fields of a `createWorkPackage` body. */
  datatype WorkPackageDraft = WorkPackageDraft(name: Option<string>, phaseId: Option<Id>)

  /** The fields of an `updateWorkPackage` body: all optional, the phase also nullable. */
  datatype WorkPackagePatch = WorkPackagePatch(name: Option<string>, phaseId: Patch<Id>, sortOrder: Option<int>)

  /** `z.string().min(1).max(200)`. */
  predicate ValidName(s: string) { LengthIn(s, 1, 200) }

  predicate ValidDraft(d: WorkPackageDraft) {
    d.name.Some? && ValidName(d.name.value)
  }

  predicate ValidPatch(u: WorkPackagePatch) {
    && (u.name.Some? ==> ValidName(u.name.value))
    && (u.sortOrder.Some? ==> u.sortOrder.value >= 0)
  }

  /** `if (body.phaseId)`: present and not the empty string. */
  predicate NamesPhase(phaseId: Option<Id>) {
    phaseId.Some? && phaseId.value != ""
  }

  /** The phase value an update writes: a non-empty id as it is, `null` or `""` as null. */
  function PatchedPhase(u: Patch<Id>, current: Option<Id>): (r: Option<Id>)
    ensures u.Absent? ==> r == current
    ensures (u.Null? || u == Value("")) ==> r.None?
    ensures u.Value? && u.value != "" ==> r == Some(u.value)
  {
    match u
    case Absent => current
    case Null => None
    case Value(id) => if id == "" then None else Some(id)
  }

  /** The `data` record of `updateWorkPackage`, applied to the row. */
  function PatchWorkPackage(w: WorkPackage, u: WorkPackagePatch): WorkPackage {
    w.(name := Kept(u.name, w.name),
       sortOrder := Kept(u.sortOrder, w.sortOrder),
       phaseId := PatchedPhase(u.phaseId, w.phaseId))
  }

  /**
   * An update that passed the phase check keeps the phase reference sound:
   * it either leaves it, clears it, or points it at a phase of the project.
   */
  lemma PatchKeepsPhaseLinked(phases: seq<Phases.Phase>, w: WorkPackage, u: WorkPackagePatch)
    requires PhaseLinked(phases, w)
    requires u.phaseId.Value? && u.phaseId.value != "" ==> PhaseOfProject(phases, w.projectId, u.phaseId.value)
    ensures PhaseLinked(phases, PatchWorkPackage(w, u))
    ensures PatchWorkPackage(w, u).id == w.id && PatchWorkPackage(w, u).projectId == w.projectId
  {
  }

  lemma WorkPackageOrderLaws(p: Id)
    ensures OrderSetter(WorkPackageId, InProject(p), WithWorkPackageOrder)
    ensures ReadsBack(WorkPackageOrder, WithWorkPackageOrder)
  {
  }

  /**
   * The effect of `reorderWorkPackages` on one row: a work package of the
   * project whose id is listed gets the (last) index of its id; any other
   * row is unchanged, and the phase reference is never touched.
   */
  lemma ReorderedWorkPackage(wps: seq<WorkPackage>, p: Id, ids: seq<Id>, k: nat)
    requires k < |wps|
    ensures Reordered(wps, ids, 0, WorkPackageId, InProject(p), WithWorkPackageOrder)[k]
         == if wps[k].projectId == p && wps[k].id in ids
            then wps[k].(sortOrder := LastIndex(ids, wps[k].id))
            else wps[k]
  {
    WorkPackageOrderLaws(p);
    ReorderedRow(wps, ids, 0, WorkPackageId, InProject(p), WithWorkPackageOrder, k);
  }

  /** A permutation of the project's work-package ids reads back in list order, numbered from 0. */
  lemma ReorderWorkPackagesReadsBack(wps: seq<WorkPackage>, p: Id, ids: seq<Id>)
    requires UniqueKeys(wps, WorkPackageId) && PermutesScope(wps, ids, WorkPackageId, InProject(p))
    ensures |Listing(Reordered(wps, ids, 0, WorkPackageId, InProject(p), WithWorkPackageOrder), InProject(p), WorkPackageOrder)| == |ids|
    ensures forall i :: 0 <= i < |ids| ==>
      Listing(Reordered(wps, ids, 0, WorkPackageId, InProject(p), WithWorkPackageOrder), InProject(p), WorkPackageOrder)[i].id == ids[i] &&
      Listing(Reordered(wps, ids, 0, WorkPackageId, InProject(p), WithWorkPackageOrder), InProject(p), WorkPackageOrder)[i].sortOrder == i
  {
    WorkPackageOrderLaws(p);
    ReorderThenListing(wps, ids, WorkPackageId, InProject(p), WorkPackageOrder, WithWorkPackageOrder);
  }

  /** The `workPackage` table; the phases it checks against are passed in by the caller. */
  class WorkPackageStore {
    var workPackages: seq<WorkPackage>

    ghost predicate Valid()
      reads this
    {
      UniqueKeys(workPackages, WorkPackageId)
    }

    predicate Unused(id: Id)
      reads this
    {
      forall i :: 0 <= i < |workPackages| ==> workPackages[i].id != id
    }

    constructor ()
      ensures workPackages == [] && Valid()
    {
      workPackages := [];
    }

    /** `listWorkPackages`: exactly the project's work packages, by ascending sort order. */
    function ListWorkPackages(p: Id): (r: seq<WorkPackage>)
      reads this
      ensures forall w :: w in r ==> w in workPackages && w.projectId == p
      ensures forall i :: 0 <= i < |workPackages| && workPackages[i].projectId == p ==> workPackages[i] in r
      ensures |r| == Count(workPackages, InProject(p))
      ensures Sorted(r, ByKey(WorkPackageOrder))
    {
      var r := Listing(workPackages, InProject(p), WorkPackageOrder);
      assert forall w :: w in r ==> w in multiset(Filter(workPackages, InProject(p)));
      assert forall i :: 0 <= i < |workPackages| && workPackages[i].projectId == p ==>
        workPackages[i] in multiset(Filter(workPackages, InProject(p)));
      r
    }

    /**
     * `createWorkPackage`: an invalid body is rejected; a non-empty phase id
     * must name a phase of the project (400 "Fase non trovata"); the new row
     * goes one past the project's largest sort order.
     */
    method CreateWorkPackage(phases: seq<Phases.Phase>, p: Id, d: WorkPackageDraft, newId: Id)
      returns (r: Result<WorkPackage>)
      requires Valid() && Unused(newId)
      modifies this
      ensures Valid()
      ensures !ValidDraft(d) ==> r == Err(Invalid()) && workPackages == old(workPackages)
      ensures ValidDraft(d) && NamesPhase(d.phaseId) && !PhaseOfProject(phases, p, d.phaseId.value) ==>
        r == Err(PhaseRejected()) && workPackages == old(workPackages)
      ensures ValidDraft(d) && (NamesPhase(d.phaseId) ==> PhaseOfProject(phases, p, d.phaseId.value)) ==>
        && r == Ok(WorkPackage(newId, p, d.name.value, d.phaseId,
                               NextOrder(old(workPackages), InProject(p), WorkPackageOrder)))
        && workPackages == old(workPackages) + [r.value]
      ensures r.Ok? ==> PhaseLinked(phases, r.value)
    {
      if !ValidDraft(d) {
        return Err(Invalid());
      }
      if NamesPhase(d.phaseId) && !PhaseOfProject(phases, p, d.phaseId.value) {
        return Err(PhaseRejected());
      }
      var w := WorkPackage(newId, p, d.name.value, d.phaseId, NextOrder(workPackages, InProject(p), WorkPackageOrder));
      workPackages := workPackages + [w];
      r := Ok(w);
    }

    /**
     * `updateWorkPackage`: the body is validated, then a non-empty phase id
     * is checked against the project's phases; a sort order past the `Int`
     * column then fails the `updateMany` (500), and only then is the row
     * looked up ("Work package non trovato").
     */
    method UpdateWorkPackage(phases: seq<Phases.Phase>, p: Id, id: Id, u: WorkPackagePatch)
      returns (r: Result<WorkPackage>)
      requires Valid()
      modifies this
      ensures Valid()
      ensures !ValidPatch(u) ==> r == Err(Invalid()) && workPackages == old(workPackages)
      ensures ValidPatch(u) && u.phaseId.Value? && u.phaseId.value != "" && !PhaseOfProject(phases, p, u.phaseId.value) ==>
        r == Err(PhaseRejected()) && workPackages == old(workPackages)
      ensures && ValidPatch(u) && (u.phaseId.Value? && u.phaseId.value != "" ==> PhaseOfProject(phases, p, u.phaseId.value))
              && !Phases.SortOrderFits(u.sortOrder)
        ==> r == Err(Failure(IntOutOfRange)) && workPackages == old(workPackages)
      ensures && ValidPatch(u) && (u.phaseId.Value? && u.phaseId.value != "" ==> PhaseOfProject(phases, p, u.phaseId.value))
              && Phases.SortOrderFits(u.sortOrder)
        ==>
        match FindIndex(old(workPackages), IsWorkPackage(p, id))
        case None => r == Err(NotFound(WorkPackageNotFound)) && workPackages == old(workPackages)
        case Some(k) =>
          && workPackages == old(workPackages)[k := PatchWorkPackage(old(workPackages)[k], u)]
          && r == Ok(workPackages[k])
          && (PhaseLinked(phases, old(workPackages)[k]) ==> PhaseLinked(phases, workPackages[k]))
    {
      if !ValidPatch(u) {
        return Err(Invalid());
      }
      if u.phaseId.Value? && u.phaseId.value != "" && !PhaseOfProject(phases, p, u.phaseId.value) {
        return Err(PhaseRejected());
      }
      if !Phases.SortOrderFits(u.sortOrder) {
        return Err(Failure(IntOutOfRange));
      }
      var found := FindIndex(workPackages, IsWorkPackage(p, id));
      if found.None? {
        return Err(NotFound(WorkPackageNotFound));
      }
      var k := found.value;
      if PhaseLinked(phases, workPackages[k]) {
        PatchKeepsPhaseLinked(phases, workPackages[k], u);
      }
      var w := PatchWorkPackage(workPackages[k], u);
      workPackages := workPackages[k := w];
      r := Ok(w);
    }

    /** `deleteWorkPackage`: a row outside the project is "Work package non trovato"; otherwise it is removed. */
    method DeleteWorkPackage(p: Id, id: Id) returns (r: Result<()>)
      requires Valid()
      modifies this
      ensures Valid()
      ensures FindIndex(old(workPackages), IsWorkPackage(p, id)).None? ==>
        r == Err(NotFound(WorkPackageNotFound)) && workPackages == old(workPackages)
      ensures FindIndex(old(workPackages), IsWorkPackage(p, id)).Some? ==>
        r == Ok(()) && workPackages == Filter(old(workPackages), NotWorkPackage(p, id))
    {
      if FindIndex(workPackages, IsWorkPackage(p, id)).None? {
        return Err(NotFound(WorkPackageNotFound));
      }
      UniqueKeysSub(workPackages, Filter(workPackages, NotWorkPackage(p, id)), WorkPackageId);
      workPackages := Filter(workPackages, NotWorkPackage(p, id));
      r := Ok(());
    }

    /** `reorderWorkPackages`: each listed id's index is written to its row in the project, then the project is listed. */
    method ReorderWorkPackages(p: Id, workPackageIds: Option<seq<Id>>) returns (r: Result<seq<WorkPackage>>)
      requires Valid()
      modifies this
      ensures Valid()
      ensures workPackageIds.None? ==> r == Err(Invalid()) && workPackages == old(workPackages)
      ensures workPackageIds.Some? ==>
        && workPackages == Reordered(old(workPackages), workPackageIds.value, 0, WorkPackageId, InProject(p), WithWorkPackageOrder)
        && r == Ok(ListWorkPackages(p))
    {
      if workPackageIds.None? {
        return Err(Invalid());
      }
      WorkPackageOrderLaws(p);
      ReorderedKeepsIds(workPackages, workPackageIds.value, 0, WorkPackageId, InProject(p), WithWorkPackageOrder);
      workPackages := ApplyWrites(workPackages, workPackageIds.value, 0, WorkPackageId, InProject(p), WithWorkPackageOrder);
      r := Ok(ListWorkPackages(p));
    }
  }
}
