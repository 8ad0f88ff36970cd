/**
 * The phases controller: a project's phases, each with an optional date
 * range and an integer `sortOrder`; appended at the end of the project,
 * patched field by field, deleted and reordered by a list of ids, every
 * write matched on the phase id together with the project id.
 */
module Phases {
  import opened Common
  import opened Seqs
  import opened Ordering
  import opened ErrorHandler
  import Dates

  datatype Phase = Phase(
    id: Id, projectId: Id, name: string, sortOrder: int,
    startDate: Option<Dates.Date>, endDate: Option<Dates.Date>)

  const PhaseNotFound: string := "Fase non trovata"

  function PhaseId(ph: Phase): Id { ph.id }
  function PhaseOrder(ph: Phase): int { ph.sortOrder }
  function WithPhaseOrder(ph: Phase, n: int): Phase { ph.(sortOrder := n) }

  /** `where: { projectId }`. */
  function InProject(p: Id): Phase -> bool {
    (ph: Phase) => ph.projectId == p
  }

  /** `where: { id, projectId }`. */
  function IsPhase(p: Id, id: Id): Phase -> bool {
    (ph: Phase) => ph.id == id && ph.projectId == p
  }

  /** Every phase but the one `{ id, projectId }` selects. */
  function NotPhase(p: Id, id: Id): Phase -> bool {
    (ph: Phase) => !(ph.id == id && ph.projectId == p)
  }

  /** The fields of a `createPhase` body; `None` is a field left out. */
  datatype PhaseDraft = PhaseDraft(name: Option<string>, startDate: Option<string>, endDate: Option<string>)

  /** The fields of an `updatePhase` body: all optional, the dates also nullable. */
  datatype PhasePatch = PhasePatch(
    name: Option<string>, startDate: Patch<string>, endDate: Patch<string>, sortOrder: Option<int>)

  /** `z.string().min(1).max(200)`. */
  predicate ValidName(s: string) { LengthIn(s, 1, 200) }

  /** `createSchema.parse` succeeds. */
  predicate ValidDraft(d: PhaseDraft) {
    && d.name.Some? && ValidName(d.name.value)
    && Dates.IsoDateField(d.startDate) && Dates.IsoDateField(d.endDate)
  }

  /** `updateSchema.parse` succeeds; a sort order, when sent, is an integer of at least 0. */
  predicate ValidPatch(u: PhasePatch) {
    && (u.name.Some? ==> ValidName(u.name.value))
    && (u.startDate.Value? ==> IsIsoDateString(u.startDate.value))
    && (u.endDate.Value? ==> IsIsoDateString(u.endDate.value))
    && (u.sortOrder.Some? ==> u.sortOrder.value >= 0)
  }

  /** The dates of a parsed `createPhase` body are ones `new Date` reads; otherwise the insert fails. */
  predicate DraftDatesReadable(d: PhaseDraft)
    requires ValidDraft(d)
  {
    Dates.StoredDateOk(d.startDate) && Dates.StoredDateOk(d.endDate)
  }

  /** The dates of a parsed `updatePhase` body are ones `new Date` reads. */
  predicate PatchDatesReadable(u: PhasePatch)
    requires ValidPatch(u)
  {
    Dates.PatchedDateOk(u.startDate) && Dates.PatchedDateOk(u.endDate)
  }

  /** A sort order sent fits the `Int` column. */
  predicate SortOrderFits(order: Option<int>) {
    order.Some? ==> order.value <= MaxInt
  }

  /** The row `createPhase` inserts: absent dates are stored as null. */
  function NewPhase(d: PhaseDraft, id: Id, p: Id, order: int): (ph: Phase)
    requires ValidDraft(d)
    ensures ph.id == id && ph.projectId == p && ph.name == d.name.value && ph.sortOrder == order
    ensures ph.startDate.None? <==> d.startDate.None?
    ensures ph.endDate.None? <==> d.endDate.None?
  {
    Phase(id, p, d.name.value, order, Dates.StoredDate(d.startDate), Dates.StoredDate(d.endDate))
  }

  /** The `data` record of `updatePhase`, applied to the row. */
  function PatchPhase(ph: Phase, u: PhasePatch): Phase
    requires ValidPatch(u)
  {
    ph.(name := Kept(u.name, ph.name),
        sortOrder := Kept(u.sortOrder, ph.sortOrder),
        startDate := Dates.PatchedDate(u.startDate, ph.startDate),
        endDate := Dates.PatchedDate(u.endDate, ph.endDate))
  }

  /**
   * `updatePhase` changes only the fields provided: the id and the project
   * never change, a sort order sent is written as it is (no other phase is
   * renumbered), and `null` clears a date.
   */
  lemma PatchPhaseFields(ph: Phase, u: PhasePatch)
    requires ValidPatch(u)
    ensures var r := PatchPhase(ph, u);
      && r.id == ph.id && r.projectId == ph.projectId
      && (u.name.None? ==> r.name == ph.name) && (u.name.Some? ==> r.name == u.name.value)
      && (u.sortOrder.None? ==> r.sortOrder == ph.sortOrder)
      && (u.sortOrder.Some? ==> r.sortOrder == u.sortOrder.value && r.sortOrder >= 0)
      && (u.startDate.Absent? ==> r.startDate == ph.startDate) && (u.startDate.Null? ==> r.startDate.None?)
      && (u.startDate.Value? ==> r.startDate == Some(Dates.IsoDate(u.startDate.value)))
      && (u.endDate.Absent? ==> r.endDate == ph.endDate) && (u.endDate.Null? ==> r.endDate.None?)
      && (u.endDate.Value? ==> r.endDate == Some(Dates.IsoDate(u.endDate.value)))
  {
  }

  /** Applying the same update twice is applying it once, and an empty body changes nothing. */
  lemma PatchPhaseIdempotent(ph: Phase, u: PhasePatch)
    requires ValidPatch(u)
    ensures PatchPhase(PatchPhase(ph, u), u) == PatchPhase(ph, u)
    ensures u == PhasePatch(None, Absent, Absent, None) ==> PatchPhase(ph, u) == ph
  {
  }

  /** Writing a phase's sort order touches neither its id nor its project. */
  lemma PhaseOrderLaws(p: Id)
    ensures OrderSetter(PhaseId, InProject(p), WithPhaseOrder)
    ensures ReadsBack(PhaseOrder, WithPhaseOrder)
  {
  }

  /**
   * The effect of `reorderPhases` on one phase: a phase of the project whose
   * id is listed gets the (last) index of its id; a phase of another project,
   * or one not listed, is unchanged.
   */
  lemma ReorderedPhase(phases: seq<Phase>, p: Id, ids: seq<Id>, k: nat)
    requires k < |phases|
    ensures Reordered(phases, ids, 0, PhaseId, InProject(p), WithPhaseOrder)[k]
         == if phases[k].projectId == p && phases[k].id in ids
            then phases[k].(sortOrder := LastIndex(ids, phases[k].id))
            else phases[k]
  {
    PhaseOrderLaws(p);
    ReorderedRow(phases, ids, 0, PhaseId, InProject(p), WithPhaseOrder, k);
  }

  /**
   * Reordering with a permutation of all the project's phase ids numbers them
   * 0, 1, …, n - 1, and listing them afterwards returns them in list order.
   */
  lemma ReorderPhasesReadsBack(phases: seq<Phase>, p: Id, ids: seq<Id>)
    requires UniqueKeys(phases, PhaseId) && PermutesScope(phases, ids, PhaseId, InProject(p))
    ensures |Listing(Reordered(phases, ids, 0, PhaseId, InProject(p), WithPhaseOrder), InProject(p), PhaseOrder)| == |ids|
    ensures forall i :: 0 <= i < |ids| ==>
      Listing(Reordered(phases, ids, 0, PhaseId, InProject(p), WithPhaseOrder), InProject(p), PhaseOrder)[i].id == ids[i] &&
      Listing(Reordered(phases, ids, 0, PhaseId, InProject(p), WithPhaseOrder), InProject(p), PhaseOrder)[i].sortOrder == i
  {
    PhaseOrderLaws(p);
    ReorderThenListing(phases, ids, PhaseId, InProject(p), PhaseOrder, WithPhaseOrder);
  }

  /** The `projectPhase` table. */
  class PhaseStore {
    var phases: seq<Phase>

    /** Phase ids are unique. */
    ghost predicate Valid()
      reads this
    {
      UniqueKeys(phases, PhaseId)
    }

    /** No stored phase has this id: the database's choice of a new id. */
    predicate Unused(id: Id)
      reads this
    {
      forall i :: 0 <= i < |phases| ==> phases[i].id != id
    }

    constructor ()
      ensures phases == [] && Valid()
    {
      phases := [];
    }

    /** `listPhases`: exactly the project's phases, by ascending sort order (ties in table order). */
    function ListPhases(p: Id): (r: seq<Phase>)
      reads this
      ensures forall ph :: ph in r ==> ph in phases && ph.projectId == p
      ensures forall i :: 0 <= i < |phases| && phases[i].projectId == p ==> phases[i] in r
      ensures |r| == Count(phases, InProject(p))
      ensures Sorted(r, ByKey(PhaseOrder))
    {
      var r := Listing(phases, InProject(p), PhaseOrder);
      assert forall ph :: ph in r ==> ph in multiset(Filter(phases, InProject(p)));
      assert forall i :: 0 <= i < |phases| && phases[i].projectId == p ==>
        phases[i] in multiset(Filter(phases, InProject(p)));
      r
    }

    /**
     * `createPhase`: a valid body is stored one past the project's largest
     * sort order, or at 0 in a project without phases; a date `new Date`
     * cannot read makes the insert fail (500).
     */
    method CreatePhase(p: Id, d: PhaseDraft, newId: Id) returns (r: Result<Phase>)
      requires Valid() && Unused(newId)
      modifies this
      ensures Valid()
      ensures !ValidDraft(d) ==> r == Err(Invalid()) && phases == old(phases)
      ensures ValidDraft(d) && !DraftDatesReadable(d) ==> r == Err(Failure(Dates.InvalidDate)) && phases == old(phases)
      ensures ValidDraft(d) && DraftDatesReadable(d) ==>
        && r == Ok(NewPhase(d, newId, p, NextOrder(old(phases), InProject(p), PhaseOrder)))
        && phases == old(phases) + [r.value]
    {
      if !ValidDraft(d) {
        return Err(Invalid());
      }
      if !DraftDatesReadable(d) {
        return Err(Failure(Dates.InvalidDate));
      }
      var phase := NewPhase(d, newId, p, NextOrder(phases, InProject(p), PhaseOrder));
      phases := phases + [phase];
      r := Ok(phase);
    }

    /**
     * `updatePhase`: an invalid body is rejected; an unreadable date or a
     * sort order past the `Int` column fails the `updateMany` (500) before
     * any row is matched; a phase outside the project is "Fase non
     * trovata", and otherwise the patch is applied to it.
     */
    method UpdatePhase(p: Id, id: Id, u: PhasePatch) returns (r: Result<Phase>)
      requires Valid()
      modifies this
      ensures Valid()
      ensures !ValidPatch(u) ==> r == Err(Invalid()) && phases == old(phases)
      ensures ValidPatch(u) && !PatchDatesReadable(u) ==> r == Err(Failure(Dates.InvalidDate)) && phases == old(phases)
      ensures ValidPatch(u) && PatchDatesReadable(u) && !SortOrderFits(u.sortOrder) ==>
        r == Err(Failure(IntOutOfRange)) && phases == old(phases)
      ensures ValidPatch(u) && PatchDatesReadable(u) && SortOrderFits(u.sortOrder) ==>
        match FindIndex(old(phases), IsPhase(p, id))
        case None => r == Err(NotFound(PhaseNotFound)) && phases == old(phases)
        case Some(k) => phases == old(phases)[k := PatchPhase(old(phases)[k], u)] && r == Ok(phases[k])
    {
      if !ValidPatch(u) {
        return Err(Invalid());
      }
      if !PatchDatesReadable(u) {
        return Err(Failure(Dates.InvalidDate));
      }
      if !SortOrderFits(u.sortOrder) {
        return Err(Failure(IntOutOfRange));
      }
      var found := FindIndex(phases, IsPhase(p, id));
      if found.None? {
        return Err(NotFound(PhaseNotFound));
      }
      var k := found.value;
      var phase := PatchPhase(phases[k], u);
      phases := phases[k := phase];
      r := Ok(phase);
    }

    /** `deletePhase`: a phase outside the project is "Fase non trovata"; otherwise it is removed. */
    method DeletePhase(p: Id, id: Id) returns (r: Result<()>)
      requires Valid()
      modifies this
      ensures Valid()
      ensures FindIndex(old(phases), IsPhase(p, id)).None? ==>
        r == Err(NotFound(PhaseNotFound)) && phases == old(phases)
      ensures FindIndex(old(phases), IsPhase(p, id)).Some? ==>
        r == Ok(()) && phases == Filter(old(phases), NotPhase(p, id))
    {
      if FindIndex(phases, IsPhase(p, id)).None? {
        return Err(NotFound(PhaseNotFound));
      }
      UniqueKeysSub(phases, Filter(phases, NotPhase(p, id)), PhaseId);
      phases := Filter(phases, NotPhase(p, id));
      r := Ok(());
    }

    /**
     * `reorderPhases`: the transaction writes each listed id's index to the
     * phase with that id in the project, then the project's phases are listed
     * by sort order.
     */
    method ReorderPhases(p: Id, phaseIds: Option<seq<Id>>) returns (r: Result<seq<Phase>>)
      requires Valid()
      modifies this
      ensures Valid()
      ensures phaseIds.None? ==> r == Err(Invalid()) && phases == old(phases)
      ensures phaseIds.Some? ==>
        && phases == Reordered(old(phases), phaseIds.value, 0, PhaseId, InProject(p), WithPhaseOrder)
        && r == Ok(ListPhases(p))
    {
      if phaseIds.None? {
        return Err(Invalid());
      }
      PhaseOrderLaws(p);
      ReorderedKeepsIds(phases, phaseIds.value, 0, PhaseId, InProject(p), WithPhaseOrder);
      phases := ApplyWrites(phases, phaseIds.value, 0, PhaseId, InProject(p), WithPhaseOrder);
      r := Ok(ListPhases(p));
    }
  }
}
