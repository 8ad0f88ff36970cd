/**
 * The rows a handler returns together with what its `include` attaches:
 * a task with its comments, attachments, phase and work package; a phase
 * with its work packages and its number of tasks; a work package with its
 * phase and its number of tasks. Each view is built from the stored tables
 * the relation reads, whichever feature owns them.
 */
module Relations {
  import opened Common
  import opened Seqs
  import opened Ordering
  import opened ErrorHandler
  import Phases
  import WorkPackages
  import Tasks

  function InPhase(ph: Id): Tasks.Task -> bool {
    (t: Tasks.Task) => t.phaseId == Some(ph)
  }

  function InPackage(w: Id): Tasks.Task -> bool {
    (t: Tasks.Task) => t.workPackageId == Some(w)
  }

  /** `phase.workPackages`: the work packages assigned to a phase. */
  function PackagesOf(ph: Id): WorkPackages.WorkPackage -> bool {
    (w: WorkPackages.WorkPackage) => w.phaseId == Some(ph)
  }

  function CommentOf(id: Id): Tasks.Comment -> bool {
    (c: Tasks.Comment) => c.taskId == id
  }

  function PhaseNamed(id: Id): Phases.Phase -> bool {
    (ph: Phases.Phase) => ph.id == id
  }

  function PackageNamed(id: Id): WorkPackages.WorkPackage -> bool {
    (w: WorkPackages.WorkPackage) => w.id == id
  }

  /** `phase: true`: the phase a reference names, if that phase exists. */
  function PhaseOf(phases: seq<Phases.Phase>, ref: Option<Id>): (r: Option<Phases.Phase>)
    ensures r.Some? ==> r.value in phases && Some(r.value.id) == ref
    ensures r.None? ==> ref.None? || forall i :: 0 <= i < |phases| ==> phases[i].id != ref.value
  {
    if ref.None? then None
    else match FindIndex(phases, PhaseNamed(ref.value))
      case None => None
      case Some(k) => Some(phases[k])
  }

  /** `workPackage: true`: the work package a reference names, if it exists. */
  function PackageOf(packages: seq<WorkPackages.WorkPackage>, ref: Option<Id>): (r: Option<WorkPackages.WorkPackage>)
    ensures r.Some? ==> r.value in packages && Some(r.value.id) == ref
    ensures r.None? ==> ref.None? || forall i :: 0 <= i < |packages| ==> packages[i].id != ref.value
  {
    if ref.None? then None
    else match FindIndex(packages, PackageNamed(ref.value))
      case None => None
      case Some(k) => Some(packages[k])
  }

  /** A row is kept by a filter exactly when it is in the table and passes. */
  lemma FilterMembers<T>(s: seq<T>, p: T -> bool)
    ensures forall x :: x in Filter(s, p) <==> x in s && p(x)
  {
    forall x | x in Filter(s, p) ensures p(x) {
      var i :| 0 <= i < |Filter(s, p)| && Filter(s, p)[i] == x;
    }
    forall x | x in s && p(x) ensures x in Filter(s, p) {
      var i :| 0 <= i < |s| && s[i] == x;
    }
  }

  // ---------------------------------------------------------------------
  // Tasks
  // ---------------------------------------------------------------------

  /** A task as `include: { comments, attachments, phase, workPackage }` returns it. */
  datatype TaskView = TaskView(
    task: Tasks.Task, comments: seq<Tasks.Comment>, attachments: seq<Tasks.Attachment>,
    phase: Option<Phases.Phase>, workPackage: Option<WorkPackages.WorkPackage>)

  /**
   * A task with its relations: exactly the comments and the attachments
   * that belong to it, in table order, and the phase and work package its
   * references name.
   */
  function TaskWith(t: Tasks.Task, comments: seq<Tasks.Comment>, attachments: seq<Tasks.Attachment>,
                    phases: seq<Phases.Phase>, packages: seq<WorkPackages.WorkPackage>): (v: TaskView)
    ensures v.task == t
    ensures forall c :: c in v.comments <==> c in comments && c.taskId == t.id
    ensures forall a :: a in v.attachments <==> a in attachments && a.taskId == t.id
    ensures |v.comments| == Count(comments, CommentOf(t.id))
    ensures |v.attachments| == Count(attachments, Tasks.AttachmentOf(t.id))
    ensures v.phase == PhaseOf(phases, t.phaseId)
    ensures v.workPackage == PackageOf(packages, t.workPackageId)
  {
    var cs := Filter(comments, CommentOf(t.id));
    var atts := Filter(attachments, Tasks.AttachmentOf(t.id));
    FilterMembers(comments, CommentOf(t.id));
    FilterMembers(attachments, Tasks.AttachmentOf(t.id));
    TaskView(t, cs, atts, PhaseOf(phases, t.phaseId), PackageOf(packages, t.workPackageId))
  }

  /**
   * `getTask`: the project's task with this id and its relations, else
   * "Task non trovato" (404).
   */
  function GetTask(tasks: Tasks.TaskStore, phases: Phases.PhaseStore, packages: WorkPackages.WorkPackageStore,
                   p: Id, id: Id): (r: Result<TaskView>)
    reads tasks, phases, packages
    ensures r.Err? <==> forall i :: 0 <= i < |tasks.tasks| ==> !(tasks.tasks[i].id == id && tasks.tasks[i].projectId == p)
    ensures r.Err? ==> r.error == NotFound(Tasks.TaskNotFound)
    ensures r.Ok? ==> r.value.task in tasks.tasks && r.value.task.id == id && r.value.task.projectId == p
    ensures r.Ok? ==> r.value == TaskWith(r.value.task, tasks.comments, tasks.attachments, phases.phases, packages.workPackages)
  {
    match FindIndex(tasks.tasks, Tasks.IsTask(p, id))
    case None => Err(NotFound(Tasks.TaskNotFound))
    case Some(k) => Ok(TaskWith(tasks.tasks[k], tasks.comments, tasks.attachments, phases.phases, packages.workPackages))
  }

  // ---------------------------------------------------------------------
  // Phases
  // ---------------------------------------------------------------------

  /** A phase as `listPhases` returns it. */
  datatype PhaseView = PhaseView(phase: Phases.Phase, workPackages: seq<WorkPackages.WorkPackage>, taskCount: nat)

  /** Rows sorted by a key have ascending keys at any two positions. */
  lemma KeysAscend<T(!new)>(l: seq<T>, key: T -> int)
    requires Sorted(l, ByKey(key))
    ensures forall i, j :: 0 <= i < j < |l| ==> key(l[i]) <= key(l[j])
  {
    forall i, j | 0 <= i < j < |l| ensures key(l[i]) <= key(l[j]) {
      SortedPairwise(l, ByKey(key), i, j);
    }
  }

  /**
   * The work packages of a phase, by sort order: every one assigned to it
   * and no other, and ascending.
   */
  lemma PhasePackages(packages: seq<WorkPackages.WorkPackage>, ph: Id)
    ensures var l := Listing(packages, PackagesOf(ph), WorkPackages.WorkPackageOrder);
      && (forall i :: 0 <= i < |l| ==> l[i] in packages && l[i].phaseId == Some(ph))
      && (forall k :: 0 <= k < |packages| && packages[k].phaseId == Some(ph) ==> packages[k] in l)
      && |l| == Count(packages, PackagesOf(ph))
      && (forall i, j :: 0 <= i < j < |l| ==> l[i].sortOrder <= l[j].sortOrder)
  {
    var l := Listing(packages, PackagesOf(ph), WorkPackages.WorkPackageOrder);
    forall i | 0 <= i < |l| ensures l[i] in packages && l[i].phaseId == Some(ph) {
      ListedRowInScope(packages, PackagesOf(ph), WorkPackages.WorkPackageOrder, i);
    }
    forall k | 0 <= k < |packages| && packages[k].phaseId == Some(ph) ensures packages[k] in l {
      RowListed(packages, PackagesOf(ph), WorkPackages.WorkPackageOrder, k);
    }
    assert |l| == |multiset(l)| == |multiset(Filter(packages, PackagesOf(ph)))|;
    KeysAscend(l, WorkPackages.WorkPackageOrder);
  }

  /**
   * A phase with `workPackages: { orderBy: { sortOrder } }` and
   * `_count: { tasks }`: every work package assigned to it and no other, by
   * ascending sort order, and the number of tasks that name it.
   */
  function PhaseWith(ph: Phases.Phase, packages: seq<WorkPackages.WorkPackage>, tasks: seq<Tasks.Task>): (v: PhaseView)
    ensures v.phase == ph
    ensures forall w :: w in v.workPackages ==> w in packages && w.phaseId == Some(ph.id)
    ensures forall k :: 0 <= k < |packages| && packages[k].phaseId == Some(ph.id) ==> packages[k] in v.workPackages
    ensures |v.workPackages| == Count(packages, PackagesOf(ph.id))
    ensures forall i, j :: 0 <= i < j < |v.workPackages| ==> v.workPackages[i].sortOrder <= v.workPackages[j].sortOrder
    ensures v.taskCount == Count(tasks, InPhase(ph.id))
  {
    PhasePackages(packages, ph.id);
    var l := Listing(packages, PackagesOf(ph.id), WorkPackages.WorkPackageOrder);
    PhaseView(ph, l, Count(tasks, InPhase(ph.id)))
  }

  function PhaseViews(l: seq<Phases.Phase>, packages: seq<WorkPackages.WorkPackage>, tasks: seq<Tasks.Task>): (r: seq<PhaseView>)
    ensures |r| == |l| && forall i :: 0 <= i < |l| ==> r[i] == PhaseWith(l[i], packages, tasks)
  {
    seq(|l|, i requires 0 <= i < |l| => PhaseWith(l[i], packages, tasks))
  }

  /**
   * `listPhases`: the project's phases, in `Phases.PhaseStore.ListPhases`
   * order, each with its work packages and its number of tasks.
   */
  function ListPhases(phases: Phases.PhaseStore, packages: WorkPackages.WorkPackageStore, tasks: Tasks.TaskStore, p: Id): (r: seq<PhaseView>)
    reads phases, packages, tasks
    ensures |r| == Count(phases.phases, Phases.InProject(p))
    ensures forall i :: 0 <= i < |r| ==> r[i].phase in phases.phases && r[i].phase.projectId == p
    ensures forall k :: 0 <= k < |phases.phases| && phases.phases[k].projectId == p ==>
      exists i :: 0 <= i < |r| && r[i].phase == phases.phases[k]
    ensures forall i, j :: 0 <= i < j < |r| ==> r[i].phase.sortOrder <= r[j].phase.sortOrder
    ensures forall i :: 0 <= i < |r| ==> r[i] == PhaseWith(r[i].phase, packages.workPackages, tasks.tasks)
  {
    var l := phases.ListPhases(p);
    KeysAscend(l, Phases.PhaseOrder);
    PhaseViews(l, packages.workPackages, tasks.tasks)
  }

  // ---------------------------------------------------------------------
  // Work packages
  // ---------------------------------------------------------------------

  /** A work package as `listWorkPackages` returns it. */
  datatype PackageView = PackageView(workPackage: WorkPackages.WorkPackage, phase: Option<Phases.Phase>, taskCount: nat)

  /** Each work package with the phase it names and the number of tasks that name it. */
  function PackageViews(packages: seq<WorkPackages.WorkPackage>, phases: seq<Phases.Phase>, tasks: seq<Tasks.Task>): (r: seq<PackageView>)
    ensures |r| == |packages|
    ensures forall i :: 0 <= i < |r| ==>
      && r[i].workPackage == packages[i]
      && r[i].phase == PhaseOf(phases, packages[i].phaseId)
      && r[i].taskCount == Count(tasks, InPackage(packages[i].id))
  {
    seq(|packages|, i requires 0 <= i < |packages| =>
      PackageView(packages[i], PhaseOf(phases, packages[i].phaseId), Count(tasks, InPackage(packages[i].id))))
  }

  /**
   * `listWorkPackages`: the project's work packages by sort order, each with
   * `phase: true` and `_count: { tasks }`.
   */
  function ListWorkPackages(packages: WorkPackages.WorkPackageStore, phases: Phases.PhaseStore, tasks: Tasks.TaskStore, p: Id): (r: seq<PackageView>)
    reads packages, phases, tasks
    ensures |r| == Count(packages.workPackages, WorkPackages.InProject(p))
    ensures forall i :: 0 <= i < |r| ==> r[i].workPackage in packages.workPackages && r[i].workPackage.projectId == p
    ensures forall k :: 0 <= k < |packages.workPackages| && packages.workPackages[k].projectId == p ==>
      exists i :: 0 <= i < |r| && r[i].workPackage == packages.workPackages[k]
    ensures forall i, j :: 0 <= i < j < |r| ==> r[i].workPackage.sortOrder <= r[j].workPackage.sortOrder
    ensures forall i :: 0 <= i < |r| ==>
      && r[i].phase == PhaseOf(phases.phases, r[i].workPackage.phaseId)
      && r[i].taskCount == Count(tasks.tasks, InPackage(r[i].workPackage.id))
  {
    var l := packages.ListWorkPackages(p);
    KeysAscend(l, WorkPackages.WorkPackageOrder);
    PackageViews(l, phases.phases, tasks.tasks)
  }
}
