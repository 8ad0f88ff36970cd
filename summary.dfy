/**
 * The summary controller: a read-only report on one project. Its tasks are
 * split into overdue ones (due before today) and upcoming ones (due today
 * or later, soonest first, at most twenty listed), next to per-column,
 * per-phase and per-work-package counts.
 */
module Summary {
  import opened Common
  import opened Seqs
  import opened Ordering
  import opened ErrorHandler
  import Dates
  import Board
  import Phases
  import WorkPackages
  import Tasks
  import Projects
  import Diary
  import opened Relations

  /** `slice(0, 20)`: the most upcoming tasks listed. */
  const UpcomingLimit: nat := 20

  datatype ColumnCount = ColumnCount(id: Id, name: string, count: nat)

  datatype Analytics = Analytics(
    totalTasks: nat, byColumn: seq<ColumnCount>, overdueCount: nat, upcomingCount: nat, totalDiaryEntries: nat)

  /** A work package as listed under its phase. */
  datatype PackageLine = PackageLine(id: Id, name: string, sortOrder: int, taskCount: nat)

  datatype PhaseLine = PhaseLine(phase: Phases.Phase, taskCount: nat, workPackages: seq<PackageLine>)

  datatype ProjectSummary = ProjectSummary(
    id: Id, name: string, analytics: Analytics, overdue: seq<Tasks.Task>, upcoming: seq<Tasks.Task>,
    phases: seq<PhaseLine>, workPackages: seq<PackageView>)

  // ---------------------------------------------------------------------
  // Overdue and upcoming
  // ---------------------------------------------------------------------

  /** `today()`: the current instant with its clock set back to midnight. */
  function Today(now: Dates.DateTime): (d: Dates.DateTime)
    ensures d.date == now.date && d.millis == 0
  {
    Dates.Midnight(now)
  }

  /** `<` on two instants. */
  predicate Earlier(a: Dates.DateTime, b: Dates.DateTime) {
    Dates.Before(a.date, b.date) || (a.date == b.date && a.millis < b.millis)
  }

  /**
   * `isOverdue(d)`: `d` at midnight is earlier than today at midnight, so
   * the time of day on either side plays no part: only the days compare.
   */
  function IsOverdue(now: Dates.DateTime, d: Dates.DateTime): (b: bool)
    ensures b <==> Dates.Before(d.date, now.date)
  {
    Earlier(Dates.Midnight(d), Today(now))
  }

  /** A due date as the instant `new Date(t.dueDate)`: the start of that day. */
  function DueInstant(due: Dates.Date): Dates.DateTime { Dates.DateTime(due, 0) }

  /** A project task with a due date. */
  function Dated(p: Id): Tasks.Task -> bool {
    (t: Tasks.Task) => t.projectId == p && t.dueDate.Some?
  }

  /** `t.dueDate && isOverdue(new Date(t.dueDate))` on the project's tasks. */
  function OverdueIn(p: Id, now: Dates.DateTime): Tasks.Task -> bool {
    (t: Tasks.Task) => t.projectId == p && t.dueDate.Some? && IsOverdue(now, DueInstant(t.dueDate.value))
  }

  /** `t.dueDate && !isOverdue(new Date(t.dueDate))` on the project's tasks. */
  function UpcomingIn(p: Id, now: Dates.DateTime): Tasks.Task -> bool {
    (t: Tasks.Task) => t.projectId == p && t.dueDate.Some? && !IsOverdue(now, DueInstant(t.dueDate.value))
  }

  /** `new Date(t.dueDate!).getTime()` as a day number (every due date is a start of day). */
  function DueKey(t: Tasks.Task): int {
    if t.dueDate.Some? then Dates.DayKey(t.dueDate.value) else 0
  }

  /** The project's tasks due before today, in table order. */
  function Overdue(tasks: seq<Tasks.Task>, p: Id, now: Dates.DateTime): (r: seq<Tasks.Task>)
    ensures forall t :: t in r <==>
      t in tasks && t.projectId == p && t.dueDate.Some? && Dates.Before(t.dueDate.value, now.date)
    ensures |r| == Count(tasks, OverdueIn(p, now))
  {
    Filter(tasks, OverdueIn(p, now))
  }

  /** Every project task due today or later, soonest first (ties in table order). */
  function AllUpcoming(tasks: seq<Tasks.Task>, p: Id, now: Dates.DateTime): (r: seq<Tasks.Task>)
    ensures multiset(r) == multiset(Filter(tasks, UpcomingIn(p, now)))
    ensures |r| == Count(tasks, UpcomingIn(p, now))
    ensures forall i :: 0 <= i < |r| ==>
      r[i] in tasks && r[i].projectId == p && r[i].dueDate.Some? && Dates.NotAfter(now.date, r[i].dueDate.value)
    ensures forall k :: 0 <= k < |tasks| && UpcomingIn(p, now)(tasks[k]) ==> tasks[k] in r
    ensures forall i, j :: 0 <= i < j < |r| ==> DueKey(r[i]) <= DueKey(r[j])
  {
    var r := Listing(tasks, UpcomingIn(p, now), DueKey);
    forall i | 0 <= i < |r|
      ensures r[i] in tasks && r[i].projectId == p && r[i].dueDate.Some? && Dates.NotAfter(now.date, r[i].dueDate.value)
    {
      ListedRowInScope(tasks, UpcomingIn(p, now), DueKey, i);
    }
    forall k | 0 <= k < |tasks| && UpcomingIn(p, now)(tasks[k]) ensures tasks[k] in r {
      RowListed(tasks, UpcomingIn(p, now), DueKey, k);
    }
    forall i, j | 0 <= i < j < |r| ensures DueKey(r[i]) <= DueKey(r[j]) {
      SortedPairwise(r, ByKey(DueKey), i, j);
    }
    r
  }

  /**
   * `upcoming`: the first twenty of the upcoming tasks. A task left out is
   * due no earlier than every listed one, and then twenty are listed.
   */
  function Upcoming(tasks: seq<Tasks.Task>, p: Id, now: Dates.DateTime): (r: seq<Tasks.Task>)
    ensures |r| == if Count(tasks, UpcomingIn(p, now)) < UpcomingLimit then Count(tasks, UpcomingIn(p, now)) else UpcomingLimit
    ensures forall i :: 0 <= i < |r| ==>
      r[i] in tasks && r[i].projectId == p && r[i].dueDate.Some? && Dates.NotAfter(now.date, r[i].dueDate.value)
    ensures forall i, j :: 0 <= i < j < |r| ==> DueKey(r[i]) <= DueKey(r[j])
    ensures forall k :: 0 <= k < |tasks| && UpcomingIn(p, now)(tasks[k]) && tasks[k] !in r ==>
      |r| == UpcomingLimit && forall i :: 0 <= i < |r| ==> DueKey(r[i]) <= DueKey(tasks[k])
  {
    UpcomingPrefixMembers(tasks, p, now);
    UpcomingPrefixSorted(tasks, p, now);
    UpcomingPrefixLeftOut(tasks, p, now);
    Take(AllUpcoming(tasks, p, now), UpcomingLimit)
  }

  lemma UpcomingPrefixMembers(tasks: seq<Tasks.Task>, p: Id, now: Dates.DateTime)
    ensures var r := Take(AllUpcoming(tasks, p, now), UpcomingLimit);
      forall i :: 0 <= i < |r| ==>
        r[i] in tasks && r[i].projectId == p && r[i].dueDate.Some? && Dates.NotAfter(now.date, r[i].dueDate.value)
  {
    var all := AllUpcoming(tasks, p, now);
    var r := Take(all, UpcomingLimit);
    forall i | 0 <= i < |r|
      ensures r[i] in tasks && r[i].projectId == p && r[i].dueDate.Some? && Dates.NotAfter(now.date, r[i].dueDate.value)
    {
      assert r[i] == all[i];
    }
  }

  lemma UpcomingPrefixSorted(tasks: seq<Tasks.Task>, p: Id, now: Dates.DateTime)
    ensures var r := Take(AllUpcoming(tasks, p, now), UpcomingLimit);
      forall i, j :: 0 <= i < j < |r| ==> DueKey(r[i]) <= DueKey(r[j])
  {
    var all := AllUpcoming(tasks, p, now);
    var r := Take(all, UpcomingLimit);
    forall i, j | 0 <= i < j < |r| ensures DueKey(r[i]) <= DueKey(r[j]) {
      assert r[i] == all[i] && r[j] == all[j];
    }
  }

  lemma UpcomingPrefixLeftOut(tasks: seq<Tasks.Task>, p: Id, now: Dates.DateTime)
    ensures var r := Take(AllUpcoming(tasks, p, now), UpcomingLimit);
      forall k :: 0 <= k < |tasks| && UpcomingIn(p, now)(tasks[k]) && tasks[k] !in r ==>
        |r| == UpcomingLimit && forall i :: 0 <= i < |r| ==> DueKey(r[i]) <= DueKey(tasks[k])
  {
    var all := AllUpcoming(tasks, p, now);
    var r := Take(all, UpcomingLimit);
    forall k | 0 <= k < |tasks| && UpcomingIn(p, now)(tasks[k]) && tasks[k] !in r
      ensures |r| == UpcomingLimit && forall i :: 0 <= i < |r| ==> DueKey(r[i]) <= DueKey(tasks[k])
    {
      TakeSortedPrefix(all, UpcomingLimit, ByKey(DueKey), tasks[k]);
    }
  }

  /** On valid due dates the upcoming list is in calendar order. */
  lemma UpcomingIsChronological(tasks: seq<Tasks.Task>, p: Id, now: Dates.DateTime, i: nat, j: nat)
    requires var r := Upcoming(tasks, p, now); i < j < |r| && Dates.Valid(r[i].dueDate.value) && Dates.Valid(r[j].dueDate.value)
    ensures var r := Upcoming(tasks, p, now); Dates.NotAfter(r[i].dueDate.value, r[j].dueDate.value)
  {
    var r := Upcoming(tasks, p, now);
    Dates.DayKeyOrder(r[j].dueDate.value, r[i].dueDate.value);
  }

  /** Two disjoint conditions whose union is a third: their counts add up to its count. */
  lemma {:induction false} CountPartition<T>(s: seq<T>, a: T -> bool, b: T -> bool, c: T -> bool)
    requires forall i :: 0 <= i < |s| ==> (c(s[i]) <==> a(s[i]) || b(s[i])) && !(a(s[i]) && b(s[i]))
    ensures Count(s, a) + Count(s, b) == Count(s, c)
    decreases |s|
  {
    if s != [] {
      var init := s[..|s| - 1];
      CountPartition(init, a, b, c);
      assert Filter(s, a) == if a(s[|s| - 1]) then Filter(init, a) + [s[|s| - 1]] else Filter(init, a);
      assert Filter(s, b) == if b(s[|s| - 1]) then Filter(init, b) + [s[|s| - 1]] else Filter(init, b);
      assert Filter(s, c) == if c(s[|s| - 1]) then Filter(init, c) + [s[|s| - 1]] else Filter(init, c);
    }
  }

  /**
   * Every project task with a due date is overdue or upcoming and not both;
   * one without is neither; so the two counts add up to the dated tasks.
   */
  lemma PartitionCounts(tasks: seq<Tasks.Task>, p: Id, now: Dates.DateTime)
    ensures forall t :: Dated(p)(t) ==> OverdueIn(p, now)(t) != UpcomingIn(p, now)(t)
    ensures forall t :: !Dated(p)(t) ==> !OverdueIn(p, now)(t) && !UpcomingIn(p, now)(t)
    ensures Count(tasks, OverdueIn(p, now)) + Count(tasks, UpcomingIn(p, now)) == Count(tasks, Dated(p))
  {
    CountPartition(tasks, OverdueIn(p, now), UpcomingIn(p, now), Dated(p));
  }

  // ---------------------------------------------------------------------
  // Counts
  // ---------------------------------------------------------------------

  /** `_count: { tasks }` of a column. */
  function ColumnTasks(tasks: seq<Tasks.Task>, c: Id): nat { Count(tasks, Tasks.InColumn(c)) }

  /** `byColumn`: each listed column once, in listing order, with its number of tasks. */
  function ColumnCounts(columns: seq<Board.Column>, tasks: seq<Tasks.Task>): (r: seq<ColumnCount>)
    ensures |r| == |columns|
    ensures forall i :: 0 <= i < |r| ==>
      r[i].id == columns[i].id && r[i].name == columns[i].name && r[i].count == Count(tasks, Tasks.InColumn(columns[i].id))
  {
    seq(|columns|, i requires 0 <= i < |columns| => ColumnCount(columns[i].id, columns[i].name, ColumnTasks(tasks, columns[i].id)))
  }

  /** A work package as `phase.workPackages` lists it. */
  function Line(w: WorkPackages.WorkPackage, tasks: seq<Tasks.Task>): PackageLine {
    PackageLine(w.id, w.name, w.sortOrder, Count(tasks, InPackage(w.id)))
  }

  function Lines(l: seq<WorkPackages.WorkPackage>, tasks: seq<Tasks.Task>): (r: seq<PackageLine>)
    ensures |r| == |l| && forall i :: 0 <= i < |l| ==> r[i] == Line(l[i], tasks)
  {
    seq(|l|, i requires 0 <= i < |l| => Line(l[i], tasks))
  }

  /** The work packages of one phase by sort order, each with its number of tasks. */
  function PackageLines(packages: seq<WorkPackages.WorkPackage>, tasks: seq<Tasks.Task>, ph: Id): (r: seq<PackageLine>)
    ensures |r| == Count(packages, PackagesOf(ph))
    ensures forall i :: 0 <= i < |r| ==> exists w :: w in packages && w.phaseId == Some(ph) && r[i] == Line(w, tasks)
    ensures forall i, j :: 0 <= i < j < |r| ==> r[i].sortOrder <= r[j].sortOrder
  {
    var l := Listing(packages, PackagesOf(ph), WorkPackages.WorkPackageOrder);
    PhasePackages(packages, ph);
    var r := Lines(l, tasks);
    assert forall i :: 0 <= i < |r| ==> r[i] == Line(l[i], tasks) && l[i] in packages && l[i].phaseId == Some(ph);
    r
  }

  /** `phases`: each listed phase with its number of tasks and its work packages. */
  function PhaseLines(phases: seq<Phases.Phase>, packages: seq<WorkPackages.WorkPackage>, tasks: seq<Tasks.Task>): (r: seq<PhaseLine>)
    ensures |r| == |phases|
    ensures forall i :: 0 <= i < |r| ==>
      && r[i].phase == phases[i]
      && r[i].taskCount == Count(tasks, InPhase(phases[i].id))
      && r[i].workPackages == PackageLines(packages, tasks, phases[i].id)
  {
    seq(|phases|, i requires 0 <= i < |phases| =>
      PhaseLine(phases[i], Count(tasks, InPhase(phases[i].id)), PackageLines(packages, tasks, phases[i].id)))
  }

  /**
   * Where no task of another project names a column, its count over the
   * whole table is its count over the project's own tasks.
   */
  lemma ColumnCountOfOwnTasks(tasks: seq<Tasks.Task>, p: Id, c: Id)
    requires forall i :: 0 <= i < |tasks| && tasks[i].columnId == c ==> tasks[i].projectId == p
    ensures Count(tasks, Tasks.InColumn(c)) == Count(Filter(tasks, Tasks.InProject(p)), Tasks.InColumn(c))
  {
    FilterNarrower(tasks, Tasks.InProject(p), Tasks.InColumn(c));
  }

  /**
   * A task of another project filed in one of this project's columns is
   * counted in that column, and not among the project's tasks.
   */
  lemma ForeignTaskCounted(c: Board.Column, t: Tasks.Task)
    requires t.columnId == c.id && t.projectId != c.projectId
    ensures ColumnCounts([c], [t])[0].count == 1
    ensures Filter([t], Tasks.InProject(c.projectId)) == []
  {
    assert [t][..0] == [];
  }

  // ---------------------------------------------------------------------
  // The report
  // ---------------------------------------------------------------------

  /**
   * The report on a project that exists: `tasks` is the project's task
   * list, `columns`, `phases` and `packages` its listed columns, phases and
   * work packages, `allPackages` every work package (for the phases' own),
   * and `allTasks` the whole task table, which the per-column, per-phase
   * and per-package counts run over.
   */
  function Report(project: Projects.Project, columns: seq<Board.Column>, phases: seq<Phases.Phase>,
                  packages: seq<WorkPackages.WorkPackage>, allPackages: seq<WorkPackages.WorkPackage>,
                  allPhases: seq<Phases.Phase>, tasks: seq<Tasks.Task>, allTasks: seq<Tasks.Task>,
                  entries: nat, now: Dates.DateTime)
    : (r: ProjectSummary)
    ensures r.id == project.id && r.name == project.name
    ensures r.analytics.totalTasks == |tasks|
    ensures r.analytics.overdueCount == |r.overdue|
    ensures r.analytics.overdueCount + r.analytics.upcomingCount == Count(tasks, Dated(project.id))
    ensures |r.upcoming| <= r.analytics.upcomingCount && |r.upcoming| <= UpcomingLimit
    ensures r.analytics.upcomingCount > UpcomingLimit ==> |r.upcoming| == UpcomingLimit
    ensures r.analytics.totalDiaryEntries == entries
    ensures r.overdue == Overdue(tasks, project.id, now) && r.upcoming == Upcoming(tasks, project.id, now)
    ensures r.analytics.byColumn == ColumnCounts(columns, allTasks)
    ensures r.phases == PhaseLines(phases, allPackages, allTasks)
    ensures r.workPackages == PackageViews(packages, allPhases, allTasks)
  {
    var p := project.id;
    PartitionCounts(tasks, p, now);
    var overdue := Overdue(tasks, p, now);
    var analytics := Analytics(
      |tasks|, ColumnCounts(columns, allTasks), |overdue|, Count(tasks, UpcomingIn(p, now)), entries);
    ProjectSummary(p, project.name, analytics, overdue, Upcoming(tasks, p, now),
      PhaseLines(phases, allPackages, allTasks), PackageViews(packages, allPhases, allTasks))
  }

  /**
   * `getSummary`: "Progetto non trovato" for a missing project; otherwise
   * the report over the project's tasks, its columns, phases and work
   * packages as their controllers list them, and its diary entries. The
   * `_count` of a column, phase or work package counts every task that
   * names it, of whatever project, since neither `createTask` nor
   * `moveTask` checks that a column belongs to the task's project.
   */
  function GetSummary(projects: Projects.ProjectStore, board: Board.ColumnStore, phases: Phases.PhaseStore,
                      packages: WorkPackages.WorkPackageStore, tasks: Tasks.TaskStore, diary: Diary.DiaryStore,
                      p: Id, now: Dates.DateTime): (r: Result<ProjectSummary>)
    reads projects, board, phases, packages, tasks, diary
    ensures r.Err? <==> forall i :: 0 <= i < |projects.projects| ==> projects.projects[i].id != p
    ensures r.Err? ==> r.error == NotFound(Projects.ProjectNotFound)
    ensures r.Ok? ==> exists i :: (0 <= i < |projects.projects| && projects.projects[i].id == p
      && r.value == Report(projects.projects[i], board.ListColumns(p), phases.ListPhases(p),
           packages.ListWorkPackages(p), packages.workPackages, phases.phases,
           Filter(tasks.tasks, Tasks.InProject(p)), tasks.tasks, Count(diary.entries, Diary.InProject(p)), now))
  {
    match FindIndex(projects.projects, Projects.HasId(p))
    case None => Err(NotFound(Projects.ProjectNotFound))
    case Some(k) =>
      Ok(Report(projects.projects[k], board.ListColumns(p), phases.ListPhases(p),
        packages.ListWorkPackages(p), packages.workPackages, phases.phases,
        Filter(tasks.tasks, Tasks.InProject(p)), tasks.tasks, Count(diary.entries, Diary.InProject(p)), now))
  }
}
