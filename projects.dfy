/**
 * The projects controller: the ownership root of every other row. Creating
 * a project seeds its board with three columns in one transaction; listing
 * and reading projects return the number of rows that name each one
 * (`_count`), and reading one returns its columns by order.
 */
module Projects {
  import opened Common
  import opened Seqs
  import opened Ordering
  import opened ErrorHandler
  import Board
  import Tasks
  import Diary

  /** A project; `createdAt` is the creation instant in milliseconds, supplied by the database. */
  datatype Project = Project(id: Id, name: string, createdAt: int)

  /** A project as `createProject` returns it: with its board columns by order. */
  datatype ProjectView = ProjectView(project: Project, columns: seq<Board.Column>)

  /** `_count: { tasks, diaryEntries }`: the rows that name the project. */
  datatype ProjectCounts = ProjectCounts(tasks: nat, diaryEntries: nat)

  /** A project as `listProjects` lists it. */
  datatype ListedProject = ListedProject(project: Project, count: ProjectCounts)

  /** A column as `getProject` includes it, with `_count: { tasks }`. */
  datatype CountedColumn = CountedColumn(column: Board.Column, taskCount: nat)

  /** A project as `getProject` returns it: its counts and its columns by order, each with its count. */
  datatype ProjectDetail = ProjectDetail(project: Project, columns: seq<CountedColumn>, count: ProjectCounts)

  const ProjectNotFound: string := "Progetto non trovato"

  /** The text of the ORM's own error when `update`/`delete` find no row; it answers 500. */
  const RecordMissing: string := "Record to update not found."

  /** The names of the three seeded columns, in board order. */
  const SeedNames: seq<string> := ["Da fare", "In corso", "Completato"]

  function ProjectId(pr: Project): Id { pr.id }

  function HasId(id: Id): Project -> bool {
    (pr: Project) => pr.id == id
  }

  function NotId(id: Id): Project -> bool {
    (pr: Project) => pr.id != id
  }

  /** `orderBy: { createdAt: "desc" }` as a comparison. */
  function NewestFirst(): (Project, Project) -> bool {
    (a: Project, b: Project) => a.createdAt >= b.createdAt
  }

  /** `z.string().min(1).max(200)`. */
  predicate ValidName(s: string) { LengthIn(s, 1, 200) }

  /** The `_count` of a project: its tasks and its diary entries. */
  function CountsOf(tasks: seq<Tasks.Task>, entries: seq<Diary.Entry>, p: Id): ProjectCounts {
    ProjectCounts(Count(tasks, Tasks.InProject(p)), Count(entries, Diary.InProject(p)))
  }

  /** Each project with its counts, in the order given. */
  function WithCounts(l: seq<Project>, tasks: seq<Tasks.Task>, entries: seq<Diary.Entry>): (r: seq<ListedProject>)
    ensures |r| == |l|
    ensures forall i :: 0 <= i < |l| ==> r[i] == ListedProject(l[i], CountsOf(tasks, entries, l[i].id))
  {
    seq(|l|, i requires 0 <= i < |l| => ListedProject(l[i], CountsOf(tasks, entries, l[i].id)))
  }

  /** The projects of a listing, without their counts. */
  function Unlisted(r: seq<ListedProject>): (l: seq<Project>)
    ensures |l| == |r| && forall i :: 0 <= i < |r| ==> l[i] == r[i].project
  {
    seq(|r|, i requires 0 <= i < |r| => r[i].project)
  }

  /**
   * Each column with its `_count: { tasks }`: every task that names the
   * column, of whatever project, since neither `createTask` nor `moveTask`
   * checks that a column belongs to the task's project.
   */
  function CountedColumns(columns: seq<Board.Column>, tasks: seq<Tasks.Task>): (r: seq<CountedColumn>)
    ensures |r| == |columns|
    ensures forall i :: 0 <= i < |r| ==>
      r[i] == CountedColumn(columns[i], Count(tasks, Tasks.InColumn(columns[i].id)))
  {
    seq(|columns|, i requires 0 <= i < |columns| =>
      CountedColumn(columns[i], Count(tasks, Tasks.InColumn(columns[i].id))))
  }

  /** The three columns `createMany` writes for a new project. */
  function SeedColumns(p: Id, ids: seq<Id>): (r: seq<Board.Column>)
    requires |ids| == 3
    ensures |r| == 3
    ensures forall i :: 0 <= i < 3 ==> r[i] == Board.Column(ids[i], p, SeedNames[i], i)
  {
    [Board.Column(ids[0], p, "Da fare", 0), Board.Column(ids[1], p, "In corso", 1),
     Board.Column(ids[2], p, "Completato", 2)]
  }

  /**
   * Appending, sorted by order, the columns of a project no earlier column
   * belongs to: they are exactly what the project lists.
   */
  lemma ListingOfFreshProject(columns: seq<Board.Column>, p: Id, added: seq<Board.Column>)
    requires forall i :: 0 <= i < |columns| ==> columns[i].projectId != p
    requires forall i :: 0 <= i < |added| ==> added[i].projectId == p
    requires Sorted(added, ByKey(Board.ColumnOrder))
    ensures Listing(columns + added, Board.InProject(p), Board.ColumnOrder) == added
  {
    FilterAppend(columns, added, Board.InProject(p));
    FilterNone(columns, Board.InProject(p));
    FilterAll(added, Board.InProject(p));
    assert [] + added == added;
    SortOfSorted(added, ByKey(Board.ColumnOrder));
  }

  /**
   * Seeding a project no column refers to yet: its listed columns are
   * exactly the three seeded ones, in the order "Da fare", "In corso",
   * "Completato", with orders 0, 1 and 2.
   */
  lemma SeededListing(columns: seq<Board.Column>, p: Id, ids: seq<Id>)
    requires |ids| == 3
    requires forall i :: 0 <= i < |columns| ==> columns[i].projectId != p
    ensures Listing(columns + SeedColumns(p, ids), Board.InProject(p), Board.ColumnOrder) == SeedColumns(p, ids)
  {
    var seeded := SeedColumns(p, ids);
    forall i | 0 < i < |seeded| ensures ByKey(Board.ColumnOrder)(seeded[i - 1], seeded[i]) {
      assert Board.ColumnOrder(seeded[i - 1]) == i - 1 && Board.ColumnOrder(seeded[i]) == i;
    }
    ListingOfFreshProject(columns, p, seeded);
  }

  /** The seeded columns keep the column ids unique and are the new project's whole listing. */
  lemma SeedColumnsFit(columns: seq<Board.Column>, p: Id, ids: seq<Id>, seeded: seq<Board.Column>)
    requires |ids| == 3 && Distinct(ids) && UniqueKeys(columns, Board.ColumnId)
    requires forall i :: 0 <= i < 3 ==> forall j :: 0 <= j < |columns| ==> columns[j].id != ids[i]
    requires forall i :: 0 <= i < |columns| ==> columns[i].projectId != p
    requires seeded == SeedColumns(p, ids)
    ensures UniqueKeys(columns + seeded, Board.ColumnId)
    ensures Listing(columns + seeded, Board.InProject(p), Board.ColumnOrder) == seeded
  {
    SeedKeepsIdsUnique(columns, p, ids);
    SeededListing(columns, p, ids);
  }

  /** Seeding columns with fresh, distinct ids keeps column ids unique. */
  lemma SeedKeepsIdsUnique(columns: seq<Board.Column>, p: Id, ids: seq<Id>)
    requires |ids| == 3 && Distinct(ids) && UniqueKeys(columns, Board.ColumnId)
    requires forall i, j :: 0 <= i < 3 && 0 <= j < |columns| ==> columns[j].id != ids[i]
    ensures UniqueKeys(columns + SeedColumns(p, ids), Board.ColumnId)
  {
    var all := columns + SeedColumns(p, ids);
    forall i, j | 0 <= i < j < |all| ensures all[i].id != all[j].id {
      if j >= |columns| && i < |columns| {
        assert all[j].id == ids[j - |columns|];
      }
    }
  }

  /** The `project` table. */
  class ProjectStore {
    var projects: seq<Project>

    ghost predicate Valid()
      reads this
    {
      UniqueKeys(projects, ProjectId)
    }

    predicate Unused(id: Id)
      reads this
    {
      forall i :: 0 <= i < |projects| ==> projects[i].id != id
    }

    constructor ()
      ensures projects == [] && Valid()
    {
      projects := [];
    }

    /**
     * `listProjects`: every project, newest first (ties in table order),
     * each with the number of its tasks and of its diary entries.
     */
    function ListProjects(tasks: Tasks.TaskStore, diary: Diary.DiaryStore): (r: seq<ListedProject>)
      reads this, tasks, diary
      ensures multiset(Unlisted(r)) == multiset(projects)
      ensures forall i, j :: 0 <= i < j < |r| ==> r[i].project.createdAt >= r[j].project.createdAt
      ensures forall i :: 0 <= i < |r| ==>
        && r[i].count.tasks == Count(tasks.tasks, Tasks.InProject(r[i].project.id))
        && r[i].count.diaryEntries == Count(diary.entries, Diary.InProject(r[i].project.id))
    {
      SortSorted(projects, NewestFirst());
      var sorted := Sort(projects, NewestFirst());
      forall i, j | 0 <= i < j < |sorted| ensures sorted[i].createdAt >= sorted[j].createdAt {
        SortedPairwise(sorted, NewestFirst(), i, j);
      }
      var r := WithCounts(sorted, tasks.tasks, diary.entries);
      assert Unlisted(r) == sorted;
      r
    }

    /**
     * `getProject`: the project with its counts and its columns by order,
     * each column with its count, else "Progetto non trovato".
     */
    function GetProject(board: Board.ColumnStore, tasks: Tasks.TaskStore, diary: Diary.DiaryStore, id: Id)
      : (r: Result<ProjectDetail>)
      reads this, board, tasks, diary
      ensures r.Err? <==> forall i :: 0 <= i < |projects| ==> projects[i].id != id
      ensures r.Err? ==> r.error == NotFound(ProjectNotFound)
      ensures r.Ok? ==> r.value.project in projects && r.value.project.id == id
      ensures r.Ok? ==> r.value.columns == CountedColumns(board.ListColumns(id), tasks.tasks)
      ensures r.Ok? ==>
        && r.value.count.tasks == Count(tasks.tasks, Tasks.InProject(id))
        && r.value.count.diaryEntries == Count(diary.entries, Diary.InProject(id))
    {
      match FindIndex(projects, HasId(id))
      case None => Err(NotFound(ProjectNotFound))
      case Some(k) =>
        Ok(ProjectDetail(projects[k], CountedColumns(board.ListColumns(id), tasks.tasks),
                         CountsOf(tasks.tasks, diary.entries, id)))
    }

    /**
     * `createProject`: in one transaction the project is stored and its board
     * gets the three seeded columns; it is returned with exactly those
     * columns, in order.
     */
    method CreateProject(board: Board.ColumnStore, name: Option<string>, newId: Id, createdAt: int, columnIds: seq<Id>)
      returns (r: Result<ProjectView>)
      requires Valid() && Unused(newId) && board.Valid()
      requires |columnIds| == 3 && Distinct(columnIds)
      requires forall i :: 0 <= i < 3 ==> board.Unused(columnIds[i])
      requires forall i :: 0 <= i < |board.columns| ==> board.columns[i].projectId != newId
      modifies this, board
      ensures Valid() && board.Valid()
      ensures (name.None? || !ValidName(name.value)) ==>
        r == Err(Invalid()) && projects == old(projects) && board.columns == old(board.columns)
      ensures name.Some? && ValidName(name.value) ==>
        && projects == old(projects) + [Project(newId, name.value, createdAt)]
        && board.columns == old(board.columns) + SeedColumns(newId, columnIds)
        && r == Ok(ProjectView(Project(newId, name.value, createdAt), SeedColumns(newId, columnIds)))
    {
      if name.None? || !ValidName(name.value) {
        return Err(Invalid());
      }
      var project := Project(newId, name.value, createdAt);
      var seeded := SeedColumns(newId, columnIds);
      UniqueKeysAppend(projects, project, ProjectId);
      SeedColumnsFit(board.columns, newId, columnIds, seeded);
      projects := projects + [project];
      board.columns := board.columns + seeded;
      var listed := board.ListColumns(newId);
      r := Ok(ProjectView(project, listed));
    }

    /**
     * `updateProject`: only the name can change. The ORM's `update` on a
     * missing id throws, which the error handler answers with 500, not 404.
     */
    method UpdateProject(id: Id, name: Option<string>) returns (r: Result<Project>)
      requires Valid()
      modifies this
      ensures Valid()
      ensures name.Some? && !ValidName(name.value) ==> r == Err(Invalid()) && projects == old(projects)
      ensures (name.None? || ValidName(name.value)) ==>
        match FindIndex(old(projects), HasId(id))
        case None => r == Err(Failure(RecordMissing)) && Respond(r.error, false).status == 500 && projects == old(projects)
        case Some(k) =>
          && projects == old(projects)[k := old(projects)[k].(name := Kept(name, old(projects)[k].name))]
          && r == Ok(projects[k])
    {
      if name.Some? && !ValidName(name.value) {
        return Err(Invalid());
      }
      var found := FindIndex(projects, HasId(id));
      if found.None? {
        return Err(Failure(RecordMissing));
      }
      var k := found.value;
      var project := projects[k].(name := Kept(name, projects[k].name));
      assert forall i :: 0 <= i < |projects| ==> projects[k := project][i].id == projects[i].id;
      projects := projects[k := project];
      r := Ok(project);
    }

    /** `deleteProject`: a missing id is the ORM's error (500); otherwise the project is removed. */
    method DeleteProject(id: Id) returns (r: Result<()>)
      requires Valid()
      modifies this
      ensures Valid()
      ensures FindIndex(old(projects), HasId(id)).None? ==>
        r == Err(Failure(RecordMissing)) && Respond(r.error, false).status == 500 && projects == old(projects)
      ensures FindIndex(old(projects), HasId(id)).Some? ==>
        r == Ok(()) && projects == Filter(old(projects), NotId(id))
    {
      if FindIndex(projects, HasId(id)).None? {
        return Err(Failure(RecordMissing));
      }
      UniqueKeysSub(projects, Filter(projects, NotId(id)), ProjectId);
      projects := Filter(projects, NotId(id));
      r := Ok(());
    }
  }
}
