/**
 * The frontend's project-list store: the list of projects, a loading flag
 * and the last fetch error, updated around the awaited API calls. The
 * outcome of each call (a value, or the error it threw) is a parameter.
 */
module AppStore {
  import opened Common
  import opened Seqs

  datatype Project = Project(id: Id, name: string, createdAt: string)

  /** What an awaited API call did: resolved with a value, or threw. */
  datatype Outcome<T> = Resolved(value: T) | Threw(thrown: Thrown)

  /** A thrown value: an `Error` with its message, or anything else. */
  datatype Thrown = ErrorValue(message: string) | OtherValue

  const FetchFailedText: string := "Errore caricamento progetti"

  /** `e instanceof Error ? e.message : "Errore caricamento progetti"`. */
  function FetchErrorText(e: Thrown): (text: string)
    ensures e.ErrorValue? ==> text == e.message
    ensures e.OtherValue? ==> text == FetchFailedText
  {
    match e
    case ErrorValue(m) => m
    case OtherValue => FetchFailedText
  }

  /** `projects.map(p => p.id === id ? { ...p, name } : p)`. */
  function Renamed(projects: seq<Project>, id: Id, name: string): (r: seq<Project>)
  {
    seq(|projects|, i requires 0 <= i < |projects| =>
      if projects[i].id == id then projects[i].(name := name) else projects[i])
  }

  /** Renaming keeps every entry in place and changes only the name of the entries with that id. */
  lemma RenamedSpec(projects: seq<Project>, id: Id, name: string)
    ensures |Renamed(projects, id, name)| == |projects|
    ensures forall i :: 0 <= i < |projects| ==>
      Renamed(projects, id, name)[i].id == projects[i].id &&
      Renamed(projects, id, name)[i].createdAt == projects[i].createdAt &&
      Renamed(projects, id, name)[i].name == (if projects[i].id == id then name else projects[i].name)
  {
  }

  function IsNot(id: Id): Project -> bool {
    (p: Project) => p.id != id
  }

  /**
   * `projects.filter(p => p.id !== id)` removes exactly the entries with that
   * id: none is left, every other entry stays, and a list without that id
   * comes back unchanged.
   */
  lemma RemovedExactly(projects: seq<Project>, id: Id)
    ensures forall p :: p in Filter(projects, IsNot(id)) ==> p in projects && p.id != id
    ensures forall p :: p in projects && p.id != id ==> p in Filter(projects, IsNot(id))
    ensures (forall p :: p in projects ==> p.id != id) ==> Filter(projects, IsNot(id)) == projects
  {
    var r := Filter(projects, IsNot(id));
    forall p | p in r ensures p in projects && p.id != id {
      var i :| 0 <= i < |r| && r[i] == p;
      assert IsNot(id)(r[i]);
    }
    forall p | p in projects && p.id != id ensures p in r {
      var i :| 0 <= i < |projects| && projects[i] == p;
      assert IsNot(id)(projects[i]);
    }
    if forall p :: p in projects ==> p.id != id {
      forall i | 0 <= i < |projects| ensures IsNot(id)(projects[i]) {
        assert projects[i] in projects;
      }
      FilterAll(projects, IsNot(id));
    }
  }

  class ProjectsStore {
    var projects: seq<Project>
    var loading: bool
    var error: Option<string>

    /** The initial state: no projects, not loading, no error. */
    constructor ()
      ensures projects == [] && !loading && error == None
    {
      projects := [];
      loading := false;
      error := None;
    }

    /** The first `set` of fetchProjects, before the request. */
    method StartFetch()
      modifies this
      ensures loading && error == None && projects == old(projects)
    {
      loading := true;
      error := None;
    }

    /** The `set` of fetchProjects after the request settles. */
    method SettleFetch(response: Outcome<seq<Project>>)
      modifies this
      ensures !loading
      ensures response.Resolved? ==> projects == response.value && error == old(error)
      ensures response.Threw? ==> projects == old(projects) && error == Some(FetchErrorText(response.thrown))
    {
      match response {
        case Resolved(ps) =>
          projects := ps;
          loading := false;
        case Threw(e) =>
          error := Some(FetchErrorText(e));
          loading := false;
      }
    }

    /**
     * `fetchProjects()`: on success the list is replaced and no error is set;
     * on failure the list is kept and the error text recorded; either way
     * loading ends false.
     */
    method FetchProjects(response: Outcome<seq<Project>>)
      modifies this
      ensures !loading
      ensures response.Resolved? ==> projects == response.value && error == None
      ensures response.Threw? ==> projects == old(projects) && error == Some(FetchErrorText(response.thrown))
    {
      StartFetch();
      SettleFetch(response);
    }

    /** `createProject(name)`: the created project is put first; a failed call changes nothing. */
    method CreateProject(name: string, response: Outcome<Project>) returns (created: Outcome<Project>)
      modifies this
      ensures created == response
      ensures response.Resolved? ==> projects == [response.value] + old(projects)
      ensures response.Threw? ==> projects == old(projects)
      ensures loading == old(loading) && error == old(error)
    {
      if response.Resolved? {
        projects := [response.value] + projects;
      }
      created := response;
    }

    /** `updateProject(id, name)`: renames the entries with that id; a failed call changes nothing. */
    method UpdateProject(id: Id, name: string, response: Outcome<()>)
      modifies this
      ensures response.Resolved? ==> projects == Renamed(old(projects), id, name)
      ensures response.Threw? ==> projects == old(projects)
      ensures loading == old(loading) && error == old(error)
    {
      if response.Resolved? {
        projects := Renamed(projects, id, name);
      }
    }

    /** `deleteProject(id)`: drops the entries with that id; a failed call changes nothing. */
    method DeleteProject(id: Id, response: Outcome<()>)
      modifies this
      ensures response.Resolved? ==> projects == Filter(old(projects), IsNot(id))
      ensures response.Threw? ==> projects == old(projects)
      ensures loading == old(loading) && error == old(error)
    {
      if response.Resolved? {
        projects := Filter(projects, IsNot(id));
      }
    }
  }
}
