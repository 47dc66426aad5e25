/** The projects screen of the admin panel: a local copy of the store's
    projects, merged with every save, and a search box filtering it. */
module ProjectsScreen {
  import opened Util
  import opened Text
  import opened Entities
  import opened Crud
  import opened Api
  import ProjectDialogs

  /** A project matches the query when the lower-cased query occurs in its
      lower-cased title, description or one of its tags. */
  predicate ProjectMatches(p: Project, query: string) {
    var q := Lower(query);
    Contains(Lower(p.title), q) || Contains(Lower(p.description), q) || SomeIncludes(p.tags, q)
  }

  /** `filteredProjects`: the matching projects, in list order. */
  function FilteredProjects(projects: seq<Project>, query: string): (r: seq<Project>)
    ensures IsSubsequence(r, projects)
    ensures forall i :: 0 <= i < |projects| ==> (projects[i] in r <==> ProjectMatches(projects[i], query))
    ensures forall i :: 0 <= i < |r| ==> ProjectMatches(r[i], query)
    ensures forall i :: 0 <= i < |projects| && ProjectMatches(projects[i], query) ==> multiset(r)[projects[i]] == multiset(projects)[projects[i]]
  {
    FilterIsSubsequence(projects, p => ProjectMatches(p, query));
    FilterMultiset(projects, p => ProjectMatches(p, query));
    Filter(projects, p => ProjectMatches(p, query))
  }

  /** An empty search box shows every project. */
  lemma EmptyQueryShowsAll(projects: seq<Project>)
    ensures FilteredProjects(projects, "") == projects
  {
    forall i | 0 <= i < |projects| ensures ProjectMatches(projects[i], "") {
      ContainsEmpty(Lower(projects[i].title));
    }
    FilterAll(projects, p => ProjectMatches(p, ""));
  }

  class ProjectsAdmin {
    var projects: seq<Project>
    var isLoading: bool
    var searchQuery: string
    var isAddDialogOpen: bool
    var isEditDialogOpen: bool
    var isDeleteDialogOpen: bool
    var currentProject: Option<Project>

    /** The local copy holds exactly what the store holds. */
    ghost predicate InSync(store: Store<Project>)
      reads this, store
    {
      projects == store.items
    }

    /** The visible rows. */
    function Filtered(): (r: seq<Project>)
      reads this
      ensures IsSubsequence(r, projects)
      ensures forall i :: 0 <= i < |r| ==> ProjectMatches(r[i], searchQuery)
      ensures forall i :: 0 <= i < |projects| ==> (projects[i] in r <==> ProjectMatches(projects[i], searchQuery))
      ensures forall i :: 0 <= i < |projects| && ProjectMatches(projects[i], searchQuery) ==> multiset(r)[projects[i]] == multiset(projects)[projects[i]]
    {
      FilteredProjects(projects, searchQuery)
    }

    constructor()
      ensures projects == [] && isLoading && searchQuery == ""
      ensures !isAddDialogOpen && !isEditDialogOpen && !isDeleteDialogOpen
      ensures currentProject == None
    {
      projects := [];
      isLoading := true;
      searchQuery := "";
      isAddDialogOpen := false;
      isEditDialogOpen := false;
      isDeleteDialogOpen := false;
      currentProject := None;
    }

    /** The effect on mount: the fetched copy replaces the local list. */
    method Load(store: Store<Project>)
      modifies this
      ensures InSync(store) && !isLoading
      ensures searchQuery == old(searchQuery) && currentProject == old(currentProject)
      ensures isAddDialogOpen == old(isAddDialogOpen) && isEditDialogOpen == old(isEditDialogOpen)
      ensures isDeleteDialogOpen == old(isDeleteDialogOpen)
    {
      var data := store.Fetch();
      projects := data;
      isLoading := false;
    }

    method SetSearchQuery(query: string)
      modifies this
      ensures searchQuery == query
      ensures projects == old(projects) && isLoading == old(isLoading) && currentProject == old(currentProject)
      ensures isAddDialogOpen == old(isAddDialogOpen) && isEditDialogOpen == old(isEditDialogOpen)
      ensures isDeleteDialogOpen == old(isDeleteDialogOpen)
    {
      searchQuery := query;
    }

    method OpenAdd()
      modifies this
      ensures isAddDialogOpen
      ensures projects == old(projects) && isLoading == old(isLoading) && searchQuery == old(searchQuery)
      ensures currentProject == old(currentProject)
      ensures isEditDialogOpen == old(isEditDialogOpen) && isDeleteDialogOpen == old(isDeleteDialogOpen)
    {
      isAddDialogOpen := true;
    }

    /** A row's edit button. */
    method OpenEdit(p: Project)
      modifies this
      ensures currentProject == Some(p) && isEditDialogOpen
      ensures projects == old(projects) && isLoading == old(isLoading) && searchQuery == old(searchQuery)
      ensures isAddDialogOpen == old(isAddDialogOpen) && isDeleteDialogOpen == old(isDeleteDialogOpen)
    {
      currentProject := Some(p);
      isEditDialogOpen := true;
    }

    /** A row's delete button. */
    method OpenDelete(p: Project)
      modifies this
      ensures currentProject == Some(p) && isDeleteDialogOpen
      ensures projects == old(projects) && isLoading == old(isLoading) && searchQuery == old(searchQuery)
      ensures isAddDialogOpen == old(isAddDialogOpen) && isEditDialogOpen == old(isEditDialogOpen)
    {
      currentProject := Some(p);
      isDeleteDialogOpen := true;
    }

    /** `handleAddProject`: the saved project goes at the end. */
    method HandleAdd(p: Project)
      modifies this
      ensures projects == old(projects) + [p] && !isAddDialogOpen
      ensures isLoading == old(isLoading) && searchQuery == old(searchQuery) && currentProject == old(currentProject)
      ensures isEditDialogOpen == old(isEditDialogOpen) && isDeleteDialogOpen == old(isDeleteDialogOpen)
    {
      projects := projects + [p];
      isAddDialogOpen := false;
    }

    /** `handleEditProject`: every entry with the saved id is replaced. */
    method HandleEdit(p: Project)
      modifies this
      ensures projects == ReplaceAll(old(projects), ProjectId, p)
      ensures |projects| == |old(projects)|
      ensures forall j :: 0 <= j < |projects| ==> projects[j] == (if old(projects)[j].id == p.id then p else old(projects)[j])
      ensures !isEditDialogOpen && currentProject == None
      ensures isLoading == old(isLoading) && searchQuery == old(searchQuery)
      ensures isAddDialogOpen == old(isAddDialogOpen) && isDeleteDialogOpen == old(isDeleteDialogOpen)
    {
      ReplaceAllFrame(projects, ProjectId, p);
      projects := ReplaceAll(projects, ProjectId, p);
      isEditDialogOpen := false;
      currentProject := None;
    }

    /** `handleDeleteProject`: nothing without a current project; otherwise
        `deleteProject` is awaited, and only when it resolves does the local
        list lose every entry with that id. `storeRejects` is the call
        throwing, which leaves everything as it was. */
    method HandleDelete(store: Store<Project>, storeRejects: bool)
      requires store.Valid() && store.key == ProjectId
      modifies this, store
      ensures store.Valid()
      ensures old(currentProject).None? || storeRejects ==>
        && projects == old(projects) && store.items == old(store.items)
        && currentProject == old(currentProject) && isDeleteDialogOpen == old(isDeleteDialogOpen)
      ensures old(currentProject).Some? && !storeRejects ==>
        && store.items == Deleted(old(store.items), ProjectId, old(currentProject).value.id)
        && projects == RemoveId(old(projects), ProjectId, old(currentProject).value.id)
        && !HasId(projects, ProjectId, old(currentProject).value.id)
        && currentProject == None && !isDeleteDialogOpen
      ensures old(InSync(store)) ==> InSync(store)
      ensures isLoading == old(isLoading) && searchQuery == old(searchQuery)
      ensures isAddDialogOpen == old(isAddDialogOpen) && isEditDialogOpen == old(isEditDialogOpen)
    {
      if currentProject.None? {
        return;
      }
      if storeRejects {
        return;
      }
      var id := currentProject.value.id;
      LocalDeleteMatchesStore(store.items, ProjectId, id);
      RemoveIdFrame(projects, ProjectId, id);
      store.Delete(id);
      projects := RemoveId(projects, ProjectId, id);
      isDeleteDialogOpen := false;
      currentProject := None;
    }

    /** The add dialog's submit followed by its save callback: the store and
        the local copy both gain the same new project. */
    method SaveAdded(dialog: ProjectDialogs.ProjectDialog, store: Store<Project>) returns (saved: Project)
      requires dialog.mode == Add
      requires store.Valid() && store.key == ProjectId && store.stamp == WithProjectId
      modifies this, dialog, store
      ensures store.Valid()
      ensures saved == old(dialog.formData).(id := NextId(old(store.items), ProjectId))
      ensures projects == old(projects) + [saved] && !isAddDialogOpen
      ensures old(InSync(store)) ==> InSync(store)
      ensures isLoading == old(isLoading) && searchQuery == old(searchQuery) && currentProject == old(currentProject)
      ensures isEditDialogOpen == old(isEditDialogOpen) && isDeleteDialogOpen == old(isDeleteDialogOpen)
    {
      saved := dialog.HandleSubmit(store);
      HandleAdd(saved);
    }

    /** The edit dialog's submit followed by its save callback: with unique
        ids, the local map-replace matches the store's update. */
    method SaveEdited(dialog: ProjectDialogs.ProjectDialog, store: Store<Project>) returns (saved: Project)
      requires dialog.mode == Edit
      requires store.Valid() && store.key == ProjectId && store.stamp == WithProjectId
      modifies this, dialog, store
      ensures store.Valid()
      ensures saved == old(dialog.formData)
      ensures projects == ReplaceAll(old(projects), ProjectId, saved)
      ensures !isEditDialogOpen && currentProject == None
      ensures old(InSync(store)) ==> InSync(store)
      ensures isLoading == old(isLoading) && searchQuery == old(searchQuery)
      ensures isAddDialogOpen == old(isAddDialogOpen) && isDeleteDialogOpen == old(isDeleteDialogOpen)
    {
      LocalEditMatchesStore(store.items, ProjectId, dialog.formData);
      saved := dialog.HandleSubmit(store);
      HandleEdit(saved);
    }
  }
}
