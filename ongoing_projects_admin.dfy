/** The ongoing projects screen of the admin panel: as the projects screen,
    plus the days left until a project's estimated completion and its
    milestone count. */
module OngoingProjectsScreen {
  import opened Util
  import opened Text
  import opened Entities
  import opened Crud
  import opened Api
  import OngoingProjectDialogs

  /** A project matches the query when the lower-cased query occurs in its
      lower-cased title, description or one of its tags. */
  predicate OngoingMatches(p: OngoingProject, query: string) {
    var q := Lower(query);
    Contains(Lower(p.title), q) || Contains(Lower(p.description), q) || SomeIncludes(p.tags, q)
  }

  /** `filteredProjects`: the matching projects, in list order. */
  function FilteredOngoing(projects: seq<OngoingProject>, query: string): (r: seq<OngoingProject>)
    ensures IsSubsequence(r, projects)
    ensures forall i :: 0 <= i < |projects| ==> (projects[i] in r <==> OngoingMatches(projects[i], query))
    ensures forall i :: 0 <= i < |r| ==> OngoingMatches(r[i], query)
    ensures forall i :: 0 <= i < |projects| && OngoingMatches(projects[i], query) ==> multiset(r)[projects[i]] == multiset(projects)[projects[i]]
  {
    FilterIsSubsequence(projects, p => OngoingMatches(p, query));
    FilterMultiset(projects, p => OngoingMatches(p, query));
    Filter(projects, p => OngoingMatches(p, query))
  }

  /** An empty search box shows every project. */
  lemma EmptyQueryShowsAll(projects: seq<OngoingProject>)
    ensures FilteredOngoing(projects, "") == projects
  {
    forall i | 0 <= i < |projects| ensures OngoingMatches(projects[i], "") {
      ContainsEmpty(Lower(projects[i].title));
    }
    FilterAll(projects, p => OngoingMatches(p, ""));
  }

  const MsPerDay: int := 1000 * 60 * 60 * 24

  /** `calculateDaysRemaining(endDate)` with `end` the parsed end date in
      milliseconds (`None` when the date does not parse, `NaN`) and `now` the
      current time: whole days left, rounded up, and 0 once the date is
      reached or when it is not a date. */
  function DaysRemaining(end: Option<int>, now: int): (days: int)
    ensures days >= 0
    ensures days > 0 <==> end.Some? && end.value > now
    ensures days > 0 ==> (days - 1) * MsPerDay < end.value - now <= days * MsPerDay
  {
    if end.None? then 0
    else
      var diffTime := end.value - now;
      var diffDays := -((-diffTime) / MsPerDay);
      if diffDays > 0 then diffDays else 0
  }

  /** One more day of waiting never increases the days left, and a date a
      whole number of days ahead has exactly that many days left. */
  lemma DaysRemainingSteps(end: int, now: int, k: nat)
    ensures DaysRemaining(Some(end), now + MsPerDay) <= DaysRemaining(Some(end), now)
    ensures DaysRemaining(Some(now + k * MsPerDay), now) == k
  {
  }

  class OngoingProjectsAdmin {
    var projects: seq<OngoingProject>
    var isLoading: bool
    var searchQuery: string
    var isAddDialogOpen: bool
    var isEditDialogOpen: bool
    var isDeleteDialogOpen: bool
    var currentProject: Option<OngoingProject>

    /** The local copy holds exactly what the store holds. */
    ghost predicate InSync(store: Store<OngoingProject>)
      reads this, store
    {
      projects == store.items
    }

    /** The visible rows. */
    function Filtered(): (r: seq<OngoingProject>)
      reads this
      ensures IsSubsequence(r, projects)
      ensures forall i :: 0 <= i < |r| ==> OngoingMatches(r[i], searchQuery)
      ensures forall i :: 0 <= i < |projects| ==> (projects[i] in r <==> OngoingMatches(projects[i], searchQuery))
      ensures forall i :: 0 <= i < |projects| && OngoingMatches(projects[i], searchQuery) ==> multiset(r)[projects[i]] == multiset(projects)[projects[i]]
    {
      FilteredOngoing(projects, searchQuery)
    }

    constructor()
      ensures projects == [] && isLoading && searchQuery == ""
      ensures !isAddDialogOpen && !isEditDialogOpen && !isDeleteDialogOpen
      ensures currentProject == None
    {
      projects := [];
      isLoading := true;
      searchQuery := "";
      isAddDialogOpen := false;
      isEditDialogOpen := false;
      isDeleteDialogOpen := false;
      currentProject := None;
    }

    /** The effect on mount: the fetched copy replaces the local list. */
    method Load(store: Store<OngoingProject>)
      modifies this
      ensures InSync(store) && !isLoading
      ensures searchQuery == old(searchQuery) && currentProject == old(currentProject)
      ensures isAddDialogOpen == old(isAddDialogOpen) && isEditDialogOpen == old(isEditDialogOpen)
      ensures isDeleteDialogOpen == old(isDeleteDialogOpen)
    {
      var data := store.Fetch();
      projects := data;
      isLoading := false;
    }

    method SetSearchQuery(query: string)
      modifies this
      ensures searchQuery == query
      ensures projects == old(projects) && isLoading == old(isLoading) && currentProject == old(currentProject)
      ensures isAddDialogOpen == old(isAddDialogOpen) && isEditDialogOpen == old(isEditDialogOpen)
      ensures isDeleteDialogOpen == old(isDeleteDialogOpen)
    {
      searchQuery := query;
    }

    method OpenAdd()
      modifies this
      ensures isAddDialogOpen
      ensures projects == old(projects) && isLoading == old(isLoading) && searchQuery == old(searchQuery)
      ensures currentProject == old(currentProject)
      ensures isEditDialogOpen == old(isEditDialogOpen) && isDeleteDialogOpen == old(isDeleteDialogOpen)
    {
      isAddDialogOpen := true;
    }

    /** A row's edit button. */
    method OpenEdit(p: OngoingProject)
      modifies this
      ensures currentProject == Some(p) && isEditDialogOpen
      ensures projects == old(projects) && isLoading == old(isLoading) && searchQuery == old(searchQuery)
      ensures isAddDialogOpen == old(isAddDialogOpen) && isDeleteDialogOpen == old(isDeleteDialogOpen)
    {
      currentProject := Some(p);
      isEditDialogOpen := true;
    }

    /** A row's delete button. */
    method OpenDelete(p: OngoingProject)
      modifies this
      ensures currentProject == Some(p) && isDeleteDialogOpen
      ensures projects == old(projects) && isLoading == old(isLoading) && searchQuery == old(searchQuery)
      ensures isAddDialogOpen == old(isAddDialogOpen) && isEditDialogOpen == old(isEditDialogOpen)
    {
      currentProject := Some(p);
      isDeleteDialogOpen := true;
    }

    /** `handleAddProject`: the saved project goes at the end. */
    method HandleAdd(p: OngoingProject)
      modifies this
      ensures projects == old(projects) + [p] && !isAddDialogOpen
      ensures isLoading == old(isLoading) && searchQuery == old(searchQuery) && currentProject == old(currentProject)
      ensures isEditDialogOpen == old(isEditDialogOpen) && isDeleteDialogOpen == old(isDeleteDialogOpen)
    {
      projects := projects + [p];
      isAddDialogOpen := false;
    }

    /** `handleEditProject`: every entry with the saved id is replaced. */
    method HandleEdit(p: OngoingProject)
      modifies this
      ensures projects == ReplaceAll(old(projects), OngoingProjectId, p)
      ensures |projects| == |old(projects)|
      ensures forall j :: 0 <= j < |projects| ==> projects[j] == (if old(projects)[j].id == p.id then p else old(projects)[j])
      ensures !isEditDialogOpen && currentProject == None
      ensures isLoading == old(isLoading) && searchQuery == old(searchQuery)
      ensures isAddDialogOpen == old(isAddDialogOpen) && isDeleteDialogOpen == old(isDeleteDialogOpen)
    {
      ReplaceAllFrame(projects, OngoingProjectId, p);
      projects := ReplaceAll(projects, OngoingProjectId, p);
      isEditDialogOpen := false;
      currentProject := None;
    }

    /** `handleDeleteProject`: nothing without a current project; otherwise
        `deleteOngoingProject` is awaited, and only when it resolves does the local
        list lose every entry with that id. `storeRejects` is the call
        throwing, which leaves everything as it was. */
    method HandleDelete(store: Store<OngoingProject>, storeRejects: bool)
      requires store.Valid() && store.key == OngoingProjectId
      modifies this, store
      ensures store.Valid()
      ensures old(currentProject).None? || storeRejects ==>
        && projects == old(projects) && store.items == old(store.items)
        && currentProject == old(currentProject) && isDeleteDialogOpen == old(isDeleteDialogOpen)
      ensures old(currentProject).Some? && !storeRejects ==>
        && store.items == Deleted(old(store.items), OngoingProjectId, old(currentProject).value.id)
        && projects == RemoveId(old(projects), OngoingProjectId, old(currentProject).value.id)
        && !HasId(projects, OngoingProjectId, old(currentProject).value.id)
        && currentProject == None && !isDeleteDialogOpen
      ensures old(InSync(store)) ==> InSync(store)
      ensures isLoading == old(isLoading) && searchQuery == old(searchQuery)
      ensures isAddDialogOpen == old(isAddDialogOpen) && isEditDialogOpen == old(isEditDialogOpen)
    {
      if currentProject.None? {
        return;
      }
      if storeRejects {
        return;
      }
      var id := currentProject.value.id;
      LocalDeleteMatchesStore(store.items, OngoingProjectId, id);
      RemoveIdFrame(projects, OngoingProjectId, id);
      store.Delete(id);
      projects := RemoveId(projects, OngoingProjectId, id);
      isDeleteDialogOpen := false;
      currentProject := None;
    }

    /** The add dialog's submit followed by its save callback: the store and
        the local copy both gain the same new project. */
    method SaveAdded(dialog: OngoingProjectDialogs.OngoingProjectDialog, store: Store<OngoingProject>) returns (saved: OngoingProject)
      requires dialog.mode == Add
      requires store.Valid() && store.key == OngoingProjectId && store.stamp == WithOngoingProjectId
      modifies this, dialog, store
      ensures store.Valid()
      ensures saved == old(dialog.formData).(id := NextId(old(store.items), OngoingProjectId))
      ensures projects == old(projects) + [saved] && !isAddDialogOpen
      ensures old(InSync(store)) ==> InSync(store)
      ensures isLoading == old(isLoading) && searchQuery == old(searchQuery) && currentProject == old(currentProject)
      ensures isEditDialogOpen == old(isEditDialogOpen) && isDeleteDialogOpen == old(isDeleteDialogOpen)
    {
      saved := dialog.HandleSubmit(store);
      HandleAdd(saved);
    }

    /** The edit dialog's submit followed by its save callback: with unique
        ids, the local map-replace matches the store's update. */
    method SaveEdited(dialog: OngoingProjectDialogs.OngoingProjectDialog, store: Store<OngoingProject>) returns (saved: OngoingProject)
      requires dialog.mode == Edit
      requires store.Valid() && store.key == OngoingProjectId && store.stamp == WithOngoingProjectId
      modifies this, dialog, store
      ensures store.Valid()
      ensures saved == old(dialog.formData)
      ensures projects == ReplaceAll(old(projects), OngoingProjectId, saved)
      ensures !isEditDialogOpen && currentProject == None
      ensures old(InSync(store)) ==> InSync(store)
      ensures isLoading == old(isLoading) && searchQuery == old(searchQuery)
      ensures isAddDialogOpen == old(isAddDialogOpen) && isDeleteDialogOpen == old(isDeleteDialogOpen)
    {
      LocalEditMatchesStore(store.items, OngoingProjectId, dialog.formData);
      saved := dialog.HandleSubmit(store);
      HandleEdit(saved);
    }
  }
}
