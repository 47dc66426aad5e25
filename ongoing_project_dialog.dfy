/** The add/edit dialog for a project in development: the draft with its
    guarded progress field, the tag chips and the milestone list. */
module OngoingProjectDialogs {
  import opened Util
  import opened Text
  import opened Entities
  import opened Tokens
  import opened Crud
  import opened Api

  /** The free-text inputs of the form; `progress` is handled apart. */
  datatype TextField = Title | Description | Image | StartDate | EstimatedCompletion

  /** The add-mode draft: nothing filled in, progress 0, no tags and no
      milestones, started `today` and due `inThirtyDays` (both supplied by
      the caller, who reads the clock). The id 0 stands in for the missing
      one; `create*` replaces it. */
  function EmptyDraft(today: string, inThirtyDays: string): (d: OngoingProject)
    ensures d.progress == 0 && d.tags == [] && d.milestones == []
    ensures d.title == "" && d.description == "" && d.image == ""
    ensures d.startDate == today && d.estimatedCompletion == inThirtyDays
  {
    OngoingProject(0, "", "", "", [], 0, today, inThirtyDays, [])
  }

  /** The draft the dialog shows when opened. In edit mode it is the project
      with both dates passed through `isoDay`, which stands for
      `new Date(d).toISOString().split("T")[0]`. */
  function InitialDraft(project: Option<OngoingProject>, mode: Mode, today: string, inThirtyDays: string,
                        isoDay: string -> string): (d: OngoingProject)
    ensures mode == Edit && project.Some? ==>
      && d.id == project.value.id && d.title == project.value.title
      && d.description == project.value.description && d.image == project.value.image
      && d.tags == project.value.tags && d.progress == project.value.progress
      && d.milestones == project.value.milestones
      && d.startDate == isoDay(project.value.startDate)
      && d.estimatedCompletion == isoDay(project.value.estimatedCompletion)
    ensures !(mode == Edit && project.Some?) ==> d == EmptyDraft(today, inThirtyDays)
  {
    if project.Some? && mode == Edit then
      project.value.(startDate := isoDay(project.value.startDate),
                     estimatedCompletion := isoDay(project.value.estimatedCompletion))
    else EmptyDraft(today, inThirtyDays)
  }

  function Get(p: OngoingProject, f: TextField): string {
    match f
    case Title => p.title
    case Description => p.description
    case Image => p.image
    case StartDate => p.startDate
    case EstimatedCompletion => p.estimatedCompletion
  }

  function Set(p: OngoingProject, f: TextField, v: string): (r: OngoingProject)
    ensures Get(r, f) == v
    ensures forall g :: g != f ==> Get(r, g) == Get(p, g)
    ensures r.id == p.id && r.tags == p.tags && r.progress == p.progress && r.milestones == p.milestones
  {
    match f
    case Title => p.(title := v)
    case Description => p.(description := v)
    case Image => p.(image := v)
    case StartDate => p.(startDate := v)
    case EstimatedCompletion => p.(estimatedCompletion := v)
  }

  /** The text field an input name writes, for the names the form uses. */
  function FieldOf(name: string): Option<TextField> {
    if name == "title" then Some(Title)
    else if name == "description" then Some(Description)
    else if name == "image" then Some(Image)
    else if name == "startDate" then Some(StartDate)
    else if name == "estimatedCompletion" then Some(EstimatedCompletion)
    else None
  }

  /** `parseInt(value)` reads an integer from 0 to 100 inclusive. */
  predicate ProgressInRange(value: string) {
    var v := ParseInt(value);
    v.Some? && 0 <= v.value <= 100
  }

  /** `handleChange(name, value)` on the draft: the progress input is taken
      only when it parses into range; any other input is taken as typed. */
  function Changed(d: OngoingProject, name: string, value: string): (r: OngoingProject)
    ensures name == "progress" && ProgressInRange(value) ==> r == d.(progress := ParseInt(value).value)
    ensures name == "progress" && !ProgressInRange(value) ==> r == d
    ensures name != "progress" ==> r.progress == d.progress
    ensures r.id == d.id && r.tags == d.tags && r.milestones == d.milestones
  {
    if name == "progress" then
      if ProgressInRange(value) then d.(progress := ParseInt(value).value) else d
    else
      match FieldOf(name)
      case Some(f) => Set(d, f, value)
      case None => d
  }

  /** A progress that starts in range stays in range, whatever is typed. */
  lemma ProgressStaysInRange(d: OngoingProject, name: string, value: string)
    requires 0 <= d.progress <= 100
    ensures 0 <= Changed(d, name, value).progress <= 100
  {
  }

  /** Typing the digits of a number sets the progress to it when it is at
      most 100 and is ignored above that. */
  lemma TypedProgress(d: OngoingProject, n: nat)
    ensures n <= 100 ==> Changed(d, "progress", Decimal(n)) == d.(progress := n)
    ensures n > 100 ==> Changed(d, "progress", Decimal(n)) == d
  {
    ParseDecimal(n);
  }

  /** Input that is not a number at all (`parseInt` gives NaN) is ignored. */
  lemma NonNumericProgress(d: OngoingProject, value: string)
    requires ParseInt(value).None?
    ensures Changed(d, "progress", value) == d
  {
  }

  /** Any other input writes exactly its own field. */
  lemma TextChangeFrame(d: OngoingProject, name: string, value: string)
    requires FieldOf(name).Some?
    ensures Get(Changed(d, name, value), FieldOf(name).value) == value
    ensures forall g :: g != FieldOf(name).value ==> Get(Changed(d, name, value), g) == Get(d, g)
    ensures Changed(d, name, value).progress == d.progress
  {
  }

  // ------------------------------------------------------------ milestones

  /** `addMilestone`'s list: a new, not yet completed milestone titled with
      the trimmed input, when that is non-blank. Titles may repeat. */
  function AddMilestone(ms: seq<Milestone>, input: string): (r: seq<Milestone>)
    ensures Trim(input) != "" ==> |r| == |ms| + 1 && r[..|ms|] == ms && r[|ms|] == Milestone(Trim(input), false)
    ensures Trim(input) == "" ==> r == ms
  {
    if Trim(input) != "" then ms + [Milestone(Trim(input), false)] else ms
  }

  /** `toggleMilestoneCompletion(index)`'s list. */
  function ToggleMilestone(ms: seq<Milestone>, index: int): (r: seq<Milestone>)
    requires 0 <= index < |ms|
    ensures |r| == |ms|
    ensures r[index].completed == !ms[index].completed
    ensures forall j :: 0 <= j < |ms| ==> r[j].title == ms[j].title
    ensures forall j :: 0 <= j < |ms| && j != index ==> r[j] == ms[j]
  {
    ms[index := ms[index].(completed := !ms[index].completed)]
  }

  /** Toggling the same milestone twice gives the list back. */
  lemma ToggleTwice(ms: seq<Milestone>, index: int)
    requires 0 <= index < |ms|
    ensures ToggleMilestone(ToggleMilestone(ms, index), index) == ms
  {
  }

  /** A toggle moves the completed count by exactly one, up when the
      milestone was open and down when it was done. */
  lemma ToggleMovesCount(ms: seq<Milestone>, index: int)
    requires 0 <= index < |ms|
    ensures ms[index].completed ==> CompletedCount(ToggleMilestone(ms, index)) == CompletedCount(ms) - 1
    ensures !ms[index].completed ==> CompletedCount(ToggleMilestone(ms, index)) == CompletedCount(ms) + 1
  {
    CountUpdate(ms, index, ms[index].(completed := !ms[index].completed), IsCompleted);
  }

  class OngoingProjectDialog {
    const mode: Mode
    var formData: OngoingProject
    var tagInput: string
    var milestoneInput: string
    var isSubmitting: bool

    constructor(mode: Mode, today: string, inThirtyDays: string)
      ensures this.mode == mode && formData == EmptyDraft(today, inThirtyDays)
      ensures tagInput == "" && milestoneInput == "" && !isSubmitting
    {
      this.mode := mode;
      formData := EmptyDraft(today, inThirtyDays);
      tagInput := "";
      milestoneInput := "";
      isSubmitting := false;
    }

    method Open(project: Option<OngoingProject>, today: string, inThirtyDays: string, isoDay: string -> string)
      modifies this
      ensures formData == InitialDraft(project, mode, today, inThirtyDays, isoDay)
      ensures tagInput == old(tagInput) && milestoneInput == old(milestoneInput)
      ensures isSubmitting == old(isSubmitting)
    {
      formData := InitialDraft(project, mode, today, inThirtyDays, isoDay);
    }

    method HandleChange(name: string, value: string)
      modifies this
      ensures formData == Changed(old(formData), name, value)
      ensures 0 <= old(formData.progress) <= 100 ==> 0 <= formData.progress <= 100
      ensures tagInput == old(tagInput) && milestoneInput == old(milestoneInput)
      ensures isSubmitting == old(isSubmitting)
    {
      if name == "progress" {
        var progressValue := ParseInt(value);
        if progressValue.Some? && 0 <= progressValue.value <= 100 {
          formData := formData.(progress := progressValue.value);
        }
      } else {
        formData := Changed(formData, name, value);
      }
    }

    method SetTagInput(value: string)
      modifies this
      ensures tagInput == value
      ensures formData == old(formData) && milestoneInput == old(milestoneInput)
      ensures isSubmitting == old(isSubmitting)
    {
      tagInput := value;
    }

    method SetMilestoneInput(value: string)
      modifies this
      ensures milestoneInput == value
      ensures formData == old(formData) && tagInput == old(tagInput)
      ensures isSubmitting == old(isSubmitting)
    {
      milestoneInput := value;
    }

    method AddTag()
      modifies this
      ensures formData == old(formData).(tags := AddToken(old(formData.tags), old(tagInput)))
      ensures tagInput == InputAfterAdd(old(formData.tags), old(tagInput))
      ensures milestoneInput == old(milestoneInput) && isSubmitting == old(isSubmitting)
    {
      var t := Trim(tagInput);
      if t != "" && t !in formData.tags {
        formData := formData.(tags := formData.tags + [t]);
        tagInput := "";
      }
    }

    method RemoveTag(tag: string)
      modifies this
      ensures formData == old(formData).(tags := RemoveToken(old(formData.tags), tag))
      ensures tagInput == old(tagInput) && milestoneInput == old(milestoneInput)
      ensures isSubmitting == old(isSubmitting)
    {
      formData := formData.(tags := RemoveToken(formData.tags, tag));
    }

    /** `addMilestone`: the input is cleared exactly when a milestone was
        added. */
    method AddMilestoneFromInput()
      modifies this
      ensures formData == old(formData).(milestones := AddMilestone(old(formData.milestones), old(milestoneInput)))
      ensures milestoneInput == if Trim(old(milestoneInput)) != "" then "" else old(milestoneInput)
      ensures tagInput == old(tagInput) && isSubmitting == old(isSubmitting)
    {
      var t := Trim(milestoneInput);
      if t != "" {
        formData := formData.(milestones := formData.milestones + [Milestone(t, false)]);
        milestoneInput := "";
      }
    }

    /** `removeMilestone(index)`: a copy of the list, spliced at `index`. */
    method RemoveMilestone(index: int)
      modifies this
      ensures formData == old(formData).(milestones := SpliceOne(old(formData.milestones), index))
      ensures tagInput == old(tagInput) && milestoneInput == old(milestoneInput)
      ensures isSubmitting == old(isSubmitting)
    {
      var updated := formData.milestones;
      updated := SpliceOne(updated, index);
      formData := formData.(milestones := updated);
    }

    /** `toggleMilestoneCompletion(index)`, called with the index of a
        listed milestone. */
    method ToggleMilestoneCompletion(index: int)
      requires 0 <= index < |formData.milestones|
      modifies this
      ensures formData == old(formData).(milestones := ToggleMilestone(old(formData.milestones), index))
      ensures tagInput == old(tagInput) && milestoneInput == old(milestoneInput)
      ensures isSubmitting == old(isSubmitting)
    {
      var updated := formData.milestones;
      updated := updated[index := updated[index].(completed := !updated[index].completed)];
      formData := formData.(milestones := updated);
    }

    method HandleSubmit(store: Store<OngoingProject>) returns (saved: OngoingProject)
      requires store.Valid() && store.key == OngoingProjectId && store.stamp == WithOngoingProjectId
      modifies this, store
      ensures store.Valid()
      ensures mode == Add ==> && saved == old(formData).(id := NextId(old(store.items), OngoingProjectId))
                               && store.items == old(store.items) + [saved]
      ensures mode == Edit ==> saved == old(formData) && store.items == Updated(old(store.items), OngoingProjectId, saved)
      ensures formData == old(formData) && tagInput == old(tagInput) && milestoneInput == old(milestoneInput)
      ensures !isSubmitting
    {
      isSubmitting := true;
      if mode == Add {
        saved := store.Create(formData);
      } else {
        saved := store.Update(formData);
      }
      isSubmitting := false;
    }
  }
}
