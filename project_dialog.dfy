/** The add/edit dialog for a portfolio project: a draft record edited field
    by field, the tag and tech-stack chip lists, and the save through the
    store. */
module ProjectDialogs {
  import opened Util
  import opened Text
  import opened Entities
  import opened Tokens
  import opened Crud
  import opened Api

  /** The text inputs of the form: five top-level fields and the three
      case-study fields named `caseStudy.challenge` and so on. */
  datatype TextField = Title | Description | Image | Github | Demo | Challenge | Solution | Outcome

  const EmptyCaseStudy: CaseStudy := CaseStudy("", "", "", [])

  /** The add-mode draft. The source's draft has no `id` at all; 0 stands in
      for it here, and `create*` replaces it. */
  const EmptyProject: Project := Project(0, "", "", "", [], "", "", EmptyCaseStudy)

  /** The draft the dialog shows when opened: the project itself when editing
      one, the empty draft otherwise. */
  function InitialDraft(project: Option<Project>, mode: Mode): (d: Project)
    ensures mode == Edit && project.Some? ==> d == project.value
    ensures !(mode == Edit && project.Some?) ==>
      && (forall f :: Get(d, f) == "")
      && d.tags == [] && d.caseStudy.techStack == []
  {
    if project.Some? && mode == Edit then project.value else EmptyProject
  }

  function Get(p: Project, f: TextField): string {
    match f
    case Title => p.title
    case Description => p.description
    case Image => p.image
    case Github => p.github
    case Demo => p.demo
    case Challenge => p.caseStudy.challenge
    case Solution => p.caseStudy.solution
    case Outcome => p.caseStudy.outcome
  }

  /** Writing one text field: that field reads back as written, every other
      field, the id and both lists are as they were. */
  function Set(p: Project, f: TextField, v: string): (r: Project)
    ensures Get(r, f) == v
    ensures forall g :: g != f ==> Get(r, g) == Get(p, g)
    ensures r.id == p.id && r.tags == p.tags && r.caseStudy.techStack == p.caseStudy.techStack
  {
    match f
    case Title => p.(title := v)
    case Description => p.(description := v)
    case Image => p.(image := v)
    case Github => p.(github := v)
    case Demo => p.(demo := v)
    case Challenge => p.(caseStudy := p.caseStudy.(challenge := v))
    case Solution => p.(caseStudy := p.caseStudy.(solution := v))
    case Outcome => p.(caseStudy := p.caseStudy.(outcome := v))
  }

  /** A plain input name. */
  function TopField(name: string): Option<TextField> {
    if name == "title" then Some(Title)
    else if name == "description" then Some(Description)
    else if name == "image" then Some(Image)
    else if name == "github" then Some(Github)
    else if name == "demo" then Some(Demo)
    else None
  }

  /** The child of a `caseStudy.child` input name. */
  function CaseStudyField(child: string): Option<TextField> {
    if child == "challenge" then Some(Challenge)
    else if child == "solution" then Some(Solution)
    else if child == "outcome" then Some(Outcome)
    else None
  }

  /** The field `handleChange` writes for an input name: a name with a dot is
      read as `[parent, child] = name.split(".")`. Names that would write
      something other than a text field of the record give `None`. */
  function FieldOf(name: string): Option<TextField> {
    if '.' in name then
      var parent := UpTo(name, '.');
      var child := UpTo(After(name, '.'), '.');
      if parent == "caseStudy" then CaseStudyField(child) else None
    else TopField(name)
  }

  /** `handleChange(name, value)` on the draft. */
  function Changed(d: Project, name: string, value: string): (r: Project)
    ensures FieldOf(name).Some? ==> Get(r, FieldOf(name).value) == value
    ensures FieldOf(name).Some? ==> forall g :: g != FieldOf(name).value ==> Get(r, g) == Get(d, g)
    ensures r.id == d.id && r.tags == d.tags && r.caseStudy.techStack == d.caseStudy.techStack
    ensures FieldOf(name).None? ==> r == d
  {
    match FieldOf(name)
    case Some(f) => Set(d, f, value)
    case None => d
  }

  /** A dotted name is split at its first dot and its second piece ends at
      the next dot: `caseStudy.challenge` (and anything after a further dot)
      writes the case study's challenge, and so on. */
  lemma DottedName(child: string, rest: string)
    requires '.' !in child
    requires rest == [] || rest[0] == '.'
    ensures FieldOf("caseStudy." + child + rest) == CaseStudyField(child)
  {
    var name := "caseStudy." + child + rest;
    assert name == "caseStudy" + ['.'] + (child + rest);
    SplitAtFirst("caseStudy", '.', child + rest);
    UpToPrefix(child, rest, '.');
    assert name[9] == '.';
  }

  /** A name without a dot is looked up among the top-level fields; only
      `title`, `description`, `image`, `github` and `demo` write one. */
  lemma PlainName(name: string)
    requires '.' !in name
    ensures FieldOf(name) == TopField(name)
    ensures FieldOf(name).Some? <==> name in ["title", "description", "image", "github", "demo"]
  {
  }

  /** For instance the challenge input, `caseStudy.challenge`. */
  lemma ChallengeInputName()
    ensures FieldOf("caseStudy.challenge") == Some(Challenge)
  {
    assert "caseStudy.challenge" == "caseStudy." + "challenge" + "";
    DottedName("challenge", "");
  }

  class ProjectDialog {
    const mode: Mode
    var formData: Project
    var tagInput: string
    var techStackInput: string
    var isSubmitting: bool

    constructor(mode: Mode)
      ensures this.mode == mode && formData == EmptyProject
      ensures tagInput == "" && techStackInput == "" && !isSubmitting
    {
      this.mode := mode;
      formData := EmptyProject;
      tagInput := "";
      techStackInput := "";
      isSubmitting := false;
    }

    /** The effect run when the dialog opens or its project changes: only the
        draft is reset, the chip inputs keep what they held. */
    method Open(project: Option<Project>)
      modifies this
      ensures formData == InitialDraft(project, mode)
      ensures tagInput == old(tagInput) && techStackInput == old(techStackInput)
      ensures isSubmitting == old(isSubmitting)
    {
      formData := InitialDraft(project, mode);
    }

    method HandleChange(name: string, value: string)
      modifies this
      ensures formData == Changed(old(formData), name, value)
      ensures tagInput == old(tagInput) && techStackInput == old(techStackInput)
      ensures isSubmitting == old(isSubmitting)
    {
      formData := Changed(formData, name, value);
    }

    method SetTagInput(value: string)
      modifies this
      ensures tagInput == value
      ensures formData == old(formData) && techStackInput == old(techStackInput)
      ensures isSubmitting == old(isSubmitting)
    {
      tagInput := value;
    }

    method SetTechStackInput(value: string)
      modifies this
      ensures techStackInput == value
      ensures formData == old(formData) && tagInput == old(tagInput)
      ensures isSubmitting == old(isSubmitting)
    {
      techStackInput := value;
    }

    /** `addTag`: the trimmed input joins the tags and the input is cleared,
        when it is non-blank and new; otherwise nothing changes. */
    method AddTag()
      modifies this
      ensures formData == old(formData).(tags := AddToken(old(formData.tags), old(tagInput)))
      ensures tagInput == InputAfterAdd(old(formData.tags), old(tagInput))
      ensures techStackInput == old(techStackInput) && isSubmitting == old(isSubmitting)
    {
      var t := Trim(tagInput);
      if t != "" && t !in formData.tags {
        formData := formData.(tags := formData.tags + [t]);
        tagInput := "";
      }
    }

    method RemoveTag(tag: string)
      modifies this
      ensures formData == old(formData).(tags := RemoveToken(old(formData.tags), tag))
      ensures tagInput == old(tagInput) && techStackInput == old(techStackInput)
      ensures isSubmitting == old(isSubmitting)
    {
      formData := formData.(tags := RemoveToken(formData.tags, tag));
    }

    /** `addTechStack`: as `addTag`, on the case study's tech stack; the
        challenge, solution and outcome are kept. */
    method AddTechStack()
      modifies this
      ensures formData == old(formData).(caseStudy := old(formData.caseStudy).(
        techStack := AddToken(old(formData.caseStudy.techStack), old(techStackInput))))
      ensures techStackInput == InputAfterAdd(old(formData.caseStudy.techStack), old(techStackInput))
      ensures tagInput == old(tagInput) && isSubmitting == old(isSubmitting)
    {
      var t := Trim(techStackInput);
      if t != "" && t !in formData.caseStudy.techStack {
        formData := formData.(caseStudy := formData.caseStudy.(techStack := formData.caseStudy.techStack + [t]));
        techStackInput := "";
      }
    }

    method RemoveTechStack(tech: string)
      modifies this
      ensures formData == old(formData).(caseStudy := old(formData.caseStudy).(
        techStack := RemoveToken(old(formData.caseStudy.techStack), tech)))
      ensures tagInput == old(tagInput) && techStackInput == old(techStackInput)
      ensures isSubmitting == old(isSubmitting)
    {
      formData := formData.(caseStudy := formData.caseStudy.(techStack := RemoveToken(formData.caseStudy.techStack, tech)));
    }

    /** `handleSubmit`: `create*` in add mode, `update*` in edit mode; the
        result is what is handed to the screen's save callback. */
    method HandleSubmit(store: Store<Project>) returns (saved: Project)
      requires store.Valid() && store.key == ProjectId && store.stamp == WithProjectId
      modifies this, store
      ensures store.Valid()
      ensures mode == Add ==> && saved == old(formData).(id := NextId(old(store.items), ProjectId))
                               && store.items == old(store.items) + [saved]
      ensures mode == Edit ==> saved == old(formData) && store.items == Updated(old(store.items), ProjectId, saved)
      ensures formData == old(formData) && tagInput == old(tagInput) && techStackInput == old(techStackInput)
      ensures !isSubmitting
    {
      isSubmitting := true;
      if mode == Add {
        saved := store.Create(formData);
      } else {
        saved := store.Update(formData);
      }
      isSubmitting := false;
    }
  }
}
