/** The add/edit dialog for a client review. Unlike the other two dialogs it
    does not call the store: the saved review is the draft with an id, the
    edited review's own or a random one. */
module ReviewDialogs {
  import opened Util
  import opened Entities
  import opened Crud

  /** The text inputs of the form. */
  datatype TextField = Name | Role | Company | Image | Text | Date

  /** The add-mode draft, dated `today` (the month and year the caller reads
      from the clock): rating 5, not featured, an empty company. */
  function EmptyDraft(today: string): (d: Review)
    ensures d.rating == 5 && !d.featured && d.company == Some("")
    ensures d.name == "" && d.role == "" && d.image == "" && d.text == "" && d.date == today
  {
    Review(0, "", "", Some(""), "", 5, "", today, false)
  }

  function InitialDraft(review: Option<Review>, mode: Mode, today: string): (d: Review)
    ensures mode == Edit && review.Some? ==> d == review.value
    ensures !(mode == Edit && review.Some?) ==> d == EmptyDraft(today)
  {
    if review.Some? && mode == Edit then review.value else EmptyDraft(today)
  }

  function FieldOf(name: string): Option<TextField> {
    if name == "name" then Some(Name)
    else if name == "role" then Some(Role)
    else if name == "company" then Some(Company)
    else if name == "image" then Some(Image)
    else if name == "text" then Some(Text)
    else if name == "date" then Some(Date)
    else None
  }

  /** `handleChange(name, value)`: the named text field becomes `value`; a
      company typed in is present from then on, even when empty. */
  function Changed(d: Review, name: string, value: string): (r: Review)
    ensures FieldOf(name) == Some(Name) ==> r == d.(name := value)
    ensures FieldOf(name) == Some(Role) ==> r == d.(role := value)
    ensures FieldOf(name) == Some(Company) ==> r == d.(company := Some(value))
    ensures FieldOf(name) == Some(Image) ==> r == d.(image := value)
    ensures FieldOf(name) == Some(Text) ==> r == d.(text := value)
    ensures FieldOf(name) == Some(Date) ==> r == d.(date := value)
    ensures FieldOf(name).None? ==> r == d
    ensures r.id == d.id && r.rating == d.rating && r.featured == d.featured
  {
    match FieldOf(name)
    case Some(Name) => d.(name := value)
    case Some(Role) => d.(role := value)
    case Some(Company) => d.(company := Some(value))
    case Some(Image) => d.(image := value)
    case Some(Text) => d.(text := value)
    case Some(Date) => d.(date := value)
    case None => d
  }

  /** The ratings the star picker offers. */
  const PickerRatings: seq<int> := [1, 2, 3, 4, 5]

  /** Star `star` of the picker is drawn filled: `star <= (rating || 0)`. */
  predicate StarLit(star: int, rating: int) {
    star <= rating
  }

  /** The id `handleSubmit` gives the saved review: `review?.id ||
      Math.floor(Math.random() * 1000)`, with `randomId` the random draw. An
      id of 0 counts as missing. */
  function SavedId(review: Option<Review>, randomId: int): (id: int)
    ensures review.Some? && review.value.id != 0 ==> id == review.value.id
    ensures review.None? || review.value.id == 0 ==> id == randomId
  {
    if review.Some? && review.value.id != 0 then review.value.id else randomId
  }

  /** The random id is drawn without looking at the list, so a new review can
      land on any id that is already taken; adding it then breaks id
      uniqueness. */
  lemma RandomIdCanCollide(s: seq<Review>, k: int, draft: Review)
    requires 0 <= k < 1000 && HasId(s, ReviewId, k)
    ensures !UniqueIds(s + [draft.(id := SavedId(None, k))], ReviewId)
  {
    var i :| 0 <= i < |s| && ReviewId(s[i]) == k;
    var t := s + [draft.(id := SavedId(None, k))];
    assert ReviewId(t[i]) == ReviewId(t[|s|]);
  }

  class ReviewDialog {
    const mode: Mode
    var review: Option<Review>
    var formData: Review
    var isSubmitting: bool

    constructor(mode: Mode, today: string)
      ensures this.mode == mode && review == None && formData == EmptyDraft(today) && !isSubmitting
    {
      this.mode := mode;
      review := None;
      formData := EmptyDraft(today);
      isSubmitting := false;
    }

    /** The dialog rendered with its `review` prop: the draft is reset. */
    method Open(review: Option<Review>, today: string)
      modifies this
      ensures this.review == review && formData == InitialDraft(review, mode, today)
      ensures isSubmitting == old(isSubmitting)
    {
      this.review := review;
      formData := InitialDraft(review, mode, today);
    }

    method HandleChange(name: string, value: string)
      modifies this
      ensures formData == Changed(old(formData), name, value)
      ensures review == old(review) && isSubmitting == old(isSubmitting)
    {
      formData := Changed(formData, name, value);
    }

    /** `handleRatingChange(rating)`: the rating and nothing else. */
    method HandleRatingChange(rating: int)
      modifies this
      ensures formData == old(formData).(rating := rating)
      ensures review == old(review) && isSubmitting == old(isSubmitting)
    {
      formData := formData.(rating := rating);
    }

    /** A click on star `k + 1` of the picker. */
    method PickRating(k: int)
      requires 0 <= k < |PickerRatings|
      modifies this
      ensures formData == old(formData).(rating := k + 1)
      ensures 1 <= formData.rating <= 5
      ensures forall star :: 1 <= star <= 5 ==> (StarLit(star, formData.rating) <==> star <= k + 1)
      ensures review == old(review) && isSubmitting == old(isSubmitting)
    {
      HandleRatingChange(PickerRatings[k]);
    }

    /** `handleFeaturedChange(checked)`: the flag and nothing else. */
    method HandleFeaturedChange(checked: bool)
      modifies this
      ensures formData == old(formData).(featured := checked)
      ensures review == old(review) && isSubmitting == old(isSubmitting)
    {
      formData := formData.(featured := checked);
    }

    /** `handleSubmit`: the draft with its id, handed to the save callback. */
    method HandleSubmit(randomId: int) returns (saved: Review)
      requires 0 <= randomId < 1000
      modifies this
      ensures saved == old(formData).(id := SavedId(review, randomId))
      ensures review.Some? && review.value.id != 0 ==> saved.id == review.value.id
      ensures 0 <= saved.id < 1000 || (review.Some? && saved.id == review.value.id)
      ensures formData == old(formData) && review == old(review) && !isSubmitting
    {
      isSubmitting := true;
      saved := formData.(id := SavedId(review, randomId));
      isSubmitting := false;
    }
  }
}
