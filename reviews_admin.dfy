/** The reviews screen of the admin panel. Its list starts from a fixed set
    of reviews written into the screen itself, and its saves and deletes
    change only that local list: no store call is made. */
module ReviewsScreen {
  import opened Util
  import opened Text
  import opened Entities
  import opened Crud
  import ReviewDialogs

  /** A review matches when the lower-cased query occurs in its lower-cased
      name, role, company or text; a review without a company never matches
      on the company. */
  predicate ReviewMatches(r: Review, query: string) {
    var q := Lower(query);
    || Contains(Lower(r.name), q)
    || Contains(Lower(r.role), q)
    || (r.company.Some? && Contains(Lower(r.company.value), q))
    || Contains(Lower(r.text), q)
  }

  /** `filteredReviews`: the matching reviews, in list order. */
  function FilteredReviews(reviews: seq<Review>, query: string): (r: seq<Review>)
    ensures IsSubsequence(r, reviews)
    ensures forall i :: 0 <= i < |reviews| ==> (reviews[i] in r <==> ReviewMatches(reviews[i], query))
    ensures forall i :: 0 <= i < |r| ==> ReviewMatches(r[i], query)
    ensures forall i :: 0 <= i < |reviews| && ReviewMatches(reviews[i], query) ==> multiset(r)[reviews[i]] == multiset(reviews)[reviews[i]]
  {
    FilterIsSubsequence(reviews, r => ReviewMatches(r, query));
    FilterMultiset(reviews, r => ReviewMatches(r, query));
    Filter(reviews, r => ReviewMatches(r, query))
  }

  lemma EmptyQueryShowsAll(reviews: seq<Review>)
    ensures FilteredReviews(reviews, "") == reviews
  {
    forall i | 0 <= i < |reviews| ensures ReviewMatches(reviews[i], "") {
      ContainsEmpty(Lower(reviews[i].name));
    }
    FilterAll(reviews, r => ReviewMatches(r, ""));
  }

  /** The row with its `featured` flag flipped: `{ ...review, featured: !review.featured }`. */
  function Flipped(r: Review): (f: Review)
    ensures f.featured == !r.featured && f.(featured := r.featured) == r
  {
    r.(featured := !r.featured)
  }

  /** `toggleFeatured(review)`'s list: every entry with the review's id is
      replaced by the flipped review. */
  function ToggledFeatured(reviews: seq<Review>, review: Review): (r: seq<Review>)
    ensures |r| == |reviews|
    ensures forall j :: 0 <= j < |reviews| && reviews[j].id == review.id ==> r[j] == Flipped(review)
    ensures forall j :: 0 <= j < |reviews| && reviews[j].id != review.id ==> r[j] == reviews[j]
  {
    ReplaceAllFrame(reviews, ReviewId, Flipped(review));
    ReplaceAll(reviews, ReviewId, Flipped(review))
  }

  /** Toggling a listed review changes only its `featured` flag. */
  lemma ToggleFlipsOnlyFeatured(reviews: seq<Review>, review: Review)
    requires forall j :: 0 <= j < |reviews| && reviews[j].id == review.id ==> reviews[j] == review
    ensures forall j :: 0 <= j < |reviews| ==>
      && ToggledFeatured(reviews, review)[j].(featured := reviews[j].featured) == reviews[j]
      && (reviews[j].id == review.id <==> ToggledFeatured(reviews, review)[j].featured != reviews[j].featured)
  {
  }

  /** Clicking the star twice (the second time on the row as it now reads)
      gives the list back. */
  lemma ToggleTwice(reviews: seq<Review>, review: Review)
    requires forall j :: 0 <= j < |reviews| && reviews[j].id == review.id ==> reviews[j] == review
    ensures ToggledFeatured(ToggledFeatured(reviews, review), Flipped(review)) == reviews
  {
    var once := ToggledFeatured(reviews, review);
    var twice := ToggledFeatured(once, Flipped(review));
    forall j | 0 <= j < |reviews| ensures twice[j] == reviews[j] {
      assert once[j].id == reviews[j].id;
    }
  }

  class ReviewsAdmin {
    var reviews: seq<Review>
    var isLoading: bool
    var searchQuery: string
    var isAddDialogOpen: bool
    var isEditDialogOpen: bool
    var isDeleteDialogOpen: bool
    var currentReview: Option<Review>

    function Filtered(): (r: seq<Review>)
      reads this
      ensures IsSubsequence(r, reviews)
      ensures forall i :: 0 <= i < |r| ==> ReviewMatches(r[i], searchQuery)
      ensures forall i :: 0 <= i < |reviews| ==> (reviews[i] in r <==> ReviewMatches(reviews[i], searchQuery))
      ensures forall i :: 0 <= i < |reviews| && ReviewMatches(reviews[i], searchQuery) ==> multiset(r)[reviews[i]] == multiset(reviews)[reviews[i]]
    {
      FilteredReviews(reviews, searchQuery)
    }

    constructor()
      ensures reviews == [] && isLoading && searchQuery == ""
      ensures !isAddDialogOpen && !isEditDialogOpen && !isDeleteDialogOpen
      ensures currentReview == None
    {
      reviews := [];
      isLoading := true;
      searchQuery := "";
      isAddDialogOpen := false;
      isEditDialogOpen := false;
      isDeleteDialogOpen := false;
      currentReview := None;
    }

    /** The effect on mount: the screen's own list of reviews is loaded. */
    method Load(initial: seq<Review>)
      modifies this
      ensures reviews == initial && !isLoading
      ensures searchQuery == old(searchQuery) && currentReview == old(currentReview)
      ensures isAddDialogOpen == old(isAddDialogOpen) && isEditDialogOpen == old(isEditDialogOpen)
      ensures isDeleteDialogOpen == old(isDeleteDialogOpen)
    {
      reviews := initial;
      isLoading := false;
    }

    method SetSearchQuery(query: string)
      modifies this
      ensures searchQuery == query
      ensures reviews == old(reviews) && isLoading == old(isLoading) && currentReview == old(currentReview)
      ensures isAddDialogOpen == old(isAddDialogOpen) && isEditDialogOpen == old(isEditDialogOpen)
      ensures isDeleteDialogOpen == old(isDeleteDialogOpen)
    {
      searchQuery := query;
    }

    method OpenAdd()
      modifies this
      ensures isAddDialogOpen
      ensures reviews == old(reviews) && isLoading == old(isLoading) && searchQuery == old(searchQuery)
      ensures currentReview == old(currentReview)
      ensures isEditDialogOpen == old(isEditDialogOpen) && isDeleteDialogOpen == old(isDeleteDialogOpen)
    {
      isAddDialogOpen := true;
    }

    method OpenEdit(r: Review)
      modifies this
      ensures currentReview == Some(r) && isEditDialogOpen
      ensures reviews == old(reviews) && isLoading == old(isLoading) && searchQuery == old(searchQuery)
      ensures isAddDialogOpen == old(isAddDialogOpen) && isDeleteDialogOpen == old(isDeleteDialogOpen)
    {
      currentReview := Some(r);
      isEditDialogOpen := true;
    }

    method OpenDelete(r: Review)
      modifies this
      ensures currentReview == Some(r) && isDeleteDialogOpen
      ensures reviews == old(reviews) && isLoading == old(isLoading) && searchQuery == old(searchQuery)
      ensures isAddDialogOpen == old(isAddDialogOpen) && isEditDialogOpen == old(isEditDialogOpen)
    {
      currentReview := Some(r);
      isDeleteDialogOpen := true;
    }

    /** `handleAddReview`: the saved review goes at the end. */
    method HandleAdd(r: Review)
      modifies this
      ensures reviews == old(reviews) + [r] && !isAddDialogOpen
      ensures isLoading == old(isLoading) && searchQuery == old(searchQuery) && currentReview == old(currentReview)
      ensures isEditDialogOpen == old(isEditDialogOpen) && isDeleteDialogOpen == old(isDeleteDialogOpen)
    {
      reviews := reviews + [r];
      isAddDialogOpen := false;
    }

    /** `handleEditReview`: every entry with the saved id is replaced. */
    method HandleEdit(r: Review)
      modifies this
      ensures reviews == ReplaceAll(old(reviews), ReviewId, r)
      ensures |reviews| == |old(reviews)|
      ensures forall j :: 0 <= j < |reviews| ==> reviews[j] == (if old(reviews)[j].id == r.id then r else old(reviews)[j])
      ensures !isEditDialogOpen && currentReview == None
      ensures isLoading == old(isLoading) && searchQuery == old(searchQuery)
      ensures isAddDialogOpen == old(isAddDialogOpen) && isDeleteDialogOpen == old(isDeleteDialogOpen)
    {
      ReplaceAllFrame(reviews, ReviewId, r);
      reviews := ReplaceAll(reviews, ReviewId, r);
      isEditDialogOpen := false;
      currentReview := None;
    }

    /** `handleDeleteReview`: nothing without a current review; otherwise
        every entry with its id leaves the list, the others keep their order. */
    method HandleDelete()
      modifies this
      ensures old(currentReview).None? ==>
        reviews == old(reviews) && currentReview == None && isDeleteDialogOpen == old(isDeleteDialogOpen)
      ensures old(currentReview).Some? ==>
        && reviews == RemoveId(old(reviews), ReviewId, old(currentReview).value.id)
        && IsSubsequence(reviews, old(reviews))
        && !HasId(reviews, ReviewId, old(currentReview).value.id)
        && currentReview == None && !isDeleteDialogOpen
      ensures isLoading == old(isLoading) && searchQuery == old(searchQuery)
      ensures isAddDialogOpen == old(isAddDialogOpen) && isEditDialogOpen == old(isEditDialogOpen)
    {
      if currentReview.None? {
        return;
      }
      var id := currentReview.value.id;
      RemoveIdFrame(reviews, ReviewId, id);
      reviews := RemoveId(reviews, ReviewId, id);
      isDeleteDialogOpen := false;
      currentReview := None;
    }

    /** The star button on a row. */
    method ToggleFeatured(r: Review)
      modifies this
      ensures reviews == ToggledFeatured(old(reviews), r)
      ensures isLoading == old(isLoading) && searchQuery == old(searchQuery) && currentReview == old(currentReview)
      ensures isAddDialogOpen == old(isAddDialogOpen) && isEditDialogOpen == old(isEditDialogOpen)
      ensures isDeleteDialogOpen == old(isDeleteDialogOpen)
    {
      var updated := r.(featured := !r.featured);
      reviews := ReplaceAll(reviews, ReviewId, updated);
    }

    /** The add dialog's submit followed by its save callback. */
    method SaveAdded(dialog: ReviewDialogs.ReviewDialog, randomId: int) returns (saved: Review)
      requires dialog.mode == Add && 0 <= randomId < 1000
      modifies this, dialog
      ensures saved == old(dialog.formData).(id := ReviewDialogs.SavedId(dialog.review, randomId))
      ensures reviews == old(reviews) + [saved] && !isAddDialogOpen
      ensures isLoading == old(isLoading) && searchQuery == old(searchQuery) && currentReview == old(currentReview)
      ensures isEditDialogOpen == old(isEditDialogOpen) && isDeleteDialogOpen == old(isDeleteDialogOpen)
    {
      saved := dialog.HandleSubmit(randomId);
      HandleAdd(saved);
    }

    /** The edit dialog's submit followed by its save callback: editing a
        review with a non-zero id replaces that review in place. */
    method SaveEdited(dialog: ReviewDialogs.ReviewDialog, randomId: int) returns (saved: Review)
      requires dialog.mode == Edit && 0 <= randomId < 1000
      modifies this, dialog
      ensures saved == old(dialog.formData).(id := ReviewDialogs.SavedId(dialog.review, randomId))
      ensures dialog.review.Some? && dialog.review.value.id != 0 ==> saved.id == dialog.review.value.id
      ensures reviews == ReplaceAll(old(reviews), ReviewId, saved)
      ensures !isEditDialogOpen && currentReview == None
      ensures isLoading == old(isLoading) && searchQuery == old(searchQuery)
      ensures isAddDialogOpen == old(isAddDialogOpen) && isDeleteDialogOpen == old(isDeleteDialogOpen)
    {
      saved := dialog.HandleSubmit(randomId);
      HandleEdit(saved);
    }
  }
}
