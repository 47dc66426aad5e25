/** The mock back end: one in-memory store per resource (`mockProjects`,
    `mockOngoingProjects`, `mockReviews`) changed in place by `create*`,
    `update*` and `delete*`, read by `fetch*`, and the content check the
    dashboard asks for. Delays are left out: every call is one atomic step. */
module Api {
  import opened Util
  import opened Crud
  import opened Entities

  /** A module-level array of records together with the way its records are
      keyed. `Valid` is the invariant every operation keeps: the id spread
      behaves as a spread, and no two stored records share an id. */
  class Store<T(!new)> {
    var items: seq<T>
    const key: T -> int
    const stamp: (T, int) -> T

    ghost predicate Valid()
      reads this
    {
      StampLaw(key, stamp) && UniqueIds(items, key)
    }

    constructor(seed: seq<T>, key: T -> int, stamp: (T, int) -> T)
      requires StampLaw(key, stamp) && UniqueIds(seed, key)
      ensures Valid()
      ensures items == seed && this.key == key && this.stamp == stamp
    {
      items := seed;
      this.key := key;
      this.stamp := stamp;
    }

    /** `fetch*`: `[...store]`. The copy is a value, so later changes to it
        cannot reach the store, nor changes to the store reach it. */
    method Fetch() returns (r: seq<T>)
      ensures r == items
    {
      r := items;
    }

    /** `create*`: the input with the next free id, pushed at the end. */
    method Create(x: T) returns (r: T)
      requires Valid()
      modifies this
      ensures Valid()
      ensures items == Created(old(items), key, stamp, x)
      ensures r == stamp(x, NextId(old(items), key))
      ensures |items| == |old(items)| + 1 && items[..|old(items)|] == old(items) && items[|old(items)|] == r
      ensures key(r) >= 1 && forall i :: 0 <= i < |old(items)| ==> key(old(items)[i]) < key(r)
    {
      CreateAppendsFresh(items, key, stamp, x);
      CreateKeepsUnique(items, key, stamp, x);
      r := stamp(x, NextId(items, key));
      items := items + [r];
    }

    /** `update*`: overwrite the entry found by `findIndex`, if any; the
        argument is returned either way. */
    method Update(x: T) returns (r: T)
      requires Valid()
      modifies this
      ensures Valid()
      ensures items == Updated(old(items), key, x)
      ensures r == x
      ensures |items| == |old(items)|
    {
      UpdateKeepsUnique(items, key, x);
      UpdateKeepsIds(items, key, x);
      var index := FindIndex(items, key, key(x));
      if index != -1 {
        items := items[index := x];
      }
      r := x;
    }

    /** `delete*`: `splice(findIndex, 1)`, if the id is there. */
    method Delete(id: int)
      requires Valid()
      modifies this
      ensures Valid()
      ensures items == Deleted(old(items), key, id)
      ensures !HasId(items, key, id)
    {
      DeleteKeepsUnique(items, key, id);
      var index := FindIndex(items, key, id);
      if index != -1 {
        items := items[..index] + items[index + 1..];
      }
    }
  }

  // The three stores, each keyed by its record's `id`.

  lemma ProjectStamp()
    ensures StampLaw(ProjectId, WithProjectId)
  {
  }

  lemma OngoingProjectStamp()
    ensures StampLaw(OngoingProjectId, WithOngoingProjectId)
  {
  }

  lemma ReviewStamp()
    ensures StampLaw(ReviewId, WithReviewId)
  {
  }

  method NewProjectStore(seed: seq<Project>) returns (s: Store<Project>)
    requires UniqueIds(seed, ProjectId)
    ensures fresh(s) && s.Valid() && s.items == seed
    ensures s.key == ProjectId && s.stamp == WithProjectId
  {
    ProjectStamp();
    s := new Store(seed, ProjectId, WithProjectId);
  }

  method NewOngoingProjectStore(seed: seq<OngoingProject>) returns (s: Store<OngoingProject>)
    requires UniqueIds(seed, OngoingProjectId)
    ensures fresh(s) && s.Valid() && s.items == seed
    ensures s.key == OngoingProjectId && s.stamp == WithOngoingProjectId
  {
    OngoingProjectStamp();
    s := new Store(seed, OngoingProjectId, WithOngoingProjectId);
  }

  method NewReviewStore(seed: seq<Review>) returns (s: Store<Review>)
    requires UniqueIds(seed, ReviewId)
    ensures fresh(s) && s.Valid() && s.items == seed
    ensures s.key == ReviewId && s.stamp == WithReviewId
  {
    ReviewStamp();
    s := new Store(seed, ReviewId, WithReviewId);
  }

  // ------------------------------------------------ checkSectionContent

  datatype Status = Empty | Partial | Complete

  datatype SectionStatus = SectionStatus(hasContent: bool, status: Status, progress: int)

  /** The section ids the content check knows about. */
  const KnownSections: set<string> := {"reviews", "design-process", "quotations", "featured-work"}

  /** `checkSectionContent(sectionId)` when the review store holds
      `reviewCount` records. Only the reviews entry depends on the store; the
      other known sections are fixed, and any other id falls back to empty. */
  function SectionContent(sectionId: string, reviewCount: nat): (r: SectionStatus)
    ensures 0 <= r.progress <= 100
    ensures sectionId == "reviews" ==>
      && (r.hasContent <==> reviewCount > 0)
      && (r.status == Complete <==> reviewCount > 3)
      && (r.status == Partial <==> 1 <= reviewCount <= 3)
      && (r.status == Empty <==> reviewCount == 0)
      && (r.progress == 100 <==> r.status == Complete)
      && r.progress == (if reviewCount > 3 then 100 else 25 * reviewCount)
    ensures sectionId !in KnownSections ==> r == SectionStatus(false, Empty, 0)
  {
    if sectionId == "reviews" then
      SectionStatus(
        reviewCount > 0,
        if reviewCount > 3 then Complete else if reviewCount > 0 then Partial else Empty,
        if reviewCount > 3 then 100 else reviewCount * 25)
    else if sectionId == "design-process" then SectionStatus(false, Partial, 60)
    else if sectionId == "quotations" then SectionStatus(true, Partial, 80)
    else if sectionId == "featured-work" then SectionStatus(true, Partial, 40)
    else SectionStatus(false, Empty, 0)
  }

  /** More reviews never lower the reviews section's progress or status. */
  lemma ReviewProgressMonotone(n: nat, m: nat)
    requires n <= m
    ensures SectionContent("reviews", n).progress <= SectionContent("reviews", m).progress
    ensures SectionContent("reviews", n).hasContent ==> SectionContent("reviews", m).hasContent
    ensures SectionContent("reviews", n).status == Complete ==> SectionContent("reviews", m).status == Complete
  {
  }

  /** Only the reviews entry depends on the store. */
  lemma OtherSectionsFixed(sectionId: string, n: nat, m: nat)
    requires sectionId != "reviews"
    ensures SectionContent(sectionId, n) == SectionContent(sectionId, m)
  {
  }

  method CheckSectionContent(reviews: Store<Review>, sectionId: string) returns (r: SectionStatus)
    ensures r == SectionContent(sectionId, |reviews.items|)
  {
    r := SectionContent(sectionId, |reviews.items|);
  }
}
