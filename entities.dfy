/** The three content records the admin panel manages, with the shapes of the
    `Project`, `OngoingProject`/`Milestone` and `Review` interfaces. Ids and
    numbers are JavaScript numbers that only ever hold integers here. */
module Entities {
  import opened Util

  /** The `mode` prop every dialog takes. */
  datatype Mode = Add | Edit

  datatype CaseStudy = CaseStudy(
    challenge: string,
    solution: string,
    outcome: string,
    techStack: seq<string>)

  datatype Project = Project(
    id: int,
    title: string,
    description: string,
    image: string,
    tags: seq<string>,
    github: string,
    demo: string,
    caseStudy: CaseStudy)

  /** A milestone has no identity of its own beyond its position. */
  datatype Milestone = Milestone(title: string, completed: bool)

  predicate IsCompleted(m: Milestone) {
    m.completed
  }

  /** `milestones.filter((m) => m.completed).length`, the "n of m completed"
      figure on the ongoing projects screen. */
  function CompletedCount(ms: seq<Milestone>): (n: nat)
    ensures n <= |ms|
  {
    Count(ms, IsCompleted)
  }

  /** "n of n completed" exactly when every milestone is done. */
  lemma AllCompleted(ms: seq<Milestone>)
    ensures CompletedCount(ms) == |ms| <==> forall i :: 0 <= i < |ms| ==> ms[i].completed
  {
    if forall i :: 0 <= i < |ms| ==> ms[i].completed {
      FilterAll(ms, IsCompleted);
    } else {
      FilterShorter(ms, IsCompleted);
    }
  }

  datatype OngoingProject = OngoingProject(
    id: int,
    title: string,
    description: string,
    image: string,
    tags: seq<string>,
    progress: int,
    startDate: string,
    estimatedCompletion: string,
    milestones: seq<Milestone>)

  /** `company` is the one optional field (`company?: string`). */
  datatype Review = Review(
    id: int,
    name: string,
    role: string,
    company: Option<string>,
    image: string,
    rating: int,
    text: string,
    date: string,
    featured: bool)

  // The id accessors and the `{ ...x, id }` spreads the store uses.

  function ProjectId(p: Project): int { p.id }
  function WithProjectId(p: Project, id: int): Project { p.(id := id) }

  function OngoingProjectId(p: OngoingProject): int { p.id }
  function WithOngoingProjectId(p: OngoingProject, id: int): OngoingProject { p.(id := id) }

  function ReviewId(r: Review): int { r.id }
  function WithReviewId(r: Review, id: int): Review { r.(id := id) }
}
