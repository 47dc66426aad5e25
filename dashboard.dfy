/** The admin dashboard: the statistics it shows (fetched, or built-in
    figures when the fetch failed), the pending-content flags, and the route
    a section card leads to. */
module Dashboard {
  import opened Util
  import opened Text

  datatype Visit = Visit(date: string, visits: int)

  datatype DashboardStats = DashboardStats(
    totalProjects: int,
    totalSkills: int,
    totalTestimonials: int,
    totalFeatured: int,
    totalReviews: int,
    totalQuotations: int,
    pendingSections: seq<string>,
    recentVisits: int,
    visitsData: seq<Visit>)

  /** The figures written into the dashboard itself. */
  const MockStats: DashboardStats := DashboardStats(
    4, 10, 4, 1, 6, 2,
    ["Design Process", "Quotations", "Reviews"],
    256,
    [Visit("Jan", 120), Visit("Feb", 180), Visit("Mar", 220),
     Visit("Apr", 250), Visit("May", 300), Visit("Jun", 256)])

  /** The section cards of the content-management panel, in order. */
  const SectionNames: seq<string> := [
    "Projects", "Ongoing Projects", "Skills", "Featured Work", "Testimonials",
    "Reviews", "Design Process", "Quotations", "About"]

  /** `stats || mockStats`: `None` is the state before or after a failed
      fetch. */
  function Displayed(stats: Option<DashboardStats>): (d: DashboardStats)
    ensures stats.Some? ==> d == stats.value
    ensures stats.None? ==> d == MockStats
  {
    stats.GetOr(MockStats)
  }

  /** The "Pending Content" alert is shown. */
  predicate ShowsPendingAlert(d: DashboardStats) {
    |d.pendingSections| > 0
  }

  /** A section card carries the amber border and the "Pending" badge. */
  predicate CardPending(d: DashboardStats, name: string) {
    name in d.pendingSections
  }

  /** A card is marked only when the alert is up. */
  lemma PendingCardMeansAlert(d: DashboardStats, name: string)
    requires CardPending(d, name)
    ensures ShowsPendingAlert(d)
  {
  }

  /** Without fetched figures, the alert shows and exactly the Reviews,
      Design Process and Quotations cards are marked. */
  lemma MockPending()
    ensures ShowsPendingAlert(Displayed(None))
    ensures forall i :: 0 <= i < |SectionNames| ==>
      (CardPending(Displayed(None), SectionNames[i]) <==> i == 5 || i == 6 || i == 7)
  {
    var d := Displayed(None);
    assert CardPending(d, SectionNames[5]) && CardPending(d, SectionNames[6]) && CardPending(d, SectionNames[7]);
    assert SectionNames[0] == "Projects" && SectionNames[1] == "Ongoing Projects" && SectionNames[2] == "Skills";
    assert SectionNames[3] == "Featured Work" && SectionNames[4] == "Testimonials" && SectionNames[8] == "About";
  }

  /** One card of the content-management panel: its name, the item count it
      shows and whether it is marked pending. */
  datatype Card = Card(name: string, count: int, pending: bool)

  /** The nine cards, in panel order. The Ongoing Projects, Design Process
      and About cards show fixed counts. */
  function Cards(d: DashboardStats): (cs: seq<Card>)
    ensures |cs| == |SectionNames|
    ensures forall i :: 0 <= i < |cs| ==> cs[i].name == SectionNames[i]
    ensures forall i :: 0 <= i < |cs| ==> (cs[i].pending <==> CardPending(d, SectionNames[i]))
  {
    var counts := [d.totalProjects, 2, d.totalSkills, d.totalFeatured, d.totalTestimonials,
                   d.totalReviews, 1, d.totalQuotations, 1];
    seq(|SectionNames|, i requires 0 <= i < |SectionNames| =>
      Card(SectionNames[i], counts[i], CardPending(d, SectionNames[i])))
  }

  /** The counts a card shows come from the displayed figures. */
  lemma CardCounts(d: DashboardStats)
    ensures Cards(d)[0].count == d.totalProjects && Cards(d)[2].count == d.totalSkills
    ensures Cards(d)[3].count == d.totalFeatured && Cards(d)[4].count == d.totalTestimonials
    ensures Cards(d)[5].count == d.totalReviews && Cards(d)[7].count == d.totalQuotations
    ensures Cards(d)[1].count == 2 && Cards(d)[6].count == 1 && Cards(d)[8].count == 1
  {
  }

  /** `section.toLowerCase().replace(/\s+/g, "-")`. */
  function Slug(section: string): (slug: string)
    ensures NoSpace(slug)
    ensures |slug| <= |section|
  {
    CollapseHasNoSpace(Lower(section));
    CollapseSpaces(Lower(section))
  }

  /** The route `navigateToSection` pushes. */
  function Route(section: string): (route: string)
    ensures |route| >= 7 && route[..7] == "/admin/"
    ensures NoSpace(route[7..])
  {
    var route := "/admin/" + Slug(section);
    assert route[7..] == Slug(section);
    route
  }

  /** The slug keeps every character that is neither white space nor `-`,
      in order, lower-cased. */
  lemma SlugKeepsText(section: string)
    ensures Filter(Slug(section), Solid) == Lower(Filter(section, Solid))
  {
    CollapseKeepsSolid(Lower(section));
    LowerKeepsSolid(section);
  }

  /** A white-space run between two words without white space becomes one
      `-`. */
  lemma CollapseTwoWords(u: string, sp: string, v: string)
    requires NoSpace(u) && NoSpace(v) && v != []
    requires sp != [] && AllSpace(sp)
    ensures CollapseSpaces(u + sp + v) == u + "-" + v
  {
    CollapseRun(u, sp, v);
    CollapseIdentity(v);
  }

  /** A section name of two words, whatever their case, separated by white
      space leads to the lower-cased words joined by `-`. */
  lemma TwoWordRoute(u: string, sp: string, v: string)
    requires NoSpace(u) && NoSpace(v) && v != []
    requires sp != [] && AllSpace(sp)
    ensures Route(u + sp + v) == "/admin/" + Lower(u) + "-" + Lower(v)
  {
    LowerAppend(u + sp, v);
    LowerAppend(u, sp);
    LowerIdempotent(u);
    LowerIdempotent(sp);
    LowerIdempotent(v);
    CollapseTwoWords(Lower(u), Lower(sp), Lower(v));
  }

  /** The two words of the Design Process card's name: neither holds white
      space, and each lower-cases to its slug part. */
  lemma DesignProcessWords()
    ensures NoSpace("Design") && NoSpace("Process") && AllSpace(" ")
    ensures Lower("Design") == "design" && Lower("Process") == "process"
  {
  }

  /** The Design Process card leads to `/admin/design-process`. */
  lemma DesignProcessRoute()
    ensures Route("Design Process") == "/admin/design-process"
  {
    assert "Design Process" == "Design" + " " + "Process";
    DesignProcessWords();
    TwoWordRoute("Design", " ", "Process");
  }
}
