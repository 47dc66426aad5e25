# Portfolio admin panel and public forms, modelled in Dafny

This project models the content-management core of a portfolio web site:

- the mock data layer `lib/api.ts`. It keeps lists of projects, ongoing
  projects and reviews in memory. It hands out ids one past the largest
  in use, replaces entries by id and removes entries by id. It also computes
  a completeness status for a section of the site;
- the three admin screens (projects, ongoing projects, reviews). Each keeps
  a local copy of its list, filters it by a search query and mirrors every
  save and delete into that copy;
- the three add/edit dialogs. Each has a draft record, a by-name change
  handler, tag, tech-stack and milestone editing, and a submit step;
- the public quotation form (`components/quotations.tsx`), the admin
  dashboard (`components/admin/dashboard.tsx`) and the viewport observer
  wrapper (`components/performance/intersection-observer.tsx`).

Records are datatypes (`Entities`). A list the source mutates through React
state is a `seq` field of a class, and each handler is a `method` that
reassigns it. Each method's `ensures` ties the new state to a function of
the old state, and lemmas prove what those functions guarantee.

The store (`Api.Store`) is one generic class. Its type parameter is the
record type, with a key function reading the id and a stamp function
writing one. This mirrors the three copy-pasted groups of functions in the
source. `Crud` holds the list algebra:

- the store's update and delete touch the first entry with the id;
- the screens' mirrors touch every entry with it;
- `LocalEditMatchesStore` and `LocalDeleteMatchesStore` prove the two agree
  while ids are unique;
- `MirrorStaysInSync` extends that to any sequence of operations.

String handling lives in `Text`:

- the white-space set of `String.prototype.trim`;
- an ASCII `toLowerCase`;
- `includes`;
- `parseInt` with its radix detection and its stop at the first non-digit;
- the `replace(/\s+/g, "-")` slug.

Where the specification and the code disagree, the model follows the code:

- The reviews screen calls no store function. Its delete is a local
  filter (the store call is commented out in the source). It loads a list
  written into the screen itself, not the store's list.
- The ongoing-project dialog does not clamp an out-of-range progress
  value. It ignores the keystroke and keeps the previous value.

## Model

| member | source | states |
|---|---|---|
| Api.Store.constructor | lib/api.ts:205-211 | a store starts with the seed list under the given key and stamp, ids unique |
| Api.Store.Fetch | lib/api.ts:205-211 | fetching returns exactly the stored list |
| Api.Store.Create | lib/api.ts:213-227 | the created record is appended, stamped with an id at least 1 and above every id already stored; the rest of the list is untouched and ids stay unique |
| Api.Store.Update | lib/api.ts:229-241 | the first record with the same id is replaced, an unknown id changes nothing, the length is kept, the argument is returned, ids stay unique |
| Api.Store.Delete | lib/api.ts:243-253 | the first record with the id is removed; afterwards no record carries that id and ids stay unique |
| Api.NewProjectStore | lib/api.ts:205-253 | the project store is keyed and stamped by the project id |
| Api.NewOngoingProjectStore | lib/api.ts:256-304 | the ongoing-project store is keyed and stamped by its id |
| Api.NewReviewStore | lib/api.ts:307-355 | the review store is keyed and stamped by the review id |
| Api.ProjectStamp | lib/api.ts:218-221 | stamping a project with an id makes that its id |
| Api.OngoingProjectStamp | lib/api.ts:269-272 | stamping an ongoing project with an id makes that its id |
| Api.ReviewStamp | lib/api.ts:320-323 | stamping a review with an id makes that its id |
| Api.SectionContent | lib/api.ts:376-387 | progress lies in 0..100; reviews: content iff at least one, complete iff more than three, partial for one to three, 25 points per review; unknown sections are empty at 0 |
| Api.ReviewProgressMonotone | lib/api.ts:377-381 | more reviews never lower the progress or lose the content or complete status |
| Api.OtherSectionsFixed | lib/api.ts:382-387 | every section other than reviews has a status independent of the review count |
| Api.CheckSectionContent | lib/api.ts:367-388 | the status reported is the one for the current number of stored reviews |
| Crud.MaxId | lib/api.ts:220 | the value is non-negative, bounds every id, and is 0 or an id in the list |
| Crud.NextId | lib/api.ts:220 | the next id is at least 1, exceeds every id in the list, is 1 for an empty list and otherwise one past an existing id |
| Crud.FindIndex | lib/api.ts:234 | -1 exactly when no entry has the id; otherwise the first entry with it |
| Crud.CreateAppendsFresh | lib/api.ts:218-224 | creating appends one record whose id is the next id, above all earlier ids, and keeps the prefix |
| Crud.UpdatePresent | lib/api.ts:234-238 | with the id present, update replaces exactly its first occurrence |
| Crud.UpdateAbsent | lib/api.ts:234-238 | with the id absent, update leaves the list alone |
| Crud.UpdateKeepsIds | lib/api.ts:234-238 | update keeps the length and the id at every position |
| Crud.DeletePresent | lib/api.ts:248-252 | with the id present, delete cuts out its first occurrence and shortens the list by one |
| Crud.DeleteAbsent | lib/api.ts:248-252 | with the id absent, delete leaves the list alone |
| Crud.CreateKeepsUnique | lib/api.ts:218-224 | create keeps ids unique |
| Crud.UpdateKeepsUnique | lib/api.ts:234-238 | update keeps ids unique |
| Crud.DeleteKeepsUnique | lib/api.ts:248-252 | delete keeps ids unique and leaves no record with the deleted id |
| Crud.ApplyKeepsUnique | lib/api.ts:213-253 | any single store operation keeps ids unique |
| Crud.OpsKeepUnique | lib/api.ts:213-253 | any sequence of store operations keeps ids unique |
| Crud.Creates | lib/api.ts:213-227 | the operation list has one create per record, in order |
| Crud.CreatesNumberConsecutively | lib/api.ts:220 | starting from ids 1..n, successive creates number the records n+1, n+2, ... |
| Crud.ReplaceAllFrame | components/admin/projects/projects-admin.tsx:72 | the screen's edit mirror keeps the length, puts the saved record at every position with its id and leaves others untouched |
| Crud.RemoveIdFrame | components/admin/projects/projects-admin.tsx:86 | the screen's delete mirror leaves no entry with the id, keeps the others in order, and shortens the list when the id was there |
| Crud.LocalEditMatchesStore | components/admin/projects/projects-admin.tsx:72 | with unique ids, the screen's replace-every-match equals the store's replace-first-match |
| Crud.LocalDeleteMatchesStore | components/admin/projects/projects-admin.tsx:85-86 | with unique ids, the screen's filter equals the store's splice |
| Crud.MirrorStaysInSync | components/admin/projects/projects-admin.tsx:62-101 | a local copy updated by the screens' mirrors equals the store after any series of creates, updates and deletes |
| Entities.CompletedCount | components/admin/ongoing-projects/ongoing-projects-admin.tsx:245 | the completed count never exceeds the number of milestones |
| Entities.AllCompleted | components/admin/ongoing-projects/ongoing-projects-admin.tsx:245 | the count equals the number of milestones iff every milestone is completed |
| ProjectsScreen.FilteredProjects | components/admin/projects/projects-admin.tsx:103-108 | the shown projects are, in order, exactly those whose title, description or a tag contains the query, case-insensitively, each as often as it is listed |
| ProjectsScreen.EmptyQueryShowsAll | components/admin/projects/projects-admin.tsx:103-108 | an empty query shows the whole list |
| ProjectsScreen.ProjectsAdmin.Filtered | components/admin/projects/projects-admin.tsx:103-108 | the visible list is an ordered selection of the loaded list holding exactly the entries that match the query, each as often as it is loaded |
| ProjectsScreen.ProjectsAdmin.constructor | components/admin/projects/projects-admin.tsx:33-39 | the screen starts empty, loading, with no query, no open dialog and no current project |
| ProjectsScreen.ProjectsAdmin.Load | components/admin/projects/projects-admin.tsx:42-60 | after loading, the local list equals the store's and loading is over |
| ProjectsScreen.ProjectsAdmin.SetSearchQuery | components/admin/projects/projects-admin.tsx:130 | only the query changes |
| ProjectsScreen.ProjectsAdmin.OpenAdd | components/admin/projects/projects-admin.tsx:117 | only the add dialog opens |
| ProjectsScreen.ProjectsAdmin.OpenEdit | components/admin/projects/projects-admin.tsx:230-233 | the clicked project becomes current and the edit dialog opens |
| ProjectsScreen.ProjectsAdmin.OpenDelete | components/admin/projects/projects-admin.tsx:242-245 | the clicked project becomes current and the delete dialog opens |
| ProjectsScreen.ProjectsAdmin.HandleAdd | components/admin/projects/projects-admin.tsx:62-69 | the saved project is appended and the add dialog closes |
| ProjectsScreen.ProjectsAdmin.HandleEdit | components/admin/projects/projects-admin.tsx:71-79 | every entry with the saved id is replaced, others kept; the edit dialog closes and nothing is current |
| ProjectsScreen.ProjectsAdmin.HandleDelete | components/admin/projects/projects-admin.tsx:81-101 | with no current project or a rejected store call nothing changes; otherwise store and local list both lose the id, the dialog closes, and a synchronised list stays synchronised |
| ProjectsScreen.ProjectsAdmin.SaveAdded | components/admin/projects/projects-admin.tsx:259 | an add-dialog save stores the draft under the next id and appends it locally, keeping list and store in step |
| ProjectsScreen.ProjectsAdmin.SaveEdited | components/admin/projects/projects-admin.tsx:262-268 | an edit-dialog save updates store and local list with the draft, keeping them in step |
| OngoingProjectsScreen.FilteredOngoing | components/admin/ongoing-projects/ongoing-projects-admin.tsx:118-123 | the shown projects are, in order, exactly those whose title, description or a tag contains the query, case-insensitively, each as often as it is listed |
| OngoingProjectsScreen.EmptyQueryShowsAll | components/admin/ongoing-projects/ongoing-projects-admin.tsx:118-123 | an empty query shows the whole list |
| OngoingProjectsScreen.DaysRemaining | components/admin/ongoing-projects/ongoing-projects-admin.tsx:105-111 | never negative; positive iff the end lies in the future; then it is the number of whole days, rounded up |
| OngoingProjectsScreen.DaysRemainingSteps | components/admin/ongoing-projects/ongoing-projects-admin.tsx:105-111 | a day passing never raises the count, and an end exactly k days ahead gives k |
| OngoingProjectsScreen.OngoingProjectsAdmin.Filtered | components/admin/ongoing-projects/ongoing-projects-admin.tsx:118-123 | the visible list is an ordered selection of the loaded list holding exactly the entries that match the query, each as often as it is loaded |
| OngoingProjectsScreen.OngoingProjectsAdmin.constructor | components/admin/ongoing-projects/ongoing-projects-admin.tsx:35-41 | the screen starts empty, loading, with no query, no open dialog and no current project |
| OngoingProjectsScreen.OngoingProjectsAdmin.Load | components/admin/ongoing-projects/ongoing-projects-admin.tsx:44-62 | after loading, the local list equals the store's and loading is over |
| OngoingProjectsScreen.OngoingProjectsAdmin.SetSearchQuery | components/admin/ongoing-projects/ongoing-projects-admin.tsx:145 | only the query changes |
| OngoingProjectsScreen.OngoingProjectsAdmin.OpenAdd | components/admin/ongoing-projects/ongoing-projects-admin.tsx:132 | only the add dialog opens |
| OngoingProjectsScreen.OngoingProjectsAdmin.OpenEdit | components/admin/ongoing-projects/ongoing-projects-admin.tsx:263-266 | the clicked project becomes current and the edit dialog opens |
| OngoingProjectsScreen.OngoingProjectsAdmin.OpenDelete | components/admin/ongoing-projects/ongoing-projects-admin.tsx:275-278 | the clicked project becomes current and the delete dialog opens |
| OngoingProjectsScreen.OngoingProjectsAdmin.HandleAdd | components/admin/ongoing-projects/ongoing-projects-admin.tsx:64-71 | the saved project is appended and the add dialog closes |
| OngoingProjectsScreen.OngoingProjectsAdmin.HandleEdit | components/admin/ongoing-projects/ongoing-projects-admin.tsx:73-81 | every entry with the saved id is replaced, others kept; the edit dialog closes and nothing is current |
| OngoingProjectsScreen.OngoingProjectsAdmin.HandleDelete | components/admin/ongoing-projects/ongoing-projects-admin.tsx:83-103 | with no current project or a rejected store call nothing changes; otherwise store and local list both lose the id, and a synchronised list stays synchronised |
| OngoingProjectsScreen.OngoingProjectsAdmin.SaveAdded | components/admin/ongoing-projects/ongoing-projects-admin.tsx:293-297 | an add-dialog save stores the draft under the next id and appends it locally, keeping list and store in step |
| OngoingProjectsScreen.OngoingProjectsAdmin.SaveEdited | components/admin/ongoing-projects/ongoing-projects-admin.tsx:300-306 | an edit-dialog save updates store and local list with the draft, keeping them in step |
| ProjectDialogs.InitialDraft | components/admin/projects/project-dialog.tsx:50-69 | editing an existing project starts from it; otherwise every text field is empty and there are no tags or tech stack |
| ProjectDialogs.Set | components/admin/projects/project-dialog.tsx:76-87 | the named field gets the value and every other field, the id and the lists are kept |
| ProjectDialogs.Changed | components/admin/projects/project-dialog.tsx:71-89 | a known input name sets exactly its field; an unknown name changes nothing; id and lists are kept |
| ProjectDialogs.DottedName | components/admin/projects/project-dialog.tsx:74-82 | a `caseStudy.` name selects the case-study field named by the part up to the next dot |
| ProjectDialogs.PlainName | components/admin/projects/project-dialog.tsx:83-88 | a name without a dot selects a top-level field, exactly for the five top-level input names |
| ProjectDialogs.ChallengeInputName | components/admin/projects/project-dialog.tsx:239 | the challenge input edits the case-study challenge |
| ProjectDialogs.ProjectDialog.constructor | components/admin/projects/project-dialog.tsx:32-48 | the dialog starts with the empty project, empty inputs, not submitting |
| ProjectDialogs.ProjectDialog.Open | components/admin/projects/project-dialog.tsx:50-69 | opening resets the draft to the initial draft for its mode |
| ProjectDialogs.ProjectDialog.HandleChange | components/admin/projects/project-dialog.tsx:71-89 | the draft changes as `Changed` says; inputs kept |
| ProjectDialogs.ProjectDialog.SetTagInput | components/admin/projects/project-dialog.tsx:217 | only the tag input changes |
| ProjectDialogs.ProjectDialog.SetTechStackInput | components/admin/projects/project-dialog.tsx:291 | only the tech-stack input changes |
| ProjectDialogs.ProjectDialog.AddTag | components/admin/projects/project-dialog.tsx:91-99 | the trimmed tag is added when new and non-blank, and the input is cleared exactly then (or when it was already empty) |
| ProjectDialogs.ProjectDialog.RemoveTag | components/admin/projects/project-dialog.tsx:101-106 | every copy of the tag leaves the list |
| ProjectDialogs.ProjectDialog.AddTechStack | components/admin/projects/project-dialog.tsx:108-119 | as AddTag, for the case study's tech stack |
| ProjectDialogs.ProjectDialog.RemoveTechStack | components/admin/projects/project-dialog.tsx:121-129 | as RemoveTag, for the tech stack |
| ProjectDialogs.ProjectDialog.HandleSubmit | components/admin/projects/project-dialog.tsx:131-150 | add mode stores the draft under the next id; edit mode updates the store with it; the store stays valid and submitting ends |
| Tokens.AddToken | components/admin/projects/project-dialog.tsx:91-99 | the trimmed input is appended iff it is non-blank and not yet listed; otherwise the list is unchanged |
| Tokens.InputAfterAdd | components/admin/projects/project-dialog.tsx:91-99 | the input is cleared iff the token was accepted (or it was empty), else kept |
| Tokens.RemoveToken | components/admin/projects/project-dialog.tsx:101-106 | the token is gone, the rest keep their order, nothing new appears |
| Tokens.AddKeepsListWellFormed | components/admin/projects/project-dialog.tsx:92-94 | adding keeps the list free of duplicates, blanks and untrimmed entries |
| Tokens.AddedTokenPresent | components/admin/projects/project-dialog.tsx:92-94 | after adding a non-blank input its trimmed form is in the list |
| Tokens.AddTwice | components/admin/projects/project-dialog.tsx:92-94 | adding the same input twice is the same as adding it once |
| Tokens.AddThenRemove | components/admin/projects/project-dialog.tsx:92-104 | removing an accepted token right after adding it gives the list back |
| Tokens.RemoveKeepsListWellFormed | components/admin/projects/project-dialog.tsx:101-104 | removing keeps the list free of duplicates, blanks and untrimmed entries |
| Text.TrimIdempotent | components/admin/projects/project-dialog.tsx:92 | trimming a trimmed string changes nothing |
| Text.TrimDecomposition | components/admin/projects/project-dialog.tsx:92 | the trimmed string sits inside the original with only white space around it |
| Text.ContainsEmpty | components/admin/projects/projects-admin.tsx:105 | every string includes the empty string |
| Text.ParseDecimal | components/admin/ongoing-projects/ongoing-project-dialog.tsx:72 | `parseInt` of the decimal digits of n is n |
| Text.ParseStopsAtNonDigit | components/admin/ongoing-projects/ongoing-project-dialog.tsx:72 | `parseInt` reads the leading decimal digits and ignores what follows a non-digit |
| Text.CollapseHasNoSpace | components/admin/dashboard.tsx:67 | the slug replacement leaves no white space |
| Text.CollapseRun | components/admin/dashboard.tsx:67 | a white-space run between words becomes one `-` |
| Text.CollapseKeepsSolid | components/admin/dashboard.tsx:67 | the replacement keeps every other character in order |
| Text.LowerKeepsSolid | components/admin/dashboard.tsx:67 | lower-casing keeps which characters are white space or `-` |
| OngoingProjectDialogs.EmptyDraft | components/admin/ongoing-projects/ongoing-project-dialog.tsx:33-45 | the add draft has no text, tags or milestones, progress 0, starts today and is due in thirty days |
| OngoingProjectDialogs.InitialDraft | components/admin/ongoing-projects/ongoing-project-dialog.tsx:47-66 | editing an existing project copies it with both dates normalised to a day; otherwise the empty draft |
| OngoingProjectDialogs.Set | components/admin/ongoing-projects/ongoing-project-dialog.tsx:79-84 | the named text field gets the value, every other field is kept |
| OngoingProjectDialogs.Changed | components/admin/ongoing-projects/ongoing-project-dialog.tsx:68-85 | a progress value is taken iff it parses to 0..100, else ignored; other names never touch progress, id, tags or milestones |
| OngoingProjectDialogs.ProgressStaysInRange | components/admin/ongoing-projects/ongoing-project-dialog.tsx:71-78 | no change handler call takes progress out of 0..100 |
| OngoingProjectDialogs.TypedProgress | components/admin/ongoing-projects/ongoing-project-dialog.tsx:71-78 | typing n sets progress to n when n <= 100 and is ignored above 100 |
| OngoingProjectDialogs.NonNumericProgress | components/admin/ongoing-projects/ongoing-project-dialog.tsx:72-73 | text `parseInt` cannot read leaves the draft unchanged |
| OngoingProjectDialogs.TextChangeFrame | components/admin/ongoing-projects/ongoing-project-dialog.tsx:79-84 | a text input name sets exactly its field and keeps progress |
| OngoingProjectDialogs.AddMilestone | components/admin/ongoing-projects/ongoing-project-dialog.tsx:104-117 | a non-blank input appends one uncompleted milestone with the trimmed title; a blank one changes nothing |
| OngoingProjectDialogs.ToggleMilestone | components/admin/ongoing-projects/ongoing-project-dialog.tsx:129-140 | only the chosen milestone flips its completion; titles and length are kept |
| OngoingProjectDialogs.ToggleTwice | components/admin/ongoing-projects/ongoing-project-dialog.tsx:129-140 | toggling the same milestone twice gives the list back |
| OngoingProjectDialogs.ToggleMovesCount | components/admin/ongoing-projects/ongoing-project-dialog.tsx:129-140 | a toggle moves the completed count by exactly one in the right direction |
| OngoingProjectDialogs.OngoingProjectDialog.constructor | components/admin/ongoing-projects/ongoing-project-dialog.tsx:33-45 | the dialog starts with the empty draft, empty inputs, not submitting |
| OngoingProjectDialogs.OngoingProjectDialog.Open | components/admin/ongoing-projects/ongoing-project-dialog.tsx:47-66 | opening resets the draft to the initial draft for its mode |
| OngoingProjectDialogs.OngoingProjectDialog.HandleChange | components/admin/ongoing-projects/ongoing-project-dialog.tsx:68-85 | the draft changes as `Changed` says, and an in-range progress stays in range |
| OngoingProjectDialogs.OngoingProjectDialog.SetTagInput | components/admin/ongoing-projects/ongoing-project-dialog.tsx:257 | only the tag input changes |
| OngoingProjectDialogs.OngoingProjectDialog.SetMilestoneInput | components/admin/ongoing-projects/ongoing-project-dialog.tsx:305 | only the milestone input changes |
| OngoingProjectDialogs.OngoingProjectDialog.AddTag | components/admin/ongoing-projects/ongoing-project-dialog.tsx:87-95 | the trimmed tag is added when new and non-blank, and the input is cleared exactly then |
| OngoingProjectDialogs.OngoingProjectDialog.RemoveTag | components/admin/ongoing-projects/ongoing-project-dialog.tsx:97-102 | every copy of the tag leaves the list |
| OngoingProjectDialogs.OngoingProjectDialog.AddMilestoneFromInput | components/admin/ongoing-projects/ongoing-project-dialog.tsx:104-117 | the milestone list grows as `AddMilestone` says, and the input is cleared iff it was non-blank |
| OngoingProjectDialogs.OngoingProjectDialog.RemoveMilestone | components/admin/ongoing-projects/ongoing-project-dialog.tsx:119-127 | the milestone list loses what `splice(index, 1)` removes |
| OngoingProjectDialogs.OngoingProjectDialog.ToggleMilestoneCompletion | components/admin/ongoing-projects/ongoing-project-dialog.tsx:129-140 | the milestone list is toggled at the index, nothing else changes |
| OngoingProjectDialogs.OngoingProjectDialog.HandleSubmit | components/admin/ongoing-projects/ongoing-project-dialog.tsx:142-161 | add mode stores the draft under the next id; edit mode updates the store with it; the store stays valid |
| Util.RemoveValue | components/quotations.tsx:98 | `filter((id) => id !== x)` removes every copy of the value; every other value keeps its number of copies, and the kept values stay in their original order |
| Util.SpliceOne | components/admin/ongoing-projects/ongoing-project-dialog.tsx:120-121 | `splice(index, 1)` on a copy: the result is what the list loses at that index |
| Util.SpliceOneInRange | components/admin/ongoing-projects/ongoing-project-dialog.tsx:120-121 | an index inside the list removes exactly that element, keeping the rest in order |
| Util.SpliceOneNegative | components/admin/ongoing-projects/ongoing-project-dialog.tsx:120-121 | a negative index counts from the end |
| ReviewDialogs.EmptyDraft | components/admin/reviews/review-dialog.tsx:31-41 | the add draft is rated 5, not featured, has an empty company and today's date |
| ReviewDialogs.InitialDraft | components/admin/reviews/review-dialog.tsx:43-58 | editing an existing review starts from it; otherwise the empty draft |
| ReviewDialogs.Changed | components/admin/reviews/review-dialog.tsx:60-66 | a known input name sets exactly its field (the company becomes present); id, rating and flag are kept |
| ReviewDialogs.SavedId | components/admin/reviews/review-dialog.tsx:91-94 | the saved id is the edited review's when non-zero, the random draw otherwise |
| ReviewDialogs.RandomIdCanCollide | components/admin/reviews/review-dialog.tsx:93 | whenever the draw hits any id already listed, appending the new review breaks id uniqueness |
| ReviewDialogs.ReviewDialog.constructor | components/admin/reviews/review-dialog.tsx:31-41 | the dialog starts with the empty draft and no review |
| ReviewDialogs.ReviewDialog.Open | components/admin/reviews/review-dialog.tsx:43-58 | opening resets the draft to the initial draft for its mode |
| ReviewDialogs.ReviewDialog.HandleChange | components/admin/reviews/review-dialog.tsx:60-66 | the draft changes as `Changed` says |
| ReviewDialogs.ReviewDialog.HandleRatingChange | components/admin/reviews/review-dialog.tsx:68-73 | only the rating changes |
| ReviewDialogs.ReviewDialog.PickRating | components/admin/reviews/review-dialog.tsx:168-178 | clicking star k+1 sets the rating to k+1, within 1..5, and afterwards exactly the first k+1 stars are drawn filled |
| ReviewDialogs.ReviewDialog.HandleFeaturedChange | components/admin/reviews/review-dialog.tsx:75-80 | only the featured flag changes |
| ReviewDialogs.ReviewDialog.HandleSubmit | components/admin/reviews/review-dialog.tsx:82-102 | the saved review is the draft with its saved id, an edited review keeps its non-zero id, and the draft is kept |
| ReviewsScreen.FilteredReviews | components/admin/reviews/reviews-admin.tsx:180-186 | the shown reviews are, in order, exactly those whose name, role, company or text contains the query, case-insensitively, each as often as it is listed |
| ReviewsScreen.EmptyQueryShowsAll | components/admin/reviews/reviews-admin.tsx:180-186 | an empty query shows the whole list |
| ReviewsScreen.Flipped | components/admin/reviews/reviews-admin.tsx:172 | the flipped review differs from the original in the featured flag only |
| ReviewsScreen.ToggledFeatured | components/admin/reviews/reviews-admin.tsx:171-178 | each entry with the review's id becomes the flipped review; others are kept |
| ReviewsScreen.ToggleFlipsOnlyFeatured | components/admin/reviews/reviews-admin.tsx:171-173 | toggling a listed review changes only featured flags, exactly on entries with its id |
| ReviewsScreen.ToggleTwice | components/admin/reviews/reviews-admin.tsx:171-173 | clicking the star twice gives the list back |
| ReviewsScreen.ReviewsAdmin.Filtered | components/admin/reviews/reviews-admin.tsx:180-186 | the visible list is an ordered selection of the loaded list holding exactly the entries that match the query, each as often as it is loaded |
| ReviewsScreen.ReviewsAdmin.constructor | components/admin/reviews/reviews-admin.tsx:29-36 | the screen starts empty, loading, with no query, no open dialog and no current review |
| ReviewsScreen.ReviewsAdmin.Load | components/admin/reviews/reviews-admin.tsx:38-126 | the screen's own list is loaded and loading is over |
| ReviewsScreen.ReviewsAdmin.SetSearchQuery | components/admin/reviews/reviews-admin.tsx:208 | only the query changes |
| ReviewsScreen.ReviewsAdmin.OpenAdd | components/admin/reviews/reviews-admin.tsx:195 | only the add dialog opens |
| ReviewsScreen.ReviewsAdmin.OpenEdit | components/admin/reviews/reviews-admin.tsx:310-313 | the clicked review becomes current and the edit dialog opens |
| ReviewsScreen.ReviewsAdmin.OpenDelete | components/admin/reviews/reviews-admin.tsx:322-325 | the clicked review becomes current and the delete dialog opens |
| ReviewsScreen.ReviewsAdmin.HandleAdd | components/admin/reviews/reviews-admin.tsx:128-135 | the saved review is appended and the add dialog closes |
| ReviewsScreen.ReviewsAdmin.HandleEdit | components/admin/reviews/reviews-admin.tsx:137-145 | every entry with the saved id is replaced, others kept; the dialog closes |
| ReviewsScreen.ReviewsAdmin.HandleDelete | components/admin/reviews/reviews-admin.tsx:147-169 | without a current review nothing changes; otherwise its id leaves the list, the others keep their order |
| ReviewsScreen.ReviewsAdmin.ToggleFeatured | components/admin/reviews/reviews-admin.tsx:171-178 | the list becomes the toggled list, nothing else changes |
| ReviewsScreen.ReviewsAdmin.SaveAdded | components/admin/reviews/reviews-admin.tsx:339 | an add-dialog save appends the draft with its saved id |
| ReviewsScreen.ReviewsAdmin.SaveEdited | components/admin/reviews/reviews-admin.tsx:342-348 | an edit-dialog save replaces the review, keeping its non-zero id |
| Quotations.ToggleService | components/quotations.tsx:96-100 | a chosen service is dropped (the list shrinks) and the other services stay in their original order, each keeping its number of copies; an unchosen one is appended; nothing new appears |
| Quotations.ToggleAbsentTwice | components/quotations.tsx:96-100 | choosing and un-choosing a service gives the selection back |
| Quotations.ToggleKeepsNoDuplicates | components/quotations.tsx:96-100 | a toggle never makes a service appear twice |
| Quotations.ClicksKeepNoDuplicates | components/quotations.tsx:96-100 | no series of clicks makes a service appear twice |
| Quotations.ToggleAndSubmitGate | components/quotations.tsx:396 | choosing a new service enables submit when idle; un-choosing the only one disables it |
| Quotations.Changed | components/quotations.tsx:102-107 | a field name sets exactly that field; other names change nothing |
| Quotations.QuotationForm.constructor | components/quotations.tsx:56-68 | the form starts blank, with no services, international pricing and no detection or override |
| Quotations.QuotationForm.LocationDetected | components/quotations.tsx:71-94 | Kenya pricing iff the lookup reported KE, and detection is marked done |
| Quotations.QuotationForm.HandleServiceToggle | components/quotations.tsx:96-100 | the selection becomes the toggled one and stays duplicate-free |
| Quotations.QuotationForm.HandleChange | components/quotations.tsx:102-107 | the fields change as `Changed` says |
| Quotations.QuotationForm.ToggleLocation | components/quotations.tsx:109-112 | the pricing region flips and the manual override is recorded |
| Quotations.QuotationForm.HandleSubmit | components/quotations.tsx:114-123 | the request carries the fields, services and region as they were, and submit is disabled |
| Quotations.QuotationForm.CompleteSubmission | components/quotations.tsx:126-144 | fields and selection are cleared, submitting ends and submit stays disabled |
| Dashboard.Displayed | components/admin/dashboard.tsx:64 | fetched figures are shown when present, the built-in ones otherwise |
| Dashboard.PendingCardMeansAlert | components/admin/dashboard.tsx:78 | a card marked pending implies the pending alert is shown |
| Dashboard.MockPending | components/admin/dashboard.tsx:45-62 | with the built-in figures the alert shows and exactly the Reviews, Design Process and Quotations cards are marked |
| Dashboard.Cards | components/admin/dashboard.tsx:149-170 | nine cards in panel order, each marked iff its section is pending |
| Dashboard.CardCounts | components/admin/dashboard.tsx:149-158 | each card shows its count from the figures, or its fixed count |
| Dashboard.Slug | components/admin/dashboard.tsx:67 | the slug has no white space and is no longer than the section name |
| Dashboard.Route | components/admin/dashboard.tsx:66-69 | the route is `/admin/` followed by text without white space |
| Dashboard.SlugKeepsText | components/admin/dashboard.tsx:67 | the slug keeps every other character of the name in order, lower-cased |
| Dashboard.CollapseTwoWords | components/admin/dashboard.tsx:67 | two words separated by white space are joined by one `-` |
| Dashboard.TwoWordRoute | components/admin/dashboard.tsx:66-69 | a two-word section leads to its lower-cased words joined by `-` |
| Dashboard.DesignProcessWords | components/admin/dashboard.tsx:156 | the two words of the Design Process name hold no white space and lower-case to `design` and `process` |
| Dashboard.DesignProcessRoute | components/admin/dashboard.tsx:156 | the Design Process card leads to `/admin/design-process` |
| Observer.Step | components/performance/intersection-observer.tsx:31-40 | in once mode the first intersection shows the content, fires once and stops observing; in repeat mode visibility follows the entry and each intersection fires |
| Observer.RunSnoc | components/performance/intersection-observer.tsx:30-41 | a run over one more entry takes one more step |
| Observer.LatchRecordsAny | components/performance/intersection-observer.tsx:31-34 | the latch is set iff some entry intersected |
| Observer.LatchStays | components/performance/intersection-observer.tsx:34 | once set, the latch stays set |
| Observer.OnceMode | components/performance/intersection-observer.tsx:31-38 | in once mode the content is shown iff some entry intersected, the callback fires at most once, and observing stops exactly then |
| Observer.OnceStaysShown | components/performance/intersection-observer.tsx:31-39 | in once mode shown content never hides again |
| Observer.RepeatMode | components/performance/intersection-observer.tsx:31-40 | in repeat mode visibility is the last entry, the callback fires once per intersecting entry, and observing never stops |
| Observer.IntersectionWatcher.constructor | components/performance/intersection-observer.tsx:24-26 | the watcher starts hidden, unlatched, observing, with no calls |
| Observer.IntersectionWatcher.Default | components/performance/intersection-observer.tsx:19 | without the prop the watcher runs in once mode |
| Observer.IntersectionWatcher.Deliver | components/performance/intersection-observer.tsx:30-41 | delivering entries applies one step with the first entry and keeps the state equal to the run over all entries seen |

## Left out

- Network, timers and logging: the simulated `setTimeout` delays, the
  console output, the toasts and the `fetch` of the geolocation lookup.
  The lookup's answer becomes the parameter of `LocationDetected`, and the
  timer's expiry becomes `CompleteSubmission`.
- Dates: `new Date()`, `toISOString` and `formatDate` are not modelled.
  The dialogs take today's date, the date thirty days ahead and the day
  normaliser (`isoDay`) as parameters. `DaysRemaining` takes the instants
  as integers of milliseconds.
- `Math.random`: the review dialog takes the random draw as a parameter.
- Case folding is ASCII only. `toLowerCase` on other Unicode letters is not
  modelled.
- A change handler called with a name that is no input's name adds an
  untyped key in the source. The model leaves the typed record unchanged,
  because no input of the forms carries such a name.
- The seed records written into the data layer and into the reviews
  screen are not reproduced. Stores and `ReviewsScreen.ReviewsAdmin.Load`
  take the list as a parameter.
- Numbers in JavaScript are doubles. The model's integers are unbounded,
  so ids and `parseInt` results above 2^53 lose no precision here.
  `Math.max(...ids)` throwing on very long lists is not modelled either.
- `checkSectionContent` looks a section id up in an object literal, so a
  prototype key such as `toString` would find an inherited member. The
  model treats every id outside the known sections as empty.
- The geolocation lookup can finish after a manual region switch and then
  overwrites it. `LocationDetected` models that overwrite, but not the
  asynchronous race that leads to it.
- Rendering is not modelled: CSS classes, JSX layout, icons and the
  dashboard's percentage and chart arithmetic.
- The browser's `IntersectionObserver` object, its thresholds and root
  margin are not modelled, and neither is a `ref` that is still null. Each
  callback invocation is a `Deliver` call with its entries.
- Effects re-running when their dependencies change, and the cleanup on
  unmount, are not modelled.
- Observer.IntersectionWatcher.Deliver: `fired` counts the calls of
  `onIntersect` as if the prop were always given. Without it the source
  calls nothing.
- OngoingProjectDialogs.OngoingProjectDialog.ToggleMilestoneCompletion:
  requires an index inside the list. The source never passes another, and
  with a stray index it would write a milestone with only a `completed`
  field.
- ReviewsScreen.ReviewsAdmin.HandleDelete: no store call is modelled, as
  the source makes none. A rejected store call therefore has no path here.
