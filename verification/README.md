# Iolaus: verified models

Iolaus collects job opportunities, reviews them against a candidate's evidence, lists and filters them, and tailors
resumes to them. This project models the parts of it that decide something, in Dafny, and proves what their separate
checks add up to:

- the validator of saved evidence reviews (`FitReview`, `FitReviewTheorems`, `ReviewRules`);
- the weighted screening aggregate and its stored projection (`ScreeningQuestions`, `ScreeningTheorems`,
  `QuestionScreening`, `ScreeningLaws`, `AssessmentProjection`);
- ordering and filtering opportunities, and the filter state in a URL (`OpportunityOrder`, `OpportunityColumns`,
  `Tournaments`, `StableSort`, `OpportunityFilters`, `FilterState`, `FilterLaws`);
- resume tailoring (`Tailoring`, `ApplyTailoring`, `ApplyTailoringTheorems`, `TailoringContents`) and its text helpers
  (`ResumeText`);
- the block parser of the Markdown preview (`Markdown`, `MarkdownTheorems`, `MarkdownGrammar`);
- the posting eligibility scan and its decision (`Eligibility`, `EligibilityTheorems`, `EligibilityDecision`,
  `EligibilityLaws`);
- run loops: release schema preparation (`ReleaseSchema`), the provider budget and gate (`DecisionBudget`, `BudgetLaws`),
  the QA publishing run (`JevQaRun`, `QaLaws`) and the decision benchmark (`DecisionEvaluate`, `EvaluationLaws`).

`Sequences`, `JsText` and `JsNumbers` hold the operations they share; `MinimalRecords` gives the smallest records two
of the validators accept. `dafny verify dfyconfig.toml` checks everything.

Stored JSON is modelled as typed data, with an `Option` where the code branches on a missing field. Numbers are integers,
or reals where the code divides. Things the code takes from outside are parameters: regular expressions for English
phrases, number printing and parsing, letter case, the clock, and whether an effect succeeds. Objects that methods update
in place are classes (`SearchParams`, `Scanner`, `Database`, `JevBudget`, `QaRun`, `Evaluation`); other loops are methods
proved against functions, and the theorems are about those functions. What such a function itself means is fixed once
more, in other words and on the stored fields alone, by the modules of rules, laws, columns, contents and grammar: a
branch, field or constant exchanged in a specification contradicts them.

## Where the code does less than it seems to promise

- The list comparator is not an order on every list: `score`, `eligibility` and `best` can run in a circle. The exact
  condition is `OpportunityOrderTheorems.StrictTotalIffClear`, and `MixedListsCanCycle` gives records in a circle.
- The filter drawer is meant never to offer a value that can match nothing (the comment at
  `apps/site/src/lib/opportunity-filters.ts:239`). A stored value with white space around it is offered trimmed and then
  matches nothing: `OpportunityFilters.OfferedWordLiveIff`.
- The count of active filters is meant to count those that narrow the list (the comment at
  `apps/site/src/lib/opportunity-filters.ts:700`), and counts a choice of all five eligibility buckets, which narrows
  nothing: `FilterLaws.NarrowsIffActive`.
- Tailoring a tailored resume can drop a compacted position or cut off more:
  `ApplyTailoringTheorems.TailoredResumeTwiceIff` says exactly when it does not.
- The Markdown preview never finishes a list item that holds U+2028 or U+2029: `MarkdownTheorems.DivergesIff`.
- Compacted positions join the other roles to keep them newest first, but one whose start names no year is placed by
  the year of its end: `ApplyTailoringTheorems.CompactedYear`.
- A migration that throws a falsy value counts as one that succeeded: `ReleaseSchema.LaterStepsIff`. What the code here
  throws itself (`apps/site/scripts/db-common.ts:212-214`) is an Error, so such a value can only come from a package
  the migration calls.

## Model

| member | source | states |
|---|---|---|
| FitReview.ConsistentEvidenceFit | apps/site/src/lib/opportunity-resume-fit-review-projection.ts:40-76 | One pass over the rows accepts a stored summary exactly when it is the one the rows give: every count is a count of rows, and status and ratio follow from them. |
| FitReview.CheckRows | apps/site/src/lib/opportunity-resume-fit-review-projection.ts:133-176 | The row loop accepts exactly when every row is well formed and the row ids are the reviewed ids, without repetition. |
| FitReview.LinkUnits | apps/site/src/lib/opportunity-resume-fit-review-projection.ts:359-407 | The growing `linked` set ends as the set of cited units exactly when every row is acceptable and no unit is cited twice; otherwise there is no result. |
| FitReview.LinkRows | apps/site/src/lib/opportunity-resume-fit-review-projection.ts:359-407 | Linking succeeds exactly when every row answers a source unit of its own kind, repeats its classification, and no other row answers the same unit. |
| FitReview.CheckComplete | apps/site/src/lib/opportunity-resume-fit-review-projection.ts:256-407 | The checks of a complete review, in code order, decide the declarative condition CompleteAccepted. |
| FitReview.CurrentProjection | apps/site/src/lib/opportunity-resume-fit-review-projection.ts:103-472 | The validator returns the review itself exactly when the acceptance condition holds, and nothing otherwise. |
| ReviewRules.AcceptedIffRules | apps/site/src/lib/opportunity-resume-fit-review-projection.ts:103-472 | The validator accepts exactly the reviews that keep all rules, said in characters, rows and ids: the ids reviewed are those of the rows, rows and open units correspond one to one, every count and status is what the rows are, and advice weighs the rows that are not context. |
| FitReviewTheorems.RowsAreMaterialUnits | apps/site/src/lib/opportunity-resume-fit-review-projection.ts:301-407 | In an accepted complete review the ids cited by the rows, the material units and the reviewed material ids are one list of distinct ids up to order (pigeonhole on the length checks). |
| FitReviewTheorems.UnitHasOneRow | apps/site/src/lib/opportunity-resume-fit-review-projection.ts:301-407 | Every material unit is cited by exactly one row. |
| FitReviewTheorems.CountIdentities | apps/site/src/lib/opportunity-resume-fit-review-projection.ts:346-406 | `sourceClassificationUnknownCount` equals `possibleRequirementCount`, and considered plus context rows equal `reviewedMaterialClauseCount`; the code compares neither pair. |
| FitReviewTheorems.StatusMeans | apps/site/src/lib/opportunity-resume-fit-review-projection.ts:55-66 | In an accepted complete review the status says of the rows what its name says: no criteria when all are context, needs evidence when no criterion is a strength, and full or partial support by whether anything is open. |
| FitReviewTheorems.CountsMean | apps/site/src/lib/opportunity-resume-fit-review-projection.ts:40-76 | Each stored count is the number of rows of its disposition and status, and the bound is the ratio of two of them. |
| FitReviewTheorems.SupportsAllMeansNothingOpen | apps/site/src/lib/opportunity-resume-fit-review-projection.ts:57-64 | Full support means no clause is a possible requirement, no field is material, and every row is context or a strength cited on both sides, with at least one strength. |
| FitReviewTheorems.PartialIdsAreUncertainRows | apps/site/src/lib/opportunity-resume-fit-review-projection.ts:226-255 | The verified partial ids inject into the uncertain rows, so their count is at most the uncertain count. |
| FitReviewTheorems.PartialIdsAreEstablished | apps/site/src/lib/opportunity-resume-fit-review-projection.ts:409-469 | The partial ids are exactly the uncertain considered rows whose cited probability reaches 0.85. |
| FitReviewTheorems.WeightedMeanBound | apps/site/src/lib/opportunity-resume-fit-review-projection.ts:6-25 | An accepted weighted mean exists exactly when some row is considered, and lies between 0 and the cited share of the considered rows, which is at most 1. |
| FitReviewTheorems.SupportBoundsAtMostOne | apps/site/src/lib/opportunity-resume-fit-review-projection.ts:513-544 | Strict and partial support bounds shown for any record are shares, and together at most 1. |
| FitReviewTheorems.NoCriteriaNoEvidence | apps/site/src/lib/opportunity-resume-fit-review-projection.ts:513-544 | A complete review that considered no row shows a support count of 0 and no other evidence key. |
| ReviewRules.CompleteShownIff | apps/site/src/lib/opportunity-resume-fit-review-projection.ts:474-511 | A record shows its complete review exactly when its status is known and the stored review is complete and keeps the rules. |
| ReviewRules.SupportShown | apps/site/src/lib/opportunity-resume-fit-review-projection.ts:513-544 | A complete review shows its supported rows, their share of the weighed ones, the mean of its advice and its verified partial rows; without one a partial count is shown unless an unreadable complete review is there. |
| MinimalRecords.OneClauseAccepted | apps/site/src/lib/opportunity-resume-fit-review-projection.ts:103-472 | A review of a single clause is accepted as fully supported by one strength, and as partially supported by one uncertain row with a cited probability of 0.9, its verification and its advice: the conditions are not empty. |
| MinimalRecords.TwoClausesAccepted | apps/site/src/lib/opportunity-resume-fit-review-projection.ts:103-472 | A review with one strength and one uncertain row is accepted as supported with uncertainties. |
| ScreeningQuestions.AddAnswer | apps/site/src/lib/opportunity-screening-questions.ts:221-253 | What one accepted answer adds to the running weights and id lists equals the sums and filters over one more question. |
| ScreeningQuestions.TallyAnswers | apps/site/src/lib/opportunity-screening-questions.ts:204-254 | The loop returns the first fault in question order, or the totals: four sums of weights and four filtered id lists. |
| ScreeningQuestions.AggregateAnswers | apps/site/src/lib/opportunity-screening-questions.ts:174-272 | The aggregate, or the first error met, as a function of questions and answers. |
| ScreeningLaws.EmptySet | apps/site/src/lib/opportunity-screening-questions.ts:174-272 | No question and no answer give no percentage, no weight and no list. |
| ScreeningLaws.AppendedAcceptedIff | apps/site/src/lib/opportunity-screening-questions.ts:204-243 | To an accepted set one more active question with its own answer is accepted exactly when the answer is of its revision, confident within bounds, cited, and aligned as its polarity says. |
| ScreeningLaws.AppendedNumbers | apps/site/src/lib/opportunity-screening-questions.ts:244-271 | One more answered question adds its weight to the total unless informational, as much to the rated and attributed weight unless unknown, and a quarter of it for each step of alignment to the points. |
| ScreeningLaws.AppendedLists | apps/site/src/lib/opportunity-screening-questions.ts:221-243 | It joins the conflicts, unknowns, partials and unresolved must-haves exactly by its importance, polarity, reply and a confidence of 0.85. |
| ScreeningLaws.CoverageMeans | apps/site/src/lib/opportunity-screening-questions.ts:256-271 | The coverage is there exactly when some weight is, and is the attributed share of it. |
| ScreeningLaws.SetFaultsMean | apps/site/src/lib/opportunity-screening-questions.ts:149-196 | Which error comes first: a bad question, a repeated id, more than twenty active ones, or answers that are too many, too few or double. |
| ScreeningLaws.AnswerFaultsMean | apps/site/src/lib/opportunity-screening-questions.ts:204-243 | Behind these, the first active question whose answer will not do decides: malformed or stale, or else ungrounded. |
| ScreeningTheorems.RecommendationWithinCoverage | apps/site/src/lib/opportunity-screening-questions.ts:185-271 | Rated weight equals attributed weight, and 0 <= recommendation <= evidence coverage <= 100 wherever defined. |
| ScreeningTheorems.OrderIrrelevant | apps/site/src/lib/opportunity-screening-questions.ts:174-272 | Reordering questions or answers changes neither acceptance nor a number; id lists change at most in order. |
| ScreeningTheorems.InactiveIrrelevant | apps/site/src/lib/opportunity-screening-questions.ts:182-190 | Adding inactive questions changes nothing. |
| ScreeningTheorems.RaisingNeverLowers | apps/site/src/lib/opportunity-screening-questions.ts:204-262 | Raising alignments or resolving unknowns never lowers a defined recommendation, nor undefines it. |
| ScreeningTheorems.MirrorSharesCoverage | apps/site/src/lib/opportunity-screening-questions.ts:204-262 | Wanting the opposite of everything, with mirrored alignments, is accepted too, and the two recommendations add up to the coverage. |
| ScreeningTheorems.MustHavesSplit | apps/site/src/lib/opportunity-screening-questions.ts:229-242 | Every active must-have is exactly one of conflict, unresolved and satisfied, and the three counts add up. |
| MinimalRecords.OneAnswerAccepted | apps/site/src/lib/opportunity-screening-questions.ts:174-272 | A valid must-have with the desired answer is accepted and recommended in full. |
| QuestionScreening.RankBounded | apps/site/src/lib/question-screening-projection.ts:185-205 | Whatever a record stores, its rank keeps the bounds of the aggregate and names at most twenty conflicts. |
| ScreeningLaws.ProjectionAcceptedIff | apps/site/src/lib/question-screening-projection.ts:27-171 | A stored projection is accepted exactly when its parts are well formed and its aggregate is that of its answers, or of nothing behind a title pre-screen. |
| ScreeningLaws.RankMeans | apps/site/src/lib/question-screening-projection.ts:185-205 | A record ranks by the numbers of an accepted projection and by none otherwise; its flag, if any, decides whether it is screened. |
| AssessmentProjection.ViewMeans | apps/site/src/lib/opportunity-assessment-projection.ts:50-195 | A view shows the bucket and ranking of the assessment it presents; a current one without ranking has its bucket's standard priority; anything else is unknown. |
| StableSort.StableSortedUnique | apps/site/src/lib/opportunity-filters.ts:492-492 | A stable sorted reordering is unique for a consistent comparator, so the model sort stands for Array.prototype.sort. |
| Tournaments.MixedTransitiveIff | apps/site/src/lib/opportunity-filters.ts:492-698 | A rule that compares some pairs specially is an order exactly when the special rule is one and no record straddles a disagreement of the two rules. |
| OpportunityOrderTheorems.ComparatorFollowsRule | apps/site/src/lib/opportunity-filters.ts:479-697 | For every sort and direction the comparator is negative, or positive, exactly when its rule puts the left, or the right, record first. |
| OpportunityOrderTheorems.StrictTotalIffClear | apps/site/src/lib/opportunity-filters.ts:472-698 | On records with distinct ids the comparator always decides, and is a strict total order exactly when no record straddles a disagreement of the sort's two rules. |
| OpportunityOrderTheorems.SortedExactlyWhenClear | apps/site/src/lib/opportunity-filters.ts:472-698 | A list with distinct ids has a fully ordered arrangement exactly when it is clear for the sort; it is then the only one and is what sorting returns. |
| OpportunityColumns.ComparatorReadsColumns | apps/site/src/lib/opportunity-filters.ts:472-698 | The comparator puts a record behind another exactly when the first column they differ in does, columns being read from the records' own fields. |
| OpportunityColumns.SortedByColumns | apps/site/src/lib/opportunity-filters.ts:472-698 | Sorting a clear list, or one of a kind, permutes it so that any two records stand as their columns say. |
| OpportunityColumns.SalariesInOrder | apps/site/src/lib/opportunity-filters.ts:455-461 | Sorted by salary, upper bounds are in the requested direction, a lower bound stands in only where there is no upper one, and records with neither come last. |
| OpportunityColumns.DatesInOrder | apps/site/src/lib/opportunity-filters.ts:463-470 | The same for the posting date and the date first seen. |
| OpportunityColumns.RatingsInOrder | apps/site/src/lib/opportunity-filters.ts:577-583 | Ratings are in the requested direction, missing ones last, and equal ones newest first. |
| OpportunityColumns.ScoresInOrder | apps/site/src/lib/opportunity-filters.ts:484-491 | Without question screening, scores are in the requested direction; records whose score is hidden by a review of the complete kind, or missing, come last. |
| OpportunityColumns.RecommendationsInOrder | apps/site/src/lib/opportunity-filters.ts:506-526 | Recommended percentages are in the requested direction and, where equal, covered percentages descend. |
| OpportunityColumns.StatusesInOrder | apps/site/src/lib/opportunity-filters.ts:448-453 | The best sort goes through the twelve statuses in the listed order, others last, and within a status by conflicts if screening is on for either record and by eligibility priority if not. |
| OpportunityColumns.PrioritiesInOrder | apps/site/src/lib/opportunity-assessment-projection.ts:247-270 | The eligibility sort goes by priority, and by fit only between two assessable records. |
| OpportunityColumns.IdsAscend | apps/site/src/lib/opportunity-filters.ts:692-696 | The last tie is broken by the smaller id, a beginning before what continues it. |
| OpportunityOrderTheorems.ArrivalOrderIrrelevant | apps/site/src/lib/opportunity-filters.ts:472-698 | For a clear list the result does not depend on the order in which records arrive. |
| OpportunityOrderTheorems.UniformIsClear | apps/site/src/lib/opportunity-filters.ts:472-698 | Newest, salary, rating, recommendation and cited support are always clear; score when all records agree on screening; best when all are screened, or none is and fit comparability is uniform per status and priority; eligibility when readiness is uniform per priority. |
| OpportunityOrderTheorems.MissingKeysLast | apps/site/src/lib/opportunity-filters.ts:472-698 | In both directions the sorted list has all records with the primary key in front of those without, their keys in that direction; for score, when all records agree on screening. |
| OpportunityOrderTheorems.MixedListsCanCycle | apps/site/src/lib/opportunity-filters.ts:472-698 | Three records with distinct ids, each sorted in front of the next and so without any order, exist exactly for score, eligibility and best, in both directions. |
| OpportunityFilters.HaveLeavesNothingOpen | apps/site/src/lib/opportunity-filters.ts:312-330 | A record passing the `have` filter carries an accepted complete review without open clause, material field or uncited row. |
| OpportunityFilters.RangeOverlapsIff | apps/site/src/lib/opportunity-filters.ts:280-292 | Two ranges share a value exactly when the test passes and neither is reversed. |
| OpportunityFilters.LooserKeeps | apps/site/src/lib/opportunity-filters.ts:299-446 | Relaxing any settings of a filter never loses a record. |
| OpportunityFilters.InactiveMatchesAll | apps/site/src/lib/opportunity-filters.ts:702-733 | A filter state without an active dimension lets every record through. |
| FilterLaws.MatchesIffNoneRejects | apps/site/src/lib/opportunity-filters.ts:299-446 | A record is let through exactly when none of the 21 dimensions turns it away, each by its own fields. |
| FilterLaws.NarrowsIffActive | apps/site/src/lib/opportunity-filters.ts:700-733 | The dimensions counted as active are exactly those some record fails, except a choice of all five eligibility buckets, which is counted and turns nothing away. |
| OpportunityFilters.CollectWords | apps/site/src/lib/opportunity-filters.ts:250-262 | A value is offered exactly when some record holds it, trimmed, not blank and (but for the status) not `unknown`. |
| FilterLaws.OfferedIff | apps/site/src/lib/opportunity-filters.ts:241-262 | The drawer offers exactly the trimmed values some record holds in that field, blanks never and "unknown" as a status only. |
| OpportunityFilters.CollectSkills | apps/site/src/lib/opportunity-filters.ts:263-267 | Each skill key is offered once, in the spelling it was first seen in. |
| FilterLaws.SkillsInOrder | apps/site/src/lib/opportunity-filters.ts:223-228 | Required skills come before preferred ones, record by record. |
| OpportunityFilters.CollectOptions | apps/site/src/lib/opportunity-filters.ts:241-278 | All option lists at once, before they are put in alphabetical order. |
| OpportunityFilters.OfferedWordLiveIff | apps/site/src/lib/opportunity-filters.ts:239-278 | An offered word leaves some record exactly when one holds it without surrounding white space, or it is the wildcard: options are trimmed, matching is not. |
| OpportunityFilters.PaddedStatusOffersNothing | apps/site/src/lib/opportunity-filters.ts:239-308 | One record with a padded status offers an option that matches nothing. |
| OpportunityFilters.OfferedSkillLive | apps/site/src/lib/opportunity-filters.ts:239-337 | An offered skill always leaves some record. |
| FilterState.ParseSkillList | apps/site/src/lib/opportunity-filters.ts:209-221 | The loop with its `seen` set returns the trimmed non-empty parts, first of each key. |
| FilterLaws.SkillPartsMean | apps/site/src/lib/opportunity-filters.ts:209-221 | Skills are separated by commas and line feeds, trimmed, and never empty. |
| FilterLaws.FirstKept | apps/site/src/lib/opportunity-filters.ts:214-218 | A part is kept exactly when none before it agrees with it up to letter case, and what is kept stays in order. |
| FilterState.FirstByKeyMeaning | apps/site/src/lib/opportunity-filters.ts:209-221 | What is kept is distinct up to letter case, comes from the input and represents all of it. |
| FilterState.ParsedIsCanonical | apps/site/src/lib/opportunity-filters.ts:209-221 | Every parsed list is canonical. |
| FilterState.CanonicalIff | apps/site/src/lib/opportunity-filters.ts:209-221 | A list survives joining and parsing unchanged exactly when it is canonical. |
| FilterState.NormalizeIdempotent | apps/site/src/lib/opportunity-filters.ts:757-828 | Normalising twice changes nothing more. |
| FilterLaws.LegacyBuckets | apps/site/src/lib/opportunity-filters.ts:739-752 | Which bucket names mean which bucket, the three of the earlier scheme included, and that no other name means any. |
| FilterLaws.NothingIsDefault | apps/site/src/lib/opportunity-filters.ts:757-828 | An empty blob is normalised to the default state. |
| FilterLaws.LegacySingles | apps/site/src/lib/opportunity-filters.ts:769-782 | A single employment type or work mode of an earlier scheme stands in for a missing list only; blank values and "all" are dropped. |
| FilterLaws.NumbersRead | apps/site/src/lib/opportunity-filters.ts:830-877 | Each numeric setting read from a query is the number under its own key, missing when blank. |
| FilterLaws.FlagsRead | apps/site/src/lib/opportunity-filters.ts:840-877 | Each flag is on exactly for 1, true, yes or on under its own key; missing pay is left out by "false" alone. |
| FilterLaws.WordsRead | apps/site/src/lib/opportunity-filters.ts:846-877 | Each word is the first value under its own key, if allowed, and the default otherwise. |
| FilterLaws.ListsRead | apps/site/src/lib/opportunity-filters.ts:846-877 | Each list holds the values under its own key, in order: skills as parsed, buckets translated. |
| FilterState.DeletedValues | apps/site/src/lib/opportunity-filters.ts:899-900 | A deleted key reads as absent, and every other key as before. |
| FilterState.AppendedValues | apps/site/src/lib/opportunity-filters.ts:906-941 | Appending adds one value behind those of its key and leaves every other key. |
| FilterState.SetValues | apps/site/src/lib/opportunity-filters.ts:879-893 | Setting a key makes the value its only one, however many it had, and leaves every other key. |
| FilterState.Clear | apps/site/src/lib/opportunity-filters.ts:899-900 | Only entries under other keys are left, in order. |
| FilterState.WriteFilterState | apps/site/src/lib/opportunity-filters.ts:895-944 | Afterwards the query holds the other entries as before and, behind them, what the normalised state writes; earlier values of the filter keys leave no trace. |
| FilterLaws.WordsWritten | apps/site/src/lib/opportunity-filters.ts:895-944 | A written query holds a word under its own key exactly when it is not the default. |
| FilterLaws.NumbersWritten | apps/site/src/lib/opportunity-filters.ts:879-944 | And each number there is, printed. |
| FilterLaws.FlagsWritten | apps/site/src/lib/opportunity-filters.ts:887-944 | And each flag that is set, every entry of a list in order, and "false" where missing pay is left out. |
| FilterState.RoundTrip | apps/site/src/lib/opportunity-filters.ts:846-944 | Reading any query to which a state was written gives the normalised state with its skills in canonical form, and the other entries are those there before. |
| FilterState.RoundTripStable | apps/site/src/lib/opportunity-filters.ts:846-944 | What was read from a written query, written to it and read again, is the same, and the other entries are still those there at first. |
| Tailoring.AppendPassing | packages/resume/src/tailoring.ts:98-103 | The append loop only reaches further than the cap for pinned achievements, and stops behind the last of them. |
| Tailoring.TailorAchievements | packages/resume/src/tailoring.ts:71-104 | The filter, sort, cut and append steps give the specification Tailored. |
| Tailoring.PinnedFirst | packages/resume/src/tailoring.ts:89-94 | In the sorted list the pinned achievements are exactly the first ones. |
| Tailoring.OrderedIsGrouped | packages/resume/src/tailoring.ts:83-94 | Filtering and sorting is the same as four filters of the retained list, one behind the other. |
| Tailoring.TailoredIs | packages/resume/src/tailoring.ts:71-104 | The result starts that list, has no dropped title and every undropped pinned one, and exceeds a positive cap only when more are pinned than it allows. |
| ApplyTailoring.ApplyTailoring | packages/resume/src/tailoring.ts:139-282 | The stepwise updates of the cloned sections give TailoredResume; without a configuration nothing changes. |
| TailoringContents.AchievementsShown | packages/resume/src/tailoring.ts:71-104 | Shown are the undropped achievements that are pinned or carry no excluded tag: pinned first, emphasised first in each half, cut at the cap but not among the pinned ones. |
| TailoringContents.PositionIs | packages/resume/src/tailoring.ts:185-210 | A shown position differs from its source in duties, achievements and projects only, and these are what the configuration asks for. |
| TailoringContents.PositionsShown | packages/resume/src/tailoring.ts:169-211 | Shown, in order, are the positions asked for that have something to show. |
| TailoringContents.PositionIdShownIff | packages/resume/src/tailoring.ts:169-211 | An id is shown exactly when it is on the include list in force, not on the exclude list in force, not compacted, and a position of that id has an achievement or a duty left; lists for experience precede those for positions. |
| TailoringContents.ProjectIdShownIff | packages/resume/src/tailoring.ts:189-198 | Without a cap a project id is shown in its position exactly when the project lists let it through. |
| TailoringContents.EducationShownIff | packages/resume/src/tailoring.ts:53-63 | An education entry is shown, in order, exactly when the lists of titles let it through. |
| TailoringContents.ProfileShown | packages/resume/src/tailoring.ts:159-160 | Title and summary are overridden by non-empty text only. |
| TailoringContents.OtherShown | packages/resume/src/tailoring.ts:213-246 | Other roles are those the company lists and tags let through, as many as the cap leaves, and the compacted positions; none if hidden. |
| TailoringContents.CompactForm | packages/resume/src/tailoring.ts:118-137 | The role a compacted position becomes, with its period from the first standing year of start and end. |
| TailoringContents.SortYear | packages/resume/src/tailoring.ts:124-127 | Roles sort by the first four digits in a row of their period, read as a number. |
| TailoringContents.GroupsShown | packages/resume/src/tailoring.ts:248-275 | Shown, in order, are the groups asked for with a skill left, without excluded skills and with emphasised ones first. |
| ApplyTailoringTheorems.TailoredTwiceIff | packages/resume/src/tailoring.ts:71-104 | Tailoring achievements twice is tailoring them once exactly when the cap is not negative or cuts down to pinned ones. |
| ApplyTailoringTheorems.PositionTwiceIff | packages/resume/src/tailoring.ts:187-210 | The same for one position with its projects. |
| ApplyTailoringTheorems.PositionsTwiceIff | packages/resume/src/tailoring.ts:177-211 | No output position is compacted or excluded again, and the list is a fixed point exactly when each shown position settles. |
| ApplyTailoringTheorems.OtherTwiceIff | packages/resume/src/tailoring.ts:213-246 | The other roles are a fixed point exactly when they are hidden, or the compacted ones pass the role filter and all fit the cap. |
| ApplyTailoringTheorems.GroupsTwice | packages/resume/src/tailoring.ts:248-275 | Skill groups are always a fixed point. |
| ApplyTailoringTheorems.EmphasizedIsSplit | packages/resume/src/tailoring.ts:265-275 | Emphasised skills come first, both groups keeping their order. |
| ApplyTailoringTheorems.TailoredResumeTwiceIff | packages/resume/src/tailoring.ts:139-282 | Tailoring a tailored resume changes nothing exactly when the other roles and every shown position settle. |
| ApplyTailoringTheorems.NoCompactionTwice | packages/resume/src/tailoring.ts:139-282 | With caps that are not negative and no compacted position, tailoring twice is tailoring once. |
| ApplyTailoringTheorems.CompactedCanVanish | packages/resume/src/tailoring.ts:224-246 | A compacted role that the role filter rejects is shown the first time and gone the second. |
| ApplyTailoringTheorems.FullOrCompact | packages/resume/src/tailoring.ts:177-246 | With distinct ids no position is shown both in full and compact, full ones come from included ones, and every compacted one has its compact form. |
| ApplyTailoringTheorems.OtherRolesByYear | packages/resume/src/tailoring.ts:239-246 | After compaction the other roles are a permutation of kept and compacted ones, in non-increasing start year, roles of one year in their order. |
| ApplyTailoringTheorems.CompactedYear | packages/resume/src/tailoring.ts:118-137 | A compacted role sorts by the year of its start if the start has four digits in a row anywhere, and by that of its end if not; a delimited year in the start is the one taken. |
| ApplyTailoringTheorems.SeasonSortsByEnd | packages/resume/src/tailoring.ts:118-137 | A position that started in "Spring" and ended in "2015" sorts as 2015. |
| ResumeText.EscapeIsCharwise | apps/site/src/lib/markdown-preview.ts:4-11 | Five replacements, the ampersand first, are one character-by-character replacement. |
| ResumeText.UnescapeEscape | packages/resume/src/utils.ts:3-10 | Escaping loses nothing: it has a left inverse. |
| ResumeText.EscapedIsInert | packages/resume/src/utils.ts:3-10 | No angle bracket or quote survives escaping. |
| ResumeText.JoinPathRegroups | packages/resume/src/utils.ts:24-29 | Joining joined paths is joining all their parts; joining again changes nothing. |
| ResumeText.JoinedPathIsClean | packages/resume/src/utils.ts:24-29 | A joined path has no slash at either end and no empty segment. |
| Markdown.RenderList | apps/site/src/lib/markdown-preview.ts:110-127 | The loop takes the maximal run of lines the matcher accepts, with their texts. |
| Markdown.RenderCodeBlock | apps/site/src/lib/markdown-preview.ts:129-144 | The code is what stands before the next fence or the end; a closing fence is consumed. |
| Markdown.RenderBlockquote | apps/site/src/lib/markdown-preview.ts:146-161 | The quote takes the maximal run of quote lines and renders their text without the marks. |
| Markdown.RenderParagraph | apps/site/src/lib/markdown-preview.ts:221-230 | A paragraph takes its first line and everything up to a blank line or a block start. |
| Markdown.RenderBlock | apps/site/src/lib/markdown-preview.ts:170-231 | The block at a line and the line behind it, by the order of the tests. |
| Markdown.RenderSafeMarkdown | apps/site/src/lib/markdown-preview.ts:163-234 | The main loop, with its recursion into quotes, renders the layout of the lines or finds that it would repeat for ever. |
| MarkdownGrammar.RendersIff | apps/site/src/lib/markdown-preview.ts:163-234 | A text renders to a list of blocks exactly when a grammar over the characters of its lines reads it as that list: levels are counts of hashes, items the texts behind markers of one kind, code what stands between fences, quotes their lines without marks, paragraphs trimmed lines joined by blanks. |
| MarkdownGrammar.BulletAndNumber | apps/site/src/lib/markdown-preview.ts:200-212 | "- " makes an unordered and "1. " an ordered list of one item, for every text of one line. |
| MarkdownGrammar.ItemRenders | apps/site/src/lib/markdown-preview.ts:110-127 | The same for every bullet and every number. |
| MarkdownGrammar.HeadingRenders | apps/site/src/lib/markdown-preview.ts:184-192 | One to six hashes make a heading of that level. |
| MarkdownGrammar.LinesJoined | apps/site/src/lib/markdown-preview.ts:164-164 | The lines joined again are the trimmed text. |
| MarkdownGrammar.ReturnsAreFeeds | apps/site/src/lib/markdown-preview.ts:164-164 | A carriage return, with or without a line feed, renders as a line feed. |
| Markdown.QuotedText | apps/site/src/lib/markdown-preview.ts:146-161 | The text of a quote is shorter than the text it stands in, which bounds the recursion. |
| MarkdownTheorems.BlocksPartitionLines | apps/site/src/lib/markdown-preview.ts:163-234 | Blocks take disjoint, non-empty ranges of lines in order, and every line that is not blank lies in exactly one. |
| MarkdownTheorems.LayoutStuckIff | apps/site/src/lib/markdown-preview.ts:170-231 | The loop stops making progress exactly when some stuck line stands outside code, code being decided by counting fences alone. |
| MarkdownTheorems.StuckIff | apps/site/src/lib/markdown-preview.ts:87-127 | A line is stuck exactly when it opens a list and its untrimmed text holds a character a dot does not match. |
| MarkdownTheorems.QuoteSpansIff | apps/site/src/lib/markdown-preview.ts:214-219 | The quote blocks are the maximal runs of quote lines outside code. |
| MarkdownTheorems.DivergesIff | apps/site/src/lib/markdown-preview.ts:163-234 | The preview hangs exactly on texts with a stuck line outside code, there or in the text of a quote at any depth. |
| MarkdownTheorems.PlainTextRenders | apps/site/src/lib/markdown-preview.ts:163-234 | Every text without U+2028 and U+2029 is rendered. |
| MarkdownTheorems.ListItemHangsIff | apps/site/src/lib/markdown-preview.ts:110-127 | A one-item list hangs the preview exactly when its text holds U+2028 or U+2029. |
| Eligibility.Scanner.Add | apps/site/src/lib/opportunity-eligibility.ts:215-229 | A clause assertion is recorded unless the same kind was recorded for the same clause of the same line. |
| Eligibility.Scanner.ScanLine | apps/site/src/lib/opportunity-eligibility.ts:213-314 | A line adds the first occurrences of what its clauses assert. |
| Eligibility.Scanner.ScanLines | apps/site/src/lib/opportunity-eligibility.ts:181-315 | The loop follows headings and adds, line by line, what lines outside boilerplate assert. |
| Eligibility.BuildOpportunityEligibility | apps/site/src/lib/opportunity-eligibility.ts:124-317 | The payload is the specification Built: nothing beyond the size bounds, else location and clause assertions. |
| EligibilityTheorems.RecordedIff | apps/site/src/lib/opportunity-eligibility.ts:184-316 | Within bounds an assertion is recorded exactly when the location makes it or a clause of its own numbered line, scanned under its own section outside boilerplate, does. |
| EligibilityLaws.FoundIff | apps/site/src/lib/opportunity-eligibility.ts:230-314 | For each of the thirteen kinds, exactly which clause makes it in which section, and the condition it carries. |
| EligibilityLaws.FindingsInPlace | apps/site/src/lib/opportunity-eligibility.ts:254-314 | A clause makes its assertions in a fixed order, at most one of each group. |
| EligibilityLaws.LocationAsserts | apps/site/src/lib/opportunity-eligibility.ts:141-180 | For each of four kinds, exactly which location asserts it. |
| EligibilityLaws.LinesRead | apps/site/src/lib/opportunity-eligibility.ts:184-212 | Which lines open which section, and which are scanned. |
| EligibilityLaws.SectionsMean | apps/site/src/lib/opportunity-eligibility.ts:181-212 | The section in force starts as the summary at line 1 and changes only at a heading, to the line behind it. |
| EligibilityLaws.PlacesMean | apps/site/src/lib/opportunity-eligibility.ts:144-147 | Places are separated by semicolons, trimmed, and never empty. |
| EligibilityLaws.ClauseRecordedIff | apps/site/src/lib/opportunity-eligibility.ts:124-317 | A clause assertion is recorded exactly when its clause, in a scanned line of a source within 200000 characters and 2000 lines, makes it. |
| EligibilityTheorems.RecordedOnce | apps/site/src/lib/opportunity-eligibility.ts:183-218 | No assertion is recorded twice. |
| EligibilityTheorems.SectionIsLastHeading | apps/site/src/lib/opportunity-eligibility.ts:181-212 | The section in force is the one the nearest heading above opened, and the summary while there is none. |
| EligibilityTheorems.AppendingKeepsAssertions | apps/site/src/lib/opportunity-eligibility.ts:133-317 | While the source stays within bounds, appended lines keep the earlier assertions as a prefix. |
| EligibilityDecision.DecideOpportunityEligibility | apps/site/src/lib/opportunity-eligibility.ts:319-345 | The flags set one by one are those each flag's own condition allows. |
| EligibilityLaws.FlagsMean | apps/site/src/lib/opportunity-eligibility.ts:319-345 | Which kinds set which flag; a conflict is a contradicting pair of kinds. |
| EligibilityLaws.StatusesMean | apps/site/src/lib/opportunity-eligibility.ts:363-385 | When a stored decision is missing, stale or current. |
| EligibilityDecision.DecisionsAreNine | apps/site/src/lib/opportunity-eligibility.ts:319-345 | Nine flag combinations are possible and each of them occurs. |
| EligibilityDecision.FlagsExclude | apps/site/src/lib/opportunity-eligibility.ts:319-345 | Residence implies incompatible, Canada excludes incompatible, unknown and conflicting stand alone. |
| EligibilityDecision.ConflictStays | apps/site/src/lib/opportunity-eligibility.ts:328-337 | A conflicting decision stays conflicting under any appended lines within bounds. |
| EligibilityDecision.RankNeedsCurrentEvidence | apps/site/src/lib/opportunity-eligibility.ts:413-423 | Only believed evidence ranks above unknown, and the middle rank is exactly unknown or conflicting. |
| ReleaseSchema.Database.GuardedSteps | apps/site/scripts/db-release-schema.ts:93-96 | The loop checks, acts, and stops at the first failure, as the specification Guarded. |
| ReleaseSchema.Database.RestoreIntegrity | apps/site/scripts/db-release-schema.ts:33-48 | Both restores are attempted in order and all their failures are collected. |
| ReleaseSchema.Database.MigrateAndRestore | apps/site/scripts/db-release-schema.ts:63-76 | The restores follow whether or not the migration fails; the noticed failures are listed in order. |
| ReleaseSchema.Database.PrepareReleaseSchema | apps/site/scripts/db-release-schema.ts:51-97 | The whole procedure leaves the log and outcome of the specification Preparation. |
| ReleaseSchema.Database.FinalizeReleaseIntegrity | apps/site/scripts/db-release-schema.ts:99-117 | The same for finalizing. |
| ReleaseSchema.PreparationGuarded | apps/site/scripts/db-release-schema.ts:51-97 | Under every pattern of failures each effect but the two restores runs right behind a safety check that passed. |
| ReleaseSchema.PreparationPhased | apps/site/scripts/db-release-schema.ts:51-97 | The effects are a prefix of one script that never stops between migration and restores; only the last effect outside that window may have failed, and the outcome lists exactly the failures, in order. |
| ReleaseSchema.PreparationComplete | apps/site/scripts/db-release-schema.ts:51-97 | A successful preparation performed these 36 effects in this order, and nothing but a falsy migration failed. |
| ReleaseSchema.FailuresListed | apps/site/scripts/db-release-schema.ts:63-76 | Failures are reported together exactly when the procedure ends with the restores: a truthy one of the migration first, then the crawl guard's, then the tag guards'. |
| ReleaseSchema.LaterStepsIff | apps/site/scripts/db-release-schema.ts:63-96 | Later preparations run exactly when both restores succeeded and the migration threw nothing truthy. |
| ReleaseSchema.FalsyFailureIsLost | apps/site/scripts/db-release-schema.ts:63-76 | A falsy migration failure with nothing else failing ends in success. |
| ReleaseSchema.FinalizationGuarded | apps/site/scripts/db-release-schema.ts:99-117 | Nothing is validated unless the plan is clean, and each validation stands behind its own passed check. |
| ReleaseSchema.FinalizationComplete | apps/site/scripts/db-release-schema.ts:99-117 | Finalizing succeeds only by running its whole script without a failure. |
| DecisionBudget.JevBudget.Reserve | apps/site/src/lib/server/matching-source-decision-budget.ts:66-79 | Reserving is granted, and changes the account, exactly as the specification says. |
| DecisionBudget.JevBudget.Settle | apps/site/src/lib/server/matching-source-decision-budget.ts:37-64 | Settling accepts unsent and verified attempts only, and changes the account as the specification says. |
| BudgetLaws.OpensIff | apps/site/src/lib/server/matching-source-decision-budget.ts:5-35 | A budget opens, empty, exactly for a supported model and a positive rate and cap of at most nine digits. |
| BudgetLaws.EntersIff | apps/site/scripts/matching-source-jev-publish.ts:585-592 | An idle gate lets a request through exactly while a call is left, the budget has no stop and pays for 65536 tokens; otherwise it says why not. |
| BudgetLaws.ServedBooks | apps/site/scripts/matching-source-jev-publish.ts:585-599 | A request let through leaves nothing if never sent, the cost of its prompt rounded up if its report is usable, and otherwise its whole reservation and a stop. |
| DecisionBudget.RunSafe | apps/site/scripts/matching-source-jev-publish.ts:585-599 | The safety invariant holds after any interleaving of requests entering, being reported on, returning and throwing; throws over-approximate the adapter in use. |
| DecisionBudget.LimitsHold | apps/site/scripts/matching-source-jev-publish.ts:537-599 | In every such run at most one request is with the provider, calls stay within the cap, and reported plus reserved cost within the spending cap. |
| DecisionBudget.OwnReportSettled | apps/site/scripts/matching-source-jev-publish.ts:593-596 | The shared last attempt that a request settles is its own. |
| DecisionBudget.LockedForever | apps/site/src/lib/server/matching-source-decision-budget.ts:66-79 | A reservation nobody settles keeps every later request from the provider, whether or not a stop reason was set. |
| DecisionBudget.ThrowLocks | apps/site/scripts/matching-source-jev-publish.ts:585-599 | For a provider that may throw: the gate ends up locked with no stop reason in the budget exactly when a request threw while it was with the provider. |
| JevQaRun.CountStatuses | apps/site/scripts/matching-source-jev-publish.ts:392-405 | Each status is counted exactly. |
| JevQaRun.StatusCountsTotal | apps/site/scripts/matching-source-jev-publish.ts:392-405 | The eight counts add up to the rows. |
| QaLaws.StatusesMean | apps/site/scripts/matching-source-jev-publish.ts:348-376 | Each status of a finished row is given under exactly these circumstances. |
| QaLaws.StopsMean | apps/site/scripts/matching-source-jev-publish.ts:378-390 | Why provider work stops: the budget's own reason, then the calls, then the money for one more. |
| JevQaRun.QaRun.ProcessRow | apps/site/scripts/matching-source-jev-publish.ts:601-701 | One loop iteration updates the row, meter and stop reason as the specification RowStep, saying whether something threw. |
| QaLaws.DoneRow | apps/site/scripts/matching-source-jev-publish.ts:603-607 | A row already public as wanted is cached at no cost. |
| QaLaws.StoppedRow | apps/site/scripts/matching-source-jev-publish.ts:608-613 | A row met with a reason is marked with it, and the reason stays with the run. |
| QaLaws.AttemptedRow | apps/site/scripts/matching-source-jev-publish.ts:614-687 | Any other row is attempted, throws exactly when saving, the worker or reading back does, and shows how far it got. |
| QaLaws.FinishedRow | apps/site/scripts/matching-source-jev-publish.ts:688-701 | A row read back has its status and what was read, and passes a stop on to the run. |
| QaLaws.FinalReadback | apps/site/scripts/matching-source-jev-publish.ts:703-705 | In the end every row shows what was read back last and is otherwise as it ended. |
| JevQaRun.QaRun.RunCohort | apps/site/scripts/matching-source-jev-publish.ts:600-713 | The loop ends finished or interrupted with the rows and meter of the specification Played. |
| JevQaRun.PlayedLatches | apps/site/scripts/matching-source-jev-publish.ts:600-702 | Behind a row with a stop reason, every processed row is cached, or unattempted with the same reason and without calls. |
| JevQaRun.PlayedTouches | apps/site/scripts/matching-source-jev-publish.ts:600-711 | Only a row that threw may be in progress, and rows behind it are untouched. |
| JevQaRun.PlayedCalls | apps/site/scripts/matching-source-jev-publish.ts:617-687 | The rows account for every provider call, but for those of a worker that threw. |
| JevQaRun.EveryRun | apps/site/scripts/matching-source-jev-publish.ts:600-711 | All of this, with the call and cost limits, for every run whatever the world does. |
| DecisionEvaluate.Compare | apps/site/scripts/matching-source-decision-evaluate.ts:230-248 | Greedy matching counts as correct the size of the multiset intersection of the keys; wrong and missing are the rest of each side. |
| DecisionEvaluate.SwapSwaps | apps/site/scripts/matching-source-decision-evaluate.ts:230-248 | Swapping the arguments swaps wrong and missing, and each side adds up. |
| DecisionEvaluate.PerfectIff | apps/site/scripts/matching-source-decision-evaluate.ts:230-248 | A perfect score means the same claims, as often. |
| DecisionEvaluate.ScoreConcepts | apps/site/scripts/matching-source-decision-evaluate.ts:252-304 | One pass counts, for every counter, exactly the expected concepts it stands for, by their last prediction. |
| EvaluationLaws.LastPredictionCounts | apps/site/scripts/matching-source-decision-evaluate.ts:252-262 | A prediction counts for its citation exactly when no later one has it. |
| EvaluationLaws.EquivalentCounts | apps/site/scripts/matching-source-decision-evaluate.ts:270-286 | Each counter of equivalent concepts counts those its name says, by the last word on their citation. |
| EvaluationLaws.OtherCounts | apps/site/scripts/matching-source-decision-evaluate.ts:287-301 | The same for related and unfitting concepts. |
| EvaluationLaws.OutsideCounts | apps/site/scripts/matching-source-decision-evaluate.ts:252-262 | Counted outside are non-empty suggestions for citations nothing is expected of. |
| DecisionEvaluate.CountsAddUp | apps/site/scripts/matching-source-decision-evaluate.ts:262-302 | Correct, wrong and missed add up to the equivalent spans, the spans to the expected concepts, and no span is checked or suggested twice. |
| DecisionEvaluate.Evaluation.DecideRequest | apps/site/scripts/matching-source-decision-evaluate.ts:643-662 | One request is forwarded exactly when call cap and budget allow it. |
| EvaluationLaws.ForwardedIff | apps/site/scripts/matching-source-decision-evaluate.ts:643-662 | A request is forwarded exactly while calls are left and the budget pays for the largest prompt, and is counted as blocked otherwise. |
| EvaluationLaws.ForwardedBooks | apps/site/scripts/matching-source-decision-evaluate.ts:643-662 | A usable report of a forwarded request costs its prompt, rounded up, and one settled call. |
| DecisionEvaluate.Evaluation.EvaluateSplit | apps/site/scripts/matching-source-decision-evaluate.ts:628-689 | A split's requests update the shared counters as the specification Split. |
| DecisionEvaluate.BothSplits | apps/site/scripts/matching-source-decision-evaluate.ts:626-720 | Over both splits forwarded requests and cost stay within their caps, requests are forwarded or blocked, and the run is within budget exactly when all were forwarded. |
| DecisionEvaluate.CapIsUsed | apps/site/scripts/matching-source-decision-evaluate.ts:645-656 | With a call cap alone a split forwards the smaller of its requests and what the cap leaves. |

## Left out

- Databases, job queues, HTTP, files, report writing and command lines: effects appear only as attempts that succeed or fail.
- String lengths and order: the code counts and compares UTF-16 units, the model characters; they agree on text inside the basic plane.
- Floating point: percentages, means and cost ratios are exact reals here, so rounding is not captured.
- NaN and infinite numbers, which the number readers of the filters and rankings already turn into missing values.
- Locale order: option lists are sets here, without their alphabetical order; ids are ordered by character.
- Hashing and identities of stored reviews (`sourceCurrent`, revisions, fingerprints) are given facts of a record.
- The shape checks on raw JSON, and the partial assessment a record may carry, which enters `FitReview.CurrentSupport` as its supported count.
- Labels, legends and suggestion lists (`evidenceFitLabel`, `completeReviewLabel`, `screeningQuestionSuggestions`): text only.
- `screeningQuestionSetMaterial` and `screeningQuestionRevision`: the string that is hashed into a question revision.
- `countActiveFilters` as a number: the model has the set of dimensions it counts.
- WriteFilterState: goes through the filter keys in a loop, where the source has one statement per key in the same order; the calls on the parameters are the same.
- CollectWords: fills one option set per pass, where the source fills all of them in one.
- ParseSkillList: lower-casing is a parameter of which nothing is assumed but that it is a function.
- RoundTrip: assumes that a printed number reads back as itself and is not blank, and that "true" is lower case.
- TailorAchievements: achievements of one resume are told apart by an identity, as objects are in the source; it does not model title tables inherited from the object prototype.
- ApplyTailoring: copies are values, so that the input resume stays unchanged is part of the model, not a theorem about cloning.
- Inline Markdown (code spans, links, emphasis) and the HTML around blocks: blocks keep their source text.
- RenderSafeMarkdown: a list that makes no progress is reported as Diverges at its first repetition; the source's endless loop itself, which also grows its block list, is not run on.
- The HTML stripping, Unicode normalisation and clause splitting in front of the eligibility scan: its lines and clauses are given.
- Reasons and labels of an eligibility decision; the stored payload is compared as data instead of as JSON text.
- Scanner: findings of a clause are listed and then recorded, where the source records them while testing the clause.
- The contents of release migrations and guards, and `verifyReleaseIntegrity`, a single condition on counters.
- DecideRequest: requests of the benchmark come one after the other; interleaving is covered for the publishing gate only.
- World: provider events of a row happen while its worker runs, because every decision is awaited there; the exact call sum of `JevQaRun.PlayedCalls` rests on that.
- ThrowLocks: the adapter in use (`apps/site/src/lib/server/matching-source-decision-provider.ts:221-262`) catches what its client throws and always reports, so the throws this lemma speaks of need another provider.
- SearchParams: stands for URLSearchParams, whose operations are the runtime's and not the repository's; its effect on values is stated by the lemmas on deleting, appending and setting.
- QaRun: report contents, timings, token counters, diagnostics and dry runs; saving and reading back are steps that may throw.
- `sumScores`, `latency`, `summarizeAttempts`, `scoreClaims` beyond its comparisons: sums and sorts of numbers that would add only easy members.
