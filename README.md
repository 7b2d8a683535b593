# Evaluate_Me: data lifecycle and page logic

Evaluate_Me is a public-speaking practice app. A user chooses the skills to
practise, registers speeches that practise some of those skills, and shares
a speech through a link. Anyone holding the link can evaluate the speech:
they give a score of 1 to 5 for each skill, answer two free-text questions
and give their name. The user then sees per-skill and per-speech averages,
a generated summary, and the skills that can no longer be removed because
they have been evaluated.

This project models that core in Dafny:

- **Tables** (`tables.dfy`). The rows of `user_skills`, `speeches`,
  `speech_skills`, `evaluations` and `evaluation_skill_scores`, and the pure
  table transformations the data layer performs:
  - reconciling a user's skills with a target list;
  - the removal decision for a skill;
  - replacing a speech's skills;
  - issuing and resolving share tokens;
  - the joins that collect score rows.
- **Store** (`store.dfy`). The data service as a `Database` class holding the
  five tables as `seq` fields, with one method or function per helper of
  `src/lib/supabase.ts`.
  - The backend's reachability is a field. Every helper reacts to an
    unreachable backend as its source does: it returns an empty list,
    reports an error, or carries on.
- **Scores** (`scores.dfy`) and **Grouping** (`grouping.dfy`):
  - the per-skill statistics, built by the accumulating `reduce`, proved
    against a reference definition;
  - the flattened speech average;
  - the mean of per-skill means.
- **Pages.** Each page's handlers, as classes whose methods update the page
  state and the database, or as pure functions over the page's form:
  - `speech_evaluation.dfy`: the public evaluation page;
  - `speech_add.dfy`: registering a speech;
  - `skill_selection.dfy`: onboarding skill selection;
  - `speech_manager.dfy`: the speech list;
  - `speech_player.dfy`: a speech's page with its summary and evaluation forms;
  - `profile.dfy`: the skills panel of the profile.
  - `evaluation_form.dfy` is the form both evaluation pages share.
  - `catalog.dfy` holds the skill search and grouping by category.
  - `display.dfy` holds duration and status labels.
- **Common** (`common.dfy`). The JavaScript string and list operations the
  pages rely on: `filter`, `trim`, ASCII `toLowerCase`, `includes`, `join`,
  and decimal printing.

Scores are integers and averages are exact `real` values. JavaScript's
`NaN` (the overall average of evaluated speeches none of which has an
average) is `None`. Generated ids are numbers, chosen so that no existing
row uses them.

## Model

| member | source | states |
|---|---|---|
| Tables.MissingIsDifference | src/lib/supabase.ts:404-405 | the ids to add are exactly the target ids not held, and the ids to remove are exactly the held ids not in the target |
| Tables.NewUserSkillRows | src/lib/supabase.ts:427-431 | one inserted row per id, for the user, not flagged as evaluated, with count 0 |
| Tables.HeldIsCurrent | src/lib/supabase.ts:399-401 | the current skill list read back holds exactly the user's skill set |
| Tables.ReconcileKeeps | src/lib/supabase.ts:410-421 | a protected row, another user's row, or a row whose skill is in the target survives the reconciliation |
| Tables.ReconcileDeletes | src/lib/supabase.ts:410-421 | an unprotected row of the user whose skill is not in the target is deleted |
| Tables.ReconcileSkillSet | src/lib/supabase.ts:395-451 | afterwards the user holds exactly the target skills plus the protected skills outside the target |
| Tables.ReconcileProtectedSet | src/lib/supabase.ts:410-436 | the reconciliation neither creates nor loses protected skills |
| Tables.ReconcileStable | src/lib/supabase.ts:395-451 | running it again with the same target leaves the user's skill set unchanged |
| Tables.ReconcileOtherUsers | src/lib/supabase.ts:410-436 | other users' rows are neither added nor removed |
| Tables.RemovableIff | src/lib/supabase.ts:454-508 | removal is allowed exactly when the lookup finds a single row, no row of the user for the skill is flagged, and no speech of the user practises the skill; a refusal always has a reason |
| Tables.EvaluatedIsProtected | src/lib/supabase.ts:469-474 | a flagged row makes the skill unremovable, and the reason quotes the row's evaluation count with pluralisation |
| Tables.LinkedIsProtected | src/lib/supabase.ts:476-501 | a skill practised by one of the user's speeches is never removable |
| Tables.CountNotConsulted | src/lib/supabase.ts:469 | only the flag is tested: an unflagged, unlinked single row is removable whatever its evaluation count |
| Tables.WithoutUserSkillExact | src/lib/supabase.ts:520-524 | the delete removes exactly the user's rows for the skill |
| Tables.ReplacedExact | src/lib/supabase.ts:682-703 | after replacing a speech's skills its skill list is exactly the given ids, in order; no ids leaves none |
| Tables.ReplacedRows | src/lib/supabase.ts:682-703 | the speech's rows after the replacement are exactly the newly inserted rows |
| Tables.ReplacedOthers | src/lib/supabase.ts:684-687 | other speeches' skills are untouched |
| Tables.ReplacedIdempotent | src/lib/supabase.ts:682-703 | replacing twice with the same ids gives the same table as replacing once |
| Tables.WithShareToken | src/lib/supabase.ts:726-733 | the speech with the id gets the token and becomes public; every other row is unchanged |
| Tables.LookupSound | src/lib/supabase.ts:742-757 | a successful lookup returns a public speech of the table carrying the token |
| Tables.RegenerationInvalidatesOld | src/lib/supabase.ts:720-757 | once the only speech with a token gets a different one, the old token no longer resolves |
| Tables.IssuedTokenResolves | src/lib/supabase.ts:720-757 | a freshly issued, unused token resolves to its speech, now public with that token |
| Tables.FreshSpeechId | src/lib/supabase.ts:610-628 | the generated speech id is used by no speech and no skill link |
| Tables.FreshEvaluationId | src/lib/supabase.ts:778-797 | the generated evaluation id is used by no evaluation and no score row |
| Store.Database.constructor | src/lib/supabase.ts:1-48 | the tables and the reachability are as given |
| Store.Database.GetUserSkills | src/lib/supabase.ts:369-393 | exactly the user's rows when reachable, an empty list when not |
| Store.Database.UpdateUserSkills | src/lib/supabase.ts:395-451 | a reachable backend reconciles the user's rows with the target; otherwise nothing changes, and it fails only when there is something to insert; the other tables are unchanged |
| Store.Database.CanRemoveSkill | src/lib/supabase.ts:454-508 | the removal decision over the current tables, both directions of the condition |
| Store.Database.RemoveUserSkill | src/lib/supabase.ts:511-537 | a refusal deletes nothing and returns the reason; otherwise exactly the user's rows for the skill go and success is reported |
| Store.Database.GetUserSkillEvaluationStats | src/lib/supabase.ts:540-592 | the per-skill statistics of the score rows of the user's speeches; an empty list when the request fails |
| Store.Database.GetUserSpeeches | src/lib/supabase.ts:594-608 | exactly the user's speeches when reachable, an empty list when not |
| Store.Database.CreateSpeech | src/lib/supabase.ts:610-628 | a reachable backend appends a draft, private, unshared speech under a fresh id and returns it; otherwise nothing changes and no row is returned |
| Store.Database.CreateSpeechSkills | src/lib/supabase.ts:630-649 | the rows are appended exactly when the backend is reachable |
| Store.Database.UpdateSpeechSkills | src/lib/supabase.ts:682-703 | a reachable backend replaces the speech's skills; an unreachable one fails unless there are no ids |
| Store.Database.DeleteSpeech | src/lib/supabase.ts:668-680 | a reachable backend removes exactly the speech's rows from the speeches table |
| Store.Database.GenerateSpeechShareToken | src/lib/supabase.ts:720-740 | the token is returned whether or not the update succeeds; a reachable backend stores it and makes the speech public |
| Store.Database.GetSpeechByShareToken | src/lib/supabase.ts:742-757 | a result exactly when the backend is reachable and a single public speech carries the token, and that speech is the result |
| Store.Database.GetSpeechSkills | src/lib/supabase.ts:759-775 | the ids linked to the speech, both directions; an empty list when the request fails |
| Store.Database.GetSpeechEvaluationCount | src/lib/supabase.ts:705-718 | 0 exactly when the speech has no evaluation or the request fails |
| Store.Database.CreateEvaluation | src/lib/supabase.ts:778-797 | a reachable backend appends the evaluation under a fresh id and returns it |
| Store.Database.CreateEvaluationSkillScores | src/lib/supabase.ts:799-812 | the rows are appended exactly when the backend is reachable |
| Scores.SumBounds | src/lib/supabase.ts:585 | a sum of bounded values is bounded by the count times the bounds |
| Scores.MeanInRange | src/lib/supabase.ts:585 | a mean of scores 1 to 5 lies between 1 and 5 |
| Scores.SkillStats | src/lib/supabase.ts:567-587 | the accumulating `reduce` followed by the averaging gives exactly the reference statistics |
| Scores.StatsMeaning | src/lib/supabase.ts:582-587 | each entry's count is the number of its skill's rows, and its average is the mean of exactly those scores |
| Scores.StatsOnePerSkill | src/lib/supabase.ts:567-587 | entries name distinct skills, and a skill has an entry exactly when some row scores it |
| Scores.StatsCountAll | src/lib/supabase.ts:567-587 | the counts add up to the number of rows |
| Scores.GroupsSumAll | src/pages/SpeechManager.tsx:97-100 | summing skill by skill gives the sum of all scores |
| Scores.WeightedTotalIsGroupSum | src/pages/SpeechManager.tsx:78-100 | count times average, summed over skills, is the total of the scores |
| Scores.FlattenedIsWeightedMean | src/pages/SpeechManager.tsx:97-100 | the flattened mean is the count-weighted mean of the per-skill averages |
| Scores.StatsInRange | src/lib/supabase.ts:582-587 | with scores 1 to 5 every average lies between 1 and 5 |
| Scores.MeanOrZeroBounds | src/pages/Profile.tsx:390-393 | the mean of bounded averages keeps the bounds |
| Scores.MeanOfMeansBounds | src/pages/SpeechPlayer.tsx:151-153 | the mean of per-skill means is 0 without rows and between 1 and 5 otherwise |
| Scores.FlattenedIsNotMeanOfMeans | src/pages/SpeechPlayer.tsx:151-153 | concrete rows on which the mean of means differs from the flattened mean |
| Grouping.GroupBy | src/pages/SkillSelection.tsx:311-317 | the one-pass accumulation gives the keys in order of first appearance and, under each key, exactly its items in order |
| Grouping.KeysDistinct | src/pages/SkillSelection.tsx:311-317 | no key is listed twice |
| Grouping.KeysExact | src/pages/SkillSelection.tsx:311-317 | a key is listed exactly when some item carries it |
| Grouping.GroupMembership | src/pages/SkillSelection.tsx:311-317 | an item lies in a group exactly when it carries the group's key |
| Grouping.GroupNonEmptyIffKey | src/pages/SkillSelection.tsx:311-317 | a group is non-empty exactly when its key is listed |
| Grouping.GroupsPartition | src/pages/SkillSelection.tsx:311-317 | the groups' sizes add up to the number of items |
| Catalog.FilterSkillsIff | src/pages/SkillSelection.tsx:304-308 | a skill is listed exactly when it is in the catalogue and its lower-cased name, description or category contains the lower-cased term |
| Catalog.FilterSkillsEmptyTerm | src/pages/SpeechAdd.tsx:133-137 | an empty term keeps every skill, in order |
| Catalog.SearchIgnoresCase | src/pages/SpeechAdd.tsx:133-137 | lower-casing the term does not change the result |
| Catalog.FoundByName | src/pages/SpeechAdd.tsx:133-137 | a skill is found by its own name |
| Catalog.SkillsByCategory | src/pages/SkillSelection.tsx:311-317 | the listed skills grouped by category, in order of first appearance |
| Catalog.CategoryGroupsExact | src/pages/SkillSelection.tsx:304-317 | every listed skill sits under its own category and no other, and the groups add up to the listed skills |
| EvaluationForm.SetScoreSpec | src/pages/SpeechEvaluation.tsx:63-71 | the spread sets that skill's score and no other, and adds the key last when it was missing |
| EvaluationForm.HandleSkillScore | src/pages/SpeechEvaluation.tsx:63-71 | only the given skill's score changes; the name, the answers and the other scores are unchanged |
| EvaluationForm.UnratedIffUnscored | src/pages/SpeechEvaluation.tsx:82-84 | without negative scores, "no truthy score" and "no score of at least 1" agree |
| EvaluationForm.RecordEvaluation | src/pages/SpeechEvaluation.tsx:108-130 | a reachable backend gets one evaluation with the trimmed name and answers, then one score row per entry referencing it; the other tables are unchanged |
| EvaluationForm.RecordedScoresExact | src/pages/SpeechEvaluation.tsx:120-128 | the new evaluation's score rows are exactly the form's scores |
| SpeechEvaluation.ValidateForm | src/pages/SpeechEvaluation.tsx:73-91 | the name error exactly when the name is blank, the rating error exactly when a skill is unscored, no other entry, the name error first |
| SpeechEvaluation.NameMissing | src/pages/SpeechEvaluation.tsx:77 | the name is missing exactly when it is blank |
| SpeechEvaluation.UnscoredCount | src/pages/SpeechEvaluation.tsx:82-84 | some skill is counted exactly when some skill has no score of at least 1 |
| SpeechEvaluation.EnabledIffValid | src/pages/SpeechEvaluation.tsx:420 | the idle button is enabled exactly when validation would pass |
| SpeechEvaluation.EvaluationPage.constructor | src/pages/SpeechEvaluation.tsx:18-27 | the page starts with the empty form, no errors and not submitted |
| SpeechEvaluation.EvaluationPage.ScoreSkill | src/pages/SpeechEvaluation.tsx:63-71 | the form takes the new score; nothing else changes |
| SpeechEvaluation.EvaluationPage.SubmitEvaluation | src/pages/SpeechEvaluation.tsx:93-139 | without a speech nothing happens; an invalid form writes nothing and shows exactly the errors validation collects, the name error before the rating error; a valid one records the evaluation and its scores and shows the thank-you state, or the submission error when the backend fails |
| SpeechAdd.ToggleSkillSpec | src/pages/SpeechAdd.tsx:51-79 | a selected id is removed; an unselected one is appended below the cap of five, and at the cap the selection stays and the cap error is set |
| SpeechAdd.ToggleKeepsValid | src/pages/SpeechAdd.tsx:51-79 | the selection keeps at most five ids, with no duplicates |
| SpeechAdd.AddGuard | src/pages/SpeechAdd.tsx:82-96 | submission passes the checks exactly when a user is signed in, the title is not blank and some skill is selected |
| SpeechAdd.DescriptionOf | src/pages/SpeechAdd.tsx:107 | no description exactly when it is blank, the trimmed text otherwise |
| SpeechAdd.Submit | src/pages/SpeechAdd.tsx:81-131 | a refused form writes nothing; otherwise the speech is created with the trimmed title and description, then one skill link per selected id; a failure reports the error |
| SpeechAdd.SubmittedSkillsExact | src/pages/SpeechAdd.tsx:113-119 | the new speech practises exactly the selected skills, in order |
| SpeechAdd.FilterUserSkillsIff | src/pages/SpeechAdd.tsx:139-143 | a held skill is listed exactly when it has a catalogue entry that matches the search |
| SpeechAdd.AvailableSkillsIff | src/pages/SpeechAdd.tsx:306 | the available list is exactly the matching catalogue skills the user does not hold |
| SkillSelection.IdsIff | src/pages/SkillSelection.tsx:184-185 | an id is among the catalogue ids exactly when a catalogue skill carries it |
| SkillSelection.ToggleSpec | src/pages/SkillSelection.tsx:165-178 | frozen while "all skills" is on, and for a selected protected skill when coming from the profile; otherwise it flips exactly that id; only the selection changes |
| SkillSelection.ToggleAllSpec | src/pages/SkillSelection.tsx:180-189 | on selects every catalogue id; off keeps only the protected current skills when coming from the profile, and nothing otherwise |
| SkillSelection.BasicsSpec | src/pages/SkillSelection.tsx:394-399 | the preset selects exactly the ids of the Beginner skills |
| SkillSelection.LoadCurrentUserSkills | src/pages/SkillSelection.tsx:41-68 | the current skills become the selection; the protected set is exactly those the removal check refuses; "all skills" turns on when the user holds as many skills as the catalogue has |
| SkillSelection.EvaluatedSkillsProtected | src/pages/SkillSelection.tsx:51-58 | a skill the user was evaluated on is loaded and lands in the protected set |
| SkillSelection.SubmitGuard | src/pages/SkillSelection.tsx:192-200 | the guard passes exactly when a user is signed in, the profile has loaded and the selection is non-empty; a missing user or profile gives "User not authenticated", an empty selection the selection message |
| SkillSelection.Submit | src/pages/SkillSelection.tsx:191-300 | a refused guard (no user, no loaded profile, or an empty selection) returns its error and writes nothing; offline mode writes nothing; otherwise the user's skills are reconciled with the selection, a failure is swallowed, and the profile update decides the error |
| SpeechManager.RatingMeaning | src/pages/SpeechManager.tsx:78-94 | a skill is rated exactly when some row scores it; its count is the number of those rows, and its average lies within the score range |
| SpeechManager.RatingAgreesWithStats | src/pages/SpeechManager.tsx:78-94 | a rated skill shows the same average and count as the profile's statistics entry |
| SpeechManager.SpeechAverageIsWeighted | src/pages/SpeechManager.tsx:97-100 | the speech average is defined exactly when there are rows, and it is the count-weighted mean of the per-skill averages |
| SpeechManager.NoEvaluationsNoScores | src/pages/SpeechManager.tsx:63 | a speech without evaluations has no score rows, so skipping the ratings loses nothing |
| SpeechManager.LoadUserSpeeches | src/pages/SpeechManager.tsx:38-129 | one entry per speech of the user, in order, each built from its three requests |
| SpeechManager.RequestSpeech | src/pages/SpeechManager.tsx:53-117 | one speech's requests yield the entry the specification assigns it |
| SpeechManager.LoadSpeech | src/pages/SpeechManager.tsx:59-117 | the entry built from the answers: a failed speech has no skills and no evaluations; an evaluated one has its ratings and average |
| SpeechManager.LoadedAllAt | src/pages/SpeechManager.tsx:52-117 | entry `i` of the list is the entry of speech `i` |
| SpeechManager.PartitionExact | src/pages/SpeechManager.tsx:233-234 | every speech is in exactly one of the two lists, and the editable ones are exactly the new ones |
| SpeechManager.TotalFromEvaluated | src/pages/SpeechManager.tsx:483 | the total is that of the evaluated speeches, and 0 exactly when none is evaluated |
| SpeechManager.OverallAverageBounds | src/pages/SpeechManager.tsx:237-242 | 0 without evaluated speeches; between 1 and 5 when some evaluated speech has an average; `NaN` otherwise |
| SpeechManager.DisplayedAverage | src/pages/SpeechManager.tsx:489 | the figure shown is never negative, and 0 for `NaN` |
| SpeechManager.WithoutSpeechExact | src/pages/SpeechManager.tsx:145 | the list loses exactly the deleted speech |
| SpeechManager.WithToken | src/pages/SpeechManager.tsx:166-170 | only the matching speech takes the token and becomes public |
| SpeechManager.ManagerPage.constructor | src/pages/SpeechManager.tsx:21-23 | the list is as given and no error is shown |
| SpeechManager.ManagerPage.ConfirmDelete | src/pages/SpeechManager.tsx:136-155 | a successful delete removes the speech from the table and the list; a failure keeps both and shows the error |
| SpeechManager.ManagerPage.ShareClick | src/pages/SpeechManager.tsx:157-172 | a speech with a non-empty token keeps it; otherwise, a missing or empty token being falsy, the new token is stored and shown on that speech only |
| SpeechPlayer.NameOf | src/pages/SpeechPlayer.tsx:148 | the first link's name when it is non-empty; "Unknown" when the skill has no link, and when its first link has a missing or empty name even if a later link is named |
| SpeechPlayer.FeedbackEmpty | src/pages/SpeechPlayer.tsx:131-132 | the joined feedback is empty exactly when every answer is |
| SpeechPlayer.Averaged | src/pages/SpeechPlayer.tsx:135-149 | one average per scored skill, in order of first score, equal to the statistics entry, with the skill's name |
| SpeechPlayer.BucketSpec | src/pages/SpeechPlayer.tsx:156-173 | one to four lines: the selected skills' lines, or the note or fallback line when none is selected |
| SpeechPlayer.StrengthsSpec | src/pages/SpeechPlayer.tsx:156-164 | strength lines name skills averaging at least 4, four at most; the fixed line appears exactly when no skill reaches 4, and it depends on the positive feedback |
| SpeechPlayer.ImprovementsSpec | src/pages/SpeechPlayer.tsx:166-173 | improvement lines name skills averaging below 3.5, four at most; the fixed line appears exactly when no skill is below 3.5 |
| SpeechPlayer.StrengthsAndImprovementsDisjoint | src/pages/SpeechPlayer.tsx:156-173 | no skill is both a strength and an improvement |
| SpeechPlayer.SortSpec | src/pages/SpeechPlayer.tsx:177 | the sort orders by average and is a permutation |
| SpeechPlayer.PracticeAreasLowest | src/pages/SpeechPlayer.tsx:176-179 | at most three areas, in ascending order of average, and no skill left out averages below one of them |
| SpeechPlayer.PracticeAreasNamed | src/pages/SpeechPlayer.tsx:176-179 | practice areas carry the skills' non-empty names |
| SpeechPlayer.KeywordTip | src/pages/SpeechPlayer.tsx:184-193 | a keyword tip exactly when the name holds one of the keywords |
| SpeechPlayer.TipChoice | src/pages/SpeechPlayer.tsx:182-197 | the generic template exactly when no keyword matches, one of the five tips otherwise; the choice ignores case |
| SpeechPlayer.Tips | src/pages/SpeechPlayer.tsx:182-226 | one tip per practice area, in the areas' order, or the single general tip when there is no area |
| SpeechPlayer.NextStepsFollowAreas | src/pages/SpeechPlayer.tsx:227-232 | four next steps, the first naming the lowest practice area when there is one and the weakest skills otherwise |
| SpeechPlayer.Fired | src/pages/SpeechPlayer.tsx:200-212 | each keyword advice is present exactly when its trigger fires, with no duplicates |
| SpeechPlayer.RecommendationsSpec | src/pages/SpeechPlayer.tsx:200-218 | each advice exactly when its trigger fires; the two defaults exactly when none fires |
| SpeechPlayer.PushRecommendations | src/pages/SpeechPlayer.tsx:200-218 | the pushes give exactly the specified recommendations |
| SpeechPlayer.Gather | src/pages/SpeechPlayer.tsx:136-143 | the nested `forEach` collects every score row, evaluation by evaluation |
| SpeechPlayer.GenerateAISummary | src/pages/SpeechPlayer.tsx:117-234 | the summary the specification assigns the evaluations |
| SpeechPlayer.OverallScoreSpec | src/pages/SpeechPlayer.tsx:151-153 | the overall score is the mean of per-skill means, 0 without scores, and between 1 and 5 otherwise |
| SpeechPlayer.AverageSkillRating | src/pages/SpeechPlayer.tsx:239-251 | the mean of the skill's first score in each evaluation that has one, and 0 when none has |
| SpeechPlayer.RatingAgreesWithSummary | src/pages/SpeechPlayer.tsx:239-251 | when no evaluation scores a skill twice, the skill's rating uses the same scores as the summary |
| SpeechPlayer.InAppCheck | src/pages/SpeechPlayer.tsx:294-304 | accepted exactly when the name is not blank, some answer is not blank and every skill has a truthy score |
| SpeechPlayer.WrittenCheck | src/pages/SpeechPlayer.tsx:358-368 | accepted exactly when the name is not blank and every skill has a truthy score |
| SpeechPlayer.ChecksCompared | src/pages/SpeechPlayer.tsx:290-368 | the in-app check is the stricter; the written check accepts exactly what the public page accepts and ignores the answers |
| SpeechPlayer.PlayerPage.constructor | src/pages/SpeechPlayer.tsx:35-41 | the page starts with the empty form, closed, with no alert |
| SpeechPlayer.PlayerPage.Submit | src/pages/SpeechPlayer.tsx:290-416 | nothing without a speech or a user; a refused form raises its alert; otherwise the evaluation and its scores are recorded and the form closes and resets, or the submission alert is raised |
| SpeechPlayer.PlayerPage.Commit | src/pages/SpeechPlayer.tsx:306-351 | the writes of an accepted form and the page state after them |
| Display.FormatTimeRoundTrip | src/pages/SpeechPlayer.tsx:253-258 | a positive duration prints as minutes, a colon and two digits of seconds below 60, which read back to the duration |
| Display.FormatTimeUnknown | src/pages/SpeechPlayer.tsx:254 | "Unknown" exactly for a missing or zero duration |
| Display.StatusLabel | src/pages/SpeechPlayer.tsx:270-278 | a known status is shown capitalised, any other as "Unknown" |
| Profile.BadgeMeansRefused | src/pages/Profile.tsx:292-310 | each row shows exactly one of the remove button and the badge, and a badged skill is refused by the removal check |
| Profile.ButtonDoesNotPromiseRemoval | src/pages/Profile.tsx:292-300 | a concrete skill shows the remove button and is still refused, because a speech practises it |
| Profile.WithoutSkillExact | src/pages/Profile.tsx:107 | the local list loses exactly the rows of that skill |
| Profile.LocalListFollowsTable | src/pages/Profile.tsx:105-109 | after a removal the local list still equals the user's rows in the table |
| Profile.ProfilePage.constructor | src/pages/Profile.tsx:10-21 | the list and statistics are as given, and the modal is closed |
| Profile.ProfilePage.RemoveSkillClick | src/pages/Profile.tsx:90-94 | the modal opens for that skill with no message |
| Profile.ProfilePage.ConfirmRemoveSkill | src/pages/Profile.tsx:96-119 | a successful removal drops the skill from the table and the list and closes the modal; a refused one shows the message and keeps both |
| Profile.FindStatSpec | src/pages/Profile.tsx:284 | no entry exactly when no statistic names the skill; otherwise that entry |
| Profile.ShownFromStats | src/pages/Profile.tsx:284-286 | a skill shows the mean and number of its scores, and 0 and 0 without scores |
| Profile.AverageLevelBounds | src/pages/Profile.tsx:390-393 | the level is 0 without statistics and between 1 and 5 otherwise |
| Profile.BarWidthSpec | src/pages/Profile.tsx:333 | the width never exceeds 100, is 20 times the average up to 5, and is not negative |
| Profile.Stars | src/pages/Profile.tsx:342-350 | five stars, star `i` filled exactly when `i` is below the average's floor |
| Profile.FilledStars | src/pages/Profile.tsx:346 | a rating between 1 and 5 fills as many stars as its floor |
| Common.Trim | src/pages/SpeechEvaluation.tsx:110-112 | the result is a slice with only white space around it, and it has no white space at either end |
| Common.TrimEmptyIffBlank | src/pages/SpeechEvaluation.tsx:77 | the trimmed string is empty exactly when the string is blank |
| Common.TrimKeepsTrimmed | src/pages/SpeechAdd.tsx:107 | trimming leaves an already trimmed string unchanged |
| Common.LowerIdempotent | src/pages/SpeechPlayer.tsx:183 | lower-casing twice is lower-casing once |
| Common.IncludesIffOccurs | src/pages/SpeechAdd.tsx:133-137 | the scan reports an occurrence exactly when the needle occurs at some position |
| Common.IncludesEmpty | src/pages/SpeechAdd.tsx:133-137 | every string includes the empty string |
| Common.JoinEmpty | src/pages/SpeechPlayer.tsx:131-132 | joining non-empty parts is empty exactly when there are none |
| Common.FilterAppend | src/pages/SpeechManager.tsx:233-234 | filtering distributes over concatenation |
| Common.ParseNatToString | src/pages/SpeechPlayer.tsx:256-257 | printing a number and reading it back gives the number |

## Left out

- The Supabase client, the mock client, `Promise.race` timeouts, and retry and fallback logic are left out. The tables are in-memory state. A failure is the single `reachable` flag: when it is false, every request fails.
- A failure between two requests of one operation is not modelled, because each operation sees one backend state. Examples are a delete that succeeds before an insert fails, or a `canRemoveSkill` that succeeds before the delete fails (`Failed to remove skill`).
- `SpeechManager.LoadUserSpeeches` takes the set of speeches whose detail requests throw as a parameter, `failing`. This is the per-speech `catch`. The score query's own error, which leaves a speech unrated, follows `reachable`.
- `getAllSkills` and `generateShareToken` are left out. The catalogue is an input to the pages. The random token is a parameter of `GenerateSpeechShareToken` and `ShareClick`.
- `updateSpeech` and `getSpeechEvaluations` are left out. No modelled handler calls them, and the player's data loading is left out too.
- The loading effects of `SpeechPlayer`, `Profile`, `SpeechAdd` and `SpeechEvaluation` are left out, along with the reload after a player submission. The pages are built from already loaded data. Their effects are `Promise.all` pairs with React lifecycle.
- `updateProfile` and `refreshProfile` in onboarding are left out. Their outcome is the `profileSaved` parameter of `SkillSelection.Submit`. The profile lives outside the five modelled tables, so `profileSaved` does not follow `reachable`. Whether the profile has loaded is the `profileLoaded` parameter of the same method.
- `getUserSpeeches` orders by `created_at` descending; the model keeps table order. `created_at` and `updated_at` columns are not modelled.
- Column defaults are assumed from the schema: status "draft", not public, no token, `has_evaluations` false, `evaluation_count` 0.
- The player page's two form-visibility flags, one per evaluation form, are one flag `showForm` in `SpeechPlayer.PlayerPage`.
- `toFixed` formatting and JSX rendering are left out. The summary's rated lines carry the exact average, not its one-decimal text. `Display.PadTwo` only models the two-character pad it is used for.
- `Common.Lower` lower-cases ASCII letters only. JavaScript's full Unicode case mapping is not modelled.
- JavaScript object key order is taken to be insertion order. This holds for the skill ids used as keys, which are not integer-like strings.
- `Array.prototype.sort` is modelled as a stable insertion sort on the averages. The comparator's `NaN` cases cannot arise, because every average is a mean of a non-empty list.
- Durations are natural numbers. `NaN`, fractional and negative durations are not modelled.
- QR codes, the clipboard, `mailto`, `window.location`, navigation and the simulated voice recording are left out as browser APIs.
- The player page's `generateQRCode` (src/pages/SpeechPlayer.tsx:437-462) is left out. Its token step follows the same falsy test as `SpeechManager.ManagerPage.ShareClick`, and the rest of it builds a QR code image.
- Session and profile loading, routing, OAuth, and the static pages (Community, Analytics, Dashboard, the environment checker) are not part of this model.
- `canRemoveSkill` tests only `has_evaluations`, not `evaluation_count`. The model follows the code (see `Tables.CountNotConsulted`), even where a description of the rule names either field.
