# Mum.entum onboarding and dashboard core, modelled in Dafny

Mum.entum is a pregnancy companion app. This project models the logic at its centre:

- **Onboarding engine.** It chooses the next onboarding question from the catalog and the user's stored responses. Dependencies are honoured, and a skipped required question is asked again. It stores answers and skips, and turns each answer into profile columns, one rule per question slug. It merges those columns into the profile row.
- **Dashboard controller.** It gates the dashboard on onboarding completion. When the user has no stored metrics, action items or notifications, it generates them from the profile row.
- **Small client-side cores:**
  - the multi-select logic of the question card;
  - the onboarding page's state machine;
  - the profile page's whitelist and value formatting;
  - the baby-insights milestone and size lookups;
  - the progress grid;
  - the VAPID key decoding of the notification context;
  - the smart check-in prompt rules and push payload;
  - the daily health check form;
  - the treatment-recommendation risk styling;
  - the severity labels of the important-updates list.

JavaScript values are modelled by `JsValues.Json`: undefined, null, booleans, integers, strings, arrays and objects with ordered members. The module also holds the built-ins this code relies on: truthiness, `String()`, `Number()`, `parseInt`, `trim`, case mapping, `split`/`join`, `JSON.stringify` and `Set` de-duplication. Database tables are maps, and a profile row is a `map<string, Json>`. Request handlers that only compute become functions. Handlers that write become methods on classes that hold the tables or the component's state. The clock (`now`), locale date formatting and query results are parameters.

Two behaviours of the code that are easy to misread; the model follows the code:

- A dependency on a slug that names no catalog question is never satisfied (`OnboardingQuestions.DanglingDependencyUnsatisfied`).
- A `pregnancy-weeks` answer that does not parse as a number writes nothing, rather than clearing the week columns (`OnboardingProjector.PregnancyWeeksBothOrNothing`).

## Model

| member | source | states |
|---|---|---|
| JsValues.Or | backend/src/controllers/onboardingController.js:51 | `a \|\| b` is `a` when `a` is truthy, else `b`; the result is truthy iff either operand is |
| JsValues.TrimBlank | backend/src/controllers/onboardingController.js:24 | trimming gives the empty text exactly when every character is white space |
| JsValues.JoinSplit | backend/src/controllers/dashboardController.js:29-32 | joining the parts of a split with the separator gives back the text |
| JsValues.Unique | backend/src/controllers/onboardingController.js:102 | `Array.from(new Set(xs))`: built by appending each value not yet kept; its meaning is stated by the two lemmas below |
| JsValues.UniqueSpec | backend/src/controllers/onboardingController.js:102 | no two kept values are SameValueZero-equal, and the kept values are exactly the values of `xs` |
| JsValues.UniqueIsFirstOccurrences | backend/src/controllers/onboardingController.js:102 | the result equals the index-wise reference list of first occurrences: each element of `xs` with no SameValueZero-equal element before it, in input order |
| JsValues.NumberOfIntToString | backend/src/controllers/onboardingController.js:26-29 | `Number` of the decimal text of an integer is that integer |
| OnboardingProjector.NormaliseString | backend/src/controllers/onboardingController.js:23-24 | a string comes back trimmed and any other value unchanged |
| OnboardingProjector.OrNull | backend/src/controllers/onboardingController.js:51 | `v \|\| null`: a truthy value is kept and a falsy one becomes null |
| OnboardingProjector.ParseNumber | backend/src/controllers/onboardingController.js:26-29 | null exactly when `Number(v)` is NaN, otherwise that number |
| OnboardingProjector.ParseBooleanFromPhrase | backend/src/controllers/onboardingController.js:31-32 | the result is null or a boolean, and null for every non-string |
| OnboardingProjector.TrimEntries | backend/src/controllers/onboardingController.js:81-82 | each entry trimmed when it is text, in place |
| OnboardingProjector.StripEntries | backend/src/controllers/onboardingController.js:89-99 | each entry has its `custom:`/`other:` prefix (any case) removed and is trimmed, in place |
| OnboardingProjector.RuleOfKnownSlugs | backend/src/controllers/onboardingController.js:49-137 | the switch has a case for exactly the known slugs |
| OnboardingProjector.EmptyUpdateForNothingOrUnknown | backend/src/controllers/onboardingController.js:43-137 | a null or undefined answer, or an unknown slug, gives the empty update |
| OnboardingProjector.FreeTextSetsOneColumn | backend/src/controllers/onboardingController.js:50-135 | a free-text slug sets exactly its one column, to the trimmed text or to null when that is empty |
| OnboardingProjector.PhraseIgnoresCase | backend/src/controllers/onboardingController.js:33 | phrase parsing gives the same result for the lower-cased text |
| OnboardingProjector.PhraseClassification | backend/src/controllers/onboardingController.js:33-36 | a "yes" start gives true, checked first; otherwise a "no" start or "not yet" gives false; otherwise null |
| OnboardingProjector.HasDoctorGate | backend/src/controllers/onboardingController.js:120-127 | `has_doctor` is the parsed phrase; `next_appointment` is cleared to null exactly when that is false; no other column |
| OnboardingProjector.HasDoctorNoNotYet | backend/src/controllers/onboardingController.js:120-127 | "No, not yet" stores false and clears the appointment |
| OnboardingProjector.PregnancyWeeksBothOrNothing | backend/src/controllers/onboardingController.js:68-73 | both week columns get the same parsed number, or nothing is written when the answer does not parse |
| OnboardingProjector.PregnancyWeeksOfNumberText | backend/src/controllers/onboardingController.js:68-73 | the decimal text of n stores n in both week columns |
| OnboardingProjector.PregnancyWeeksBlank | backend/src/controllers/onboardingController.js:68-73 | blank text stores week 0, as `Number('')` is 0 |
| OnboardingProjector.StatusUpdatesShape | backend/src/controllers/onboardingController.js:57-66 | the status column is set; the week columns are cleared iff the status lacks "pregnan"; the planning window is cleared iff it lacks "plan"; nothing else |
| OnboardingProjector.PregnancyStatusClearing | backend/src/controllers/onboardingController.js:56-67 | the same shape for the whole `pregnancy-status` case, with the trimmed answer or null as status |
| OnboardingProjector.MedicalConditionsNoneWins | backend/src/controllers/onboardingController.js:85-87 | any selection reading "none" in any case stores exactly `['None']` |
| OnboardingProjector.MedicalConditionsNoneEntry | backend/src/controllers/onboardingController.js:81-87 | one list entry that trims to "none" is enough |
| OnboardingProjector.MedicalConditionsCleaned | backend/src/controllers/onboardingController.js:89-104 | without "none": only truthy, pairwise distinct, unwrapped selections, and every truthy unwrapped selection; null exactly when none is left |
| OnboardingProjector.MedicalConditionsOneColumn | backend/src/controllers/onboardingController.js:80-105 | the case writes only `medical_conditions` |
| OnboardingProjector.ToArray | backend/src/controllers/onboardingController.js:18-21 | nothing for a falsy value, an array as it is, anything else a one-element list (definition; used by `MedicalConditionsNoneWins`) |
| OnboardingProjector.ContainsWord | backend/src/controllers/onboardingController.js:39-40 | the value is text whose lower-cased form contains the keyword (definition; used by `StatusUpdatesShape`) |
| OnboardingProjector.MedicalConditions | backend/src/controllers/onboardingController.js:80-105 | the `medical-conditions` rule; its meaning is stated by `MedicalConditionsNoneWins`, `MedicalConditionsCleaned` and `MedicalConditionsInOrder` |
| OnboardingProjector.MedicalConditionsInOrder | backend/src/controllers/onboardingController.js:89-104 | without "none": the stored list is the first occurrence of each truthy unwrapped selection, in selection order, or null when none is left |
| OnboardingProjector.BuildProfileUpdates | backend/src/controllers/onboardingController.js:42-139 | `buildProfileUpdates`: the switch on the slug; stated by `RuleOfKnownSlugs`, `EmptyUpdateForNothingOrUnknown` and the per-case lemmas above |
| OnboardingProjector.EmergencyContactShape | backend/src/controllers/onboardingController.js:130-133 | the contact is stored as `{ raw: trimmed }`, or null when blank |
| OnboardingQuestions.SlugById | backend/src/controllers/onboardingController.js:195 | every catalog id is a key of the id-to-slug map |
| OnboardingQuestions.SlugByIdFromCatalog | backend/src/controllers/onboardingController.js:195 | every entry of the map is the slug of a catalog question with that id |
| OnboardingQuestions.ResponseBySlug | backend/src/controllers/onboardingController.js:196-204 | responses are keyed only by non-empty slugs of known question ids |
| OnboardingQuestions.ResponseSlugsAreCatalogSlugs | backend/src/controllers/onboardingController.js:196-204 | only catalog slugs key a response |
| OnboardingQuestions.DependencySatisfied | backend/src/controllers/onboardingController.js:206-221 | `dependencySatisfied`; stated case by case by the four lemmas below |
| OnboardingQuestions.NoDependencySatisfied | backend/src/controllers/onboardingController.js:207 | a question without a prerequisite is satisfied |
| OnboardingQuestions.UnansweredDependencyUnsatisfied | backend/src/controllers/onboardingController.js:208-209 | a prerequisite without an answered response is unsatisfied |
| OnboardingQuestions.DanglingDependencyUnsatisfied | backend/src/controllers/onboardingController.js:207-209 | a prerequisite slug outside the catalog is never satisfied |
| OnboardingQuestions.AnsweredDependency | backend/src/controllers/onboardingController.js:211-220 | with an answered prerequisite: any answer when no values are listed; a list needs one element whose text is listed; a null answer fails; a scalar needs its text listed |
| OnboardingQuestions.Eligible | backend/src/controllers/onboardingController.js:223-232 | a question is asked when its prerequisite is met and it has no response, or it is required and its response is skipped (definition; used by `FirstEligible`) |
| OnboardingQuestions.FirstEligible | backend/src/controllers/onboardingController.js:223-232 | the index found is eligible with no eligible question before it; none iff no question is eligible |
| OnboardingQuestions.GetNextQuestion | backend/src/controllers/onboardingController.js:177-238 | a missing user id is an error; otherwise the reply is completed exactly when it carries no question |
| OnboardingQuestions.FirstEligibleHasLeastSequence | backend/src/controllers/onboardingController.js:181-223 | on a catalog in sequence order, the question found has the least sequence among eligible ones |
| OnboardingQuestions.NextIsFirstEligible | backend/src/controllers/onboardingController.js:223-238 | the question returned is in the catalog, eligible, its prerequisite met, and has the least sequence among eligible ones |
| OnboardingQuestions.CompletedIffNoneEligible | backend/src/controllers/onboardingController.js:234-235 | the reply is completed iff no catalog question is eligible |
| OnboardingQuestions.CompletedMeansRequiredAnswered | backend/src/controllers/onboardingController.js:229-235 | after completion every required question whose prerequisite is met has an answered response |
| OnboardingStore.QuestionById | backend/src/controllers/onboardingController.js:252-258 | the row found has the id; none iff no catalog row has it |
| OnboardingStore.Upsert | backend/src/controllers/onboardingController.js:141-156 | an empty update changes nothing; otherwise the user's row (created if missing) gets every updated column, adds `user_id` and `updated_at` unless the update sets them, and keeps its other columns; its columns are exactly the old ones, the updated ones, `user_id` and `updated_at`; other users are untouched |
| OnboardingStore.UpsertIdempotent | backend/src/controllers/onboardingController.js:141-156 | merging the same update twice equals merging it once |
| OnboardingStore.Database.constructor | backend/src/controllers/onboardingController.js:141-156 | both tables start empty |
| OnboardingStore.Database.UpsertProfile | backend/src/controllers/onboardingController.js:141-156 | the profile table becomes the merge and responses are unchanged |
| OnboardingStore.Database.SubmitAnswer | backend/src/controllers/onboardingController.js:244-284 | the two 400 errors and the failed lookup write nothing; otherwise the response is stored as answered and its profile update merged |
| OnboardingStore.Database.SkipQuestion | backend/src/controllers/onboardingController.js:286-319 | errors and a mandatory question write nothing; otherwise a skipped response with a null payload is stored; profiles are never touched |
| Dashboard.TrimmedParts | backend/src/controllers/dashboardController.js:29-32 | every part kept is a non-empty string; the converse and the order are `TrimmedPartsKeepsEvery` and `TrimmedPartsAppend` |
| Dashboard.TrimmedPartsFrom | backend/src/controllers/dashboardController.js:29-32 | each kept part is the trimmed form of a source part |
| Dashboard.TrimmedPartsKeepsEvery | backend/src/controllers/dashboardController.js:29-32 | conversely, every part whose trimmed form is not empty is kept, trimmed |
| Dashboard.TrimmedPartsSpec | backend/src/controllers/dashboardController.js:29-32 | the kept parts are exactly the non-empty trimmed forms of the parts |
| Dashboard.TrimmedPartsAppend | backend/src/controllers/dashboardController.js:29-32 | the parts are kept in their order: the parts of a concatenation are those of each side in turn |
| Dashboard.ParseList | backend/src/controllers/dashboardController.js:26-33 | `parseList`; stated by `ParseListClean` and, for text, exactly by `ParseListText` |
| Dashboard.ParseListClean | backend/src/controllers/dashboardController.js:26-33 | nothing for a falsy value; an array keeps exactly its truthy elements; text gives trimmed, non-empty parts without commas or line feeds |
| Dashboard.ParseListText | backend/src/controllers/dashboardController.js:29-32 | text parses to exactly the non-empty trimmed parts between commas and line feeds |
| Dashboard.RequiredIds | backend/src/controllers/dashboardController.js:38-45 | the ids of exactly the required questions |
| Dashboard.HasCompletedOnboarding | backend/src/controllers/dashboardController.js:35-50 | `hasCompletedOnboarding` as written: every required question answered, prerequisites ignored; stated by `CompletionSpec` |
| Dashboard.CompletionSpec | backend/src/controllers/dashboardController.js:35-50 | complete iff every required question has an answered response with its id |
| Dashboard.NoRequiredQuestionsComplete | backend/src/controllers/dashboardController.js:46 | no required questions means complete |
| Dashboard.CompletionChecksDisagree | backend/src/controllers/dashboardController.js:35-50 | on a two-question gated catalog the next-question reply is completed while the as-written check fails |
| Dashboard.HasCompletedOnboardingInContext | backend/src/controllers/dashboardController.js:35-50 | the corrected check: only required questions whose prerequisite is met need an answer; stated by `CompletedOnboardingPassesGate` |
| Dashboard.CompletedOnboardingPassesGate | backend/src/controllers/dashboardController.js:297-300 | whenever the next-question reply is completed, the corrected check passes |
| Dashboard.CorrectedCheckOnGatedCatalog | backend/src/controllers/dashboardController.js:297-300 | the corrected check passes on the gated catalog |
| Dashboard.FirstKeyIn | backend/src/controllers/dashboardController.js:55 | the key found occurs in the text and no earlier key does; none iff no key occurs |
| Dashboard.DetermineRegionKey | backend/src/controllers/dashboardController.js:52-57 | `determineRegionKey`; stated by `RegionKeySpec` |
| Dashboard.RegionKeySpec | backend/src/controllers/dashboardController.js:52-57 | "default" for no region; otherwise the first playbook key found in the lower-cased region, or "default" when none occurs |
| Dashboard.CleanConditions | backend/src/controllers/dashboardController.js:59-62 | the labels kept are non-empty and not "none"; `CleanConditionsFrom` and `CleanConditionsKeepsEvery` give both directions |
| Dashboard.CleanConditionsFrom | backend/src/controllers/dashboardController.js:59-62 | each label kept is the stripped text of one of the entries |
| Dashboard.CleanConditionsKeepsEvery | backend/src/controllers/dashboardController.js:59-62 | conversely, every entry whose stripped text is neither empty nor "none" gives a label |
| Dashboard.ExtractCustomConditions | backend/src/controllers/dashboardController.js:59-62 | the same for the labels extracted from the column |
| Dashboard.ExtractCustomConditionsSpec | backend/src/controllers/dashboardController.js:59-62 | the conditions are exactly the stripped texts of the parsed entries that are neither empty nor "none" |
| Dashboard.NoneSentinelHasNoConditions | backend/src/controllers/dashboardController.js:59-62 | the stored `['None']` yields no condition |
| Dashboard.CustomEntryYieldsText | backend/src/controllers/dashboardController.js:59-62 | a "Custom: text" entry yields the text |
| Dashboard.BuildNutritionSuggestions | backend/src/controllers/dashboardController.js:64-105 | `buildNutritionSuggestions`; stated by `NutritionSuggestionsShape` |
| Dashboard.NutritionSuggestionsShape | backend/src/controllers/dashboardController.js:64-105 | nothing without a profile; otherwise the three suggestions by id in order; an unknown region uses the generic hydration advice |
| Dashboard.BuildWeeklyMetrics | backend/src/controllers/dashboardController.js:193-235 | `buildWeeklyMetrics`; stated by `WeeklyMetricsShape` |
| Dashboard.WeeklyMetricsShape | backend/src/controllers/dashboardController.js:193-235 | empty iff there is no profile or the week is 0 or NaN; otherwise this week and the next capped at 40, two focus points each |
| Dashboard.ActionItems | backend/src/controllers/dashboardController.js:237-287 | the list `buildActionItems` returns; stated by `ActionItemsShape` |
| Dashboard.BuildActionItems | backend/src/controllers/dashboardController.js:237-287 | the pushes build exactly `ActionItems` |
| Dashboard.ItemsForShape | backend/src/controllers/dashboardController.js:243-286 | provider, appointment and condition items in order when they apply; gratitude exactly when none did; hydration last; two to four items |
| Dashboard.ActionItemsShape | backend/src/controllers/dashboardController.js:237-287 | the same for a profile row, with the provider item for any falsy `has_doctor` |
| Dashboard.FallbackNotifications | backend/src/controllers/dashboardController.js:144-191 | the list `buildFallbackNotifications` returns; stated by `FallbackNotificationsShape` |
| Dashboard.BuildFallbackNotifications | backend/src/controllers/dashboardController.js:144-191 | the pushes build exactly `FallbackNotifications` |
| Dashboard.FallbackNotificationsShape | backend/src/controllers/dashboardController.js:144-191 | only the welcome note without a profile; otherwise hydration first, one to three notes, more than one iff an appointment or a condition exists |
| Dashboard.StoredConditionIsListed | backend/src/controllers/dashboardController.js:179-264 | a stored entry whose stripped text is neither empty nor "none" is listed as a condition, so the condition action item and the condition-aware note are both generated |
| Dashboard.Pick | backend/src/controllers/dashboardController.js:331-335 | stored rows when there are any, else the generated list |
| Dashboard.Respond | backend/src/controllers/dashboardController.js:301-346 | the reply after the completion check; stated by `DashboardFailure` and `DashboardFallbacks` |
| Dashboard.GetDashboard | backend/src/controllers/dashboardController.js:289-351 | `getDashboard` as written: a missing user id is a 400; onboarding is required iff the as-written check fails |
| Dashboard.GetDashboardCorrected | backend/src/controllers/dashboardController.js:289-351 | the same handler on the corrected check: onboarding is required iff the corrected check fails |
| Dashboard.DashboardFailure | backend/src/controllers/dashboardController.js:326-346 | past the gate, the handler fails iff a profile column read on the path taken is not text: country (line 67) and conditions (line 75) always, activity level only when metrics are generated for a usable week (lines 196-207); with stored metrics and readable columns it answers |
| Dashboard.DashboardFallbacks | backend/src/controllers/dashboardController.js:301-346 | onboarding is required iff the check said incomplete; in a payload the profile is returned as it is and each list is the stored rows when non-empty and the generated list when empty |
| Dashboard.GatedUserSentBack | backend/src/controllers/dashboardController.js:297-299 | as written, the gated-catalog user whose onboarding the next-question endpoint calls completed is told onboarding is required, whatever the stored rows |
| Dashboard.NoRedirectLoop | backend/src/controllers/dashboardController.js:297-299 | with the corrected check, a user the next-question endpoint calls complete is never told onboarding is required |
| QuestionCard.CustomEntry | frontend/src/components/QuestionCard.jsx:38 | a non-empty result is the first custom-text selection; with any custom selection the result starts with "Custom: " |
| QuestionCard.Without | frontend/src/components/QuestionCard.jsx:50-63 | the filter keeps exactly the items different from x |
| QuestionCard.WithoutCustom | frontend/src/components/QuestionCard.jsx:44-74 | the filter keeps exactly the items whose text does not start "Custom: " |
| QuestionCard.Kept | frontend/src/components/QuestionCard.jsx:44-50 | the base leaves out "None", and custom entries on the medical question |
| QuestionCard.Toggle | frontend/src/components/QuestionCard.jsx:43-70 | the selection after a click on an option; stated by the `Toggle...` lemmas below |
| QuestionCard.ToggleOption | frontend/src/components/QuestionCard.jsx:43-70 | the handler's reassignments and pushes give exactly `Toggle` |
| QuestionCard.ShowAnswerLater | frontend/src/components/QuestionCard.jsx:172 | shown iff the question is optional and allows answering later, so never for a required one |
| QuestionCard.ToggleNoneIsExclusive | frontend/src/components/QuestionCard.jsx:45-48 | choosing "None" leaves exactly `['None']` |
| QuestionCard.ToggleOtherDropsNone | frontend/src/components/QuestionCard.jsx:50-69 | choosing another option drops "None" |
| QuestionCard.ToggleFlipsOnlyTheOption | frontend/src/components/QuestionCard.jsx:50-69 | an ordinary option's membership flips and other ordinary items stay; an absent option goes after the kept items |
| QuestionCard.ToggleKeepsCustomText | frontend/src/components/QuestionCard.jsx:39-68 | on the medical question a custom text survives, once, at the end |
| QuestionCard.ToggleOtherSwitchesCustom | frontend/src/components/QuestionCard.jsx:53-60 | "Other" adds an empty custom placeholder when there is none and removes the custom entry when there is one |
| QuestionCard.CustomChange | frontend/src/components/QuestionCard.jsx:72-80 | the selection after typing a custom condition; stated by `CustomChangeSpec` |
| QuestionCard.CustomChangeSpec | frontend/src/components/QuestionCard.jsx:72-80 | blank text removes every custom entry; other text replaces them with one trimmed entry at the end and drops "None" |
| OnboardingPage.DefaultAnswer | frontend/src/pages/Onboarding.jsx:11-16 | `[]` for multi-select, null for scale, `''` otherwise and without a question |
| OnboardingPage.HasValue | frontend/src/pages/Onboarding.jsx:63-66 | the required check: a non-empty array, or a non-nullish value whose text trims to something; stated by `ClientAtLeastAsStrict` and `DefaultAnswerHasNoValue` |
| OnboardingPage.ClientAtLeastAsStrict | frontend/src/pages/Onboarding.jsx:62-69 | every answer the server rejects for a required question the page rejects too, as well as `[]` and white space |
| OnboardingPage.DefaultAnswerHasNoValue | frontend/src/pages/Onboarding.jsx:11-69 | a fresh default answer never passes the required check |
| OnboardingPage.Page.constructor | frontend/src/pages/Onboarding.jsx:21-26 | the initial state: no question, `''`, not saving, fetching, not completed, no error |
| OnboardingPage.Page.FetchNextQuestion | frontend/src/pages/Onboarding.jsx:28-51 | nothing without a user; a completed reply clears question and answer; a question reply sets it with its default answer; a failure keeps them and shows the server's error or the fallback |
| OnboardingPage.Page.HandleSubmit | frontend/src/pages/Onboarding.jsx:60-87 | nothing without a question; a required question without a value gets the error and no request; otherwise the answer is posted, then the next question is fetched or the save error shown; `fetching` is untouched on the error and failure paths |
| OnboardingPage.Page.HandleSkip | frontend/src/pages/Onboarding.jsx:89-105 | nothing without a question; otherwise the skip is posted, then the next question is fetched or the skip error shown; `fetching` is untouched when the post fails |
| OnboardingPage.ServerReplyIsOneScreen | frontend/src/pages/Onboarding.jsx:38-45 | a server reply always lands the page on exactly one of its two screens |
| ProfileEdit.FilterPrefixSpec | backend/src/controllers/profileController.js:36-41 | after n steps the object holds exactly the whitelisted keys among the first n, with the request's values |
| ProfileEdit.Filtered | backend/src/controllers/profileController.js:36-43 | the filtered update; stated by `FilteredUpdateSpec` and `ProtectedColumnsDropped` |
| ProfileEdit.FilterUpdates | backend/src/controllers/profileController.js:36-43 | the loop and the stamp build exactly `Filtered` |
| ProfileEdit.FilteredUpdateSpec | backend/src/controllers/profileController.js:15-43 | only whitelisted columns and `updated_at`; every whitelisted request key copied unchanged; `updated_at` is the server's time |
| ProfileEdit.ProtectedColumnsDropped | backend/src/controllers/profileController.js:15-33 | `user_id`, `weeks_pregnant`, `pregnancy_status` and `planning_window` are never written |
| ProfileEdit.ProfileTable.constructor | backend/src/controllers/profileController.js:44-50 | the table holds the given rows |
| ProfileEdit.ProfileTable.UpdateProfile | backend/src/controllers/profileController.js:6-56 | a missing id or update is a 400 with no write; a user without a row is an error with no row created; an existing row gets the filtered columns |
| ProfileDetails.FormatValue | frontend/src/components/ProfileDetails.jsx:17-38 | a non-empty string is shown unchanged; the result is text, the value itself or an object's `raw`; it is empty text only for an array or an object without a truthy `raw` |
| ProfileDetails.MissingShowsPlaceholder | frontend/src/components/ProfileDetails.jsx:18-28 | null, undefined, `''` and `[]` show "Not provided yet" |
| ProfileDetails.PlaceholderOnlyForMissing | frontend/src/components/ProfileDetails.jsx:17-38 | conversely, the placeholder shows only for those values or for the placeholder text itself |
| ProfileDetails.BooleansReadAsWords | frontend/src/components/ProfileDetails.jsx:22-24 | booleans show Yes or No, never the placeholder |
| ProfileDetails.NumbersAreKept | frontend/src/components/ProfileDetails.jsx:37 | numbers, 0 included, are shown as they are |
| ProfileDetails.ListsAreJoined | frontend/src/components/ProfileDetails.jsx:26-28 | a non-empty list is joined with ", " |
| ProfileDetails.OtherObjectsShowJson | frontend/src/components/ProfileDetails.jsx:30-34 | an object without a truthy `raw` shows its JSON text, which starts with a brace |
| ProfileDetails.EmergencyContactShowsTypedText | frontend/src/components/ProfileDetails.jsx:30-33 | the stored emergency contact shows the trimmed typed text, or the placeholder when blank |
| BabyInsights.MilestoneKey | frontend/src/pages/BabyInsights.jsx:63-74 | the key chosen is always a milestone week |
| BabyInsights.GetMilestone | frontend/src/pages/BabyInsights.jsx:63-74 | the text of the milestone for `MilestoneKey` of the week |
| BabyInsights.FindMilestoneWeek | frontend/src/pages/BabyInsights.jsx:64-72 | the descending loop finds the milestone week `MilestoneKey` gives |
| BabyInsights.MilestoneKeyIsLargest | frontend/src/pages/BabyInsights.jsx:68-73 | the key is the largest milestone week not above the week, or 4 below the first |
| BabyInsights.MilestoneIsAnEntry | frontend/src/pages/BabyInsights.jsx:50-61 | the text shown is one of the table's texts |
| BabyInsights.MilestoneConstantBetweenKeys | frontend/src/pages/BabyInsights.jsx:50-72 | every week from one milestone to the next shows that milestone's text |
| BabyInsights.SizeKey | frontend/src/pages/BabyInsights.jsx:120 | a key found is a table week 4..40 whose decimal text is the week's property text |
| BabyInsights.KeyTextIsDigits | frontend/src/pages/BabyInsights.jsx:120 | a key's decimal text starts with a digit |
| BabyInsights.SizeFor | frontend/src/pages/BabyInsights.jsx:120 | the size lookup with week 20 as fallback; stated by `SizeForKey`, `SizeForOther` and `SizeForNumber` |
| BabyInsights.SizeForKey | frontend/src/pages/BabyInsights.jsx:120 | a week whose text is a table key gets that entry |
| BabyInsights.SizeForOther | frontend/src/pages/BabyInsights.jsx:120 | any other week gets week 20's entry |
| BabyInsights.SizeForNumber | frontend/src/pages/BabyInsights.jsx:120 | a number 4..40 gets its entry and any other number week 20's |
| BabyInsights.CurrentWeekPrefersSynced | frontend/src/pages/BabyInsights.jsx:119 | `current_week` when truthy, else `weeks_pregnant` |
| BabyInsights.MilestoneLine | frontend/src/pages/BabyInsights.jsx:121 | `''` without a truthy week; otherwise the milestone text, never empty |
| BabyInsights.MilestoneTextsAreNotEmpty | frontend/src/pages/BabyInsights.jsx:50-61 | no milestone text is empty |
| Progress.CurrentWeek | frontend/src/pages/Progress.jsx:47 | the week is truthy or 0 |
| Progress.WeeksAreOneToForty | frontend/src/pages/Progress.jsx:48 | the grid holds exactly the weeks 1 to 40, increasing |
| Progress.ExactlyOnePhase | frontend/src/pages/Progress.jsx:113-115 | with a numeric current week each grid week is exactly one of past, current and future |
| Progress.TextWeekIsNeverCurrent | frontend/src/pages/Progress.jsx:113-115 | a week held as text is never current, so its own cell is in no phase |
| Progress.PastIsAPrefix | frontend/src/pages/Progress.jsx:113 | the past weeks are exactly the first `current - 1` |
| Progress.MilestoneWeeksAre | frontend/src/pages/Progress.jsx:162-168 | the five milestone weeks are 12, 20, 28, 37 and 40 |
| Progress.ReachedGrowsWithTheWeek | frontend/src/pages/Progress.jsx:169 | a milestone reached stays reached in a later week |
| Progress.ReachedAtTheEnds | frontend/src/pages/Progress.jsx:162-169 | none reached before week 12, all from week 40 |
| Progress.NoWeekReachesNothing | frontend/src/pages/Progress.jsx:47-169 | a profile without a week reaches no milestone |
| VapidKey.PaddingSpec | frontend/src/context/NotificationContext.jsx:148 | the padding is below 4, completes a multiple of 4, is 0 iff the length is a multiple of 4, and is 3 for length 1 mod 4 |
| VapidKey.ReplaceChar | frontend/src/context/NotificationContext.jsx:149-151 | every occurrence of the character is replaced and nothing else changes |
| VapidKey.ToStandardSpec | frontend/src/context/NotificationContext.jsx:148-151 | the text is padded and `-`/`_` become `+`/`/` |
| VapidKey.Atob | frontend/src/context/NotificationContext.jsx:153 | decoded characters are all below 256 |
| VapidKey.UrlBase64ToUint8Array | frontend/src/context/NotificationContext.jsx:147-160 | fails iff `atob` fails; otherwise a fresh array of the decoded length holding each character code, equal to `UrlBase64ToBytes` |
| VapidKey.UrlBase64ToBytes | frontend/src/context/NotificationContext.jsx:147-160 | the decoded bytes, or failure; stated by `RoundTrip`, `ThreePaddingFails` and `P256KeyLength` |
| VapidKey.CopyCodes | frontend/src/context/NotificationContext.jsx:154-158 | the loop fills a fresh array with each character code |
| VapidKey.ThreePaddingFails | frontend/src/context/NotificationContext.jsx:148-153 | a key of length 1 mod 4 gets three `=` and always fails to decode |
| VapidKey.RoundTrip | frontend/src/context/NotificationContext.jsx:147-160 | decoding the unpadded base64url text of any bytes gives back those bytes (RFC 4648, section 5) |
| VapidKey.DecodeEncode | frontend/src/context/NotificationContext.jsx:153 | decoding the sextets of any bytes gives those bytes |
| VapidKey.P256KeyLength | frontend/src/context/NotificationContext.jsx:148 | a 65-byte P-256 public key (RFC 8292, section 3.2) is 87 characters and gets one `=` |
| CheckIn.FirstMatch | backend/src/services/notificationService.js:58 | a rule found is in the list and holds |
| CheckIn.FirstMatchIsFirst | backend/src/services/notificationService.js:58 | none iff no rule holds; otherwise the first rule that holds |
| CheckIn.GenerateCheckInNotification | backend/src/services/notificationService.js:64-76 | the body is the question; the data links to `/assistant`, requires a response and has id `checkin_<now>` |
| CheckIn.ChosenPrompt | backend/src/services/notificationService.js:58-62 | the first matching rule's prompt, else the general one; stated by `ChosenIsFirstMatching` |
| CheckIn.ChosenIsFirstMatching | backend/src/services/notificationService.js:24-62 | the prompt chosen is that of the first of the five rules that holds, and the fallback when none does |
| CheckIn.MorningBeatsStress | backend/src/services/notificationService.js:26-58 | in the morning the sleep prompt wins at medium priority, even for a stressed mood |
| CheckIn.StressWinsOutsideMorningAndEvening | backend/src/services/notificationService.js:37-58 | a stressed mood otherwise gives emotional support at high priority |
| CheckIn.BabyAgeRule | backend/src/services/notificationService.js:44 | age 0 never triggers feeding; 1 to 3 does; above 3 does not |
| CheckIn.StaleRule | backend/src/services/notificationService.js:50 | no earlier check-in, or one more than 24 hours (86400000 ms) old, triggers the wellness check |
| CheckIn.NoMatchIsGeneral | backend/src/services/notificationService.js:58-62 | with no rule holding, the general prompt at low priority |
| CheckIn.NotificationCarriesPrompt | backend/src/services/notificationService.js:64-76 | the notification carries the chosen prompt's text, category and priority, and the check-in title |
| CheckIn.TimeOfDay | backend/src/services/notificationService.js:261 | morning iff before 12, afternoon iff 12 to 17, evening iff from 18 |
| CheckIn.ScheduledNeverStressed | backend/src/services/notificationService.js:261-270 | the scheduler passes no mood, so never the stress prompt; mornings ask about sleep and evenings about the day |
| CheckIn.PushPayload | backend/src/services/notificationService.js:122-131 | the push payload object; stated by `PushPayloadSpec` |
| CheckIn.PushPayloadSpec | backend/src/services/notificationService.js:122-131 | the tag is the category; interaction is required iff the priority is 'high'; the vibration pattern is 200, 100, 200 |
| CheckIn.PayloadText | backend/src/services/notificationService.js:122 | the payload is a JSON object text |
| CheckIn.CheckInPayload | backend/src/services/notificationService.js:64-131 | a check-in's push tag is its category, and interaction is required exactly for the stress and wellness prompts |
| DailyHealthCheck.Without | frontend/src/components/DailyHealthCheck.jsx:66 | the filter never lengthens the list; its meaning is stated by `WithoutSpec` |
| DailyHealthCheck.WithoutSpec | frontend/src/components/DailyHealthCheck.jsx:66 | keeps exactly the other symptoms, and a list without the symptom unchanged |
| DailyHealthCheck.WithoutAppend | frontend/src/components/DailyHealthCheck.jsx:66 | the filter distributes over concatenation, so order is kept |
| DailyHealthCheck.Toggled | frontend/src/components/DailyHealthCheck.jsx:62-69 | a listed symptom is removed, every occurrence, and the rest stays; an absent one is appended |
| DailyHealthCheck.ToggleTwiceRestores | frontend/src/components/DailyHealthCheck.jsx:62-69 | toggling an absent symptom twice restores the list |
| DailyHealthCheck.ToggleTwiceMovesToEnd | frontend/src/components/DailyHealthCheck.jsx:62-69 | toggling a listed symptom twice moves it, once, to the end |
| DailyHealthCheck.WithoutKeepsNoDuplicates | frontend/src/components/DailyHealthCheck.jsx:66 | the filter keeps a list duplicate-free |
| DailyHealthCheck.ToggleKeepsNoDuplicates | frontend/src/components/DailyHealthCheck.jsx:62-69 | a duplicate-free list stays duplicate-free under a toggle |
| DailyHealthCheck.HealthCheckForm.constructor | frontend/src/components/DailyHealthCheck.jsx:5-13 | every field starts empty, with no symptom |
| DailyHealthCheck.HealthCheckForm.ToggleSymptom | frontend/src/components/DailyHealthCheck.jsx:62-69 | only the symptom list changes, to the toggled list, and it stays duplicate-free |
| DailyHealthCheck.HealthCheckForm.AddCustomSymptom | frontend/src/components/DailyHealthCheck.jsx:71-79 | non-empty trimmed text not yet listed is appended and the box cleared; otherwise nothing changes; the list stays duplicate-free |
| DailyHealthCheck.HealthCheckForm.SetMood | frontend/src/components/DailyHealthCheck.jsx:161 | only the mood changes |
| DailyHealthCheck.HealthCheckForm.SetSystolic | frontend/src/components/DailyHealthCheck.jsx:191 | only the systolic text changes |
| DailyHealthCheck.HealthCheckForm.SetDiastolic | frontend/src/components/DailyHealthCheck.jsx:206 | only the diastolic text changes |
| DailyHealthCheck.HealthCheckForm.SetWeight | frontend/src/components/DailyHealthCheck.jsx:232 | only the weight text changes |
| DailyHealthCheck.HealthCheckForm.SetNotes | frontend/src/components/DailyHealthCheck.jsx:345 | only the notes change |
| DailyHealthCheck.HealthCheckForm.SetCustomSymptom | frontend/src/components/DailyHealthCheck.jsx:308 | only the custom-symptom box changes |
| DailyHealthCheck.Measurement | frontend/src/components/DailyHealthCheck.jsx:94-95 | blank text is null; a number iff `parseInt` reads one, and then that number; NaN is written as null |
| DailyHealthCheck.HealthCheckForm.SubmitBody | frontend/src/components/DailyHealthCheck.jsx:91-96 | the submitted body from the form's fields; stated by `BlankFieldsSubmitNull` |
| DailyHealthCheck.BlankFieldsSubmitNull | frontend/src/components/DailyHealthCheck.jsx:91-96 | blank blood-pressure and weight fields are submitted as null, typed ones as parsed |
| TreatmentRecommendations.RiskBucket | frontend/src/components/TreatmentRecommendations.jsx:46-57 | high for "high"/"critical" and medium for "medium"/"moderate" after lower-casing; low for any other text; a non-text level fails |
| TreatmentRecommendations.RiskColor | frontend/src/components/TreatmentRecommendations.jsx:46-58 | the palette of a level's bucket; stated by `PalettesOfLevels` and `CaseInsensitive` |
| TreatmentRecommendations.RiskIcon | frontend/src/components/TreatmentRecommendations.jsx:60-72 | the icon of a level's bucket; stated by `IconAgreesWithColor` |
| TreatmentRecommendations.CaseInsensitive | frontend/src/components/TreatmentRecommendations.jsx:47-61 | levels equal up to case get the same colour and icon |
| TreatmentRecommendations.PalettesOfLevels | frontend/src/components/TreatmentRecommendations.jsx:46-72 | the red, orange and green palettes for the three groups; any other text gets green and the bulb icon |
| TreatmentRecommendations.PaletteAndIconAreDistinct | frontend/src/components/TreatmentRecommendations.jsx:50-70 | each palette and each icon belongs to one bucket |
| TreatmentRecommendations.IconAgreesWithColor | frontend/src/components/TreatmentRecommendations.jsx:46-72 | a level shows a bucket's icon exactly when it shows that bucket's palette |
| TreatmentRecommendations.WithoutId | frontend/src/components/TreatmentRecommendations.jsx:40 | keeps exactly the recommendations with another id |
| TreatmentRecommendations.WithoutIdAppend | frontend/src/components/TreatmentRecommendations.jsx:40 | the filter distributes over concatenation, so order is kept |
| TreatmentRecommendations.WithoutAbsentId | frontend/src/components/TreatmentRecommendations.jsx:40 | a list without the id is unchanged |
| TreatmentRecommendations.WithoutIdIdempotent | frontend/src/components/TreatmentRecommendations.jsx:40 | acknowledging twice equals acknowledging once |
| TreatmentRecommendations.View | frontend/src/components/TreatmentRecommendations.jsx:74-101 | "All Clear" exactly when loaded and empty; otherwise one card per recommendation |
| TreatmentRecommendations.Panel.constructor | frontend/src/components/TreatmentRecommendations.jsx:5-6 | empty and loading |
| TreatmentRecommendations.Panel.Acknowledge | frontend/src/components/TreatmentRecommendations.jsx:31-44 | every card with the id is removed and the rest kept in order; a request that throws changes nothing |
| TreatmentRecommendations.Panel.Fetched | frontend/src/components/TreatmentRecommendations.jsx:12-29 | a successful reply replaces the list; loading always ends |
| ImportantNotifications.Severity | frontend/src/components/ImportantNotifications.jsx:34 | a missing severity is "info"; text is lower-cased; a truthy non-text severity fails |
| ImportantNotifications.Label | frontend/src/components/ImportantNotifications.jsx:35 | the label has the severity's length |
| ImportantNotifications.LabelCapitalises | frontend/src/components/ImportantNotifications.jsx:35 | the first character is upper-cased and the rest kept |
| ImportantNotifications.MissingSeverityIsInfo | frontend/src/components/ImportantNotifications.jsx:34-35 | a missing severity is labelled "Info" |
| ImportantNotifications.SeverityIsLowerCase | frontend/src/components/ImportantNotifications.jsx:34-35 | the severity is already lower case |
| ImportantNotifications.ItemClass | frontend/src/components/ImportantNotifications.jsx:39 | the class ends in the severity after the `notifications__item--` modifier prefix |
| ImportantNotifications.ModifierIsLowerCase | frontend/src/components/ImportantNotifications.jsx:34-39 | severities equal up to case give the same modifier |
| ImportantNotifications.ListView | frontend/src/components/ImportantNotifications.jsx:31-58 | the caught-up message iff the list is missing or empty; otherwise one item each |

## Left out

- Numbers are integers. Fractions, exponents, `Infinity` and floating-point arithmetic are not modelled; text that needs them reads as NaN.
  - This covers `toFixed` on the progress page and `parseFloat` of the weight. The parsed weight is a parameter of `DailyHealthCheck.HealthCheckForm.SubmitBody`.
- `toLowerCase`/`toUpperCase` map only the ASCII letters.
- Rendering, styling, animation, navigation and authentication are not modelled. Neither are the emoji of the baby-size table, as the file holds them with a broken encoding.
- Network requests, database queries, `localStorage`, push delivery (`webpush`) and timers are not modelled. Their results enter as parameters:
  - query rows and `Fetch`/`Post` outcomes;
  - whether a request threw (`requestThrew`);
  - the clock (`now`).
- Concurrency is not modelled: concurrent upserts are last-write-wins, and a response write and the profile merge after it are not one transaction.
- `toLocaleDateString` is a parameter (`localeDate`) wherever a text uses it.
- The dashboard's members `careInsights: []` and `lifestyleSuggestions` are left out. `buildLifestyleSuggestions` is not part of the model: it is outside the modelled core and works on dates. So `Dashboard.Respond` does not include a failure that call could raise.
- `mapQuestion` is a field rename and is not modelled separately: the `Question` datatype already is the camel-case view.
- `fetchTodayData` of the daily health check, and the loading/success flags of the form, are left out as fetch I/O.
- The JSON text of the push payload is modelled for shape only. `CheckIn.PayloadText` states that it is an object text, not its exact characters.
- Other endpoints and scheduler paths of the notification service are left out as database and push I/O: subscriptions, sending, the chat lookup and the baby-age query.

## Findings

| source | as written | input that shows it | evidently intended | confidence | as-written member | corrected member |
|---|---|---|---|---|---|---|
| backend/src/controllers/dashboardController.js:35-50 | `hasCompletedOnboarding` demands an answer to every required question, ignoring prerequisites, while `getNextQuestion` only asks required questions whose prerequisite is met | catalog: q1 "status" (optional), then q2 "weeks" (required, shown only when status is "Pregnant"); one answer "Planning" to q1. The next-question endpoint says completed; the dashboard says onboarding is required, so the user is bounced back to onboarding every time the dashboard is opened (the onboarding page then waits for a click) | completion counts only required questions whose prerequisite is satisfied | not executed | Dashboard.GatedUserSentBack | Dashboard.NoRedirectLoop |
