# StudyMate — a Dafny model of its dashboard and API core

StudyMate is a study-planning application. It has two parts:

- `smart-study`, a Next.js client. Its dashboard pages cover study plans and their milestone
  tracker, courses with a PDF reader, community discussions and assignments. A client-side store
  keeps courses and assignments in browser storage.
- `studymate-backend`, a Spring Boot REST API. It has controllers for authentication, the user
  profile, courses, community discussions, study plans, assignments and an AI tutor chat, plus a
  course service over the course repository.

This project models that core in Dafny:

- Each page component, the client store and each controller whose handlers change state becomes a
  `class`. The React state, browser storage and in-memory tables it updates are fields of type `seq`
  or `map`, and each handler is a method. Its `ensures` gives the whole new state in terms of
  specification functions.
- Pure helpers become functions: progress percentages, validation, tag parsing, difficulty and
  status mapping, paging, UUID parsing and the DTO mappings. Lemmas state what the source promises
  about them: round trips, idempotence, invariants the handlers keep, bounds, and the result on the
  repository's own sample data.
- Anything the code gets from outside is a parameter: the clock, generated ids, password hashing,
  the token generator, the language model's reply, the iteration order of a Java `HashMap`, and
  server replies seen by the client.

Shared modules:

- `Common`: Option, HTTP `Response`, filtering, and the values of a map taken in a given key order.
- `Text`: JavaScript and Java whitespace, trim, case mapping, split and join, and decimal printing
  and parsing.
- `Arith`: `Math.round` of a percentage, clamping, and Java `int` wrap-around.
- `Paging`: the page slice that two controllers compute.

## Model

| member | source | states |
|---|---|---|
| ProgressTracker.CompletedCountExtremes | smart-study/src/components/shared/StudyPlanProgressTracker.tsx:79-82 | no milestone completed gives a count of 0; all completed gives the list length |
| ProgressTracker.InWeek | smart-study/src/components/shared/StudyPlanProgressTracker.tsx:98 | holds exactly the milestones of the given week |
| ProgressTracker.OverallProgressAsWritten | smart-study/src/components/shared/StudyPlanProgressTracker.tsx:79-82 | the code as written has no number (NaN) exactly when the milestone list is empty |
| ProgressTracker.EmptyPlanProgressIsNaN | smart-study/src/components/shared/StudyPlanProgressTracker.tsx:81 | an empty milestone list yields NaN |
| ProgressTracker.OverallProgress | smart-study/src/components/shared/StudyPlanProgressTracker.tsx:79-82 | agrees with the as-written percentage on every non-empty list (and is 0 on the empty list) |
| ProgressTracker.OverallProgressIsRoundedFraction | smart-study/src/components/shared/StudyPlanProgressTracker.tsx:79-82 | lies in 0..100 and is the completed/total percentage rounded half up, as `Math.round` does |
| ProgressTracker.OverallProgressExtremes | smart-study/src/components/shared/StudyPlanProgressTracker.tsx:79-82 | nothing completed gives 0 percent; everything completed gives 100 percent |
| ProgressTracker.ZeroProgressWithACompletedMilestone | smart-study/src/components/shared/StudyPlanProgressTracker.tsx:81 | rounding shows 0 percent although one milestone is completed, whenever more than 200 are open |
| ProgressTracker.FullProgressWithAnOpenMilestone | smart-study/src/components/shared/StudyPlanProgressTracker.tsx:81 | rounding shows 100 percent although one milestone is open, whenever more than 200 are completed |
| ProgressTracker.WeekProgress | smart-study/src/components/shared/StudyPlanProgressTracker.tsx:97-105 | a week with no milestones shows 0 percent |
| ProgressTracker.WeekProgressIsRoundedFraction | smart-study/src/components/shared/StudyPlanProgressTracker.tsx:97-105 | lies in 0..100 and is the rounded completed fraction of that week's milestones |
| ProgressTracker.Toggle | smart-study/src/components/shared/StudyPlanProgressTracker.tsx:85-87 | flips `completed` on exactly the milestones with the id and leaves every other milestone and the order alone |
| ProgressTracker.ToggleTwice | smart-study/src/components/shared/StudyPlanProgressTracker.tsx:85-87 | toggling the same id twice restores the list |
| ProgressTracker.ToggleUnknown | smart-study/src/components/shared/StudyPlanProgressTracker.tsx:85-87 | toggling an id not in the list changes nothing |
| ProgressTracker.NotifiedFlagIsNewFlag | smart-study/src/components/shared/StudyPlanProgressTracker.tsx:91-94 | the toast reports the new state of the first milestone with the id, or "completed" when the id is absent |
| ProgressTracker.RestorePersisted | smart-study/src/components/shared/StudyPlanProgressTracker.tsx:50-77 | what is persisted is restored unchanged on the next load |
| ProgressTracker.MergeOverrides | smart-study/src/components/shared/StudyPlanProgressTracker.tsx:67-77 | each field given in a patch replaces the stored one and each absent field keeps its value |
| ProgressTracker.StorageKey | smart-study/src/components/shared/StudyPlanProgressTracker.tsx:47 | the session-storage key is `sp-state-` followed by the plan id |
| ProgressTracker.Tracker.constructor | smart-study/src/components/shared/StudyPlanProgressTracker.tsx:43-45 | starts at week 1 with empty notes and the plan's milestones, or none |
| ProgressTracker.Tracker.Load | smart-study/src/components/shared/StudyPlanProgressTracker.tsx:50-65 | replaces the state with the stored entry for this plan when there is one, otherwise keeps it |
| ProgressTracker.Tracker.Persist | smart-study/src/components/shared/StudyPlanProgressTracker.tsx:67-77 | writes the merged state under this plan's key and nothing else |
| ProgressTracker.Tracker.ToggleMilestone | smart-study/src/components/shared/StudyPlanProgressTracker.tsx:84-95 | toggles the milestone, persists the new state and raises one toast with the new flag |
| ProgressTracker.Tracker.SaveAndExit | smart-study/src/components/shared/StudyPlanProgressTracker.tsx:113-116 | persists the current state so that a reload restores it exactly |
| ProgressTracker.SamplePlanOverall | smart-study/data/index.ts:572-664 | the sample plan's twelve milestones show 25 percent overall |
| ProgressTracker.SamplePlanWeek1 | smart-study/data/index.ts:572-664 | week 1 of the sample plan shows 100 percent |
| ProgressTracker.SamplePlanWeek2 | smart-study/data/index.ts:572-664 | week 2 of the sample plan shows 50 percent |
| ProgressTracker.SamplePlanWeek3 | smart-study/data/index.ts:572-664 | week 3 of the sample plan shows 0 percent |
| ClientStore.UpdateById | smart-study/src/lib/store.tsx:74-81 | patches every assignment with the id and leaves the others, their order and the length alone |
| ClientStore.UpdateByIdIdempotent | smart-study/src/lib/store.tsx:74-81 | an empty patch changes nothing; a patch that keeps the id gives the same result twice as once |
| ClientStore.RecordAttempt | smart-study/src/lib/store.tsx:83-95 | the assignment with the id gets one more attempt, that score, and status completed; the others are unchanged |
| ClientStore.RecordAttemptIgnoresMaxAttempts | smart-study/src/lib/store.tsx:83-95 | two attempts add two to the count whatever the assignment's maximum |
| ClientStore.Hydrate | smart-study/src/lib/store.tsx:38-54 | a stored list is used as is; a missing or unreadable entry falls back to the demo assignments |
| ClientStore.Store.constructor | smart-study/src/lib/store.tsx:29-54 | starts with no courses, the hydrated assignments and the given id counters |
| ClientStore.Store.CreateAssignment | smart-study/src/lib/store.tsx:68-72 | prepends the input under the next assignment id and advances the counter; the ids handed out stay strictly increasing, so they are distinct |
| ClientStore.Store.UpdateAssignment | smart-study/src/lib/store.tsx:74-81 | the assignments become the patched list; nothing else changes |
| ClientStore.Store.RecordQuizAttempt | smart-study/src/lib/store.tsx:83-95 | the assignments become the list with the attempt recorded; nothing else changes |
| ClientStore.Store.CreateCourse | smart-study/src/lib/store.tsx:97-126 | prepends the new course, with progress 0 and the book icon unless given, and one pending starter quiz linked to it; both counters advance |
| ClientStore.ReloadReusesAssignmentId | smart-study/src/lib/store.tsx:29-72 | after a reload the counter restarts, so a new assignment gets the same id as one made before the reload |
| PlanForm.AddTrimmed | smart-study/src/components/shared/CreateStudyPlanForm.tsx:83-94 | an item is added, trimmed, at the end exactly when it is not blank and not already present |
| PlanForm.AddTrimmedKeepsWellFormed | smart-study/src/components/shared/CreateStudyPlanForm.tsx:83-94 | adding keeps the list free of blanks, untrimmed items and duplicates |
| PlanForm.AddTrimmedTwice | smart-study/src/components/shared/CreateStudyPlanForm.tsx:83-94 | adding the same text twice is refused the second time |
| PlanForm.RemoveAll | smart-study/src/components/shared/CreateStudyPlanForm.tsx:96-101 | the value no longer occurs in the result |
| PlanForm.RemoveAllCounts | smart-study/src/components/shared/CreateStudyPlanForm.tsx:96-101 | removal drops every copy of the value and keeps every other item as often as before |
| PlanForm.RemoveAllConcat | smart-study/src/components/shared/CreateStudyPlanForm.tsx:96-101 | removal distributes over concatenation, so order is preserved |
| PlanForm.RemoveUndoesAdd | smart-study/src/components/shared/CreateStudyPlanForm.tsx:83-101 | removing the item just added restores the list |
| PlanForm.RemoveAllKeepsWellFormed | smart-study/src/components/shared/CreateStudyPlanForm.tsx:96-101 | removal keeps the list well formed |
| PlanForm.Validate | smart-study/src/components/shared/CreateStudyPlanForm.tsx:140-169 | a field has an error exactly when its rule fails, with that rule's message; the form is valid exactly when no error is recorded |
| PlanForm.UnfilledFormErrors | smart-study/src/components/shared/CreateStudyPlanForm.tsx:25-35 | an untouched form has errors for title, description, duration, subjects and start date, and not for the hours |
| Text.IntOrZero | smart-study/src/components/shared/CreateStudyPlanForm.tsx:71 | the hours field takes the parsed integer, or 0 when the text does not parse |
| Text.IntOrZeroOfIntToString | smart-study/src/components/shared/CreateStudyPlanForm.tsx:71 | a typed number is read back as that number |
| PlanForm.ClearError | smart-study/src/components/shared/CreateStudyPlanForm.tsx:75-80 | blanks the error of the edited field and keeps every other error |
| PlanForm.StudyPlanForm.constructor | smart-study/src/components/shared/CreateStudyPlanForm.tsx:37 | starts from the given plan data or the empty form, with no errors |
| PlanForm.StudyPlanForm.Open | smart-study/src/components/shared/CreateStudyPlanForm.tsx:40-45 | reopening resets the data to the given plan or the empty form |
| PlanForm.StudyPlanForm.HandleInputChange | smart-study/src/components/shared/CreateStudyPlanForm.tsx:63-80 | sets the named field and clears its error, nothing else |
| PlanForm.StudyPlanForm.SetCurrentSubject | smart-study/src/components/shared/CreateStudyPlanForm.tsx:374 | the subject input holds the typed text; nothing else changes |
| PlanForm.StudyPlanForm.SetCurrentGoal | smart-study/src/components/shared/CreateStudyPlanForm.tsx:412 | the goal input holds the typed text; nothing else changes |
| PlanForm.StudyPlanForm.SetCurrentPrerequisite | smart-study/src/components/shared/CreateStudyPlanForm.tsx:447 | the prerequisite input holds the typed text; nothing else changes |
| PlanForm.StudyPlanForm.AddSubject | smart-study/src/components/shared/CreateStudyPlanForm.tsx:83-94 | on any lists, adds the trimmed subject and clears the input when accepted, otherwise changes nothing; well-formed lists stay well formed |
| PlanForm.StudyPlanForm.AddGoal | smart-study/src/components/shared/CreateStudyPlanForm.tsx:103-111 | the same for goals, on any lists |
| PlanForm.StudyPlanForm.AddPrerequisite | smart-study/src/components/shared/CreateStudyPlanForm.tsx:120-131 | the same for prerequisites, on any lists |
| PlanForm.StudyPlanForm.RemoveSubject | smart-study/src/components/shared/CreateStudyPlanForm.tsx:96-101 | on any lists, removes the subject from the subjects only; well-formed lists stay well formed |
| PlanForm.StudyPlanForm.RemoveGoal | smart-study/src/components/shared/CreateStudyPlanForm.tsx:113-118 | removes the goal from the goals only, on any lists |
| PlanForm.StudyPlanForm.RemovePrerequisite | smart-study/src/components/shared/CreateStudyPlanForm.tsx:133-138 | removes the prerequisite from the prerequisites only, on any lists |
| PlanForm.StudyPlanForm.ValidateForm | smart-study/src/components/shared/CreateStudyPlanForm.tsx:140-169 | records the validation errors and answers whether the form is valid |
| PlanForm.StudyPlanForm.HandleSubmit | smart-study/src/components/shared/CreateStudyPlanForm.tsx:171-188 | a valid form is submitted once and reset; an invalid one is kept with its errors |
| CommunityPage.ToggleLike | smart-study/src/app/dashboard/community/page.tsx:66-74 | on the discussion with the id, flips the liked flag and moves the count by one; the others are unchanged |
| CommunityPage.ToggleLikeTwice | smart-study/src/app/dashboard/community/page.tsx:66-74 | liking and unliking restores the list |
| CommunityPage.ToggleLikeKeepsConsistent | smart-study/src/app/dashboard/community/page.tsx:15-74 | the seeded discussions have non-negative counts with a liked one counting itself, and toggling keeps that |
| CommunityPage.PrependKeepsConsistent | smart-study/src/app/dashboard/community/page.tsx:87-100 | a new discussion with no likes keeps the list consistent |
| CommunityPage.ParseTags | smart-study/src/app/dashboard/community/page.tsx:80-83 | every tag is non-empty, trimmed and free of commas |
| CommunityPage.ParseTagsOfJoin | smart-study/src/app/dashboard/community/page.tsx:80-83 | joining well-formed tags with commas and parsing gives them back |
| CommunityPage.ParseTagsOfBlank | smart-study/src/app/dashboard/community/page.tsx:80-83 | text of only commas and blanks gives no tags |
| CommunityPage.Submission | smart-study/src/app/dashboard/community/page.tsx:76-98 | refused exactly when the title or the content is blank; otherwise a trimmed discussion by "You" with no likes or replies and the parsed tags |
| CommunityPage.Page.constructor | smart-study/src/app/dashboard/community/page.tsx:10-64 | starts with the seeded discussions and a closed, empty dialog |
| CommunityPage.Page.ToggleLikeOf | smart-study/src/app/dashboard/community/page.tsx:66-74 | applies the like toggle and keeps the like counts consistent |
| CommunityPage.Page.HandleCreateDiscussion | smart-study/src/app/dashboard/community/page.tsx:76-105 | an accepted submission is prepended and the dialog reset; a refused one changes nothing |
| CommunityPage.Page.Accept | smart-study/src/app/dashboard/community/page.tsx:100-104 | prepends the discussion, closes the dialog and clears its fields |
| CoursesPage.ReaderProgress | smart-study/src/app/dashboard/courses/page.tsx:37-50 | a stored percentage is rounded and clamped to 0..100; otherwise the page ratio is used; nothing when neither is usable |
| CoursesPage.ReaderProgressOfPages | smart-study/src/app/dashboard/courses/page.tsx:43-45 | page c of t shows the rounded percentage c/t |
| CoursesPage.ReaderProgressOfPercentage | smart-study/src/app/dashboard/courses/page.tsx:42 | a whole percentage in range is shown as stored |
| CoursesPage.ReaderProgressClamped | smart-study/src/app/dashboard/courses/page.tsx:42 | percentages above 100 show 100 and negative ones show 0 |
| CoursesPage.ProgressKey | smart-study/src/app/dashboard/courses/page.tsx:39 | the storage key ends with the course id |
| CoursesPage.MapDifficulty | smart-study/src/app/dashboard/courses/page.tsx:52-62 | INTERMEDIATE and ADVANCED in any case map to those levels; everything else, including empty, is beginner |
| CoursesPage.MapDifficultyOfNames | smart-study/src/app/dashboard/courses/page.tsx:52-62 | each level's own name, in title or upper case, maps back to that level |
| CoursesPage.MapDifficultyIgnoresCase | smart-study/src/app/dashboard/courses/page.tsx:52-62 | lower-casing the input does not change the level |
| CoursesPage.BaseCard | smart-study/src/app/dashboard/courses/page.tsx:74-82 | a backend course becomes a card with its id and title, the mapped level, "N hours" and no progress |
| CoursesPage.BaseCardDuration | smart-study/src/app/dashboard/courses/page.tsx:78 | the hours shown parse back to the course duration |
| CoursesPage.WithServerProgress | smart-study/src/app/dashboard/courses/page.tsx:88-103 | each card takes the server's progress when the reply has one and keeps its own otherwise |
| CoursesPage.Overlay | smart-study/src/app/dashboard/courses/page.tsx:104-109 | each card takes the reader progress from local storage when present and keeps its own otherwise |
| CoursesPage.OverlayIdempotent | smart-study/src/app/dashboard/courses/page.tsx:124-131 | refreshing the overlay twice is the same as once |
| CoursesPage.LoadedProgress | smart-study/src/app/dashboard/courses/page.tsx:74-109 | a loaded card's progress is the local reader progress, else the server progress, else 0 |
| CoursesPage.LocalCard | smart-study/src/app/dashboard/courses/page.tsx:221-231 | a locally created course shows its reader progress when stored, else its own |
| CoursesPage.Grid | smart-study/src/app/dashboard/courses/page.tsx:221-231 | the grid shows the loaded cards followed by one card per local course |
| CoursesPage.GridIsOverlay | smart-study/src/app/dashboard/courses/page.tsx:221-231 | the local part of the grid is the storage overlay applied to the local courses |
| CoursesPage.LoadError | smart-study/src/app/dashboard/courses/page.tsx:71-72 | a failed load always shows a message, the server's own when it sent one |
| CoursesPage.CreateInput | smart-study/src/app/dashboard/courses/page.tsx:148-155 | the new course carries the title, the level name, a description from the category and the hours text |
| CoursesPage.DurationAtLeastOneHour | smart-study/src/app/dashboard/courses/page.tsx:151 | the duration text records at least one hour |
| CoursesPage.ValidDialogKeepsHours | smart-study/src/app/dashboard/courses/page.tsx:151-176 | a valid dialog records exactly the typed number of hours |
| CoursesPage.CreatedCourse | smart-study/src/lib/store.tsx:97-107 | the stored course has the next id, the dialog's title, icon and level, and no progress |
| CoursesPage.Page.constructor | smart-study/src/app/dashboard/courses/page.tsx:13-23 | starts loading, with no courses, no error and the initial dialog |
| CoursesPage.Page.Load | smart-study/src/app/dashboard/courses/page.tsx:66-115 | a failed reply keeps the cards and records the error; a good one shows the overlaid cards; loading ends either way |
| CoursesPage.Page.RefreshOverlay | smart-study/src/app/dashboard/courses/page.tsx:124-131 | re-applies the storage overlay to the cards and changes nothing else |
| CoursesPage.Page.HandleCreate | smart-study/src/app/dashboard/courses/page.tsx:144-174 | creates the course in the store together with its starter quiz under the next assignment id, advancing both counters; registers a chosen PDF under the new id and resets the dialog; the cards, loading state and error are kept |
| PlanDetails.ComputeProgress | smart-study/src/components/shared/StudyPlanDetails.tsx:70-80 | a given progress is shown as is; otherwise a value in 0..100, and 0 without milestones |
| PlanDetails.ComputeProgressIsTrackerProgress | smart-study/src/components/shared/StudyPlanDetails.tsx:70-80 | without a given progress the detail view agrees with the tracker's rounded percentage |
| PlanDetails.IsStudyPlanCases | smart-study/src/components/shared/StudyPlanDetails.tsx:64-68 | an object is a stored plan when it has a status or due date field, even a null one, and a form draft otherwise |
| PlanDetails.ToFormData | smart-study/src/components/shared/StudyPlanDetails.tsx:46-61 | copies the form fields, with empty lists, "Beginner", 5 hours and an empty start date as defaults |
| PlanDetails.PlanOfForm | smart-study/src/components/shared/StudyPlanDetails.tsx:64-68 | a draft built from form data is not taken for a stored plan |
| PlanDetails.ToFormDataOfPlanOfForm | smart-study/src/components/shared/StudyPlanDetails.tsx:46-61 | editing a draft returns the same form data, with only an empty difficulty replaced by "Beginner" |
| PlanDetails.ZeroHoursFailEditValidation | smart-study/src/components/shared/StudyPlanDetails.tsx:46-61 | a plan saved with 0 hours opens for editing with an hours error |
| PlanDetails.StatusColor | smart-study/src/components/shared/StudyPlanDetails.tsx:30-43 | gray exactly for statuses other than active, completed, paused and overdue in any case |
| PlanDetails.StatusColorIgnoresCase | smart-study/src/components/shared/StudyPlanDetails.tsx:30-43 | the colour does not depend on the status's case |
| PlanDetails.DifficultyColor | smart-study/src/components/shared/StudyPlanDetails.tsx:82-93 | gray without a difficulty; otherwise the colour of its lower-cased name |
| PlanDetails.DifficultyColorIgnoresCase | smart-study/src/components/shared/StudyPlanDetails.tsx:82-93 | the colour does not depend on case; beginner is green, intermediate yellow and advanced red |
| AssignmentsPage.Displayed | smart-study/src/app/dashboard/assignments/page.tsx:67-68 | the store's assignments come first, then the static ones |
| AssignmentsPage.Selected | smart-study/src/app/dashboard/assignments/page.tsx:69 | the first shown assignment with the id, or nothing when no assignment has it |
| AssignmentsPage.DynamicShadowsStatic | smart-study/src/app/dashboard/assignments/page.tsx:67-69 | a store assignment hides a static one with the same id |
| AssignmentsPage.SeededStoreShowsDemoTwice | smart-study/data/index.ts:251-301 | with the demo store, each demo assignment appears twice and its detail view shows the store's copy |
| AssignmentsPage.Pending | smart-study/src/app/dashboard/assignments/page.tsx:71 | holds exactly the pending assignments |
| AssignmentsPage.InProgress | smart-study/src/app/dashboard/assignments/page.tsx:72 | holds exactly the in-progress assignments |
| AssignmentsPage.Completed | smart-study/src/app/dashboard/assignments/page.tsx:73 | holds exactly the completed assignments |
| AssignmentsPage.GroupsDisjoint | smart-study/src/app/dashboard/assignments/page.tsx:71-73 | no assignment is in two groups, and one with another status is in none |
| AssignmentsPage.GroupCounts | smart-study/src/app/dashboard/assignments/page.tsx:71-73 | the three groups and the ungrouped assignments account for the whole list |
| AssignmentsPage.GroupsOfDisplayed | smart-study/src/app/dashboard/assignments/page.tsx:67-73 | each group lists the store's members before the static ones |
| AssignmentsPage.Cards | smart-study/src/app/dashboard/assignments/page.tsx:324-351 | the All view shows the three groups in order; the pending, in-progress and completed views show exactly their own group; every view shows only grouped assignments from the list |
| AssignmentsPage.ShownIffGrouped | smart-study/src/app/dashboard/assignments/page.tsx:324-351 | an assignment is shown in All exactly when it is listed and has one of the three statuses; others, such as overdue, are never shown |
| AssignmentsPage.StatusColor | smart-study/src/app/dashboard/assignments/page.tsx:75-88 | gray exactly for statuses other than pending, in-progress, completed and overdue |
| AssignmentsPage.StatusColorsDistinct | smart-study/src/app/dashboard/assignments/page.tsx:75-88 | the four known statuses get four different colours; matching is case-sensitive |
| Users.UserRepository.constructor | studymate-backend/src/main/java/com/studymate/controller/UserController.java:19 | the repository holds the given users keyed by email |
| Users.UserRepository.FindByEmail | studymate-backend/src/main/java/com/studymate/controller/UserController.java:33 | finds the user with that email, or nothing when there is none |
| Users.UserRepository.Save | studymate-backend/src/main/java/com/studymate/controller/UserController.java:72 | stores the user under its email, replacing an earlier one |
| UserApi.Profile | studymate-backend/src/main/java/com/studymate/controller/UserController.java:40-47 | the profile copies the user's fields, and its creation time defaults to now |
| UserApi.Patched | studymate-backend/src/main/java/com/studymate/controller/UserController.java:68-70 | only the name, username and picture that are given change; the email and everything else stay |
| UserApi.PatchedIdempotent | studymate-backend/src/main/java/com/studymate/controller/UserController.java:68-70 | applying an update twice is the same as once; a request with only an email changes nothing |
| UserApi.PatchedCompose | studymate-backend/src/main/java/com/studymate/controller/UserController.java:68-70 | two updates in a row equal one update in which the later fields win |
| UserApi.UserController.constructor | studymate-backend/src/main/java/com/studymate/controller/UserController.java:21-23 | holds the repository |
| UserApi.UserController.Me | studymate-backend/src/main/java/com/studymate/controller/UserController.java:25-49 | 401 without a login, 404 for an unknown email, otherwise the user's profile |
| UserApi.UserController.Update | studymate-backend/src/main/java/com/studymate/controller/UserController.java:51-84 | 401 and 404 leave the users alone; otherwise the patched user is saved and returned |
| AuthApi.DefaultUsername | studymate-backend/src/main/java/com/studymate/controller/AuthController.java:47 | the part of the email before the first '@'; an email of only '@' characters throws |
| AuthApi.DefaultUsernameOfAddress | studymate-backend/src/main/java/com/studymate/controller/AuthController.java:47 | for name@domain the default username is the name |
| AuthApi.NewUser | studymate-backend/src/main/java/com/studymate/controller/AuthController.java:46-53 | a new active student with the email, the hashed password and the given or default username |
| AuthApi.AuthProfile | studymate-backend/src/main/java/com/studymate/controller/AuthController.java:85-95 | the profile of the user, with the requested username when it is not blank |
| AuthApi.SignupProfileIsStored | studymate-backend/src/main/java/com/studymate/controller/AuthController.java:46-58 | the profile returned by signup is the profile of the stored user |
| AuthApi.AuthController.constructor | studymate-backend/src/main/java/com/studymate/controller/AuthController.java:25-29 | holds the repository |
| AuthApi.AuthController.Signup | studymate-backend/src/main/java/com/studymate/controller/AuthController.java:33-61 | 400 without email or password, 409 for a taken email, otherwise the new user is stored and returned with a token |
| AuthApi.AuthController.Login | studymate-backend/src/main/java/com/studymate/controller/AuthController.java:63-83 | 401 for an unknown email or a wrong password; 500 for a known email without a password; otherwise the last login is updated and a token returned; only success changes users |
| CommunityApi.Author | studymate-backend/src/main/java/com/studymate/controller/CommunityController.java:54-68 | the logged-in user's id and username, or the demo user "Anonymous" |
| CommunityApi.Filtered | studymate-backend/src/main/java/com/studymate/controller/CommunityController.java:35-39 | no filter for a missing or blank course id; otherwise exactly the discussions of that course, in order |
| CommunityApi.ListPageInRange | studymate-backend/src/main/java/com/studymate/controller/CommunityController.java:28-45 | for in-range page arguments: 200, the total matching count, and the page's slice of at most size items, empty past the end |
| CommunityApi.ListPageOfCourse | studymate-backend/src/main/java/com/studymate/controller/CommunityController.java:35-44 | with a course id every listed discussion belongs to that course |
| CommunityApi.ListAllCountsTable | studymate-backend/src/main/java/com/studymate/controller/CommunityController.java:34-40 | without a filter the total is the number of stored discussions |
| CommunityApi.Liked | studymate-backend/src/main/java/com/studymate/controller/CommunityController.java:111-119 | an existing discussion gets one more like, wrapping as a Java int, and is marked liked; an unknown id changes nothing |
| CommunityApi.LikeTwice | studymate-backend/src/main/java/com/studymate/controller/CommunityController.java:111-119 | likes are not idempotent: liking twice adds two; at the int maximum the count wraps to the minimum |
| CommunityApi.Replied | studymate-backend/src/main/java/com/studymate/controller/CommunityController.java:104-107 | appends the reply to that discussion only, keeping earlier replies and every other discussion |
| CommunityApi.CommunityController.constructor | studymate-backend/src/main/java/com/studymate/controller/CommunityController.java:24-26 | holds the discussions and the users |
| CommunityApi.CommunityController.List | studymate-backend/src/main/java/com/studymate/controller/CommunityController.java:28-45 | returns the page response of the listing |
| CommunityApi.CommunityController.Create | studymate-backend/src/main/java/com/studymate/controller/CommunityController.java:49-77 | stores a discussion by the resolved author with no likes or replies, under the new id, with the title and content as sent (missing ones stay null) |
| CommunityApi.CommunityController.AddReply | studymate-backend/src/main/java/com/studymate/controller/CommunityController.java:81-109 | 404 for an unknown discussion; otherwise the reply by the resolved author, with the content as sent (a missing one stays null), is appended |
| CommunityApi.CommunityController.Like | studymate-backend/src/main/java/com/studymate/controller/CommunityController.java:111-119 | applies the like and answers 200 |
| StudyPlanApi.JavaString | studymate-backend/src/main/java/com/studymate/controller/StudyPlanController.java:25-26 | `String.valueOf` of a JSON value: strings as is, null as "null", numbers in decimal, lists and objects bracketed |
| StudyPlanApi.IntValue | studymate-backend/src/main/java/com/studymate/controller/StudyPlanController.java:35 | only JSON numbers convert to an hours value, and in-range ones keep their value |
| StudyPlanApi.CourseIds | studymate-backend/src/main/java/com/studymate/controller/StudyPlanController.java:27-33 | each course id is the string form of the list item at that position |
| StudyPlanApi.CreatedPlan | studymate-backend/src/main/java/com/studymate/controller/StudyPlanController.java:20-41 | fails exactly when a field has the wrong JSON type; otherwise a plan with the given fields, demo user, zero progress and the defaults |
| StudyPlanApi.UpdatedPlan | studymate-backend/src/main/java/com/studymate/controller/StudyPlanController.java:43-59 | only the keys present change; a non-numeric hours value throws after the earlier keys have been applied |
| StudyPlanApi.UpdatedPlanIdempotent | studymate-backend/src/main/java/com/studymate/controller/StudyPlanController.java:47-57 | applying an update twice is the same as once; an empty update changes nothing |
| StudyPlanApi.NullDescription | studymate-backend/src/main/java/com/studymate/controller/StudyPlanController.java:26 | a null description is kept as null on create but stored as the text "null" on update |
| StudyPlanApi.StudyPlanController.constructor | studymate-backend/src/main/java/com/studymate/util/SampleData.java:13 | holds the plans |
| StudyPlanApi.StudyPlanController.List | studymate-backend/src/main/java/com/studymate/controller/StudyPlanController.java:15-18 | 200 with every stored plan once and nothing else |
| StudyPlanApi.StudyPlanController.Create | studymate-backend/src/main/java/com/studymate/controller/StudyPlanController.java:20-41 | stores and returns the created plan, or 500 with no change |
| StudyPlanApi.StudyPlanController.Update | studymate-backend/src/main/java/com/studymate/controller/StudyPlanController.java:43-59 | 404 for an unknown plan; otherwise the updated plan is stored, with a 500 but the partial update kept when hours are not a number |
| StudyPlanApi.StudyPlanController.Delete | studymate-backend/src/main/java/com/studymate/controller/StudyPlanController.java:61-65 | removes the plan, known or not, and answers 200 |
| AssignmentApi.Listed | studymate-backend/src/main/java/com/studymate/controller/AssignmentController.java:18-24 | everything without a course id; otherwise exactly that course's assignments, in order |
| AssignmentApi.ListedTwice | studymate-backend/src/main/java/com/studymate/controller/AssignmentController.java:18-24 | filtering twice is filtering once, and filtering keeps a list free of duplicates |
| AssignmentApi.Submitted | studymate-backend/src/main/java/com/studymate/controller/AssignmentController.java:33-41 | marks a known assignment SUBMITTED at the given time and leaves the others; an unknown id changes nothing |
| AssignmentApi.SubmittedTwice | studymate-backend/src/main/java/com/studymate/controller/AssignmentController.java:33-41 | a second submission only updates the time |
| AssignmentApi.AssignmentController.constructor | studymate-backend/src/main/java/com/studymate/util/SampleData.java:12 | holds the assignments |
| AssignmentApi.AssignmentController.List | studymate-backend/src/main/java/com/studymate/controller/AssignmentController.java:18-24 | 200 with the filtered assignments |
| AssignmentApi.AssignmentController.Get | studymate-backend/src/main/java/com/studymate/controller/AssignmentController.java:26-31 | 200 with the assignment, or 404 |
| AssignmentApi.AssignmentController.Submit | studymate-backend/src/main/java/com/studymate/controller/AssignmentController.java:33-41 | records the submission and answers 200, even for an unknown id |
| TutorApi.Exchanged | studymate-backend/src/main/java/com/studymate/controller/AiTutorController.java:52-69 | appends the user's message then the assistant's reply, keeps earlier messages and stamps the update time |
| TutorApi.ExchangedAlternating | studymate-backend/src/main/java/com/studymate/controller/AiTutorController.java:52-69 | a conversation alternating user and assistant keeps alternating after an exchange |
| TutorApi.AiTutorController.constructor | studymate-backend/src/main/java/com/studymate/util/SampleData.java:15 | holds sessions keyed by id whose conversations alternate |
| TutorApi.AiTutorController.ListSessions | studymate-backend/src/main/java/com/studymate/controller/AiTutorController.java:23-26 | 200 with every session once and nothing else |
| TutorApi.AiTutorController.CreateSession | studymate-backend/src/main/java/com/studymate/controller/AiTutorController.java:30-41 | stores and returns an empty session for the demo user under the new id |
| TutorApi.AiTutorController.SendMessage | studymate-backend/src/main/java/com/studymate/controller/AiTutorController.java:45-72 | 404 for an unknown session; otherwise the exchange is stored and returned |
| CourseService.UuidShapedLower | studymate-backend/src/main/java/com/studymate/service/CourseService.java:43-50 | the UUID shape does not depend on case |
| CourseService.ParseUuid | studymate-backend/src/main/java/com/studymate/service/CourseService.java:43-50 | succeeds exactly on the 8-4-4-4-12 hexadecimal form and yields its lower-case text |
| CourseService.ParseUuidRoundTrip | studymate-backend/src/main/java/com/studymate/service/CourseService.java:43-50 | a UUID parses to itself, and case does not matter |
| CourseService.ToDto | studymate-backend/src/main/java/com/studymate/service/CourseService.java:76-91 | copies the course fields, with 0 for a missing duration, enrolment count or rating |
| CourseService.Matching | studymate-backend/src/main/java/com/studymate/service/CourseService.java:29-36 | all courses without a category; otherwise exactly those whose category matches ignoring case |
| CourseService.List | studymate-backend/src/main/java/com/studymate/service/CourseService.java:29-36 | one DTO per matching course, in order |
| CourseService.CountIsListLength | studymate-backend/src/main/java/com/studymate/service/CourseService.java:38-41 | the count equals the length of the list |
| CourseService.CategoryIgnoresCase | studymate-backend/src/main/java/com/studymate/service/CourseService.java:29-36 | a course matches its own category in lower case |
| CourseService.Get | studymate-backend/src/main/java/com/studymate/service/CourseService.java:43-50 | a malformed id gives nothing; otherwise the DTO of the course with that id, if any |
| CourseService.GetPdf | studymate-backend/src/main/java/com/studymate/service/CourseService.java:67-74 | the stored PDF of a well-formed course id, or nothing |
| CourseService.GetById | studymate-backend/src/main/java/com/studymate/service/CourseService.java:43-50 | every stored course is found by its id in lower or upper case |
| CourseApi.ListPageInRange | studymate-backend/src/main/java/com/studymate/controller/CourseController.java:24-37 | for in-range page arguments: 200, the count of matching courses, and the page's slice of at most size items, empty past the end |
| CourseApi.GetCourse | studymate-backend/src/main/java/com/studymate/controller/CourseController.java:39-44 | 200 with the course exactly when the id is well formed and known, else 404 |
| CourseApi.Enroll | studymate-backend/src/main/java/com/studymate/controller/CourseController.java:46-50 | always answers 200 with no body |
| CourseApi.CompleteLesson | studymate-backend/src/main/java/com/studymate/controller/CourseController.java:59-63 | always answers 200 with no body |
| CourseApi.Lessons | studymate-backend/src/main/java/com/studymate/controller/CourseController.java:52-57 | always answers 200 with an empty list |
| CourseApi.DownloadPdf | studymate-backend/src/main/java/com/studymate/controller/CourseController.java:73-82 | 200 with the stored file, its name and type exactly when there is one, else 404 |
| Paging.PageBounds | studymate-backend/src/main/java/com/studymate/controller/CommunityController.java:41-43 | whenever the slice can be taken, its bounds lie within the list |
| Paging.PageInRange | studymate-backend/src/main/java/com/studymate/controller/CommunityController.java:41-43 | for in-range page arguments the page is the slice from page*size, at most size long, empty past the end |
| Paging.PageOverflowWrapsToStart | studymate-backend/src/main/java/com/studymate/controller/CommunityController.java:41 | page 65536 of size 65536 wraps to the first page, because `page * size` overflows |
| Paging.NegativeSizeThrows | studymate-backend/src/main/java/com/studymate/controller/CommunityController.java:41-43 | a negative size makes the slice throw |
| Paging.PagedResponse | studymate-backend/src/main/java/com/studymate/controller/CourseController.java:33-36 | 200 with the slice and the total when the slice can be taken, else 500 |
| Paging.PagedResponseInRange | studymate-backend/src/main/java/com/studymate/controller/CourseController.java:33-36 | for in-range page arguments the response is 200 with that page and the total |

## Left out

- ProgressTracker.OverallProgress: computes `Math.round(c / n * 100)` on exact rationals. JavaScript uses IEEE doubles, which can round the other way at half-way points: 29 of 200 gives 14 in JavaScript but 15 here. Doubles are not modelled.
- ProgressTracker.WeekProgress: the same rounding deviation as the overall progress.
- PlanDetails.ComputeProgress: the same rounding deviation.
- CoursesPage.ReaderProgress: stored percentages and page numbers are exact reals, not doubles. A non-finite value (NaN, Infinity) is not modelled.
- Course ratings are doubles and are only copied, never computed on; fractional weekly hours are not modelled.
- StudyPlanApi.IntValue, StudyPlanApi.CreatedPlan, StudyPlanApi.UpdatedPlan: a fractional JSON number, which the JSON reader hands over as a `Double`, has no `Json` value. For such a number `intValue` truncates toward zero (2.5 gives 2) and `String.valueOf` writes Java's `Double.toString` text ("2.5"); neither is modelled, because Java's shortest-decimal formatting of doubles is not.
- Case mapping covers ASCII letters and the few non-ASCII letters the model names. Full Unicode case mapping and locale rules are not modelled.
- CourseService.ParseUuid: accepts only the canonical 8-4-4-4-12 form. `UUID.fromString` also accepts some non-canonical forms, such as short groups.
- `CourseService.uploadPdf` and the upload endpoint are multipart byte I/O and are not modelled. The download endpoint is modelled over a table of stored files.
- The `enrolled` parameter of the course listing and the `page`/`size` arguments of `CourseService.list` are ignored by the source, so the model has no such parameters.
- Password hashing and matching, token minting and the language-model reply are function parameters. Their values are not reasoned about.
- TutorApi.AiTutorController.SendMessage: a failure of the language-model call after the user's message was appended is not modelled; the reply is always a string.
- Generated ids, `Date.now()` and the clock are parameters of the operations that use them.
- The HTTP client, the envelope of client requests and the async orchestration of pages (effects, timers, stale closures) are not modelled. Each page handler is one atomic step.
- A Java `HashMap`'s iteration order is a parameter listing the keys.
- Concurrency is not modelled: `ConcurrentHashMap` thread safety and races between browser tabs are out of scope.
- Each DTO is a value in the model. Aliasing between a table entry and a returned object is not modelled, so a caller mutating a returned object does not change the table.
- Entity lifecycle callbacks are not modelled. The DTO mapping's random id for an unsaved user is not modelled either: the repository always holds users with ids.
- AuthApi.AuthController.Login: a request without an email is answered 401. The source passes the null email to the repository, whose behaviour is not part of this model. A request without a password is answered 500 for a known email, on the assumption that the configured password encoder, which is not part of this model, rejects a null raw password as Spring's encoders do.
- Printing passwords to standard output during login is not behaviour and is left out.
- Quiz scoring is left out: the page that scores answers is not part of this model. Only the recording of an attempt is modelled.
- Rendering, animation, navigation and the other dashboard pages are not modelled.
- Seed data is modelled only where a lemma is about it: the sample milestone plan, the demo assignments and the seeded discussions.

## Findings

| source | as written | input that shows it | evidently intended | confidence | as-written member | corrected member |
|---|---|---|---|---|---|---|
| smart-study/src/components/shared/StudyPlanProgressTracker.tsx:79-82 | overall progress divides by the number of milestones with no guard, so an empty plan shows `Math.round(0 / 0 * 100)`, which is NaN | a plan with no milestones | 0 percent for an empty plan, as the detail view computes it at smart-study/src/components/shared/StudyPlanDetails.tsx:74-79 | not executed | ProgressTracker.OverallProgressAsWritten | ProgressTracker.OverallProgress |
