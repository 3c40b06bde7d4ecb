# AptosLearn learning-progress store, in Dafny

AptosLearn is a learning platform. Learners take courses made of modules. Finishing a course earns a platform-verified certificate, a token reward and a verified entry on the learner's resume. Learners can also add unverified resume entries for courses taken elsewhere. Admins create, duplicate and delete courses.

All of this state lives in one React context: `CourseProvider` in `src/contexts/CourseContext.tsx`. It holds five pieces of state:
- the course list;
- the per-user progress records;
- the certificates;
- the resume entries;
- the profile.

Each is mirrored to local storage.

This project models that store and the small rules the pages apply around it:
- `CourseStore`: each store operation as a function from state to state.
- `CourseContext.Store`: the provider as an object whose methods update its five fields. Each method is stated against the matching `CourseStore` function and keeps the store invariant `CourseStoreProps.Valid`: at most one progress record and one certificate per user and course.
- `CourseStoreProps`: what the operations guarantee together:
  - when a certificate and a resume entry are issued (both directions);
  - that a course is never rewarded twice;
  - that renaming the profile keeps the names on certificates and entries in sync;
  - that the verified flag of an entry survives edits.
- The page rules:
  - the module page (`UserCourse`, a class for its view state);
  - the course form (`CourseForm`, a class for its values);
  - the course card (`CourseCard`);
  - the recent-courses table (`RecentCourses`);
  - the admin's course list (`AdminQuests`);
  - the dashboard recommendations (`UserDashboard`);
  - the sign-in page (`Login`, a class for its session entries);
  - the wallet form (`WalletConnectDialog`);
  - the resume editor (`ResumeEditor`, a class for its dialog state).

Things outside the store are parameters:
- the current date (`today`);
- the `Date.now()` stamps used for ids (`stamp`);
- the user's answer to a confirmation prompt (`confirmed`);
- what local storage holds (`Stored`).

Helper modules: `Wrappers` (Option), `Seqs` (filter, map, find, distinct and their lemmas), `Text` (trim, split, join, lower-casing) and `Records` (the record types and their merge-with-patch functions).

### Where the model follows the code rather than the design

- **A first record at 100 earns nothing.** The certificate and resume entry are produced only on the path that updates an EXISTING record (`CourseContext.tsx:337`). A first progress report of 100 creates a completed record, and no certificate or entry (`CourseStoreProps.UpdateNewRecord`, `CourseStoreProps.CertificateIssuedIff`).
- **The completion trigger can fire again.** The trigger is "progress 100 and (no completion date or previous progress below 100)". After an unenroll (progress 0) it fires again. Only the existing-certificate check stops a second certificate (`RecentCourses.RecompletionAfterUnenroll`).
- **The resume entry hangs off the certificate.** It is created only inside the "no certificate yet" block. So a learner who already holds the certificate never gets the entry, even when it is missing (`CourseStoreProps.ResumeEntryIssuedIff`).
- **The `updateResumeEntry` guard looks only at the first entry with the id.** That guard refuses patches that supply `verified` for a verified entry. With a repeated id, a later verified entry can lose its flag (`CourseStoreProps.RepeatedIdClearsVerified`). With distinct ids it cannot (`CourseStoreProps.UpdateKeepsVerified`). The other fields of a verified entry stay editable through the store.
- **The table and the card can show different progress.** The card shows the learner's recorded progress, even 0. The table falls back to the course's own progress when the record says 0 (`RecentCourses.TableDiffersFromCardIff`).
- **A blank username leaves names out of sync.** A profile update that sets the username to "" leaves the certificates carrying the old name (`CourseStoreProps.BlankUsernameBreaksSync`).
- **The status filter does nothing.** Its filter in the admin list accepts every course (`AdminQuests.StatusFilterIgnored`).
- **Completing a revisited module can lower the progress.** The handler stores the share of completed modules, not the larger of that and the old progress. A course at 65 opens on its fourth module with the first three marked. Completing the first module again reports 60. The page's effect then rebuilds the view from the updated course (`UserCourse.RevisitedModuleLowersProgress`, `UserCourse.CourseView.CompleteModuleAndRefresh`).
- **The wallet type is never missing.** The form starts with the wallet type "", and the schema asks only for a string, so its "Please select a wallet type" error cannot appear (`WalletConnectDialog.UnchosenTypePasses`).
- **Both branches of the recent-courses list agree.** The learner's filter accepts every course (`RecentCourses.BranchesAgree`).

## Model

| member | source | states |
|---|---|---|
| CourseStore.AddCourse | src/contexts/CourseContext.tsx:267-281 | the course is appended with the fresh id and progress 0, otherwise as given; nothing else changes |
| CourseStore.UpdateCourses | src/contexts/CourseContext.tsx:283-289 | same length; courses with the id take the patch, every other course is unchanged |
| CourseStore.UpdateCourse | src/contexts/CourseContext.tsx:283-289 | only the course list changes and it keeps its length |
| CourseStore.DeleteCourse | src/contexts/CourseContext.tsx:291-314 | no course, progress record, certificate or resume entry with the id remains; the profile is untouched |
| CourseStore.FindProgressIndex | src/contexts/CourseContext.tsx:318-320 | -1 or the index of the FIRST record of the user for the course; no earlier (or, for -1, any) record matches |
| CourseStore.AdvanceRecord | src/contexts/CourseContext.tsx:322-334 | keeps user, course and start date; sets progress and date; keeps a truthy completion date, or any below 100; sets one on reaching 100 |
| CourseStore.NewRecord | src/contexts/CourseContext.tsx:395-408 | a first record dated today, with a completion date exactly when the progress is 100 |
| CourseStore.Username | src/contexts/CourseContext.tsx:342 | the name printed on certificates is never empty: the profile's name, or "Learner" when that is empty |
| CourseStore.NewCertificate | src/contexts/CourseContext.tsx:353-364 | the certificate names the user, the course title and reward, today's date, and is on-chain and verified |
| CourseStore.CompletionSkills | src/contexts/CourseContext.tsx:382 | three skills: the category, the level, "Aptos Ecosystem" |
| CourseStore.VerifiedEntry | src/contexts/CourseContext.tsx:374-384 | the verified resume entry carries the user, course title, category, today's date and the completion skills |
| CourseStore.IssueCompletion | src/contexts/CourseContext.tsx:338-393 | only certificates and entries grow, each by at most one, and an entry is never added without a certificate |
| CourseStore.UpdateUserProgress | src/contexts/CourseContext.tsx:316-412 | the profile is untouched, the course count is kept, at most one certificate and one entry are appended, never an entry alone |
| CourseStore.UpdateUserProfile | src/contexts/CourseContext.tsx:415-448 | the profile takes the patch; certificates and entries change only in their username, and not at all unless the user is renamed |
| CourseStore.ManualResumeEntry | src/contexts/CourseContext.tsx:451-458 | an unverified entry with id "manual-" + stamp carrying every submitted field |
| CourseStore.AddManualResumeEntry | src/contexts/CourseContext.tsx:451-464 | one unverified entry is appended; nothing else changes |
| CourseStore.UpdateResumeEntry | src/contexts/CourseContext.tsx:467-489 | a refused patch changes nothing; otherwise only entries with the id change, and nothing outside the entries |
| CourseStore.DeleteResumeEntry | src/contexts/CourseContext.tsx:492-508 | a declined confirmation changes nothing; otherwise no entry with the id remains; nothing outside the entries changes |
| CourseStoreProps.UpdateExistingRecord | src/contexts/CourseContext.tsx:322-334 | the existing record alone is advanced in place, the others are untouched, and the course's display progress is set |
| CourseStoreProps.UpdateNewRecord | src/contexts/CourseContext.tsx:395-408 | with no record, one new record is appended and no certificate or entry is issued |
| CourseStoreProps.UpdateLeavesRecord | src/contexts/CourseContext.tsx:316-408 | after any update the store's lookup finds the user's record for the course holding the new progress, dated when it is 100 |
| CourseStoreProps.CertificateIssuedIff | src/contexts/CourseContext.tsx:337-364 | a certificate is appended if and only if an existing record newly reaches 100, the course exists and none is held; it is the expected certificate |
| CourseStoreProps.ResumeEntryIssuedIff | src/contexts/CourseContext.tsx:366-386 | a verified entry is appended if and only if a certificate is issued and no entry for the course exists |
| CourseStoreProps.NoSecondCertificate | src/contexts/CourseContext.tsx:346-351 | a user holding the certificate is never issued another |
| CourseStoreProps.CompletingTwiceIssuesOnce | src/contexts/CourseContext.tsx:337-386 | reporting 100 twice issues nothing the second time |
| CourseStoreProps.UpdateUserProgressKeepsValid | src/contexts/CourseContext.tsx:316-408 | progress updates keep at most one record and one certificate per user and course |
| CourseStoreProps.DeleteCourseKeepsValid | src/contexts/CourseContext.tsx:291-314 | deleting a course keeps the invariant |
| CourseStoreProps.UpdateUserProfileKeepsValid | src/contexts/CourseContext.tsx:415-448 | profile updates keep the invariant |
| CourseStoreProps.OtherOperationsKeepValid | src/contexts/CourseContext.tsx:267-508 | adding and updating courses and adding, updating and deleting resume entries keep the invariant |
| CourseStoreProps.UpdateUserProfileKeepsNamesInSync | src/contexts/CourseContext.tsx:415-433 | a rename that keeps the user id and is not blank keeps every certificate and entry of the user under the profile's name |
| CourseStoreProps.BlankUsernameBreaksSync | src/contexts/CourseContext.tsx:420 | a blank username is stored but the certificates keep the old name |
| CourseStoreProps.UpdateUserProgressKeepsNamesInSync | src/contexts/CourseContext.tsx:342-385 | new certificates and entries carry the profile's name, so the sync is kept |
| CourseStoreProps.UpdateKeepsVerified | src/contexts/CourseContext.tsx:467-489 | with distinct entry ids no update removes a verified flag |
| CourseStoreProps.RepeatedIdClearsVerified | src/contexts/CourseContext.tsx:469-483 | with a repeated id, an entry's verified flag can be cleared |
| CourseStoreProps.DeleteResumeEntryKeepsOthers | src/contexts/CourseContext.tsx:492-508 | an entry survives the delete if and only if its id differs |
| CourseStoreProps.DeleteCourseKeepsUnrelated | src/contexts/CourseContext.tsx:291-308 | everything that does not refer to the course survives, and nothing that does |
| CourseStoreProps.ProgressPatchSetsOnlyProgress | src/contexts/CourseContext.tsx:411 | the course's display progress is set and nothing else about any course changes |
| CourseContext.Restore | src/contexts/CourseContext.tsx:220-231 | each piece of state is the stored value, or its seed when the key is absent |
| CourseContext.RestoreSnapshot | src/contexts/CourseContext.tsx:257-265 | loading what was saved gives back the saved state |
| CourseContext.RestoreNothing | src/contexts/CourseContext.tsx:244-254 | with nothing stored, the store starts from the seed data |
| CourseContext.Store.constructor | src/contexts/CourseContext.tsx:233-241 | the provider starts empty and loading |
| CourseContext.Store.Load | src/contexts/CourseContext.tsx:244-254 | after the load the state is the restored one and loading is over |
| CourseContext.Store.Saved | src/contexts/CourseContext.tsx:257-265 | nothing is written while loading; what is written restores to the current state |
| CourseContext.Store.AddCourse | src/contexts/CourseContext.tsx:267-281 | the new state is `CourseStore.AddCourse` of the old; the invariant is kept |
| CourseContext.Store.UpdateCourse | src/contexts/CourseContext.tsx:283-289 | the new state is `CourseStore.UpdateCourse` of the old; the invariant is kept |
| CourseContext.Store.DeleteCourse | src/contexts/CourseContext.tsx:291-314 | the new state is `CourseStore.DeleteCourse` of the old; the invariant is kept |
| CourseContext.Store.UpdateUserProgress | src/contexts/CourseContext.tsx:316-412 | the new state is `CourseStore.UpdateUserProgress` of the old; the invariant is kept |
| CourseContext.Store.UpdateUserProfile | src/contexts/CourseContext.tsx:415-448 | the new state is `CourseStore.UpdateUserProfile` of the old; the invariant is kept |
| CourseContext.Store.AddManualResumeEntry | src/contexts/CourseContext.tsx:451-464 | the new state is `CourseStore.AddManualResumeEntry` of the old; the invariant is kept |
| CourseContext.Store.UpdateResumeEntry | src/contexts/CourseContext.tsx:467-489 | reports whether the guard let the patch through; the new state is `CourseStore.UpdateResumeEntry` of the old |
| CourseContext.Store.DeleteResumeEntry | src/contexts/CourseContext.tsx:492-508 | reports whether anything was removed (no prompt needed, or the user confirmed); the new state is `CourseStore.DeleteResumeEntry` of the old |
| CourseContext.SeedIsValid | src/contexts/CourseContext.tsx:90-217 | the seed data meets the invariant and its names are in sync |
| CourseContext.SeedRecompletionIssuesNothing | src/contexts/CourseContext.tsx:142-207 | completing the already certified "Web3 Fundamentals" again issues nothing |
| CourseContext.SeedIntroductionNotYetRewarded | src/contexts/CourseContext.tsx:90-207 | "Introduction to Blockchain" is started, exists, and is owed a certificate on reaching 100 |
| CourseContext.SeedCompletingIntroduction | src/contexts/CourseContext.tsx:337-386 | completing it from the seed issues its 50-token certificate and a verified entry with the beginner skills, in the profile's name |
| ResumeEditor.ParseSkills | src/components/ResumeEditor.tsx:140-142 | every parsed skill is non-empty and trimmed; an empty field gives no skills |
| ResumeEditor.ParseSkillsKeepsOrder | src/components/ResumeEditor.tsx:140-142 | the parsed skills keep the order of the trimmed pieces; a string is a skill exactly when it is a non-blank trimmed piece |
| ResumeEditor.ParseSkillsSample | src/components/ResumeEditor.tsx:140-142 | "A, B, , C" gives the skills A, B and C |
| ResumeEditor.SkillsRoundTrip | src/components/ResumeEditor.tsx:166-178 | listing well-formed skills with ", " and parsing them again gives them back |
| ResumeEditor.EntryFormRules | src/components/ResumeEditor.tsx:48-59 | an accepted entry form has a non-empty name, category and date; a 2-letter name is refused and 3 letters pass |
| ResumeEditor.ProfileFormFor | src/components/ResumeEditor.tsx:111-122 | the profile form is filled in from the profile: username, email, bio, job title and location each carried over, or "" when missing |
| ResumeEditor.ProfilePatchFor | src/components/ResumeEditor.tsx:125-132 | the profile patch supplies the username, email, bio, job title and location from the form, and never the user id or skills |
| ResumeEditor.UnchangedProfileRenamesNothing | src/components/ResumeEditor.tsx:111-134 | saving the profile form unchanged leaves certificates and entries alone |
| ResumeEditor.AcceptedProfileKeepsNamesInSync | src/components/ResumeEditor.tsx:35-45 | an accepted profile form (username of 2 or more characters) keeps names in sync |
| ResumeEditor.ManualEntryFor | src/components/ResumeEditor.tsx:144-152 | the submitted entry names the profile's user, or "user1" when the profile has no id; its course id is "manual-" followed by the stamp; its skills are the parsed skills |
| ResumeEditor.EditFormFor | src/components/ResumeEditor.tsx:159-170 | the edit form opens on the entry's fields, with the skills listed with ", " |
| ResumeEditor.EditPatch | src/components/ResumeEditor.tsx:180-185 | the edit patch sets only name, category, date and skills, never the verified flag or ids |
| ResumeEditor.UnchangedEditKeepsEntry | src/components/ResumeEditor.tsx:159-185 | saving an unchanged edit leaves an entry with well-formed skills as it was |
| ResumeEditor.EditKeepsVerifiedFlags | src/components/ResumeEditor.tsx:173-185 | an edit is never refused and never changes any entry's verified flag |
| ResumeEditor.Editor.constructor | src/components/ResumeEditor.tsx:71-108 | all dialogs closed, nothing being edited, forms at their defaults |
| ResumeEditor.Editor.HandleProfileDialogOpen | src/components/ResumeEditor.tsx:111-122 | opening refills the profile form from the profile; nothing else changes |
| ResumeEditor.Editor.OnProfileSubmit | src/components/ResumeEditor.tsx:125-136 | the store gets the profile patch and the dialog closes |
| ResumeEditor.Editor.OnAddCourseSubmit | src/components/ResumeEditor.tsx:139-156 | the store gets the manual entry and the dialog closes |
| ResumeEditor.Editor.HandleEditEntry | src/components/ResumeEditor.tsx:159-170 | the edit dialog opens on the entry with its form |
| ResumeEditor.Editor.OnEditEntrySubmit | src/components/ResumeEditor.tsx:173-189 | with no entry being edited nothing happens; otherwise the store gets the edit patch and the dialog closes |
| ResumeEditor.Editor.HandleDeleteEntry | src/components/ResumeEditor.tsx:192-194 | the store deletes the entry, subject to the confirmation |
| UserCourse.CourseModules | src/pages/UserCourse.tsx:63-94 | every course has five modules |
| UserCourse.ModuleCompletedIff | src/pages/UserCourse.tsx:63-94 | module i shows as completed if and only if the course progress is at least 20(i+1) |
| UserCourse.CompletedModulesArePrefix | src/pages/UserCourse.tsx:63-94 | the completed modules come first |
| UserCourse.InitialModuleIndex | src/pages/UserCourse.tsx:103-104 | for non-negative progress the page opens on a module in range |
| UserCourse.InitialModuleIsFirstIncomplete | src/pages/UserCourse.tsx:63-104 | below 100 the page opens on the first incomplete module; at 100 or more, on the last |
| UserCourse.CompletedCount | src/pages/UserCourse.tsx:134 | no more modules are completed than exist |
| UserCourse.NewProgressBounds | src/pages/UserCourse.tsx:134 | the recomputed progress lies in 0..100 and is 100 if and only if every module is completed |
| UserCourse.MarkCompletedCount | src/pages/UserCourse.tsx:131-134 | marking a module completed raises the count by one exactly when it was not completed |
| UserCourse.CompletingNeverLowersProgress | src/pages/UserCourse.tsx:131-134 | completing a module never gives less than the progress the page's modules counted before |
| UserCourse.RevisitedModuleLowersProgress | src/pages/UserCourse.tsx:131-134 | a course opened at 65 whose first module is completed again reports 60, and the page reopens on the fourth module |
| UserCourse.CourseView.constructor | src/pages/UserCourse.tsx:96-104 | the view starts on the course's modules, its progress and its initial module, with no certificate shown |
| UserCourse.CourseView.CompleteModule | src/pages/UserCourse.tsx:127-159 | the click handler alone: the current module is marked; the progress is recomputed, within 0..100 and never below the module-count progress; the store gets it; the page advances, or shows the certificate at the last module at 100 |
| UserCourse.CourseView.Rebuild | src/pages/UserCourse.tsx:58-104 | the page's effect on a found course: the view shows that course's modules, progress and initial module; the certificate dialog is unchanged |
| UserCourse.CourseView.Refresh | src/pages/UserCourse.tsx:58-114 | the effect's lookup: a course with the id is found exactly when the view is rebuilt from it; otherwise the view is unchanged |
| UserCourse.CourseView.CompleteModuleAndRefresh | src/pages/UserCourse.tsx:52-159 | the handler and then the effect it triggers: the store gets the recomputed progress; when the course is still listed the view is rebuilt from it at that progress, so the module index becomes the one that progress opens on |
| CourseStoreProps.UpdateUserProgressSetsCourseProgress | src/contexts/CourseContext.tsx:409-412 | after a progress report the course list is the old list with that course's progress set |
| CourseStoreProps.FindAfterProgressPatch | src/contexts/CourseContext.tsx:409-412 | the course is found after the patch exactly when it was before, and then it is the old course with the new progress |
| UserCourse.CourseView.SelectModule | src/pages/UserCourse.tsx:273-282 | a module opens exactly when the lock rule allows it; nothing else changes |
| CourseForm.DefaultModuleAccepted | src/components/CourseForm.tsx:61-72 | the form starts with one module that the schema accepts |
| CourseForm.WithModuleAdded | src/components/CourseForm.tsx:114-120 | adding keeps the modules and appends a blank one |
| CourseForm.WithModuleRemoved | src/components/CourseForm.tsx:122-135 | a single module, or an index out of range, leaves the modules as they are; otherwise exactly the module at the index is removed |
| CourseForm.AddedModuleBlocksSubmit | src/components/CourseForm.tsx:29-57 | a freshly added blank module keeps the form from submitting |
| CourseForm.RemoveKeepsAccepted | src/components/CourseForm.tsx:122-135 | removing a module from an accepted form keeps it accepted |
| CourseForm.EditsKeepAModule | src/components/CourseForm.tsx:114-135 | any sequence of adds and removes leaves at least one module |
| CourseForm.SubmissionAdded | src/components/CourseForm.tsx:88-112 | submitting adds a course with at least one module and a reward of at least 1, under the store's id |
| CourseForm.CourseFormState.constructor | src/components/CourseForm.tsx:61-72 | the form starts at its defaults, with a module |
| CourseForm.CourseFormState.AddModule | src/components/CourseForm.tsx:114-120 | a blank module is appended and the form cannot be submitted until it is filled |
| CourseForm.CourseFormState.RemoveModule | src/components/CourseForm.tsx:122-135 | removes only when more than one module remains; keeps a module and keeps an accepted form accepted |
| CourseForm.CourseFormState.Submit | src/components/CourseForm.tsx:88-112 | the store gains exactly the submitted course |
| CourseCard.CurrentRecord | src/components/CourseCard.tsx:39-44 | the record of "user1" for the course, the first one the store would find |
| CourseCard.ProgressValue | src/components/CourseCard.tsx:39-44 | in the learner's view, the recorded progress or 0; otherwise the course's own, or 0 |
| CourseCard.StatusOf | src/components/CourseCard.tsx:46-50 | not started if and only if 0, completed if and only if 100 |
| CourseCard.BarMatchesStatus | src/components/CourseCard.tsx:106-157 | the bar shows exactly when in progress; the label is "View Details" exactly when completed |
| CourseCard.StartCourse | src/components/CourseCard.tsx:58-70 | only a learner's click on an unstarted course changes the store |
| CourseCard.StartCourseRecordsTen | src/components/CourseCard.tsx:58-70 | starting records progress 10 for "user1" and issues nothing |
| CourseCard.StartCourseIdempotent | src/components/CourseCard.tsx:58-70 | clicking start twice is the same as once |
| RecentCourses.RecentNewestFirst | src/components/RecentCourses.tsx:73-77 | the last four courses (or all), newest first |
| RecentCourses.BranchesAgree | src/components/RecentCourses.tsx:73-77 | admins and learners see the same list |
| RecentCourses.StatusBadgeOf | src/components/RecentCourses.tsx:52-71 | "not started" if and only if 0, "completed" if and only if 100, otherwise the percentage |
| RecentCourses.DisplayedProgress | src/components/RecentCourses.tsx:149-150 | the learner's non-zero record, else the course's own progress, else 0 |
| RecentCourses.TableDiffersFromCardIff | src/components/RecentCourses.tsx:149-150 | the table and the card disagree if and only if the record says 0 and the course's progress does not |
| RecentCourses.AdminUserCount | src/components/RecentCourses.tsx:179 | the admin's count never exceeds the number of records |
| RecentCourses.AdminUserCountIgnoresRewrite | src/components/RecentCourses.tsx:179 | rewriting a record within its course keeps the count |
| RecentCourses.UnenrollKeepsRecord | src/components/RecentCourses.tsx:93-99 | unenrolling leaves the record at 0 with its completion date, issues nothing, and keeps the admin's count |
| RecentCourses.HasCourseCertificate | src/components/RecentCourses.tsx:101-103 | the certificate mark agrees with the store's test for a certificate of "user1" for the course |
| RecentCourses.CertificateMarkAfterReport | src/components/RecentCourses.tsx:101-103 | after a progress report the mark shows exactly when it showed before or the report earned the certificate |
| RecentCourses.RecompletionAfterUnenroll | src/components/RecentCourses.tsx:93-99 | after an unenroll the completion trigger fires again, but no second certificate is issued |
| RecentCourses.DeleteConfirmed | src/components/RecentCourses.tsx:79-83 | declining changes nothing; confirming leaves no course with the id |
| AdminQuests.FilteredCoursesIff | src/pages/AdminQuests.tsx:62-68 | a course is listed if and only if its title contains the query ignoring case and the category filter admits it; order is kept |
| AdminQuests.StatusFilterIgnored | src/pages/AdminQuests.tsx:62-68 | the status filter has no effect |
| AdminQuests.NoFilterListsAll | src/pages/AdminQuests.tsx:62-68 | no search and category "all" lists every course |
| AdminQuests.CategoriesListEachOnce | src/pages/AdminQuests.tsx:71 | each course category is listed once, in order of first appearance, and nothing else |
| AdminQuests.EnrolledUsers | src/pages/AdminQuests.tsx:194-196 | the enrolled count is at most the number of records |
| AdminQuests.NoEnrolledUsersIff | src/pages/AdminQuests.tsx:194-196 | the count is 0 exactly when no record for the course has progress above 0 |
| AdminQuests.EnrolledAtMostUserCount | src/pages/AdminQuests.tsx:194-196 | the enrolled count never exceeds the record count, and equals it when every record has progress |
| AdminQuests.DuplicateAdded | src/pages/AdminQuests.tsx:74-89 | duplicating adds the course with a new id, " (Copy)" and progress 0; nothing else changes |
| AdminQuests.DeleteLeavesList | src/pages/AdminQuests.tsx:91-102 | declining changes nothing; confirming removes the course from every filtered view |
| UserDashboard.RecommendedShape | src/pages/UserDashboard.tsx:30-32 | at most three courses, none at 100, the first qualifying ones in order |
| UserDashboard.EarlyQualifyingIncluded | src/pages/UserDashboard.tsx:30-32 | a course not at 100 with fewer than three qualifying before it is recommended |
| UserDashboard.UnsetProgressQualifies | src/pages/UserDashboard.tsx:31 | a course with no progress set counts as not completed, and is recommended wherever fewer than three qualifying courses come before it |
| UserDashboard.UnsetFirstCourseFirst | src/pages/UserDashboard.tsx:31 | an unset first course is the first recommendation |
| Login.EmailName | src/pages/Login.tsx:79-85 | the text before the first '@' (all of it when there is none), which contains no '@' |
| Login.DisplayName | src/pages/Login.tsx:69-89 | a non-blank username, trimmed, or else the email's name |
| Login.PaddedUsernameTrimmed | src/pages/Login.tsx:69-78 | whitespace around a typed name is dropped |
| Login.LoginSetsProfile | src/pages/Login.tsx:69-89 | signing in sets the profile's id to "user1" and its name and email, and nothing else |
| Login.LoginKeepsNamesInSync | src/pages/Login.tsx:69-89 | signing in as the profile's user keeps names in sync |
| Login.LoginPage.constructor | src/pages/Login.tsx:60-66 | the page starts with the session as stored, not loading |
| Login.LoginPage.Submit | src/pages/Login.tsx:60-100 | the session records a learner and the name sent to the store, which the profile then holds |
| WalletConnectDialog.MatchesAlphanumericPlusIff | src/components/WalletConnectDialog.tsx:39-45 | the pattern matches exactly the non-empty strings of ASCII letters and digits |
| WalletConnectDialog.WalletIdAcceptedIff | src/components/WalletConnectDialog.tsx:39-45 | an ID is accepted if and only if it has 10 to 64 characters, all letters or digits; each rejection rule separately |
| WalletConnectDialog.UnchosenTypePasses | src/components/WalletConnectDialog.tsx:64-70 | with the form's default wallet type "" the form is accepted exactly when the ID is; the untouched default form is rejected only for its empty ID |
| WalletConnectDialog.EmptyWalletTypeAccepted | src/components/WalletConnectDialog.tsx:35-38 | any wallet type, even empty, is enough; none is not |
| WalletConnectDialog.SampleIdAccepted | src/components/WalletConnectDialog.tsx:39-45 | a sample address of twelve letters and digits is accepted |
| WalletConnectDialog.HyphenatedIdRejected | src/components/WalletConnectDialog.tsx:39-45 | the same address with a hyphen is rejected |

## Left out

- Rendering, layout, icons, toasts and navigation: they do not affect the store's state.
- Local storage and JSON: modelled as `CourseContext.Stored`, one optional value per key. A key that is absent, empty or does not parse is `None`, and `CourseContext.Restore` falls back to the seed for it, as the source's catch does. JSON text itself is not modelled.
- `setTimeout` delays and the pages' loading flags: each submit is one atomic step.
- React's asynchronous state updates and stale closures: each store operation reads and writes the state it is given in one step. Interleavings of several pending updates are not modelled.
- `Date.now()`, `new Date()` and `window.confirm`: these become the `stamp`, `today` and `confirmed` parameters.
- Patch keys explicitly set to `undefined`: a patch field is either absent (`None`) or supplied.
- The zod `email` and `url` checks, `z.coerce` of a non-numeric reward and the JavaScript `NaN` and float cases: numbers are integers. `Math.floor(x * 100 / n)` is integer division of non-negative integers, and so is the module page's `Math.floor((p / 100) * 5)`, read as `(p * 5) / 100`.
- String lengths count characters, not UTF-16 code units. `toLowerCase` is modelled for ASCII letters only.
- UserCourse.CourseView.CompleteModule: states only the click handler; the effect that then rebuilds the view is `UserCourse.CourseView.CompleteModuleAndRefresh`. Requires the current index to be in range. The source reads outside the module list only for an initial negative progress, which the seed and the store never produce.
- The course-not-found redirect of the module page: the view is built from a found course.
- ResumeEditor.Editor.HandleEditEntry: requires an unverified entry, because the page disables the edit button on verified ones.
- The add form's reset after submitting, and the dialogs' `onClose` callbacks: they touch only display state.
- The admin delete gate of `src/pages/AdminQuests.tsx` is the same confirmed-then-delete rule as the table's, so both use `RecentCourses.DeleteConfirmed`.
- AdminQuests.DuplicateAdded: reads the handler's `useCourses().addCourse(...)` (`src/pages/AdminQuests.tsx:83`) as the store's `addCourse`. Calling a hook inside a click handler breaks React's rules of hooks and may throw before the course is added; that failure is not modelled.
- The wallet dialog's submission: after a delay it calls its success callback, shows a toast and closes, none of which touches the store, so only its schema is modelled.
