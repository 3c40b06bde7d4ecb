/** What the store's operations guarantee together: when a certificate and
    a resume entry are issued, that a user never holds two certificates for
    one course, that a completed course is not rewarded twice, that names
    stay in sync across a rename, that verified resume entries stay
    verified, and what a course deletion removes and keeps. */
module CourseStoreProps {
  import opened Wrappers
  import opened Seqs
  import opened Records
  import opened CourseStore

  // ------------------------------------------------- updating progress

  /** A user's existing record for the course is updated in place and no
      other record changes; the course's display progress is set. */
  lemma UpdateExistingRecord(st: StoreState, userId: string, courseId: string, progress: int, today: string, stamp: string)
    requires FindProgressIndex(st.userProgress, userId, courseId) >= 0
    ensures var r := UpdateUserProgress(st, userId, courseId, progress, today, stamp);
            var k := FindProgressIndex(st.userProgress, userId, courseId);
            |r.userProgress| == |st.userProgress| &&
            (forall j :: 0 <= j < |st.userProgress| && j != k ==> r.userProgress[j] == st.userProgress[j]) &&
            r.userProgress[k] == AdvanceRecord(st.userProgress[k], progress, today) &&
            r.courses == UpdateCourses(st.courses, courseId, ProgressPatch(progress))
  {
  }

  /** Without an existing record a new one is appended, and nothing is
      issued, not even when it starts at 100. */
  lemma UpdateNewRecord(st: StoreState, userId: string, courseId: string, progress: int, today: string, stamp: string)
    requires FindProgressIndex(st.userProgress, userId, courseId) < 0
    ensures var r := UpdateUserProgress(st, userId, courseId, progress, today, stamp);
            r.userProgress == st.userProgress + [NewRecord(userId, courseId, progress, today)] &&
            r.certificates == st.certificates && r.resumeEntries == st.resumeEntries
  {
  }

  /** After an update the user has a record for the course, found first by
      the store's lookup, holding the new progress; at 100 it is dated. */
  lemma {:induction false} UpdateLeavesRecord(st: StoreState, userId: string, courseId: string, progress: int, today: string, stamp: string)
    ensures var r := UpdateUserProgress(st, userId, courseId, progress, today, stamp);
            var k := FindProgressIndex(r.userProgress, userId, courseId);
            k >= 0 && r.userProgress[k].progress == progress &&
            (progress == 100 && today != "" ==> Truthy(r.userProgress[k].completionDate))
  {
    var r := UpdateUserProgress(st, userId, courseId, progress, today, stamp);
    var k := FindProgressIndex(st.userProgress, userId, courseId);
    var k' := FindProgressIndex(r.userProgress, userId, courseId);
    if k >= 0 {
      UpdateExistingRecord(st, userId, courseId, progress, today, stamp);
      assert r.userProgress[k].userId == userId && r.userProgress[k].courseId == courseId;
      assert k' >= 0 && k' <= k;
      assert forall j :: 0 <= j < k ==> r.userProgress[j] == st.userProgress[j];
    } else {
      UpdateNewRecord(st, userId, courseId, progress, today, stamp);
      var n := |st.userProgress|;
      assert r.userProgress[n] == NewRecord(userId, courseId, progress, today);
      assert forall j :: 0 <= j < n ==> r.userProgress[j] == st.userProgress[j];
    }
  }

  /** The conditions under which a call earns a certificate: an existing
      record, not yet complete, is taken to 100; the course exists; and
      the user holds no certificate for it. */
  predicate EarnsCertificate(st: StoreState, userId: string, courseId: string, progress: int) {
    var k := FindProgressIndex(st.userProgress, userId, courseId);
    k >= 0 && CompletionTriggered(st.userProgress[k], progress) &&
    Find(st.courses, HasId(courseId)).Some? && !HasCertificate(st.certificates, userId, courseId)
  }

  /** A certificate is issued exactly when it is earned; it names the
      course's title and reward and the profile's name. */
  lemma CertificateIssuedIff(st: StoreState, userId: string, courseId: string, progress: int, today: string, stamp: string)
    ensures var r := UpdateUserProgress(st, userId, courseId, progress, today, stamp);
            (r.certificates != st.certificates <==> EarnsCertificate(st, userId, courseId, progress)) &&
            (EarnsCertificate(st, userId, courseId, progress) ==>
               var course := Find(st.courses, HasId(courseId)).value;
               r.certificates == st.certificates + [NewCertificate(course, userId, courseId, Username(st.userProfile), today, stamp)])
  {
    var k := FindProgressIndex(st.userProgress, userId, courseId);
    if k >= 0 {
      var advanced := st.(userProgress := st.userProgress[k := AdvanceRecord(st.userProgress[k], progress, today)]);
      assert advanced.courses == st.courses && advanced.certificates == st.certificates;
    }
  }

  /** A verified resume entry is added exactly when a certificate is earned
      and the user has no resume entry for the course yet; its skills are
      the course's category, its level and the ecosystem. */
  lemma ResumeEntryIssuedIff(st: StoreState, userId: string, courseId: string, progress: int, today: string, stamp: string)
    ensures var r := UpdateUserProgress(st, userId, courseId, progress, today, stamp);
            var earned := EarnsCertificate(st, userId, courseId, progress) && !HasResumeEntry(st.resumeEntries, userId, courseId);
            (r.resumeEntries != st.resumeEntries <==> earned) &&
            (earned ==>
               var course := Find(st.courses, HasId(courseId)).value;
               var e := r.resumeEntries[|st.resumeEntries|];
               r.resumeEntries == st.resumeEntries + [e] &&
               e.verified && e.userId == userId && e.courseId == courseId &&
               e.skills == [course.category, DifficultyName(course.difficulty) + " Level", "Aptos Ecosystem"])
  {
    var k := FindProgressIndex(st.userProgress, userId, courseId);
    if k >= 0 {
      var advanced := st.(userProgress := st.userProgress[k := AdvanceRecord(st.userProgress[k], progress, today)]);
      assert advanced.courses == st.courses && advanced.resumeEntries == st.resumeEntries;
    }
  }

  /** A user who already holds a certificate for the course is never issued
      another one, whatever progress is reported. */
  lemma NoSecondCertificate(st: StoreState, userId: string, courseId: string, progress: int, today: string, stamp: string)
    requires HasCertificate(st.certificates, userId, courseId)
    ensures UpdateUserProgress(st, userId, courseId, progress, today, stamp).certificates == st.certificates
  {
    CertificateIssuedIff(st, userId, courseId, progress, today, stamp);
  }

  /** Reporting 100 twice rewards the course at most once: the second call
      issues neither a certificate nor a resume entry. */
  lemma CompletingTwiceIssuesOnce(st: StoreState, userId: string, courseId: string, today: string, stamp: string, today2: string, stamp2: string)
    requires today != ""
    ensures var s1 := UpdateUserProgress(st, userId, courseId, 100, today, stamp);
            var s2 := UpdateUserProgress(s1, userId, courseId, 100, today2, stamp2);
            s2.certificates == s1.certificates && s2.resumeEntries == s1.resumeEntries
  {
    var s1 := UpdateUserProgress(st, userId, courseId, 100, today, stamp);
    UpdateLeavesRecord(st, userId, courseId, 100, today, stamp);
    var k := FindProgressIndex(s1.userProgress, userId, courseId);
    assert !CompletionTriggered(s1.userProgress[k], 100);
    CertificateIssuedIff(s1, userId, courseId, 100, today2, stamp2);
    ResumeEntryIssuedIff(s1, userId, courseId, 100, today2, stamp2);
  }

  // ------------------------------------------------ the store invariant

  function ProgressKey(p: UserProgress): (string, string) {
    (p.userId, p.courseId)
  }

  function CertificateKey(c: Certificate): (string, string) {
    (c.userId, c.courseId)
  }

  /** At most one progress record and at most one certificate per user
      and course. */
  predicate Valid(st: StoreState) {
    UniqueBy(st.userProgress, ProgressKey) && UniqueBy(st.certificates, CertificateKey)
  }

  lemma UpdateUserProgressKeepsValid(st: StoreState, userId: string, courseId: string, progress: int, today: string, stamp: string)
    requires Valid(st)
    ensures Valid(UpdateUserProgress(st, userId, courseId, progress, today, stamp))
  {
    var r := UpdateUserProgress(st, userId, courseId, progress, today, stamp);
    var k := FindProgressIndex(st.userProgress, userId, courseId);
    if k >= 0 {
      UpdateExistingRecord(st, userId, courseId, progress, today, stamp);
      assert forall j :: 0 <= j < |st.userProgress| ==> ProgressKey(r.userProgress[j]) == ProgressKey(st.userProgress[j]);
    } else {
      UpdateNewRecord(st, userId, courseId, progress, today, stamp);
    }
    CertificateIssuedIff(st, userId, courseId, progress, today, stamp);
  }

  lemma DeleteCourseKeepsValid(st: StoreState, id: string)
    requires Valid(st)
    ensures Valid(DeleteCourse(st, id))
  {
    FilterKeepsUnique(st.userProgress, ProgressNotIn(id), ProgressKey);
    FilterKeepsUnique(st.certificates, CertificateNotIn(id), CertificateKey);
  }

  lemma UpdateUserProfileKeepsValid(st: StoreState, patch: ProfilePatch)
    requires Valid(st)
    ensures Valid(UpdateUserProfile(st, patch))
  {
    var r := UpdateUserProfile(st, patch);
    assert forall j :: 0 <= j < |st.certificates| ==> CertificateKey(r.certificates[j]) == CertificateKey(st.certificates[j]) by {
      forall j | 0 <= j < |st.certificates|
        ensures CertificateKey(r.certificates[j]) == CertificateKey(st.certificates[j])
      {
        assert r.certificates[j].(username := st.certificates[j].username) == st.certificates[j];
      }
    }
  }

  /** The course and resume-entry operations leave records and
      certificates as they were. */
  lemma OtherOperationsKeepValid(st: StoreState, c: Course, id: string, patch: CoursePatch, e: ManualEntry, entryId: string, entryPatch: EntryPatch, confirmed: bool, stamp: string)
    requires Valid(st)
    ensures Valid(AddCourse(st, c, stamp)) && Valid(UpdateCourse(st, id, patch))
    ensures Valid(AddManualResumeEntry(st, e, stamp)) && Valid(UpdateResumeEntry(st, entryId, entryPatch))
    ensures Valid(DeleteResumeEntry(st, entryId, confirmed))
  {
    assert AddCourse(st, c, stamp).(courses := st.courses) == st;
    assert UpdateCourse(st, id, patch).(courses := st.courses) == st;
    assert AddManualResumeEntry(st, e, stamp).(resumeEntries := st.resumeEntries) == st;
    assert UpdateResumeEntry(st, entryId, entryPatch).(resumeEntries := st.resumeEntries) == st;
    assert DeleteResumeEntry(st, entryId, confirmed).(resumeEntries := st.resumeEntries) == st;
  }

  // ----------------------------------------------------------- renaming

  /** Every certificate and resume entry of the profile's user carries the
      profile's username. */
  predicate NamesInSync(st: StoreState) {
    (forall i :: 0 <= i < |st.certificates| && st.certificates[i].userId == st.userProfile.userId ==>
       st.certificates[i].username == st.userProfile.username) &&
    (forall i :: 0 <= i < |st.resumeEntries| && st.resumeEntries[i].userId == st.userProfile.userId ==>
       st.resumeEntries[i].username == st.userProfile.username)
  }

  /** A profile update that keeps the user id and does not blank the
      username keeps names in sync: a rename reaches every certificate and
      entry of the user. */
  lemma UpdateUserProfileKeepsNamesInSync(st: StoreState, patch: ProfilePatch)
    requires NamesInSync(st)
    requires patch.userId.None? || patch.userId.value == st.userProfile.userId
    requires patch.username != Some("")
    ensures NamesInSync(UpdateUserProfile(st, patch))
  {
  }

  /** Blanking the username breaks the sync: the certificates keep the old
      name while the profile's name becomes empty. */
  lemma BlankUsernameBreaksSync()
    ensures var cert := Certificate("cert-1", "user1", "Learner", "4", "Web3 Fundamentals", "2025-03-20", 45, true, true);
            var st := StoreState([], [], [cert], [], UserProfile("user1", "Learner", None, None, None, None, None));
            NamesInSync(st) &&
            !NamesInSync(UpdateUserProfile(st, NoProfileChanges.(username := Some(""))))
  {
    var cert := Certificate("cert-1", "user1", "Learner", "4", "Web3 Fundamentals", "2025-03-20", 45, true, true);
    var st := StoreState([], [], [cert], [], UserProfile("user1", "Learner", None, None, None, None, None));
    var r := UpdateUserProfile(st, NoProfileChanges.(username := Some("")));
    assert !Renames(st.userProfile, NoProfileChanges.(username := Some("")));
    assert r.certificates[0].username == "Learner" && r.userProfile.username == "";
  }

  /** New certificates and entries for the profile's user carry its name,
      so progress updates keep names in sync while the name is not empty. */
  lemma UpdateUserProgressKeepsNamesInSync(st: StoreState, userId: string, courseId: string, progress: int, today: string, stamp: string)
    requires NamesInSync(st) && st.userProfile.username != ""
    ensures NamesInSync(UpdateUserProgress(st, userId, courseId, progress, today, stamp))
  {
    CertificateIssuedIff(st, userId, courseId, progress, today, stamp);
    ResumeEntryIssuedIff(st, userId, courseId, progress, today, stamp);
    var r := UpdateUserProgress(st, userId, courseId, progress, today, stamp);
    if r.resumeEntries != st.resumeEntries {
      var k := FindProgressIndex(st.userProgress, userId, courseId);
      var advanced := st.(userProgress := st.userProgress[k := AdvanceRecord(st.userProgress[k], progress, today)]);
      assert r.resumeEntries == IssueCompletion(advanced, userId, courseId, today, stamp).resumeEntries;
    }
  }

  // ----------------------------------------------------- resume entries

  function EntryId(e: ResumeEntry): string {
    e.id
  }

  /** With distinct entry ids, no update can take the verified flag off an
      entry. */
  lemma UpdateKeepsVerified(st: StoreState, id: string, patch: EntryPatch)
    requires UniqueBy(st.resumeEntries, EntryId)
    ensures var r := UpdateResumeEntry(st, id, patch);
            forall i :: 0 <= i < |st.resumeEntries| && st.resumeEntries[i].verified ==> r.resumeEntries[i].verified
  {
    var entries := st.resumeEntries;
    var r := UpdateResumeEntry(st, id, patch);
    if !UpdateRejected(entries, id, patch) {
      forall i | 0 <= i < |entries| && entries[i].verified && entries[i].id == id
        ensures r.resumeEntries[i].verified
      {
        var k := FindIndex(entries, EntryWithId(id));
        assert EntryWithId(id)(entries[i]);
        assert forall j :: 0 <= j < i ==> EntryId(entries[j]) != EntryId(entries[i]);
        assert Find(entries, EntryWithId(id)) == Some(entries[i]);
      }
    }
  }

  /** With a repeated id the guard looks only at the first entry, so a
      verified entry behind an unverified one with the same id loses its
      flag. */
  lemma RepeatedIdClearsVerified()
    ensures var manual := ResumeEntry("x", "user1", "Learner", "manual-1", "Course", "Finance", "2024-12-15", [], false);
            var platform := manual.(courseId := "4", verified := true);
            var st := StoreState([], [], [], [manual, platform], UserProfile("user1", "Learner", None, None, None, None, None));
            var patch := EntryPatch(None, None, None, None, None, None, None, None, Some(false));
            !UpdateResumeEntry(st, "x", patch).resumeEntries[1].verified
  {
    var manual := ResumeEntry("x", "user1", "Learner", "manual-1", "Course", "Finance", "2024-12-15", [], false);
    var platform := manual.(courseId := "4", verified := true);
    var entries := [manual, platform];
    assert EntryWithId("x")(entries[0]);
    assert FindIndex(entries, EntryWithId("x")) == 0;
  }

  /** Unless the user declines, deleting removes exactly the entries with
      the id and keeps the others in their order. */
  lemma DeleteResumeEntryKeepsOthers(st: StoreState, id: string, confirmed: bool, e: ResumeEntry)
    requires !DeleteNeedsConfirmation(st.resumeEntries, id) || confirmed
    ensures var r := DeleteResumeEntry(st, id, confirmed);
            (e in r.resumeEntries <==> e in st.resumeEntries && e.id != id) &&
            IsSubsequence(r.resumeEntries, st.resumeEntries)
  {
    FilterMembers(st.resumeEntries, EntryOtherThan(id), e);
    FilterIsSubsequence(st.resumeEntries, EntryOtherThan(id));
  }

  // ------------------------------------------------------ deleting courses

  /** Deleting a course keeps, in their order, exactly what does not refer
      to it. */
  lemma DeleteCourseKeepsUnrelated(st: StoreState, id: string, c: Course, p: UserProgress, cert: Certificate, e: ResumeEntry)
    ensures var r := DeleteCourse(st, id);
            (c in r.courses <==> c in st.courses && c.id != id) &&
            (p in r.userProgress <==> p in st.userProgress && p.courseId != id) &&
            (cert in r.certificates <==> cert in st.certificates && cert.courseId != id) &&
            (e in r.resumeEntries <==> e in st.resumeEntries && e.courseId != id)
    ensures var r := DeleteCourse(st, id);
            IsSubsequence(r.courses, st.courses) && IsSubsequence(r.userProgress, st.userProgress) &&
            IsSubsequence(r.certificates, st.certificates) && IsSubsequence(r.resumeEntries, st.resumeEntries)
  {
    FilterMembers(st.courses, CourseOtherThan(id), c);
    FilterMembers(st.userProgress, ProgressNotIn(id), p);
    FilterMembers(st.certificates, CertificateNotIn(id), cert);
    FilterMembers(st.resumeEntries, EntryNotIn(id), e);
    FilterIsSubsequence(st.courses, CourseOtherThan(id));
    FilterIsSubsequence(st.userProgress, ProgressNotIn(id));
    FilterIsSubsequence(st.certificates, CertificateNotIn(id));
    FilterIsSubsequence(st.resumeEntries, EntryNotIn(id));
  }

  // --------------------------------------------------- updating courses

  /** `updateCourse(id, { progress })` sets the display progress of the
      courses with the id and changes nothing else. */
  lemma ProgressPatchSetsOnlyProgress(courses: seq<Course>, id: string, progress: int)
    ensures var r := UpdateCourses(courses, id, ProgressPatch(progress));
            |r| == |courses| &&
            (forall i :: 0 <= i < |courses| ==> r[i].(progress := courses[i].progress) == courses[i]) &&
            (forall i :: 0 <= i < |courses| && courses[i].id == id ==> r[i].progress == Some(progress))
  {
  }

  /** Every progress report sets the display progress of the reported
      course, whichever branch the record takes. */
  lemma UpdateUserProgressSetsCourseProgress(st: StoreState, userId: string, courseId: string, progress: int, today: string, stamp: string)
    ensures UpdateUserProgress(st, userId, courseId, progress, today, stamp).courses ==
            UpdateCourses(st.courses, courseId, ProgressPatch(progress))
  {
  }

  /** Looking the course up by id after the progress patch finds it exactly
      when it was there before, now carrying the reported progress. */
  lemma FindAfterProgressPatch(courses: seq<Course>, id: string, progress: int)
    ensures var r := UpdateCourses(courses, id, ProgressPatch(progress));
            (Find(r, HasId(id)).Some? <==> Find(courses, HasId(id)).Some?) &&
            (Find(r, HasId(id)).Some? ==>
               Find(r, HasId(id)).value == Find(courses, HasId(id)).value.(progress := Some(progress)))
  {
    var r := UpdateCourses(courses, id, ProgressPatch(progress));
    ProgressPatchSetsOnlyProgress(courses, id, progress);
    assert forall i :: 0 <= i < |courses| ==> (HasId(id)(r[i]) <==> HasId(id)(courses[i]));
    var k, k' := FindIndex(courses, HasId(id)), FindIndex(r, HasId(id));
    assert k == k';
  }
}
