/** The recent-courses table of src/components/RecentCourses.tsx: which
    courses it lists, the status badge, the progress it shows, the
    certificate mark, the admin's user count and the unenroll and delete
    actions. */
module RecentCourses {
  import opened Wrappers
  import opened Seqs
  import opened Records
  import opened CourseStore
  import CourseStoreProps
  import CourseCard

  function AnyCourse(c: Course): bool {
    true
  }

  /** `courses.slice(-4).reverse()`, the learner's branch after a filter
      that keeps every course. */
  function Recent(courses: seq<Course>, isAdmin: bool): seq<Course> {
    if isAdmin then Reverse(LastN(courses, 4))
    else Reverse(LastN(Filter(courses, AnyCourse), 4))
  }

  /** The list is the last four courses (or all of them), newest first. */
  lemma RecentNewestFirst(courses: seq<Course>, isAdmin: bool)
    ensures var r := Recent(courses, isAdmin);
            |r| == Min(4, |courses|) &&
            forall i :: 0 <= i < |r| ==> r[i] == courses[|courses| - 1 - i]
  {
    FilterKeepsAll(courses, AnyCourse);
    var last := LastN(courses, 4);
    assert forall i :: 0 <= i < |last| ==> last[i] == courses[|courses| - |last| + i];
  }

  /** Admins and learners see the same list. */
  lemma BranchesAgree(courses: seq<Course>)
    ensures Recent(courses, true) == Recent(courses, false)
  {
    FilterKeepsAll(courses, AnyCourse);
  }

  datatype StatusBadge = NotStartedBadge | CompletedBadge | InProgressBadge(percent: int)

  function StatusBadgeOf(progress: int): (r: StatusBadge)
    ensures r == NotStartedBadge <==> progress == 0
    ensures r == CompletedBadge <==> progress == 100
    ensures r.InProgressBadge? ==> r.percent == progress
  {
    if progress == 0 then NotStartedBadge
    else if progress == 100 then CompletedBadge
    else InProgressBadge(progress)
  }

  /** The progress the table shows: the learner's recorded progress when it
      is not 0, else the course's own progress when it is not 0, else 0. */
  function DisplayedProgress(ps: seq<UserProgress>, course: Course): (r: int)
    ensures var rec := CourseCard.CurrentRecord(ps, course.id);
            (rec.Some? && rec.value.progress != 0 ==> r == rec.value.progress) &&
            (rec.None? || rec.value.progress == 0 ==> r == course.progress.GetOr(0))
  {
    var rec := CourseCard.CurrentRecord(ps, course.id);
    if rec.Some? && rec.value.progress != 0 then rec.value.progress else course.progress.GetOr(0)
  }

  /** The table and the card show the same progress except when the
      learner's record says 0 and the course's own progress does not. */
  lemma TableDiffersFromCardIff(ps: seq<UserProgress>, course: Course)
    ensures var rec := CourseCard.CurrentRecord(ps, course.id);
            DisplayedProgress(ps, course) != CourseCard.ProgressValue(ps, course, true) <==>
            (rec.Some? && rec.value.progress == 0 && course.progress.GetOr(0) != 0)
  {
  }

  /** The certificate mark: some certificate of "user1" for the course. It
      is the store's own test for a certificate already held. */
  function HasCourseCertificate(certs: seq<Certificate>, courseId: string): (r: bool)
    ensures r <==> HasCertificate(certs, CourseCard.CurrentUser, courseId)
  {
    exists i :: 0 <= i < |certs| && certs[i].courseId == courseId && certs[i].userId == CourseCard.CurrentUser
  }

  /** After a progress report for "user1" the table shows the mark exactly
      when it showed before or the report earned the certificate. */
  lemma CertificateMarkAfterReport(st: StoreState, courseId: string, progress: int, today: string, stamp: string)
    ensures var r := UpdateUserProgress(st, CourseCard.CurrentUser, courseId, progress, today, stamp);
            HasCourseCertificate(r.certificates, courseId) <==>
            HasCourseCertificate(st.certificates, courseId) ||
            CourseStoreProps.EarnsCertificate(st, CourseCard.CurrentUser, courseId, progress)
  {
    var u := CourseCard.CurrentUser;
    var r := UpdateUserProgress(st, u, courseId, progress, today, stamp);
    CourseStoreProps.CertificateIssuedIff(st, u, courseId, progress, today, stamp);
    if HasCourseCertificate(st.certificates, courseId) {
      var i :| 0 <= i < |st.certificates| && st.certificates[i].courseId == courseId && st.certificates[i].userId == u;
      assert r.certificates[i] == st.certificates[i];
    } else if CourseStoreProps.EarnsCertificate(st, u, courseId, progress) {
      var n := |st.certificates|;
      assert r.certificates[n].courseId == courseId && r.certificates[n].userId == u;
    } else {
      assert r.certificates == st.certificates;
    }
  }

  function ForCourse(courseId: string): UserProgress -> bool {
    (p: UserProgress) => p.courseId == courseId
  }

  /** The admin's user count: every record for the course, whatever its
      progress. */
  function AdminUserCount(ps: seq<UserProgress>, courseId: string): (r: nat)
    ensures r <= |ps|
  {
    |Filter(ps, ForCourse(courseId))|
  }

  /** Rewriting a record without moving it to another course keeps the
      count; in particular its progress does not matter. */
  lemma {:induction false} AdminUserCountIgnoresRewrite(ps: seq<UserProgress>, k: nat, p: UserProgress, courseId: string)
    requires k < |ps| && p.courseId == ps[k].courseId
    ensures AdminUserCount(ps[k := p], courseId) == AdminUserCount(ps, courseId)
    decreases |ps|
  {
    var qs := ps[k := p];
    assert ps == [ps[0]] + ps[1..];
    assert qs == [qs[0]] + qs[1..];
    FilterConcat([ps[0]], ps[1..], ForCourse(courseId));
    FilterConcat([qs[0]], qs[1..], ForCourse(courseId));
    if k > 0 {
      assert qs[1..] == ps[1..][k - 1 := p];
      AdminUserCountIgnoresRewrite(ps[1..], k - 1, p, courseId);
    } else {
      assert qs[1..] == ps[1..];
    }
  }

  /** "Unenroll": the learner's progress is set to 0. */
  function Unenroll(st: StoreState, courseId: string, today: string, stamp: string): StoreState {
    UpdateUserProgress(st, CourseCard.CurrentUser, courseId, 0, today, stamp)
  }

  /** Unenrolling keeps (or creates) the learner's record at 0, keeps its
      completion date, issues nothing and leaves the admin's count alone
      when the learner was enrolled. */
  lemma UnenrollKeepsRecord(st: StoreState, courseId: string, today: string, stamp: string)
    ensures var r := Unenroll(st, courseId, today, stamp);
            var before := CourseCard.CurrentRecord(st.userProgress, courseId);
            var after := CourseCard.CurrentRecord(r.userProgress, courseId);
            after.Some? && after.value.progress == 0 &&
            r.certificates == st.certificates && r.resumeEntries == st.resumeEntries &&
            (before.Some? ==> after.value.completionDate == before.value.completionDate &&
                              AdminUserCount(r.userProgress, courseId) == AdminUserCount(st.userProgress, courseId))
  {
    var u := CourseCard.CurrentUser;
    CourseStoreProps.UpdateLeavesRecord(st, u, courseId, 0, today, stamp);
    CourseStoreProps.CertificateIssuedIff(st, u, courseId, 0, today, stamp);
    CourseStoreProps.ResumeEntryIssuedIff(st, u, courseId, 0, today, stamp);
    var k := FindProgressIndex(st.userProgress, u, courseId);
    if k >= 0 {
      var r := Unenroll(st, courseId, today, stamp);
      CourseStoreProps.UpdateExistingRecord(st, u, courseId, 0, today, stamp);
      assert r.userProgress == st.userProgress[k := AdvanceRecord(st.userProgress[k], 0, today)];
      assert forall j :: 0 <= j < k ==> r.userProgress[j] == st.userProgress[j];
      assert FindProgressIndex(r.userProgress, u, courseId) == k;
      AdminUserCountIgnoresRewrite(st.userProgress, k, AdvanceRecord(st.userProgress[k], 0, today), courseId);
    }
  }

  /** After an unenroll, reaching 100 again fires the completion trigger
      once more, but the certificate already held stops a second one. */
  lemma RecompletionAfterUnenroll(st: StoreState, courseId: string, today: string, stamp: string, today2: string, stamp2: string)
    requires HasCourseCertificate(st.certificates, courseId)
    requires CourseCard.CurrentRecord(st.userProgress, courseId).Some?
    ensures var s1 := Unenroll(st, courseId, today, stamp);
            var s2 := UpdateUserProgress(s1, CourseCard.CurrentUser, courseId, 100, today2, stamp2);
            CourseCard.CurrentRecord(s1.userProgress, courseId).Some? &&
            CompletionTriggered(CourseCard.CurrentRecord(s1.userProgress, courseId).value, 100) &&
            s2.certificates == st.certificates && HasCourseCertificate(s2.certificates, courseId)
  {
    var u := CourseCard.CurrentUser;
    UnenrollKeepsRecord(st, courseId, today, stamp);
    var s1 := Unenroll(st, courseId, today, stamp);
    var i :| 0 <= i < |st.certificates| && st.certificates[i].courseId == courseId && st.certificates[i].userId == u;
    assert HasCertificate(s1.certificates, u, courseId);
    CourseStoreProps.NoSecondCertificate(s1, u, courseId, 100, today2, stamp2);
  }

  /** "Delete" after the confirmation prompt; declining changes nothing. */
  function DeleteConfirmed(st: StoreState, courseId: string, confirmed: bool): (r: StoreState)
    ensures !confirmed ==> r == st
    ensures confirmed ==> forall i :: 0 <= i < |r.courses| ==> r.courses[i].id != courseId
  {
    if confirmed then DeleteCourse(st, courseId) else st
  }
}
