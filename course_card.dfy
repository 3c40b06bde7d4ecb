/** The course card of src/components/CourseCard.tsx: the progress it
    shows, its status, when the progress bar and which button label
    appear, and the one store call its button makes. The signed-in learner
    is always "user1". */
module CourseCard {
  import opened Wrappers
  import opened Seqs
  import opened Records
  import opened CourseStore
  import CourseStoreProps

  const CurrentUser := "user1"

  /** `userProgress.find(p => p.courseId === id && p.userId === "user1")` */
  function CurrentRecord(ps: seq<UserProgress>, courseId: string): (r: Option<UserProgress>)
    ensures var k := FindProgressIndex(ps, CurrentUser, courseId);
            (r.Some? <==> k >= 0) && (r.Some? ==> r.value == ps[k])
  {
    Find(ps, RecordOf(CurrentUser, courseId))
  }

  /** The progress the card shows: in the learner's view the learner's
      recorded progress whenever a record exists, even 0; otherwise the
      course's own progress, or 0. */
  function ProgressValue(ps: seq<UserProgress>, course: Course, userView: bool): (r: int)
    ensures var k := FindProgressIndex(ps, CurrentUser, course.id);
            (userView && k >= 0 ==> r == ps[k].progress) &&
            (!userView || k < 0 ==> r == course.progress.GetOr(0))
  {
    var recorded := if userView then CurrentRecord(ps, course.id) else None;
    if recorded.Some? then recorded.value.progress else course.progress.GetOr(0)
  }

  datatype ProgressStatus = NotStarted | Completed | InProgress

  function StatusOf(value: int): (r: ProgressStatus)
    ensures r == NotStarted <==> value == 0
    ensures r == Completed <==> value == 100
  {
    if value == 0 then NotStarted
    else if value == 100 then Completed
    else InProgress
  }

  /** The bar appears in the learner's view strictly between 0 and 100. */
  predicate ShowsProgressBar(userView: bool, value: int) {
    userView && 0 < value < 100
  }

  function ButtonLabel(value: int): string {
    if value == 100 then "View Details" else "Start Course"
  }

  /** Within 0..100 the bar appears exactly for a course in progress, and
      then the button offers to start it. */
  lemma BarMatchesStatus(value: int)
    requires 0 <= value <= 100
    ensures ShowsProgressBar(true, value) <==> StatusOf(value) == InProgress
    ensures ShowsProgressBar(true, value) ==> ButtonLabel(value) == "Start Course"
    ensures ButtonLabel(value) == "View Details" <==> StatusOf(value) == Completed
  {
  }

  /** The card's button: in the learner's view, and only when the card has
      a click handler, a course at 0 is recorded as started with 10. */
  function StartCourse(st: StoreState, course: Course, userView: bool, hasClickHandler: bool,
                       today: string, stamp: string): (r: StoreState)
    ensures !(hasClickHandler && userView && ProgressValue(st.userProgress, course, true) == 0) ==> r == st
  {
    if hasClickHandler && userView && ProgressValue(st.userProgress, course, true) == 0
    then UpdateUserProgress(st, CurrentUser, course.id, 10, today, stamp)
    else st
  }

  /** Starting a course records 10 for the learner and issues nothing. */
  lemma StartCourseRecordsTen(st: StoreState, course: Course, today: string, stamp: string)
    requires ProgressValue(st.userProgress, course, true) == 0
    ensures var r := StartCourse(st, course, true, true, today, stamp);
            ProgressValue(r.userProgress, course, true) == 10 &&
            r.certificates == st.certificates && r.resumeEntries == st.resumeEntries
  {
    CourseStoreProps.UpdateLeavesRecord(st, CurrentUser, course.id, 10, today, stamp);
    CourseStoreProps.CertificateIssuedIff(st, CurrentUser, course.id, 10, today, stamp);
  }

  /** Pressing the button a second time changes nothing. */
  lemma StartCourseIdempotent(st: StoreState, course: Course, userView: bool, hasClickHandler: bool,
                              today: string, stamp: string, today2: string, stamp2: string)
    ensures var once := StartCourse(st, course, userView, hasClickHandler, today, stamp);
            StartCourse(once, course, userView, hasClickHandler, today2, stamp2) == once
  {
    if hasClickHandler && userView && ProgressValue(st.userProgress, course, true) == 0 {
      StartCourseRecordsTen(st, course, today, stamp);
    }
  }
}
