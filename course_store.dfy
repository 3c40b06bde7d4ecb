/** The operations of the learning-progress store in
    src/contexts/CourseContext.tsx, each as a function from the store's
    state before the call to its state after it. `today` stands for the
    ISO date (`new Date().toISOString().split('T')[0]`), `stamp` for the
    text of `Date.now()`; both are supplied by the caller. */
module CourseStore {
  import opened Wrappers
  import opened Seqs
  import opened Records

  /** The five pieces of state the store provides. */
  datatype StoreState = StoreState(
    courses: seq<Course>,
    userProgress: seq<UserProgress>,
    certificates: seq<Certificate>,
    resumeEntries: seq<ResumeEntry>,
    userProfile: UserProfile)

  /** JavaScript truthiness of an optional string: absent and "" are false. */
  predicate Truthy(s: Option<string>) {
    s.Some? && s.value != ""
  }

  // ---------------------------------------------------------------- courses

  /** `addCourse`: the course is appended with a fresh id and progress 0. */
  function AddCourse(st: StoreState, c: Course, stamp: string): (r: StoreState)
    ensures |r.courses| == |st.courses| + 1 && r.courses[..|st.courses|] == st.courses
    ensures r.courses[|st.courses|].id == stamp && r.courses[|st.courses|].progress == Some(0)
    ensures r.courses[|st.courses|].(id := c.id, progress := c.progress) == c
    ensures r.(courses := st.courses) == st
  {
    var added := c.(id := stamp, progress := Some(0));
    assert added.(id := c.id, progress := c.progress) == c;
    st.(courses := st.courses + [added])
  }

  function HasId(id: string): Course -> bool {
    (c: Course) => c.id == id
  }

  function PatchIfId(id: string, patch: CoursePatch): Course -> Course {
    (c: Course) => if c.id == id then MergeCourse(c, patch) else c
  }

  /** The course list after `updateCourse(id, patch)`: every course with the
      id takes the supplied fields, every other course stays as it was. */
  function UpdateCourses(courses: seq<Course>, id: string, patch: CoursePatch): (r: seq<Course>)
    ensures |r| == |courses|
    ensures forall i :: 0 <= i < |courses| && courses[i].id != id ==> r[i] == courses[i]
    ensures forall i :: 0 <= i < |courses| && courses[i].id == id ==> r[i] == MergeCourse(courses[i], patch)
  {
    Map(courses, PatchIfId(id, patch))
  }

  /** `updateCourse`. */
  function UpdateCourse(st: StoreState, id: string, patch: CoursePatch): (r: StoreState)
    ensures r.(courses := st.courses) == st
    ensures |r.courses| == |st.courses|
  {
    st.(courses := UpdateCourses(st.courses, id, patch))
  }

  function CourseOtherThan(id: string): Course -> bool {
    (c: Course) => c.id != id
  }

  function ProgressNotIn(courseId: string): UserProgress -> bool {
    (p: UserProgress) => p.courseId != courseId
  }

  function CertificateNotIn(courseId: string): Certificate -> bool {
    (c: Certificate) => c.courseId != courseId
  }

  function EntryNotIn(courseId: string): ResumeEntry -> bool {
    (e: ResumeEntry) => e.courseId != courseId
  }

  /** `deleteCourse`: the course goes, and with it every progress record,
      certificate and resume entry that refers to it. */
  function DeleteCourse(st: StoreState, id: string): (r: StoreState)
    ensures forall i :: 0 <= i < |r.courses| ==> r.courses[i].id != id
    ensures forall i :: 0 <= i < |r.userProgress| ==> r.userProgress[i].courseId != id
    ensures forall i :: 0 <= i < |r.certificates| ==> r.certificates[i].courseId != id
    ensures forall i :: 0 <= i < |r.resumeEntries| ==> r.resumeEntries[i].courseId != id
    ensures r.userProfile == st.userProfile
  {
    StoreState(
      Filter(st.courses, CourseOtherThan(id)),
      Filter(st.userProgress, ProgressNotIn(id)),
      Filter(st.certificates, CertificateNotIn(id)),
      Filter(st.resumeEntries, EntryNotIn(id)),
      st.userProfile)
  }

  // -------------------------------------------------------------- progress

  function RecordOf(userId: string, courseId: string): UserProgress -> bool {
    (p: UserProgress) => p.userId == userId && p.courseId == courseId
  }

  /** The index of the user's record for the course, or -1. */
  function FindProgressIndex(ps: seq<UserProgress>, userId: string, courseId: string): (k: int)
    ensures -1 <= k < |ps|
    ensures k >= 0 ==> ps[k].userId == userId && ps[k].courseId == courseId
    ensures forall j :: 0 <= j < |ps| && (k < 0 || j < k) ==> !(ps[j].userId == userId && ps[j].courseId == courseId)
  {
    FindIndex(ps, RecordOf(userId, courseId))
  }

  /** An existing record counts as newly completed when it reaches 100 and
      it either had no completion date or its progress was below 100. */
  predicate CompletionTriggered(prev: UserProgress, progress: int) {
    progress == 100 && (!Truthy(prev.completionDate) || prev.progress < 100)
  }

  /** An existing record after an update: the new progress and date; a
      completion date is added at 100 when there was none, and an existing
      one is never replaced or cleared. */
  function AdvanceRecord(prev: UserProgress, progress: int, today: string): (r: UserProgress)
    ensures r.userId == prev.userId && r.courseId == prev.courseId && r.startDate == prev.startDate
    ensures r.progress == progress && r.lastUpdated == today
    ensures Truthy(prev.completionDate) ==> r.completionDate == prev.completionDate
    ensures progress != 100 ==> r.completionDate == prev.completionDate
    ensures progress == 100 && today != "" ==> Truthy(r.completionDate)
  {
    var date := if progress == 100 && !Truthy(prev.completionDate) then Some(today) else prev.completionDate;
    prev.(progress := progress, lastUpdated := today, completionDate := date)
  }

  /** A first record for the user and course; it carries a completion date
      exactly when it starts at 100. */
  function NewRecord(userId: string, courseId: string, progress: int, today: string): (r: UserProgress)
    ensures r.userId == userId && r.courseId == courseId && r.progress == progress
    ensures r.startDate == today && r.lastUpdated == today
    ensures r.completionDate.Some? <==> progress == 100
    ensures r.completionDate.Some? ==> r.completionDate.value == today
  {
    UserProgress(userId, courseId, progress, today, today, if progress == 100 then Some(today) else None)
  }

  /** The name printed on new certificates and entries: the profile's
      username, or "Learner" when it is empty. */
  function Username(profile: UserProfile): (r: string)
    ensures r != ""
    ensures profile.username != "" ==> r == profile.username
  {
    if profile.username != "" then profile.username else "Learner"
  }

  predicate HasCertificate(certs: seq<Certificate>, userId: string, courseId: string) {
    exists i :: 0 <= i < |certs| && certs[i].userId == userId && certs[i].courseId == courseId
  }

  predicate HasResumeEntry(entries: seq<ResumeEntry>, userId: string, courseId: string) {
    exists i :: 0 <= i < |entries| && entries[i].userId == userId && entries[i].courseId == courseId
  }

  /** The platform-verified certificate issued for completing `course`. */
  function NewCertificate(course: Course, userId: string, courseId: string, username: string, today: string, stamp: string): (r: Certificate)
    ensures r.userId == userId && r.courseId == courseId && r.username == username
    ensures r.courseName == course.title && r.tokenReward == course.reward && r.issueDate == today
    ensures r.blockchain && r.verified
  {
    Certificate("cert-" + stamp, userId, username, courseId, course.title, today, course.reward, true, true)
  }

  /** The skills a completed course puts on the resume. */
  function CompletionSkills(course: Course): (r: seq<string>)
    ensures |r| == 3 && r[0] == course.category && r[2] == "Aptos Ecosystem"
  {
    [course.category, DifficultyName(course.difficulty) + " Level", "Aptos Ecosystem"]
  }

  /** The platform-verified resume entry added alongside a new certificate. */
  function VerifiedEntry(course: Course, userId: string, courseId: string, username: string, today: string, stamp: string): (r: ResumeEntry)
    ensures r.userId == userId && r.courseId == courseId && r.username == username
    ensures r.courseName == course.title && r.category == course.category && r.completionDate == today
    ensures r.skills == CompletionSkills(course) && r.verified
  {
    ResumeEntry("resume-" + stamp, userId, username, courseId, course.title, course.category, today, CompletionSkills(course), true)
  }

  /** What a newly completed course earns: when the course exists and the
      user holds no certificate for it, a certificate, and, unless the user
      already has a resume entry for the course, a verified resume entry. */
  function IssueCompletion(st: StoreState, userId: string, courseId: string, today: string, stamp: string): (r: StoreState)
    ensures r.courses == st.courses && r.userProgress == st.userProgress && r.userProfile == st.userProfile
    ensures st.certificates <= r.certificates && |r.certificates| <= |st.certificates| + 1
    ensures st.resumeEntries <= r.resumeEntries && |r.resumeEntries| <= |st.resumeEntries| + 1
    ensures r.resumeEntries != st.resumeEntries ==> r.certificates != st.certificates
  {
    var found := Find(st.courses, HasId(courseId));
    if found.None? || HasCertificate(st.certificates, userId, courseId) then st
    else
      var course := found.value;
      var name := Username(st.userProfile);
      var certified := st.(certificates := st.certificates + [NewCertificate(course, userId, courseId, name, today, stamp)]);
      if HasResumeEntry(st.resumeEntries, userId, courseId) then certified
      else certified.(resumeEntries := st.resumeEntries + [VerifiedEntry(course, userId, courseId, name, today, stamp)])
  }

  /** `updateUserProgress(userId, courseId, progress)`: the user's record for
      the course is updated, or a new one appended; an existing record that
      becomes complete may earn a certificate and a resume entry; and the
      course's display progress is set. */
  function UpdateUserProgress(st: StoreState, userId: string, courseId: string, progress: int, today: string, stamp: string): (r: StoreState)
    ensures r.userProfile == st.userProfile
    ensures |r.courses| == |st.courses|
    ensures st.certificates <= r.certificates && |r.certificates| <= |st.certificates| + 1
    ensures st.resumeEntries <= r.resumeEntries && |r.resumeEntries| <= |st.resumeEntries| + 1
    ensures r.resumeEntries != st.resumeEntries ==> r.certificates != st.certificates
  {
    var k := FindProgressIndex(st.userProgress, userId, courseId);
    var recorded :=
      if k >= 0 then
        var prev := st.userProgress[k];
        var advanced := st.(userProgress := st.userProgress[k := AdvanceRecord(prev, progress, today)]);
        if CompletionTriggered(prev, progress) then IssueCompletion(advanced, userId, courseId, today, stamp) else advanced
      else
        st.(userProgress := st.userProgress + [NewRecord(userId, courseId, progress, today)]);
    UpdateCourse(recorded, courseId, ProgressPatch(progress))
  }

  // --------------------------------------------------------------- profile

  /** The profile update renames the user when it supplies a non-empty
      username different from the current one. */
  predicate Renames(prev: UserProfile, patch: ProfilePatch) {
    patch.username.Some? && patch.username.value != "" && patch.username.value != prev.username
  }

  function RenameCertificate(ownerId: string, name: string): Certificate -> Certificate {
    (c: Certificate) => if c.userId == ownerId then c.(username := name) else c
  }

  function RenameEntry(ownerId: string, name: string): ResumeEntry -> ResumeEntry {
    (e: ResumeEntry) => if e.userId == ownerId then e.(username := name) else e
  }

  /** `updateUserProfile`: the profile takes the supplied fields; on a
      rename, the certificates and resume entries of the profile's previous
      user id take the new name and nothing else changes in them. */
  function UpdateUserProfile(st: StoreState, patch: ProfilePatch): (r: StoreState)
    ensures r.userProfile == MergeProfile(st.userProfile, patch)
    ensures r.courses == st.courses && r.userProgress == st.userProgress
    ensures |r.certificates| == |st.certificates| && |r.resumeEntries| == |st.resumeEntries|
    ensures forall i :: 0 <= i < |st.certificates| ==> r.certificates[i].(username := st.certificates[i].username) == st.certificates[i]
    ensures forall i :: 0 <= i < |st.resumeEntries| ==> r.resumeEntries[i].(username := st.resumeEntries[i].username) == st.resumeEntries[i]
    ensures !Renames(st.userProfile, patch) ==> r.certificates == st.certificates && r.resumeEntries == st.resumeEntries
  {
    var prev := st.userProfile;
    var profile := MergeProfile(prev, patch);
    if Renames(prev, patch) then
      var name := patch.username.value;
      st.(userProfile := profile,
          certificates := Map(st.certificates, RenameCertificate(prev.userId, name)),
          resumeEntries := Map(st.resumeEntries, RenameEntry(prev.userId, name)))
    else
      st.(userProfile := profile)
  }

  // --------------------------------------------------------- resume entries

  /** The unverified entry `addManualResumeEntry` creates. */
  function ManualResumeEntry(e: ManualEntry, stamp: string): (r: ResumeEntry)
    ensures r.id == "manual-" + stamp && !r.verified
    ensures r.userId == e.userId && r.username == e.username && r.courseId == e.courseId
    ensures r.courseName == e.courseName && r.category == e.category
    ensures r.completionDate == e.completionDate && r.skills == e.skills
  {
    ResumeEntry("manual-" + stamp, e.userId, e.username, e.courseId, e.courseName, e.category, e.completionDate, e.skills, false)
  }

  /** `addManualResumeEntry`: the entry is appended, unverified. */
  function AddManualResumeEntry(st: StoreState, e: ManualEntry, stamp: string): (r: StoreState)
    ensures |r.resumeEntries| == |st.resumeEntries| + 1 && r.resumeEntries[..|st.resumeEntries|] == st.resumeEntries
    ensures !r.resumeEntries[|st.resumeEntries|].verified
    ensures r.(resumeEntries := st.resumeEntries) == st
  {
    assert (st.resumeEntries + [ManualResumeEntry(e, stamp)])[..|st.resumeEntries|] == st.resumeEntries;
    st.(resumeEntries := st.resumeEntries + [ManualResumeEntry(e, stamp)])
  }

  function EntryWithId(id: string): ResumeEntry -> bool {
    (e: ResumeEntry) => e.id == id
  }

  function EntryOtherThan(id: string): ResumeEntry -> bool {
    (e: ResumeEntry) => e.id != id
  }

  function PatchEntryIfId(id: string, patch: EntryPatch): ResumeEntry -> ResumeEntry {
    (e: ResumeEntry) => if e.id == id then MergeEntry(e, patch) else e
  }

  /** `updateResumeEntry` refuses a patch that supplies `verified` when the
      first entry with the id is verified. */
  predicate UpdateRejected(entries: seq<ResumeEntry>, id: string, patch: EntryPatch) {
    var found := Find(entries, EntryWithId(id));
    found.Some? && found.value.verified && patch.verified.Some?
  }

  /** `updateResumeEntry`: unless refused, every entry with the id takes the
      supplied fields. */
  function UpdateResumeEntry(st: StoreState, id: string, patch: EntryPatch): (r: StoreState)
    ensures r.(resumeEntries := st.resumeEntries) == st
    ensures UpdateRejected(st.resumeEntries, id, patch) ==> r == st
    ensures |r.resumeEntries| == |st.resumeEntries|
    ensures forall i :: 0 <= i < |st.resumeEntries| && st.resumeEntries[i].id != id ==> r.resumeEntries[i] == st.resumeEntries[i]
  {
    if UpdateRejected(st.resumeEntries, id, patch) then st
    else st.(resumeEntries := Map(st.resumeEntries, PatchEntryIfId(id, patch)))
  }

  /** Deleting asks for confirmation when the first entry with the id is
      verified. */
  predicate DeleteNeedsConfirmation(entries: seq<ResumeEntry>, id: string) {
    var found := Find(entries, EntryWithId(id));
    found.Some? && found.value.verified
  }

  /** `deleteResumeEntry`, with `confirmed` the user's answer to the
      confirmation (consulted only when one is asked for): every entry with
      the id is removed, unless the user declines. */
  function DeleteResumeEntry(st: StoreState, id: string, confirmed: bool): (r: StoreState)
    ensures r.(resumeEntries := st.resumeEntries) == st
    ensures DeleteNeedsConfirmation(st.resumeEntries, id) && !confirmed ==> r == st
    ensures !(DeleteNeedsConfirmation(st.resumeEntries, id) && !confirmed) ==>
              forall i :: 0 <= i < |r.resumeEntries| ==> r.resumeEntries[i].id != id
  {
    if DeleteNeedsConfirmation(st.resumeEntries, id) && !confirmed then st
    else st.(resumeEntries := Filter(st.resumeEntries, EntryOtherThan(id)))
  }
}
