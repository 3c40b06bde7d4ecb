/** The records the learning platform keeps: courses (the `CourseType`
    of src/components/CourseCard.tsx) and the progress records,
    certificates, resume entries and profile of
    src/contexts/CourseContext.tsx, with the partial records (`Partial<T>`)
    callers pass to update operations and the object spread
    `{ ...record, ...patch }` that applies them. A patch field that is
    `Some` is a key the caller supplied. */
module Records {
  import opened Wrappers

  datatype Difficulty = Beginner | Intermediate | Advanced

  function DifficultyName(d: Difficulty): string {
    match d
    case Beginner => "Beginner"
    case Intermediate => "Intermediate"
    case Advanced => "Advanced"
  }

  /** A course; `progress` is the optional display shortcut. */
  datatype Course = Course(
    id: string,
    title: string,
    description: string,
    category: string,
    difficulty: Difficulty,
    duration: string,
    modules: int,
    reward: int,
    image: string,
    progress: Option<int>)

  datatype CoursePatch = CoursePatch(
    id: Option<string>,
    title: Option<string>,
    description: Option<string>,
    category: Option<string>,
    difficulty: Option<Difficulty>,
    duration: Option<string>,
    modules: Option<int>,
    reward: Option<int>,
    image: Option<string>,
    progress: Option<int>)

  const NoCourseChanges := CoursePatch(None, None, None, None, None, None, None, None, None, None)

  /** `{ progress }`: the patch `updateUserProgress` hands to `updateCourse`. */
  function ProgressPatch(progress: int): CoursePatch {
    NoCourseChanges.(progress := Some(progress))
  }

  /** A supplied value for an optional field. */
  function PickOptional<T>(supplied: Option<T>, current: Option<T>): Option<T> {
    if supplied.Some? then supplied else current
  }

  /** `{ ...course, ...patch }` */
  function MergeCourse(c: Course, p: CoursePatch): Course {
    Course(
      p.id.GetOr(c.id),
      p.title.GetOr(c.title),
      p.description.GetOr(c.description),
      p.category.GetOr(c.category),
      p.difficulty.GetOr(c.difficulty),
      p.duration.GetOr(c.duration),
      p.modules.GetOr(c.modules),
      p.reward.GetOr(c.reward),
      p.image.GetOr(c.image),
      PickOptional(p.progress, c.progress))
  }

  /** Progress of one user in one course; `completionDate` is optional. */
  datatype UserProgress = UserProgress(
    userId: string,
    courseId: string,
    progress: int,
    lastUpdated: string,
    startDate: string,
    completionDate: Option<string>)

  datatype Certificate = Certificate(
    id: string,
    userId: string,
    username: string,
    courseId: string,
    courseName: string,
    issueDate: string,
    tokenReward: int,
    blockchain: bool,
    verified: bool)

  datatype ResumeEntry = ResumeEntry(
    id: string,
    userId: string,
    username: string,
    courseId: string,
    courseName: string,
    category: string,
    completionDate: string,
    skills: seq<string>,
    verified: bool)

  datatype EntryPatch = EntryPatch(
    id: Option<string>,
    userId: Option<string>,
    username: Option<string>,
    courseId: Option<string>,
    courseName: Option<string>,
    category: Option<string>,
    completionDate: Option<string>,
    skills: Option<seq<string>>,
    verified: Option<bool>)

  /** `{ ...entry, ...patch }` */
  function MergeEntry(e: ResumeEntry, p: EntryPatch): ResumeEntry {
    ResumeEntry(
      p.id.GetOr(e.id),
      p.userId.GetOr(e.userId),
      p.username.GetOr(e.username),
      p.courseId.GetOr(e.courseId),
      p.courseName.GetOr(e.courseName),
      p.category.GetOr(e.category),
      p.completionDate.GetOr(e.completionDate),
      p.skills.GetOr(e.skills),
      p.verified.GetOr(e.verified))
  }

  /** A resume entry without its id and verified flag
      (`Omit<ResumeEntryType, "id" | "verified">`). */
  datatype ManualEntry = ManualEntry(
    userId: string,
    username: string,
    courseId: string,
    courseName: string,
    category: string,
    completionDate: string,
    skills: seq<string>)

  datatype UserProfile = UserProfile(
    userId: string,
    username: string,
    email: Option<string>,
    bio: Option<string>,
    jobTitle: Option<string>,
    skills: Option<seq<string>>,
    location: Option<string>)

  datatype ProfilePatch = ProfilePatch(
    userId: Option<string>,
    username: Option<string>,
    email: Option<string>,
    bio: Option<string>,
    jobTitle: Option<string>,
    skills: Option<seq<string>>,
    location: Option<string>)

  const NoProfileChanges := ProfilePatch(None, None, None, None, None, None, None)

  /** `{ ...profile, ...patch }` */
  function MergeProfile(u: UserProfile, p: ProfilePatch): UserProfile {
    UserProfile(
      p.userId.GetOr(u.userId),
      p.username.GetOr(u.username),
      PickOptional(p.email, u.email),
      PickOptional(p.bio, u.bio),
      PickOptional(p.jobTitle, u.jobTitle),
      PickOptional(p.skills, u.skills),
      PickOptional(p.location, u.location))
  }
}
