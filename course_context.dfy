/** The `CourseProvider` of src/contexts/CourseContext.tsx as an object:
    five fields that every operation replaces, each operation proved to
    produce the state that the matching function of `CourseStore`
    describes and to keep the store's invariant. */
module CourseContext {
  import opened Wrappers
  import opened Seqs
  import opened Records
  import opened CourseStore
  import CourseStoreProps

  // ------------------------------------------------------------ seed data

  const SeedCourses: seq<Course> := [
    Course("1", "Introduction to Blockchain", "Learn the fundamentals of blockchain technology and how it works.",
           "Technology", Beginner, "4 weeks", 5, 50, "https://images.unsplash.com/photo-1639322537228-f710d846310a", Some(65)),
    Course("2", "Aptos Move Programming", "Master the Move programming language used in the Aptos blockchain.",
           "Programming", Intermediate, "6 weeks", 12, 80, "https://images.unsplash.com/photo-1639322537194-7d80dad34c4b", Some(25)),
    Course("3", "Blockchain Security", "Learn about the security aspects of blockchain technology and how to secure your applications.",
           "Security", Advanced, "8 weeks", 9, 120, "https://images.unsplash.com/photo-1558494949-ef010cbdcc31", Some(0)),
    Course("4", "Web3 Fundamentals", "Understand the basics of Web3 and decentralized applications.",
           "Technology", Beginner, "3 weeks", 7, 45, "https://images.unsplash.com/photo-1558494950-09c6ca35c218", Some(100))
  ]

  const SeedUserProgress: seq<UserProgress> := [
    UserProgress("user1", "1", 65, "2025-04-10", "2025-03-15", None),
    UserProgress("user1", "2", 25, "2025-04-05", "2025-03-25", None),
    UserProgress("user1", "4", 100, "2025-03-20", "2025-03-01", Some("2025-03-20"))
  ]

  const SeedCertificates: seq<Certificate> := [
    Certificate("cert-001", "user1", "Learner", "4", "Web3 Fundamentals", "2025-03-20", 45, true, true)
  ]

  const SeedResumeEntries: seq<ResumeEntry> := [
    ResumeEntry("resume-001", "user1", "Learner", "4", "Web3 Fundamentals", "Technology", "2025-03-20",
                ["Web3", "Blockchain Basics", "Decentralized Applications"], true),
    ResumeEntry("resume-002", "user1", "Learner", "manual-1", "Introduction to Cryptocurrency", "Finance", "2024-12-15",
                ["Crypto", "Bitcoin", "Digital Assets"], false)
  ]

  const SeedUserProfile := UserProfile("user1", "Learner", Some("learner@example.com"),
    Some("Blockchain enthusiast and continuous learner"), Some("Software Developer"),
    Some(["JavaScript", "React", "Blockchain"]), Some("New York, USA"))

  const Seed := StoreState(SeedCourses, SeedUserProgress, SeedCertificates, SeedResumeEntries, SeedUserProfile)

  /** What local storage yields for each key: `None` when the key is
      absent, empty or does not parse. */
  datatype Stored = Stored(
    courses: Option<seq<Course>>,
    userProgress: Option<seq<UserProgress>>,
    certificates: Option<seq<Certificate>>,
    resumeEntries: Option<seq<ResumeEntry>>,
    userProfile: Option<UserProfile>)

  /** The state loaded from storage: each stored value, or its seed. */
  function Restore(stored: Stored): (st: StoreState)
    ensures stored.courses.Some? ==> st.courses == stored.courses.value
    ensures stored.courses.None? ==> st.courses == SeedCourses
    ensures stored.userProgress.Some? ==> st.userProgress == stored.userProgress.value
    ensures stored.userProgress.None? ==> st.userProgress == SeedUserProgress
    ensures stored.certificates.Some? ==> st.certificates == stored.certificates.value
    ensures stored.certificates.None? ==> st.certificates == SeedCertificates
    ensures stored.resumeEntries.Some? ==> st.resumeEntries == stored.resumeEntries.value
    ensures stored.resumeEntries.None? ==> st.resumeEntries == SeedResumeEntries
    ensures stored.userProfile.Some? ==> st.userProfile == stored.userProfile.value
    ensures stored.userProfile.None? ==> st.userProfile == SeedUserProfile
  {
    StoreState(
      stored.courses.GetOr(SeedCourses),
      stored.userProgress.GetOr(SeedUserProgress),
      stored.certificates.GetOr(SeedCertificates),
      stored.resumeEntries.GetOr(SeedResumeEntries),
      stored.userProfile.GetOr(SeedUserProfile))
  }

  /** What the save effect writes once loading is over. */
  function Snapshot(st: StoreState): Stored {
    Stored(Some(st.courses), Some(st.userProgress), Some(st.certificates), Some(st.resumeEntries), Some(st.userProfile))
  }

  /** Loading what was saved gives back the saved state. */
  lemma RestoreSnapshot(st: StoreState)
    ensures Restore(Snapshot(st)) == st
  {
  }

  /** With nothing stored, the store starts from the seed data. */
  lemma RestoreNothing()
    ensures Restore(Stored(None, None, None, None, None)) == Seed
  {
  }

  class Store {
    var courses: seq<Course>
    var userProgress: seq<UserProgress>
    var certificates: seq<Certificate>
    var resumeEntries: seq<ResumeEntry>
    var userProfile: UserProfile
    var loading: bool

    function State(): StoreState
      reads this
    {
      StoreState(courses, userProgress, certificates, resumeEntries, userProfile)
    }

    /** The provider before its first load: empty and loading. */
    constructor ()
      ensures loading
      ensures State() == StoreState([], [], [], [], UserProfile("", "", None, None, None, None, None))
    {
      courses := [];
      userProgress := [];
      certificates := [];
      resumeEntries := [];
      userProfile := UserProfile("", "", None, None, None, None, None);
      loading := true;
    }

    /** The initial load: each key from storage, or its seed data. */
    method Load(stored: Stored)
      modifies this
      ensures !loading && State() == Restore(stored)
    {
      courses := stored.courses.GetOr(SeedCourses);
      userProgress := stored.userProgress.GetOr(SeedUserProgress);
      certificates := stored.certificates.GetOr(SeedCertificates);
      resumeEntries := stored.resumeEntries.GetOr(SeedResumeEntries);
      userProfile := stored.userProfile.GetOr(SeedUserProfile);
      loading := false;
    }

    /** What the save effect writes: nothing while loading. */
    function Saved(): (r: Option<Stored>)
      reads this
      ensures r.Some? <==> !loading
      ensures r.Some? ==> Restore(r.value) == State()
    {
      if loading then None else Some(Snapshot(State()))
    }

    method AddCourse(c: Course, stamp: string)
      modifies this
      ensures State() == CourseStore.AddCourse(old(State()), c, stamp) && loading == old(loading)
      ensures CourseStoreProps.Valid(old(State())) ==> CourseStoreProps.Valid(State())
    {
      var newCourse := c.(id := stamp, progress := Some(0));
      courses := courses + [newCourse];
    }

    method UpdateCourse(id: string, patch: CoursePatch)
      modifies this
      ensures State() == CourseStore.UpdateCourse(old(State()), id, patch) && loading == old(loading)
      ensures CourseStoreProps.Valid(old(State())) ==> CourseStoreProps.Valid(State())
    {
      courses := UpdateCourses(courses, id, patch);
    }

    method DeleteCourse(id: string)
      modifies this
      ensures State() == CourseStore.DeleteCourse(old(State()), id) && loading == old(loading)
      ensures CourseStoreProps.Valid(old(State())) ==> CourseStoreProps.Valid(State())
    {
      if CourseStoreProps.Valid(State()) {
        CourseStoreProps.DeleteCourseKeepsValid(State(), id);
      }
      courses := Filter(courses, CourseOtherThan(id));
      userProgress := Filter(userProgress, ProgressNotIn(id));
      certificates := Filter(certificates, CertificateNotIn(id));
      resumeEntries := Filter(resumeEntries, EntryNotIn(id));
    }

    method UpdateUserProgress(userId: string, courseId: string, progress: int, today: string, stamp: string)
      modifies this
      ensures State() == CourseStore.UpdateUserProgress(old(State()), userId, courseId, progress, today, stamp)
      ensures loading == old(loading)
      ensures CourseStoreProps.Valid(old(State())) ==> CourseStoreProps.Valid(State())
    {
      if CourseStoreProps.Valid(State()) {
        CourseStoreProps.UpdateUserProgressKeepsValid(State(), userId, courseId, progress, today, stamp);
      }
      var existing := FindProgressIndex(userProgress, userId, courseId);
      if existing >= 0 {
        var prev := userProgress[existing];
        userProgress := userProgress[existing := AdvanceRecord(prev, progress, today)];
        if CompletionTriggered(prev, progress) {
          var completed := Find(courses, HasId(courseId));
          if completed.Some? {
            var username := Username(userProfile);
            if !HasCertificate(certificates, userId, courseId) {
              certificates := certificates + [NewCertificate(completed.value, userId, courseId, username, today, stamp)];
              if !HasResumeEntry(resumeEntries, userId, courseId) {
                resumeEntries := resumeEntries + [VerifiedEntry(completed.value, userId, courseId, username, today, stamp)];
              }
            }
          }
        }
      } else {
        userProgress := userProgress + [NewRecord(userId, courseId, progress, today)];
      }
      courses := UpdateCourses(courses, courseId, ProgressPatch(progress));
    }

    method UpdateUserProfile(patch: ProfilePatch)
      modifies this
      ensures State() == CourseStore.UpdateUserProfile(old(State()), patch) && loading == old(loading)
      ensures CourseStoreProps.Valid(old(State())) ==> CourseStoreProps.Valid(State())
    {
      if CourseStoreProps.Valid(State()) {
        CourseStoreProps.UpdateUserProfileKeepsValid(State(), patch);
      }
      var prev := userProfile;
      if Renames(prev, patch) {
        var name := patch.username.value;
        certificates := Map(certificates, RenameCertificate(prev.userId, name));
        resumeEntries := Map(resumeEntries, RenameEntry(prev.userId, name));
      }
      userProfile := MergeProfile(prev, patch);
    }

    method AddManualResumeEntry(entry: ManualEntry, stamp: string)
      modifies this
      ensures State() == CourseStore.AddManualResumeEntry(old(State()), entry, stamp) && loading == old(loading)
      ensures CourseStoreProps.Valid(old(State())) ==> CourseStoreProps.Valid(State())
    {
      resumeEntries := resumeEntries + [ManualResumeEntry(entry, stamp)];
    }

    /** Returns whether the update was applied. */
    method UpdateResumeEntry(id: string, patch: EntryPatch) returns (applied: bool)
      modifies this
      ensures applied == !UpdateRejected(old(resumeEntries), id, patch)
      ensures State() == CourseStore.UpdateResumeEntry(old(State()), id, patch) && loading == old(loading)
      ensures CourseStoreProps.Valid(old(State())) ==> CourseStoreProps.Valid(State())
    {
      var entry := Find(resumeEntries, EntryWithId(id));
      if entry.Some? && entry.value.verified && patch.verified.Some? {
        return false;
      }
      resumeEntries := Map(resumeEntries, PatchEntryIfId(id, patch));
      return true;
    }

    /** `confirmed` is the user's answer to the confirmation, consulted only
        for a verified entry. Returns whether entries were removed. */
    method DeleteResumeEntry(id: string, confirmed: bool) returns (removed: bool)
      modifies this
      ensures removed == (!DeleteNeedsConfirmation(old(resumeEntries), id) || confirmed)
      ensures State() == CourseStore.DeleteResumeEntry(old(State()), id, confirmed) && loading == old(loading)
      ensures CourseStoreProps.Valid(old(State())) ==> CourseStoreProps.Valid(State())
    {
      var entry := Find(resumeEntries, EntryWithId(id));
      if entry.Some? && entry.value.verified {
        if !confirmed {
          return false;
        }
      }
      resumeEntries := Filter(resumeEntries, EntryOtherThan(id));
      return true;
    }
  }

  // ---------------------------------------------------- seed scenarios

  /** The seed data satisfies the store invariant and has names in sync. */
  lemma SeedIsValid()
    ensures CourseStoreProps.Valid(Seed) && CourseStoreProps.NamesInSync(Seed)
  {
    assert CourseStoreProps.ProgressKey(SeedUserProgress[0]) == ("user1", "1");
    assert CourseStoreProps.ProgressKey(SeedUserProgress[1]) == ("user1", "2");
    assert CourseStoreProps.ProgressKey(SeedUserProgress[2]) == ("user1", "4");
  }

  /** Completing "Web3 Fundamentals" again, already completed and certified
      in the seed, issues nothing. */
  lemma SeedRecompletionIssuesNothing(today: string, stamp: string)
    ensures var r := CourseStore.UpdateUserProgress(Seed, "user1", "4", 100, today, stamp);
            r.certificates == SeedCertificates && r.resumeEntries == SeedResumeEntries
  {
    assert CourseStore.HasCertificate(SeedCertificates, "user1", "4") by {
      assert SeedCertificates[0].userId == "user1" && SeedCertificates[0].courseId == "4";
    }
    CourseStoreProps.NoSecondCertificate(Seed, "user1", "4", 100, today, stamp);
    CourseStoreProps.ResumeEntryIssuedIff(Seed, "user1", "4", 100, today, stamp);
  }

  /** In the seed, "Introduction to Blockchain" is started but not
      completed, and nothing has been issued for it yet. */
  lemma SeedIntroductionNotYetRewarded()
    ensures CourseStoreProps.EarnsCertificate(Seed, "user1", "1", 100)
    ensures !CourseStore.HasResumeEntry(SeedResumeEntries, "user1", "1")
    ensures Find(SeedCourses, HasId("1")) == Some(SeedCourses[0])
  {
    assert FindProgressIndex(SeedUserProgress, "user1", "1") == 0;
    assert HasId("1")(SeedCourses[0]);
    assert !CourseStore.HasCertificate(SeedCertificates, "user1", "1") by {
      assert SeedCertificates[0].courseId == "4";
    }
    assert SeedResumeEntries[0].courseId == "4" && SeedResumeEntries[1].courseId == "manual-1";
  }

  /** Completing "Introduction to Blockchain" from the seed issues its
      certificate, worth 50 tokens, and a verified resume entry with the
      beginner skills, both in the profile's name. */
  lemma SeedCompletingIntroduction(today: string, stamp: string)
    ensures var r := CourseStore.UpdateUserProgress(Seed, "user1", "1", 100, today, stamp);
            |r.certificates| == 2 && |r.resumeEntries| == 3 &&
            r.certificates[1] == Certificate("cert-" + stamp, "user1", "Learner", "1", "Introduction to Blockchain", today, 50, true, true) &&
            r.resumeEntries[2].verified && r.resumeEntries[2].username == "Learner" &&
            r.resumeEntries[2].skills == ["Technology", "Beginner Level", "Aptos Ecosystem"]
  {
    SeedIntroductionNotYetRewarded();
    CourseStoreProps.CertificateIssuedIff(Seed, "user1", "1", 100, today, stamp);
    CourseStoreProps.ResumeEntryIssuedIff(Seed, "user1", "1", 100, today, stamp);
    assert Username(SeedUserProfile) == "Learner";
    assert DifficultyName(Beginner) + " Level" == "Beginner Level";
  }
}
