/** The recommended courses of src/pages/UserDashboard.tsx: the first three
    courses whose own progress is not 100. */
module UserDashboard {
  import opened Wrappers
  import opened Seqs
  import opened Records

  /** `course.progress !== 100`: an absent progress qualifies. */
  function NotCompleted(c: Course): bool {
    c.progress != Some(100)
  }

  function Recommended(courses: seq<Course>): seq<Course> {
    Take(Filter(courses, NotCompleted), 3)
  }

  /** At most three courses, none at 100, taken from the front of the
      qualifying courses in the courses' order. */
  lemma RecommendedShape(courses: seq<Course>)
    ensures var r := Recommended(courses);
            |r| <= 3 &&
            (forall i :: 0 <= i < |r| ==> r[i].progress != Some(100) && r[i] in courses) &&
            r <= Filter(courses, NotCompleted) &&
            IsSubsequence(r, courses)
  {
    var qualifying := Filter(courses, NotCompleted);
    var r := Recommended(courses);
    FilterIsSubsequence(courses, NotCompleted);
    PrefixIsSubsequence(qualifying, courses, |r|);
  }

  /** A course not at 100 with fewer than three qualifying courses before
      it is recommended. */
  lemma EarlyQualifyingIncluded(courses: seq<Course>, i: nat)
    requires i < |courses| && NotCompleted(courses[i])
    requires |Filter(courses[..i], NotCompleted)| < 3
    ensures courses[i] in Recommended(courses)
  {
    var before := Filter(courses[..i], NotCompleted);
    assert courses == courses[..i] + ([courses[i]] + courses[i + 1..]);
    FilterConcat(courses[..i], [courses[i]] + courses[i + 1..], NotCompleted);
    FilterConcat([courses[i]], courses[i + 1..], NotCompleted);
    var qualifying := Filter(courses, NotCompleted);
    assert qualifying[|before|] == courses[i];
    assert Recommended(courses)[|before|] == courses[i];
  }

  /** A course whose progress was never set counts as not completed, so
      it is recommended wherever fewer than three qualifying courses come
      before it. */
  lemma UnsetProgressQualifies(courses: seq<Course>, i: nat)
    requires i < |courses| && courses[i].progress.None?
    requires |Filter(courses[..i], NotCompleted)| < 3
    ensures NotCompleted(courses[i])
    ensures courses[i] in Recommended(courses)
  {
    EarlyQualifyingIncluded(courses, i);
  }

  /** In particular an unset first course is the first recommendation. */
  lemma UnsetFirstCourseFirst(courses: seq<Course>)
    requires |courses| > 0 && courses[0].progress.None?
    ensures |Recommended(courses)| > 0 && Recommended(courses)[0] == courses[0]
  {
    assert courses[..0] == [];
    UnsetProgressQualifies(courses, 0);
    assert Filter(courses, NotCompleted) == [courses[0]] + Filter(courses[1..], NotCompleted);
  }
}
