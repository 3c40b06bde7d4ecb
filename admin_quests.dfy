/** The admin's course list of src/pages/AdminQuests.tsx: search and
    category filtering, the category list, the per-course count of enrolled
    learners and the duplicate action. */
module AdminQuests {
  import opened Wrappers
  import opened Seqs
  import opened Text
  import opened Records
  import opened CourseStore
  import RecentCourses

  /** The three list filters: a case-insensitive title search, a category
      ("all" for any) and a status filter under which every course counts
      as published. */
  function CourseMatches(query: string, categoryFilter: string, statusFilter: string): Course -> bool {
    (c: Course) =>
      Contains(ToLower(c.title), ToLower(query)) &&
      (if categoryFilter == "all" then true else c.category == categoryFilter) &&
      (if statusFilter == "all" then true else true)
  }

  function FilteredCourses(courses: seq<Course>, query: string, categoryFilter: string, statusFilter: string): seq<Course> {
    Filter(courses, CourseMatches(query, categoryFilter, statusFilter))
  }

  /** A course is listed exactly when its title contains the query, ignoring
      case, and the category filter admits it; the list keeps the courses'
      order. */
  lemma FilteredCoursesIff(courses: seq<Course>, query: string, categoryFilter: string, statusFilter: string, c: Course)
    ensures c in FilteredCourses(courses, query, categoryFilter, statusFilter) <==>
            c in courses && Contains(ToLower(c.title), ToLower(query)) &&
            (categoryFilter == "all" || c.category == categoryFilter)
    ensures IsSubsequence(FilteredCourses(courses, query, categoryFilter, statusFilter), courses)
  {
    FilterMembers(courses, CourseMatches(query, categoryFilter, statusFilter), c);
    FilterIsSubsequence(courses, CourseMatches(query, categoryFilter, statusFilter));
  }

  /** The status filter has no effect. */
  lemma StatusFilterIgnored(courses: seq<Course>, query: string, categoryFilter: string, status1: string, status2: string)
    ensures FilteredCourses(courses, query, categoryFilter, status1) == FilteredCourses(courses, query, categoryFilter, status2)
  {
    FilterSamePredicate(courses, CourseMatches(query, categoryFilter, status1), CourseMatches(query, categoryFilter, status2));
  }

  /** With an empty search and category "all" every course is listed. */
  lemma NoFilterListsAll(courses: seq<Course>, statusFilter: string)
    ensures FilteredCourses(courses, "", "all", statusFilter) == courses
  {
    forall i | 0 <= i < |courses|
      ensures CourseMatches("", "all", statusFilter)(courses[i])
    {
      ContainsEmpty(ToLower(courses[i].title));
    }
    FilterKeepsAll(courses, CourseMatches("", "all", statusFilter));
  }

  function CategoryOf(c: Course): string {
    c.category
  }

  /** `[...new Set(courses.map(c => c.category))]` */
  function Categories(courses: seq<Course>): seq<string> {
    Distinct(Map(courses, CategoryOf))
  }

  /** Each category of some course is listed once, in the order of its
      first course. */
  lemma CategoriesListEachOnce(courses: seq<Course>)
    ensures var cats := Categories(courses);
            (forall x :: x in cats <==> exists i :: 0 <= i < |courses| && courses[i].category == x) &&
            (forall i, j :: 0 <= i < j < |cats| ==> cats[i] != cats[j]) &&
            (forall i, j :: 0 <= i < j < |cats| ==>
               IndexOf(Map(courses, CategoryOf), cats[i]) < IndexOf(Map(courses, CategoryOf), cats[j]))
  {
    var names := Map(courses, CategoryOf);
    var cats := Categories(courses);
    forall x
      ensures x in cats <==> exists i :: 0 <= i < |courses| && courses[i].category == x
    {
      if x in cats {
        var i :| 0 <= i < |names| && names[i] == x;
        assert courses[i].category == x;
      }
      if exists i :: 0 <= i < |courses| && courses[i].category == x {
        var i :| 0 <= i < |courses| && courses[i].category == x;
        assert names[i] == x;
      }
    }
    forall i, j | 0 <= i < j < |cats|
      ensures IndexOf(names, cats[i]) < IndexOf(names, cats[j])
    {
      DistinctFirstOccurrenceOrder(names, i, j);
    }
  }

  function EnrolledIn(courseId: string): UserProgress -> bool {
    (p: UserProgress) => p.courseId == courseId && p.progress > 0
  }

  /** The learners counted as enrolled: records for the course with some
      progress. */
  function EnrolledUsers(ps: seq<UserProgress>, courseId: string): (r: nat)
    ensures r <= |ps|
  {
    |Filter(ps, EnrolledIn(courseId))|
  }

  /** The count is 0 exactly when no record for the course has progress. */
  lemma NoEnrolledUsersIff(ps: seq<UserProgress>, courseId: string)
    ensures EnrolledUsers(ps, courseId) == 0 <==>
            forall i :: 0 <= i < |ps| && ps[i].courseId == courseId ==> ps[i].progress <= 0
  {
    var enrolled := Filter(ps, EnrolledIn(courseId));
    if |enrolled| == 0 {
      forall i | 0 <= i < |ps| && ps[i].courseId == courseId
        ensures ps[i].progress <= 0
      {
        FilterMembers(ps, EnrolledIn(courseId), ps[i]);
      }
    } else {
      var j :| 0 <= j < |ps| && ps[j] == enrolled[0];
      assert ps[j].courseId == courseId && ps[j].progress > 0;
    }
  }

  /** The enrolled count never exceeds the count of all records for the
      course, and the two agree when every such record has progress. */
  lemma EnrolledAtMostUserCount(ps: seq<UserProgress>, courseId: string)
    ensures EnrolledUsers(ps, courseId) <= RecentCourses.AdminUserCount(ps, courseId)
    ensures (forall i :: 0 <= i < |ps| && ps[i].courseId == courseId ==> ps[i].progress > 0) ==>
            EnrolledUsers(ps, courseId) == RecentCourses.AdminUserCount(ps, courseId)
  {
    FilterStrongerKeepsFewer(ps, RecentCourses.ForCourse(courseId), EnrolledIn(courseId));
    if forall i :: 0 <= i < |ps| && ps[i].courseId == courseId ==> ps[i].progress > 0 {
      FilterSamePredicate(ps, RecentCourses.ForCourse(courseId), EnrolledIn(courseId));
    }
  }

  /** The copy the duplicate action builds. */
  function Duplicate(c: Course, stamp: string): Course {
    c.(id := stamp, title := c.title + " (Copy)")
  }

  /** Duplicating adds one course equal to the original but for its new id,
      the " (Copy)" title and progress reset to 0. */
  lemma DuplicateAdded(st: StoreState, c: Course, copyStamp: string, storeStamp: string)
    ensures var r := AddCourse(st, Duplicate(c, copyStamp), storeStamp);
            r.courses == st.courses + [c.(id := storeStamp, title := c.title + " (Copy)", progress := Some(0))] &&
            r.(courses := st.courses) == st
  {
    var r := AddCourse(st, Duplicate(c, copyStamp), storeStamp);
    assert r.courses == r.courses[..|st.courses|] + [r.courses[|st.courses|]];
  }

  /** "Delete" needs the admin's confirmation; once confirmed, no course
      with that id is listed under any filter. */
  lemma DeleteLeavesList(st: StoreState, c: Course, confirmed: bool, query: string, categoryFilter: string, statusFilter: string)
    ensures var r := RecentCourses.DeleteConfirmed(st, c.id, confirmed);
            (!confirmed ==> r == st) &&
            (confirmed ==> forall d :: d in FilteredCourses(r.courses, query, categoryFilter, statusFilter) ==> d.id != c.id)
  {
    var r := RecentCourses.DeleteConfirmed(st, c.id, confirmed);
    forall d | d in FilteredCourses(r.courses, query, categoryFilter, statusFilter)
      ensures confirmed ==> d.id != c.id
    {
      FilteredCoursesIff(r.courses, query, categoryFilter, statusFilter, d);
    }
  }
}
