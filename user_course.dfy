/** The course page of src/pages/UserCourse.tsx: five modules whose
    completed flags come from the course's progress, the module the page
    opens on, the progress computed when a module is completed, and which
    modules may be selected. */
module UserCourse {
  import opened Wrappers
  import opened Seqs
  import opened Records
  import opened CourseStore
  import CourseContext
  import CourseStoreProps

  datatype CourseModule = CourseModule(id: string, title: string, content: string, completed: bool)

  /** `progress >= threshold` for an optional number; an absent one
      compares false. */
  predicate AtLeast(progress: Option<int>, threshold: int) {
    progress.Some? && progress.value >= threshold
  }

  /** The five modules the page builds for a course. */
  function CourseModules(c: Course): (r: seq<CourseModule>)
    ensures |r| == 5
  {
    [ CourseModule("m1", "What is " + c.title + "?",
        "This is an introduction to " + c.title + ". " + c.description, AtLeast(c.progress, 20)),
      CourseModule("m2", "Core Concepts",
        "Learning the fundamental concepts of " + c.title +
        " will help you understand how it works and how it can be applied in various scenarios.", AtLeast(c.progress, 40)),
      CourseModule("m3", "Advanced Topics",
        "Now that you understand the basics, let's dive deeper into more advanced topics related to " + c.title + ".",
        AtLeast(c.progress, 60)),
      CourseModule("m4", "Practical Applications",
        "Let's look at some real-world applications of " + c.title + " and how it's being used in industry today.",
        AtLeast(c.progress, 80)),
      CourseModule("m5", "Final Assessment",
        "Complete this final assessment to demonstrate your understanding of " + c.title + " and earn your certificate.",
        AtLeast(c.progress, 100)) ]
  }

  /** Module `i` starts completed exactly when the course's progress is at
      least 20 for each module up to and including it. */
  lemma ModuleCompletedIff(c: Course, i: nat)
    requires i < 5
    ensures CourseModules(c)[i].completed <==> c.progress.Some? && c.progress.value >= 20 * (i + 1)
  {
  }

  /** The completed modules are a prefix of the list. */
  lemma CompletedModulesArePrefix(c: Course, i: nat, j: nat)
    requires j < i < 5 && CourseModules(c)[i].completed
    ensures CourseModules(c)[j].completed
  {
    ModuleCompletedIff(c, i);
    ModuleCompletedIff(c, j);
  }

  /** The module the page opens on: one per 20 points of progress (an
      absent progress counts as 0), at most the last. */
  function InitialModuleIndex(progress: Option<int>): (r: int)
    ensures progress.GetOr(0) >= 0 ==> 0 <= r <= 4
  {
    var count := (progress.GetOr(0) * 5) / 100;
    if count < 5 then count else 4
  }

  /** Below 100 the opening module's band of 20 holds the progress. */
  lemma InitialIndexBracket(progress: Option<int>)
    requires progress.GetOr(0) >= 0
    ensures var p, k := progress.GetOr(0), InitialModuleIndex(progress);
            (p < 100 ==> 20 * k <= p < 20 * k + 20) && (p >= 100 ==> k == 4)
  {
    var q := (progress.GetOr(0) * 5) / 100;
    assert 100 * q <= progress.GetOr(0) * 5 < 100 * q + 100;
  }

  /** Below 100 the page opens on the first module not yet completed; from
      100 on it opens on the last, and every module is completed. */
  lemma InitialModuleIsFirstIncomplete(c: Course)
    requires c.progress.GetOr(0) >= 0
    ensures var k := InitialModuleIndex(c.progress);
            var ms := CourseModules(c);
            (forall j :: 0 <= j < k ==> ms[j].completed) &&
            (c.progress.GetOr(0) < 100 ==> !ms[k].completed) &&
            (c.progress.GetOr(0) >= 100 ==> k == 4 && forall j :: 0 <= j < 5 ==> ms[j].completed)
  {
    var ms := CourseModules(c);
    forall j | 0 <= j < 5
      ensures ms[j].completed <==> AtLeast(c.progress, 20 * (j + 1))
    {
      ModuleCompletedIff(c, j);
    }
    InitialIndexBracket(c.progress);
  }

  function IsCompleted(m: CourseModule): bool {
    m.completed
  }

  function CompletedCount(modules: seq<CourseModule>): (r: nat)
    ensures r <= |modules|
  {
    |Filter(modules, IsCompleted)|
  }

  /** The progress after completing a module: the completed share of the
      modules, in whole percent rounded down. */
  function NewProgress(modules: seq<CourseModule>): int
    requires |modules| > 0
  {
    CompletedCount(modules) * 100 / |modules|
  }

  lemma MulMonotone(a: int, b: int, n: int)
    requires n >= 0
    ensures a <= b ==> a * n <= b * n
  {
    assert b * n - a * n == (b - a) * n;
  }

  lemma DivMonotone(x: int, y: int, n: int)
    requires 0 <= x <= y && n > 0
    ensures x / n <= y / n
  {
    var q, q' := x / n, y / n;
    assert q * n <= x <= y < q' * n + n;
    MulMonotone(q' + 1, q, n);
    assert (q' + 1) * n == q' * n + n;
  }

  /** `c` of `n` in whole percent rounded down lies in 0..100 and is 100
      only for all of them. */
  lemma ShareBounds(c: nat, n: nat)
    requires 0 < n && c <= n
    ensures 0 <= c * 100 / n <= 100
    ensures c * 100 / n == 100 <==> c == n
  {
    var q := c * 100 / n;
    assert q * n <= c * 100 < q * n + n;
    MulMonotone(101, q, n);
    MulMonotone(100, q, n);
    MulMonotone(q, 99, n);
  }

  /** The new progress is a percentage, and it is 100 exactly when every
      module is completed. */
  lemma NewProgressBounds(modules: seq<CourseModule>)
    requires |modules| > 0
    ensures 0 <= NewProgress(modules) <= 100
    ensures NewProgress(modules) == 100 <==> forall i :: 0 <= i < |modules| ==> modules[i].completed
  {
    ShareBounds(CompletedCount(modules), |modules|);
    FilterFull(modules, IsCompleted);
  }

  /** Marking a module completed adds one to the count unless it already
      was. */
  lemma {:induction false} MarkCompletedCount(modules: seq<CourseModule>, i: nat)
    requires i < |modules|
    ensures CompletedCount(modules[i := modules[i].(completed := true)]) ==
            CompletedCount(modules) + (if modules[i].completed then 0 else 1)
    decreases |modules|
  {
    var marked := modules[i := modules[i].(completed := true)];
    assert marked == [marked[0]] + marked[1..];
    assert modules == [modules[0]] + modules[1..];
    FilterConcat([marked[0]], marked[1..], IsCompleted);
    FilterConcat([modules[0]], modules[1..], IsCompleted);
    if i > 0 {
      assert marked[1..] == modules[1..][i - 1 := modules[i].(completed := true)];
      MarkCompletedCount(modules[1..], i - 1);
    } else {
      assert marked[1..] == modules[1..];
    }
  }

  /** Completing a module never gives less than the progress the page's
      modules counted before; the progress shown or stored can still fall
      (see `RevisitedModuleLowersProgress`). */
  lemma CompletingNeverLowersProgress(modules: seq<CourseModule>, i: nat)
    requires i < |modules|
    ensures NewProgress(modules[i := modules[i].(completed := true)]) >= NewProgress(modules)
  {
    MarkCompletedCount(modules, i);
    DivMonotone(CompletedCount(modules) * 100,
                CompletedCount(modules[i := modules[i].(completed := true)]) * 100, |modules|);
  }

  /** The seed's "Introduction to Blockchain" stands at 65, so its page
      opens on module 4 (index 3) with modules 1 to 3 completed. Module 1
      may be selected, and completing it again reports 60: the stored
      progress falls from 65 to 60, and the rebuilt page opens on index 3
      once more. */
  lemma RevisitedModuleLowersProgress(c: Course)
    requires c.progress == Some(65)
    ensures InitialModuleIndex(c.progress) == 3 && Unlocked(CourseModules(c), 3, 0)
    ensures NewProgress(CourseModules(c)[0 := CourseModules(c)[0].(completed := true)]) == 60
    ensures InitialModuleIndex(Some(60)) == 3
  {
    var ms := CourseModules(c);
    assert ms[0].completed && ms[1].completed && ms[2].completed && !ms[3].completed && !ms[4].completed;
    FiveCompletedCount(ms);
    MarkCompletedCount(ms, 0);
  }

  /** The completed count of five modules, spelled out. */
  lemma FiveCompletedCount(ms: seq<CourseModule>)
    requires |ms| == 5
    ensures CompletedCount(ms) ==
            (if ms[0].completed then 1 else 0) + (if ms[1].completed then 1 else 0) + (if ms[2].completed then 1 else 0) +
            (if ms[3].completed then 1 else 0) + (if ms[4].completed then 1 else 0)
  {
    assert ms == [ms[0]] + [ms[1]] + [ms[2]] + [ms[3]] + [ms[4]];
    FilterConcat([ms[0]] + [ms[1]] + [ms[2]] + [ms[3]], [ms[4]], IsCompleted);
    FilterConcat([ms[0]] + [ms[1]] + [ms[2]], [ms[3]], IsCompleted);
    FilterConcat([ms[0]] + [ms[1]], [ms[2]], IsCompleted);
    FilterConcat([ms[0]], [ms[1]], IsCompleted);
  }

  /** The progress reported when module `i` is completed. */
  function Reported(modules: seq<CourseModule>, i: int): int
    requires 0 <= i < |modules|
  {
    NewProgress(modules[i := modules[i].(completed := true)])
  }

  /** Which modules may be selected: completed ones and those up to the
      current one. */
  predicate Unlocked(modules: seq<CourseModule>, current: int, index: int)
    requires 0 <= index < |modules|
  {
    modules[index].completed || index <= current
  }

  /** The page's state for one course: its modules, the progress shown,
      the current module and whether the certificate dialog is open. */
  class CourseView {
    var course: Course
    var modules: seq<CourseModule>
    var progress: int
    var currentModuleIndex: int
    var showCertificate: bool

    predicate Valid()
      reads this
    {
      |modules| == 5 && 0 <= currentModuleIndex < |modules|
    }

    /** The view is the one the page builds from course `c`. */
    predicate Shows(c: Course)
      reads this
    {
      course == c && modules == CourseModules(c) && progress == c.progress.GetOr(0) &&
      currentModuleIndex == InitialModuleIndex(c.progress)
    }

    /** A view built from a course with a progress of at least 0 is valid. */
    lemma ShowsValid(c: Course)
      requires Shows(c) && c.progress.GetOr(0) >= 0
      ensures Valid()
    { }

    /** The page opened on a course that was found. */
    constructor (found: Course)
      ensures course == found && modules == CourseModules(found)
      ensures progress == found.progress.GetOr(0)
      ensures currentModuleIndex == InitialModuleIndex(found.progress) && !showCertificate
      ensures found.progress.GetOr(0) >= 0 ==> Valid()
    {
      course := found;
      modules := CourseModules(found);
      progress := found.progress.GetOr(0);
      currentModuleIndex := InitialModuleIndex(found.progress);
      showCertificate := false;
    }

    /** Completing the current module: it is marked, the progress is
        recomputed and reported for "user1", and the page moves to the next
        module or, after the last one at 100, opens the certificate dialog. */
    method CompleteModule(store: CourseContext.Store, today: string, stamp: string)
      requires 0 <= currentModuleIndex < |modules|
      modifies this, store
      ensures modules == old(modules)[old(currentModuleIndex) := old(modules)[old(currentModuleIndex)].(completed := true)]
      ensures progress == NewProgress(modules) && 0 <= progress <= 100
      ensures progress >= NewProgress(old(modules))
      ensures store.State() == UpdateUserProgress(old(store.State()), "user1", course.id, progress, today, stamp)
      ensures store.loading == old(store.loading)
      ensures currentModuleIndex == if old(currentModuleIndex) < |modules| - 1 then old(currentModuleIndex) + 1 else old(currentModuleIndex)
      ensures showCertificate == (old(showCertificate) || (old(currentModuleIndex) == |modules| - 1 && progress == 100))
      ensures course == old(course)
      ensures old(Valid()) ==> Valid()
    {
      var i := currentModuleIndex;
      CompletingNeverLowersProgress(modules, i);
      modules := modules[i := modules[i].(completed := true)];
      NewProgressBounds(modules);
      progress := NewProgress(modules);
      store.UpdateUserProgress("user1", course.id, progress, today, stamp);
      if i < |modules| - 1 {
        currentModuleIndex := i + 1;
      } else if progress == 100 {
        showCertificate := true;
      }
    }

    /** The page's effect for a course that was found: the view is rebuilt
        from it, as when the page opened; the certificate dialog is left as
        it was. */
    method Rebuild(found: Course)
      modifies this
      ensures Shows(found)
      ensures course == found && modules == CourseModules(found)
      ensures progress == found.progress.GetOr(0)
      ensures currentModuleIndex == InitialModuleIndex(found.progress)
      ensures showCertificate == old(showCertificate)
      ensures found.progress.GetOr(0) >= 0 ==> Valid()
    {
      course := found;
      modules := CourseModules(found);
      progress := found.progress.GetOr(0);
      currentModuleIndex := InitialModuleIndex(found.progress);
    }

    /** A click on "complete" as the page runs it: the handler, then the
        effect, which runs again because the report changed the store's
        course list, and rebuilds the view from the updated course. The
        handler's own modules and next index are then replaced by those of
        the reported progress. When the course is gone the page leaves, and
        the view stays as the handler left it. */
    method CompleteModuleAndRefresh(store: CourseContext.Store, today: string, stamp: string) returns (rebuilt: bool)
      requires 0 <= currentModuleIndex < |modules|
      modifies this, store
      ensures store.State() == UpdateUserProgress(old(store.State()), "user1", old(course).id, Reported(old(modules), old(currentModuleIndex)), today, stamp)
      ensures store.loading == old(store.loading)
      ensures rebuilt <==> Find(old(store.courses), HasId(old(course).id)).Some?
      ensures rebuilt ==> Shows(Find(old(store.courses), HasId(old(course).id)).value.(progress := Some(Reported(old(modules), old(currentModuleIndex)))))
      ensures !rebuilt ==> modules == old(modules)[old(currentModuleIndex) := old(modules)[old(currentModuleIndex)].(completed := true)]
      ensures !rebuilt ==> progress == Reported(old(modules), old(currentModuleIndex))
      ensures old(Valid()) ==> Valid()
    {
      var id := course.id;
      ghost var reported := Reported(modules, currentModuleIndex);
      ghost var before := store.State();
      CompleteModule(store, today, stamp);
      CourseStoreProps.UpdateUserProgressSetsCourseProgress(before, "user1", id, progress, today, stamp);
      CourseStoreProps.FindAfterProgressPatch(before.courses, id, reported);
      NewProgressBounds(modules);
      rebuilt := Refresh(store.courses, id);
      if rebuilt {
        ShowsValid(course);
      }
    }

    /** The effect's lookup after the store changed: a course that is found
        rebuilds the view; otherwise the view stays as it is. */
    method Refresh(courses: seq<Course>, id: string) returns (rebuilt: bool)
      modifies this
      ensures rebuilt <==> Find(courses, HasId(id)).Some?
      ensures rebuilt ==> Shows(Find(courses, HasId(id)).value) && showCertificate == old(showCertificate)
      ensures !rebuilt ==> unchanged(this)
    {
      var found := Find(courses, HasId(id));
      if found.Some? {
        Rebuild(found.value);
        rebuilt := true;
      } else {
        rebuilt := false;
      }
    }

    /** Clicking a module: it becomes current when unlocked; a locked one
        leaves the page as it was. */
    method SelectModule(index: int) returns (unlocked: bool)
      requires 0 <= index < |modules|
      modifies this
      ensures modules == old(modules) && progress == old(progress) && course == old(course)
      ensures unlocked == Unlocked(modules, old(currentModuleIndex), index)
      ensures currentModuleIndex == if unlocked then index else old(currentModuleIndex)
      ensures showCertificate == old(showCertificate)
      ensures old(Valid()) ==> Valid()
    {
      unlocked := modules[index].completed || index <= currentModuleIndex;
      if unlocked {
        currentModuleIndex := index;
      }
    }
  }
}
