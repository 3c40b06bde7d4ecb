/** The course creation form of src/components/CourseForm.tsx: its
    validation rules, its default values, the module list the admin grows
    and shrinks, and the course a valid submission adds to the store. */
module CourseForm {
  import opened Wrappers
  import opened Seqs
  import opened Records
  import CourseStore
  import CourseContext

  datatype ModuleDraft = ModuleDraft(title: string, content: string)

  datatype CourseFormValues = CourseFormValues(
    title: string,
    description: string,
    category: string,
    difficulty: Difficulty,
    duration: string,
    reward: int,
    imageUrl: string,
    modules: seq<ModuleDraft>)

  /** The rule for one module: a title of at least 3 and content of at
      least 10 characters. */
  predicate ModuleAccepted(m: ModuleDraft) {
    |m.title| >= 3 && |m.content| >= 10
  }

  /** The form's schema (the URL rule on `imageUrl` aside). */
  predicate FormAccepted(v: CourseFormValues) {
    |v.title| >= 5 && |v.description| >= 20 && |v.category| >= 1 && |v.duration| >= 1 &&
    v.reward >= 1 && |v.modules| >= 1 &&
    forall i :: 0 <= i < |v.modules| ==> ModuleAccepted(v.modules[i])
  }

  const DefaultValues := CourseFormValues(
    "", "", "", Beginner, "", 10,
    "https://images.unsplash.com/photo-1639322537228-f710d846310a",
    [ModuleDraft("Introduction", "Welcome to this course.")])

  /** The form opens with one module, which already meets the module rule. */
  lemma DefaultModuleAccepted()
    ensures |DefaultValues.modules| == 1 && ModuleAccepted(DefaultValues.modules[0])
  {
  }

  const BlankModule := ModuleDraft("", "")

  /** "Add module": a blank module at the end. */
  function WithModuleAdded(modules: seq<ModuleDraft>): (r: seq<ModuleDraft>)
    ensures |r| == |modules| + 1 && r[..|modules|] == modules && r[|modules|] == BlankModule
  {
    modules + [BlankModule]
  }

  /** "Remove module": refused while only one module is left. */
  function WithModuleRemoved(modules: seq<ModuleDraft>, index: int): (r: seq<ModuleDraft>)
    ensures |modules| >= 1 ==> |r| >= 1
    ensures |modules| <= 1 || !(0 <= index < |modules|) ==> r == modules
    ensures |modules| > 1 && 0 <= index < |modules| ==> |r| == |modules| - 1 && r == modules[..index] + modules[index + 1..]
    ensures forall i :: 0 <= i < |r| ==> r[i] in modules
  {
    if |modules| <= 1 then modules else RemoveAt(modules, index)
  }

  /** A blank module added to any form stops it from being submitted until
      the module is filled in. */
  lemma AddedModuleBlocksSubmit(v: CourseFormValues)
    ensures !FormAccepted(v.(modules := WithModuleAdded(v.modules)))
  {
    var ms := WithModuleAdded(v.modules);
    assert !ModuleAccepted(ms[|v.modules|]);
  }

  /** Removing a module keeps a valid form valid. */
  lemma RemoveKeepsAccepted(v: CourseFormValues, index: int)
    requires FormAccepted(v)
    ensures FormAccepted(v.(modules := WithModuleRemoved(v.modules, index)))
  {
    var ms := WithModuleRemoved(v.modules, index);
    forall i | 0 <= i < |ms|
      ensures ModuleAccepted(ms[i])
    {
      var k :| 0 <= k < |v.modules| && v.modules[k] == ms[i];
    }
  }

  datatype ModuleEdit = AddModule | RemoveModule(index: int)

  function ApplyEdits(modules: seq<ModuleDraft>, edits: seq<ModuleEdit>): seq<ModuleDraft>
    decreases |edits|
  {
    if edits == [] then modules
    else
      var next := match edits[0]
        case AddModule => WithModuleAdded(modules)
        case RemoveModule(i) => WithModuleRemoved(modules, i);
      ApplyEdits(next, edits[1..])
  }

  /** However the admin adds and removes modules, a form that starts with a
      module keeps at least one. */
  lemma {:induction false} EditsKeepAModule(modules: seq<ModuleDraft>, edits: seq<ModuleEdit>)
    requires |modules| >= 1
    ensures |ApplyEdits(modules, edits)| >= 1
    decreases |edits|
  {
    if edits != [] {
      var next := match edits[0]
        case AddModule => WithModuleAdded(modules)
        case RemoveModule(i) => WithModuleRemoved(modules, i);
      EditsKeepAModule(next, edits[1..]);
    }
  }

  /** The course a submission builds: the module count, progress 0 and the
      image URL as the image. */
  function SubmittedCourse(data: CourseFormValues, stamp: string): Course {
    Course(stamp, data.title, data.description, data.category, data.difficulty, data.duration,
           |data.modules|, data.reward, data.imageUrl, Some(0))
  }

  /** The store replaces the form's id with its own stamp and keeps every
      other field of a submission; a valid one has a module and a reward. */
  lemma SubmissionAdded(st: CourseStore.StoreState, data: CourseFormValues, formStamp: string, storeStamp: string)
    requires FormAccepted(data)
    ensures var r := CourseStore.AddCourse(st, SubmittedCourse(data, formStamp), storeStamp);
            r.courses == st.courses + [SubmittedCourse(data, storeStamp)] &&
            r.courses[|st.courses|].modules >= 1 && r.courses[|st.courses|].reward >= 1
  {
    var r := CourseStore.AddCourse(st, SubmittedCourse(data, formStamp), storeStamp);
    assert r.courses[|st.courses|] == SubmittedCourse(data, storeStamp);
    assert r.courses == r.courses[..|st.courses|] + [r.courses[|st.courses|]];
  }

  /** The form's values while it is open. */
  class CourseFormState {
    var values: CourseFormValues

    constructor ()
      ensures values == DefaultValues && |values.modules| >= 1
    {
      values := DefaultValues;
    }

    method AddModule()
      modifies this
      ensures values == old(values).(modules := WithModuleAdded(old(values).modules))
      ensures !FormAccepted(values)
    {
      AddedModuleBlocksSubmit(values);
      values := values.(modules := values.modules + [BlankModule]);
    }

    /** Returns whether a module was removed; with one module left the
        form refuses. */
    method RemoveModule(index: int) returns (removed: bool)
      modifies this
      ensures values == old(values).(modules := WithModuleRemoved(old(values).modules, index))
      ensures removed <==> |old(values).modules| > 1
      ensures old(|values.modules|) >= 1 ==> |values.modules| >= 1
      ensures old(FormAccepted(values)) ==> FormAccepted(values)
    {
      if FormAccepted(values) {
        RemoveKeepsAccepted(values, index);
      }
      if |values.modules| <= 1 {
        removed := false;
        return;
      }
      removed := true;
      values := values.(modules := RemoveAt(values.modules, index));
    }

    /** Submitting a form that passed validation adds its course. */
    method Submit(store: CourseContext.Store, formStamp: string, storeStamp: string)
      requires FormAccepted(values)
      modifies store
      ensures store.State() == old(store.State()).(courses := old(store.State()).courses + [SubmittedCourse(values, storeStamp)])
      ensures store.loading == old(store.loading)
    {
      SubmissionAdded(store.State(), values, formStamp, storeStamp);
      store.AddCourse(SubmittedCourse(values, formStamp), storeStamp);
    }
  }
}
