/** The rules of src/components/ResumeEditor.tsx: parsing the
    comma-separated skills field, building the manual entry and the edit
    patch, the form rules, and the editor's dialog state. */
module ResumeEditor {
  import opened Wrappers
  import opened Seqs
  import opened Text
  import opened Records
  import opened CourseStore
  import CourseStoreProps
  import CourseContext

  // ------------------------------------------------------------ skills

  function IsNonBlank(s: string): bool {
    |s| > 0
  }

  /** The skills field as a list: split at commas, each piece trimmed,
      empty pieces dropped; an absent or empty field gives no skills. */
  function ParseSkills(input: Option<string>): (r: seq<string>)
    ensures forall i :: 0 <= i < |r| ==> r[i] != [] && IsTrimmed(r[i])
    ensures !Truthy(input) ==> r == []
  {
    if Truthy(input) then Filter(Map(Split(input.value, ','), Trim), IsNonBlank) else []
  }

  /** The parsed skills are exactly the non-blank trimmed pieces of the
      field, in the field's order. */
  lemma ParseSkillsKeepsOrder(input: string)
    requires input != ""
    ensures IsSubsequence(ParseSkills(Some(input)), Map(Split(input, ','), Trim))
    ensures forall s :: s in ParseSkills(Some(input)) <==> s in Map(Split(input, ','), Trim) && s != ""
  {
    var pieces := Map(Split(input, ','), Trim);
    FilterIsSubsequence(pieces, IsNonBlank);
    forall s
      ensures s in ParseSkills(Some(input)) <==> s in pieces && s != ""
    {
      FilterMembers(pieces, IsNonBlank, s);
    }
  }

  /** `"A, B, , C"` lists the skills A, B and C: the blank piece is dropped. */
  lemma ParseSkillsSample()
    ensures ParseSkills(Some("A, B, , C")) == ["A", "B", "C"]
  {
    var parts := ["A", " B", " ", " C"];
    SampleJoin();
    assert forall i :: 0 <= i < |parts| ==> ',' !in parts[i];
    SplitJoin(parts, ',');
    SampleTrimmed();
    SampleFiltered();
  }

  lemma SampleJoin()
    ensures Join(["A", " B", " ", " C"], [',']) == "A, B, , C"
  {
    var parts := ["A", " B", " ", " C"];
    assert parts[1..] == [" B", " ", " C"] && parts[2..] == [" ", " C"] && parts[3..] == [" C"];
    assert Join([" C"], [',']) == " C";
    assert Join([" ", " C"], [',']) == " , C";
    assert Join([" B", " ", " C"], [',']) == " B, , C";
  }

  lemma SampleTrimmed()
    ensures Map(["A", " B", " ", " C"], Trim) == ["A", "B", "", "C"]
  {
    MapFour("A", " B", " ", " C", Trim);
    TrimmedPieces();
  }

  lemma MapFour<T, U>(a: T, b: T, c: T, d: T, f: T -> U)
    ensures Map([a, b, c, d], f) == [f(a), f(b), f(c), f(d)]
  {
    var m := Map([a, b, c, d], f);
    assert m[0] == f(a) && m[1] == f(b) && m[2] == f(c) && m[3] == f(d);
  }

  lemma TrimmedPieces()
    ensures Trim("A") == "A" && Trim(" B") == "B" && Trim(" ") == "" && Trim(" C") == "C"
  {
    assert IsWhitespace(' ');
    TrimPadded("", "A", "");
    assert "" + "A" + "" == "A";
    TrimPadded(" ", "B", "");
    assert " " + "B" + "" == " B";
    TrimPadded(" ", "", "");
    assert " " + "" + "" == " ";
    TrimPadded(" ", "C", "");
    assert " " + "C" + "" == " C";
  }

  lemma SampleFiltered()
    ensures Filter(["A", "B", "", "C"], IsNonBlank) == ["A", "B", "C"]
  {
    var pieces := ["A", "B", "", "C"];
    assert pieces[1..] == ["B", "", "C"] && pieces[2..] == ["", "C"] && pieces[3..] == ["C"];
    assert Filter(["C"], IsNonBlank) == ["C"] by { assert ["C"][1..] == []; }
    assert Filter(["", "C"], IsNonBlank) == ["C"];
    assert Filter(["B", "", "C"], IsNonBlank) == ["B", "C"];
  }

  /** A skill that survives being joined and parsed again. */
  predicate WellFormedSkill(s: string) {
    s != [] && IsTrimmed(s) && ',' !in s
  }

  /** The pieces between the commas of `skills.join(", ")`. */
  function Spaced(skills: seq<string>): (r: seq<string>)
    ensures |r| == |skills|
  {
    seq(|skills|, i requires 0 <= i < |skills| => if i == 0 then skills[i] else " " + skills[i])
  }

  lemma JoinPrefixed(pre: string, a: string, rest: seq<string>, sep: string)
    ensures Join([pre + a] + rest, sep) == pre + Join([a] + rest, sep)
  {
    if rest != [] {
      assert ([pre + a] + rest)[1..] == rest;
      assert ([a] + rest)[1..] == rest;
    }
  }

  /** Joining with ", " is joining the spaced pieces with ",". */
  lemma {:induction false} JoinSpaced(skills: seq<string>)
    requires |skills| >= 1
    ensures Join(skills, ", ") == Join(Spaced(skills), ",")
    decreases |skills|
  {
    if |skills| > 1 {
      var tail := skills[1..];
      JoinSpaced(tail);
      var rest := Spaced(tail)[1..];
      assert Spaced(tail) == [tail[0]] + rest;
      assert Spaced(skills)[1..] == [" " + tail[0]] + rest;
      JoinPrefixed(" ", tail[0], rest, ",");
      assert Join(Spaced(skills), ",") == skills[0] + "," + Join(Spaced(skills)[1..], ",");
    }
  }

  /** No spaced piece contains a comma. */
  lemma SpacedCommaFree(skills: seq<string>)
    requires forall i :: 0 <= i < |skills| ==> WellFormedSkill(skills[i])
    ensures forall i :: 0 <= i < |skills| ==> ',' !in Spaced(skills)[i]
  {
    forall i | 0 <= i < |skills| ensures ',' !in Spaced(skills)[i] {
      if i > 0 {
        assert Spaced(skills)[i] == [' '] + skills[i];
      }
    }
  }

  /** Trimming the spaced pieces gives the skills back. */
  lemma SpacedTrimmed(skills: seq<string>)
    requires forall i :: 0 <= i < |skills| ==> WellFormedSkill(skills[i])
    ensures Map(Spaced(skills), Trim) == skills
  {
    var pieces := Spaced(skills);
    var trimmed := Map(pieces, Trim);
    forall i | 0 <= i < |skills| ensures trimmed[i] == skills[i] {
      if i == 0 {
        TrimPadded("", skills[0], "");
        assert "" + skills[0] + "" == pieces[0];
      } else {
        TrimPadded(" ", skills[i], "");
        assert " " + skills[i] + "" == pieces[i];
      }
    }
  }

  /** Listing well-formed skills with ", " (as the edit form does) and
      parsing the field again gives back the same skills. */
  lemma SkillsRoundTrip(skills: seq<string>)
    requires forall i :: 0 <= i < |skills| ==> WellFormedSkill(skills[i])
    ensures ParseSkills(Some(Join(skills, ", "))) == skills
  {
    if skills != [] {
      var pieces := Spaced(skills);
      JoinSpaced(skills);
      SpacedCommaFree(skills);
      SplitJoin(pieces, ',');
      JoinLength(pieces, ",");
      assert Join(skills, ", ") != "";
      SpacedTrimmed(skills);
      FilterKeepsAll(skills, IsNonBlank);
    }
  }

  /** A join is at least as long as its first part. */
  lemma JoinLength(parts: seq<string>, sep: string)
    requires |parts| >= 1
    ensures |Join(parts, sep)| >= |parts[0]|
  {
  }

  // -------------------------------------------------------------- forms

  /** The values of the add and edit forms. */
  datatype EntryForm = EntryForm(courseName: string, category: string, completionDate: string, skills: Option<string>)

  /** The values of the profile form. */
  datatype ProfileForm = ProfileForm(username: string, email: string, bio: string, jobTitle: string, location: string)

  /** The entry form's length rules: a course name of at least 3
      characters, a category and a completion date. */
  predicate EntryFormAccepted(form: EntryForm) {
    |form.courseName| >= 3 && |form.category| >= 1 && |form.completionDate| >= 1
  }

  /** The profile form's length rule: a username of at least 2 characters. */
  predicate ProfileFormAccepted(form: ProfileForm) {
    |form.username| >= 2
  }

  /** An accepted entry form has a non-empty name, category and date, and
      the 2-character name "AB" is refused. */
  lemma EntryFormRules(form: EntryForm)
    ensures EntryFormAccepted(form) ==> form.courseName != "" && form.category != "" && form.completionDate != ""
    ensures !EntryFormAccepted(EntryForm("AB", "Finance", "2024-12-15", None))
    ensures EntryFormAccepted(EntryForm("ABC", "F", "2", None))
  {
  }

  /** The profile form as the dialog fills it in from the profile. */
  function ProfileFormFor(profile: UserProfile): (r: ProfileForm)
    ensures r.username == profile.username
    ensures profile.email.Some? ==> r.email == profile.email.value
    ensures profile.email.None? ==> r.email == ""
    ensures profile.bio.Some? ==> r.bio == profile.bio.value
    ensures profile.bio.None? ==> r.bio == ""
    ensures profile.jobTitle.Some? ==> r.jobTitle == profile.jobTitle.value
    ensures profile.jobTitle.None? ==> r.jobTitle == ""
    ensures profile.location.Some? ==> r.location == profile.location.value
    ensures profile.location.None? ==> r.location == ""
  {
    ProfileForm(profile.username, profile.email.GetOr(""), profile.bio.GetOr(""),
                profile.jobTitle.GetOr(""), profile.location.GetOr(""))
  }

  /** The patch the profile form sends: every form field, and neither the
      user id nor the skills. */
  function ProfilePatchFor(form: ProfileForm): (r: ProfilePatch)
    ensures r.userId.None? && r.skills.None?
    ensures r.username == Some(form.username) && r.email == Some(form.email)
    ensures r.bio == Some(form.bio) && r.jobTitle == Some(form.jobTitle) && r.location == Some(form.location)
  {
    ProfilePatch(None, Some(form.username), Some(form.email), Some(form.bio), Some(form.jobTitle), None, Some(form.location))
  }

  /** Saving the profile form unchanged renames nothing. */
  lemma UnchangedProfileRenamesNothing(st: StoreState)
    ensures var r := UpdateUserProfile(st, ProfilePatchFor(ProfileFormFor(st.userProfile)));
            r.certificates == st.certificates && r.resumeEntries == st.resumeEntries &&
            r.userProfile.username == st.userProfile.username && r.userProfile.userId == st.userProfile.userId
  {
  }

  /** An accepted profile form keeps certificates and entries in the
      profile's name. */
  lemma AcceptedProfileKeepsNamesInSync(st: StoreState, form: ProfileForm)
    requires ProfileFormAccepted(form) && CourseStoreProps.NamesInSync(st)
    ensures CourseStoreProps.NamesInSync(UpdateUserProfile(st, ProfilePatchFor(form)))
  {
    CourseStoreProps.UpdateUserProfileKeepsNamesInSync(st, ProfilePatchFor(form));
  }

  /** The entry the add form submits: the profile's user id ("user1" when
      it has none) and name, a "manual-" course id, and the parsed skills. */
  function ManualEntryFor(profile: UserProfile, form: EntryForm, stamp: string): (r: ManualEntry)
    ensures r.userId != "" && (profile.userId != "" ==> r.userId == profile.userId)
    ensures profile.userId == "" ==> r.userId == "user1"
    ensures r.username == profile.username
    ensures r.courseId == "manual-" + stamp && IsPrefix("manual-", r.courseId)
    ensures r.courseName == form.courseName && r.category == form.category && r.completionDate == form.completionDate
    ensures r.skills == ParseSkills(form.skills)
  {
    ManualEntry(if profile.userId != "" then profile.userId else "user1", profile.username, "manual-" + stamp,
                form.courseName, form.category, form.completionDate, ParseSkills(form.skills))
  }

  /** The edit form as it opens on an entry: the skills listed with ", ". */
  function EditFormFor(entry: ResumeEntry): (r: EntryForm)
    ensures r.courseName == entry.courseName && r.category == entry.category && r.completionDate == entry.completionDate
    ensures r.skills == Some(Join(entry.skills, ", "))
  {
    EntryForm(entry.courseName, entry.category, entry.completionDate, Some(Join(entry.skills, ", ")))
  }

  /** The patch the edit form sends: the four edited fields, never the
      verified flag nor an id or owner. */
  function EditPatch(form: EntryForm): (r: EntryPatch)
    ensures r.verified.None? && r.id.None? && r.userId.None? && r.username.None? && r.courseId.None?
    ensures r.courseName == Some(form.courseName) && r.category == Some(form.category)
    ensures r.completionDate == Some(form.completionDate) && r.skills == Some(ParseSkills(form.skills))
  {
    EntryPatch(None, None, None, None, Some(form.courseName), Some(form.category), Some(form.completionDate),
               Some(ParseSkills(form.skills)), None)
  }

  /** Saving the edit form unchanged leaves an entry with well-formed
      skills as it was. */
  lemma UnchangedEditKeepsEntry(entry: ResumeEntry)
    requires forall i :: 0 <= i < |entry.skills| ==> WellFormedSkill(entry.skills[i])
    ensures MergeEntry(entry, EditPatch(EditFormFor(entry))) == entry
  {
    SkillsRoundTrip(entry.skills);
  }

  /** An edit is never refused and never changes any entry's verified
      flag, owner or course. */
  lemma EditKeepsVerifiedFlags(st: StoreState, id: string, form: EntryForm)
    ensures var r := UpdateResumeEntry(st, id, EditPatch(form));
            |r.resumeEntries| == |st.resumeEntries| &&
            forall i :: 0 <= i < |st.resumeEntries| ==>
              r.resumeEntries[i].verified == st.resumeEntries[i].verified &&
              r.resumeEntries[i].userId == st.resumeEntries[i].userId &&
              r.resumeEntries[i].courseId == st.resumeEntries[i].courseId
  {
    assert !UpdateRejected(st.resumeEntries, id, EditPatch(form));
  }

  // ------------------------------------------------------ editor state

  /** The editor's dialog flags, the entry being edited and the two form
      states that its handlers reset. */
  class Editor {
    var isProfileDialogOpen: bool
    var isAddCourseDialogOpen: bool
    var isEditEntryDialogOpen: bool
    var currentEditEntry: Option<ResumeEntry>
    var profileForm: ProfileForm
    var editForm: EntryForm

    constructor (profile: UserProfile)
      ensures !isProfileDialogOpen && !isAddCourseDialogOpen && !isEditEntryDialogOpen
      ensures currentEditEntry == None
      ensures profileForm == ProfileFormFor(profile)
      ensures editForm == EntryForm("", "", "", Some(""))
    {
      isProfileDialogOpen := false;
      isAddCourseDialogOpen := false;
      isEditEntryDialogOpen := false;
      currentEditEntry := None;
      profileForm := ProfileFormFor(profile);
      editForm := EntryForm("", "", "", Some(""));
    }

    /** Opening the profile dialog refills its form from the profile. */
    method HandleProfileDialogOpen(open: bool, profile: UserProfile)
      modifies this
      ensures isProfileDialogOpen == open
      ensures profileForm == if open then ProfileFormFor(profile) else old(profileForm)
      ensures isAddCourseDialogOpen == old(isAddCourseDialogOpen) && isEditEntryDialogOpen == old(isEditEntryDialogOpen)
      ensures currentEditEntry == old(currentEditEntry) && editForm == old(editForm)
    {
      if open {
        profileForm := ProfileFormFor(profile);
      }
      isProfileDialogOpen := open;
    }

    /** Saving the profile: submitted only once the form is accepted. */
    method OnProfileSubmit(store: CourseContext.Store, data: ProfileForm)
      requires ProfileFormAccepted(data)
      modifies this, store
      ensures store.State() == UpdateUserProfile(old(store.State()), ProfilePatchFor(data))
      ensures store.loading == old(store.loading)
      ensures !isProfileDialogOpen
      ensures isAddCourseDialogOpen == old(isAddCourseDialogOpen) && isEditEntryDialogOpen == old(isEditEntryDialogOpen)
      ensures currentEditEntry == old(currentEditEntry) && editForm == old(editForm) && profileForm == old(profileForm)
    {
      store.UpdateUserProfile(ProfilePatchFor(data));
      isProfileDialogOpen := false;
    }

    /** Adding a course taken elsewhere; `courseStamp` and `entryStamp` are
        the two clock readings it makes. */
    method OnAddCourseSubmit(store: CourseContext.Store, data: EntryForm, courseStamp: string, entryStamp: string)
      requires EntryFormAccepted(data)
      modifies this, store
      ensures store.State() ==
                AddManualResumeEntry(old(store.State()), ManualEntryFor(old(store.userProfile), data, courseStamp), entryStamp)
      ensures store.loading == old(store.loading)
      ensures !isAddCourseDialogOpen
      ensures isProfileDialogOpen == old(isProfileDialogOpen) && isEditEntryDialogOpen == old(isEditEntryDialogOpen)
      ensures currentEditEntry == old(currentEditEntry) && editForm == old(editForm) && profileForm == old(profileForm)
    {
      var entry := ManualEntryFor(store.userProfile, data, courseStamp);
      store.AddManualResumeEntry(entry, entryStamp);
      isAddCourseDialogOpen := false;
    }

    /** Opening the edit dialog on an entry; the edit button is disabled for
        verified entries. */
    method HandleEditEntry(entry: ResumeEntry)
      requires !entry.verified
      modifies this
      ensures currentEditEntry == Some(entry) && editForm == EditFormFor(entry) && isEditEntryDialogOpen
      ensures isProfileDialogOpen == old(isProfileDialogOpen) && isAddCourseDialogOpen == old(isAddCourseDialogOpen)
      ensures profileForm == old(profileForm)
    {
      currentEditEntry := Some(entry);
      editForm := EditFormFor(entry);
      isEditEntryDialogOpen := true;
    }

    /** Saving an edit: nothing happens when no entry is being edited. */
    method OnEditEntrySubmit(store: CourseContext.Store, data: EntryForm)
      requires EntryFormAccepted(data)
      modifies this, store
      ensures old(currentEditEntry).None? ==>
                store.State() == old(store.State()) && currentEditEntry == None &&
                isEditEntryDialogOpen == old(isEditEntryDialogOpen)
      ensures old(currentEditEntry).Some? ==>
                store.State() == UpdateResumeEntry(old(store.State()), old(currentEditEntry).value.id, EditPatch(data)) &&
                !isEditEntryDialogOpen && currentEditEntry == None
      ensures store.loading == old(store.loading)
      ensures isProfileDialogOpen == old(isProfileDialogOpen) && isAddCourseDialogOpen == old(isAddCourseDialogOpen)
      ensures editForm == old(editForm) && profileForm == old(profileForm)
    {
      if currentEditEntry.None? {
        return;
      }
      var _ := store.UpdateResumeEntry(currentEditEntry.value.id, EditPatch(data));
      isEditEntryDialogOpen := false;
      currentEditEntry := None;
    }

    /** Deleting an entry; `confirmed` answers the store's confirmation. */
    method HandleDeleteEntry(store: CourseContext.Store, entry: ResumeEntry, confirmed: bool)
      modifies store
      ensures store.State() == DeleteResumeEntry(old(store.State()), entry.id, confirmed)
      ensures store.loading == old(store.loading)
    {
      var _ := store.DeleteResumeEntry(entry.id, confirmed);
    }
  }
}
