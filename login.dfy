/** The learner sign-in of src/pages/Login.tsx: the name the learner goes
    by (the username typed, trimmed, or else the part of the email before
    its first '@'), the profile patch sent to the store and the session
    entries the page writes. */
module Login {
  import opened Wrappers
  import opened Text
  import opened Records
  import CourseStore
  import CourseStoreProps
  import CourseContext

  datatype LoginValues = LoginValues(email: string, password: string, username: Option<string>)

  /** The form's schema, the email rule aside. */
  predicate LoginAccepted(v: LoginValues) {
    |v.password| >= 8
  }

  /** `values.username && values.username.trim()` */
  predicate ProvidedName(v: LoginValues) {
    v.username.Some? && v.username.value != "" && Trim(v.username.value) != ""
  }

  /** `email.split('@')[0]` */
  function EmailName(email: string): (r: string)
    ensures '@' !in r && r <= email
    ensures '@' in email ==> email[|r|] == '@'
    ensures '@' !in email ==> r == email
  {
    if '@' in email then
      var k := IndexOfChar(email, '@');
      assert Split(email, '@')[0] == email[..k];
      Split(email, '@')[0]
    else Split(email, '@')[0]
  }

  /** The name the learner goes by: a non-blank username, trimmed, or else
      the email's text before its first '@'. */
  function DisplayName(v: LoginValues): (r: string)
    ensures ProvidedName(v) ==> r != "" && IsTrimmed(r) && r == Trim(v.username.value)
    ensures !ProvidedName(v) ==> r == EmailName(v.email)
  {
    if ProvidedName(v) then Trim(v.username.value) else EmailName(v.email)
  }

  /** Padding around a typed username is dropped. */
  lemma PaddedUsernameTrimmed(pre: string, name: string, post: string, email: string, password: string)
    requires AllWhitespace(pre) && AllWhitespace(post) && IsTrimmed(name) && name != ""
    ensures DisplayName(LoginValues(email, password, Some(pre + name + post))) == name
  {
    TrimPadded(pre, name, post);
  }

  /** The profile patch both branches send: user "user1", the derived name
      and the email as typed. */
  function LoginPatch(v: LoginValues): ProfilePatch {
    NoProfileChanges.(userId := Some("user1"), username := Some(DisplayName(v)), email := Some(v.email))
  }

  /** Signing in sets the profile's id, name and email and nothing else. */
  lemma LoginSetsProfile(st: CourseStore.StoreState, v: LoginValues)
    ensures var p := CourseStore.UpdateUserProfile(st, LoginPatch(v)).userProfile;
            p == st.userProfile.(userId := "user1", username := DisplayName(v), email := Some(v.email))
  {
  }

  /** Signing in as the profile's own user with a non-empty name keeps every
      certificate and resume entry under the learner's name. */
  lemma LoginKeepsNamesInSync(st: CourseStore.StoreState, v: LoginValues)
    requires CourseStoreProps.NamesInSync(st) && st.userProfile.userId == "user1" && DisplayName(v) != ""
    ensures CourseStoreProps.NamesInSync(CourseStore.UpdateUserProfile(st, LoginPatch(v)))
  {
    CourseStoreProps.UpdateUserProfileKeepsNamesInSync(st, LoginPatch(v));
  }

  /** The page's session entries: the "userType" and "username" keys it
      writes and its loading flag. */
  class LoginPage {
    var userType: Option<string>
    var storedUsername: Option<string>
    var loading: bool

    constructor (userType0: Option<string>, storedUsername0: Option<string>)
      ensures userType == userType0 && storedUsername == storedUsername0 && !loading
    {
      userType := userType0;
      storedUsername := storedUsername0;
      loading := false;
    }

    /** Submitting a valid form signs the learner in: the session records a
        learner and the name sent to the store. */
    method Submit(store: CourseContext.Store, values: LoginValues)
      requires LoginAccepted(values)
      modifies this, store
      ensures userType == Some("user") && !loading
      ensures store.State() == CourseStore.UpdateUserProfile(old(store.State()), LoginPatch(values))
      ensures store.loading == old(store.loading)
      ensures storedUsername == LoginPatch(values).username == Some(store.State().userProfile.username)
    {
      loading := true;
      userType := Some("user");
      // Both branches of the page store the name `DisplayName` picks.
      var name := DisplayName(values);
      storedUsername := Some(name);
      ghost var before := store.State();
      store.UpdateUserProfile(LoginPatch(values));
      LoginSetsProfile(before, values);
      loading := false;
    }
  }
}
