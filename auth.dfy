/** Session rules (js/auth.js): input validation, sign-up with an
    insert-if-absent profile row, sign-in with display-name resolution and a
    best-effort profile repair, and sign-out. */
module Auth {
  import opened Wrappers
  import opened Entities
  import opened Text
  import opened Browser
  import opened AppState
  import Progress
  import Enrollments
  import LocalCache

  /** How a sign-up or sign-in attempt ends, as the alert shown to the user. */
  datatype AuthOutcome =
    | FillAllFields
    | PasswordTooShort
    | SignUpError(message: string)
    | ProfileError(message: string)
    | WrongCredentials
    | Welcome(user: User)

  const MinPasswordLength: nat := 6

  /** The sign-up form check: empty fields first, then the password length;
      `None` lets the form through. */
  function CheckSignUp(name: string, email: string, password: string): (r: Option<AuthOutcome>)
    ensures r == Some(FillAllFields) <==> name == "" || email == "" || password == ""
    ensures r == Some(PasswordTooShort) <==>
      name != "" && email != "" && password != "" && |password| < MinPasswordLength
    ensures r.None? <==> name != "" && email != "" && |password| >= MinPasswordLength
  {
    if name == "" || email == "" || password == "" then Some(FillAllFields)
    else if |password| < MinPasswordLength then Some(PasswordTooShort)
    else None
  }

  /** The sign-in form check: both fields must be filled. */
  function CheckSignIn(email: string, password: string): (r: Option<AuthOutcome>)
    ensures r.None? <==> email != "" && password != ""
    ensures r.Some? ==> r.value == FillAllFields
  {
    if email == "" || password == "" then Some(FillAllFields) else None
  }

  /** The identity record the backend returns on sign-up or sign-in. */
  datatype AuthUser = AuthUser(id: string, email: string, metadataName: Option<string>)

  /** The result of the profile select with `.single()`: the row, the
      "no rows" error (code PGRST116), or another error. */
  datatype ProfileLookup = ProfileFound(profile: ProfileRow) | ProfileMissing | LookupFailed(message: string)

  /** The name used when there is no profile row: the metadata name when it
      is present and non-empty, else the e-mail text before the first '@'. */
  function FallbackName(auth: AuthUser): (name: string)
    ensures auth.metadataName.Some? && auth.metadataName.value != "" ==> name == auth.metadataName.value
    ensures auth.metadataName.None? || auth.metadataName.value == "" ==>
      name <= auth.email && '@' !in name && (|name| < |auth.email| ==> auth.email[|name|] == '@')
  {
    if auth.metadataName.Some? && auth.metadataName.value != "" then auth.metadataName.value
    else LocalPart(auth.email)
  }

  /** Display-name resolution: the profile name, else the fallback name. */
  function DisplayName(lookup: ProfileLookup, auth: AuthUser): (name: string)
    ensures lookup.ProfileFound? ==> name == lookup.profile.name
    ensures !lookup.ProfileFound? ==> name == FallbackName(auth)
  {
    if lookup.ProfileFound? then lookup.profile.name else FallbackName(auth)
  }

  /** A missing profile for "ada@x.com" without a metadata name is repaired
      with the name "ada". */
  lemma EmailLocalPartExample(id: string)
    ensures FallbackName(AuthUser(id, "ada@x.com", None)) == "ada"
  {
    var email := "ada@x.com";
    assert email[0] == 'a' && email[1] == 'd' && email[2] == 'a' && email[3] == '@';
    assert email[1..][1..][1..][0] == '@';
    assert LocalPart(email[1..][1..][1..]) == [];
    assert LocalPart(email[1..][1..]) == ['a'];
    assert LocalPart(email[1..]) == ['d', 'a'];
  }

  /** The existing-profile check of sign-up: a row came back. An error reply
      leaves `existingUser` null, so it counts as absent. */
  predicate ProfileExists(reply: Reply<Option<ProfileRow>>) {
    reply.Ok? && reply.value.Some?
  }

  /** `signUpUser()` with the form's name, e-mail and password. `signUpReply`
      answers the identity sign-up with the issued id, `existingReply` the
      profile check, `insertReply` the profile insert and `progressReply` the
      progress load. */
  method SignUpUser(app: App, name: string, email: string, password: string,
                    signUpReply: Reply<string>, existingReply: Reply<Option<ProfileRow>>,
                    insertReply: Reply<()>, progressReply: Reply<seq<EnrollmentRow>>)
    returns (outcome: AuthOutcome, signUpCalled: bool, profileInsert: Option<ProfileRow>)
    modifies app, app.storage
    // validation happens before any backend call
    ensures signUpCalled <==> CheckSignUp(name, email, password).None?
    ensures !signUpCalled ==> outcome == CheckSignUp(name, email, password).value
    ensures signUpCalled && signUpReply.Failed? ==> outcome == SignUpError(signUpReply.message)
    // the profile row is inserted only when none exists
    ensures profileInsert.Some? <==> (signUpCalled && signUpReply.Ok? && !ProfileExists(existingReply))
    ensures profileInsert.Some? ==> profileInsert.value == ProfileRow(signUpReply.value, email, name)
    ensures profileInsert.Some? && insertReply.Failed? ==> outcome == ProfileError(insertReply.message)
    // every failure leaves no user set and nothing cached
    ensures !outcome.Welcome? ==>
      app.View() == old(app.View()) && app.storage.entries == old(app.storage.entries)
    ensures signUpCalled && signUpReply.Ok? && (ProfileExists(existingReply) || insertReply.Ok?) ==>
      var u := User(signUpReply.value, name, email, []);
      && outcome == Welcome(u)
      && app.View() == old(app.View()).(loggedInUser := Some(u),
           userProgress := Progress.ProgressAfterLoad(Some(u), old(app.userProgress), progressReply))
      && app.storage.entries == LocalCache.Saved(old(app.storage.entries), LocalCache.SnapshotOf(app.View()))
  {
    signUpCalled, profileInsert := false, None;
    if name == "" || email == "" || password == "" {
      return FillAllFields, signUpCalled, profileInsert;
    }
    if |password| < MinPasswordLength {
      return PasswordTooShort, signUpCalled, profileInsert;
    }
    signUpCalled := true;
    if signUpReply.Failed? {
      return SignUpError(signUpReply.message), signUpCalled, profileInsert;
    }
    var id := signUpReply.value;
    var existingUser := if existingReply.Ok? then existingReply.value else None;
    if existingUser.None? {
      profileInsert := Some(ProfileRow(id, email, name));
      if insertReply.Failed? {
        return ProfileError(insertReply.message), signUpCalled, profileInsert;
      }
    }
    var user := User(id, name, email, []);
    app.loggedInUser := Some(user);
    Progress.LoadUserProgress(app, progressReply);
    LocalCache.SaveToLocalStorage(app);
    outcome := Welcome(user);
  }

  /** `signInUser()` with the form's e-mail and password. `signInReply` answers
      the password sign-in, `lookup` the profile select, `insertReply` the
      repair insert (whose failure is only logged), `enrollReply` and
      `progressReply` the two loads that follow. */
  method SignInUser(app: App, email: string, password: string,
                    signInReply: Reply<AuthUser>, lookup: ProfileLookup, insertReply: Reply<()>,
                    enrollReply: Reply<seq<CourseId>>, progressReply: Reply<seq<EnrollmentRow>>)
    returns (outcome: AuthOutcome, profileInsert: Option<ProfileRow>)
    modifies app, app.storage
    ensures CheckSignIn(email, password).Some? ==> outcome == FillAllFields
    ensures CheckSignIn(email, password).None? && signInReply.Failed? ==> outcome == WrongCredentials
    ensures !outcome.Welcome? ==>
      app.View() == old(app.View()) && app.storage.entries == old(app.storage.entries)
      && profileInsert.None?
    // the profile is repaired exactly when the lookup found no row
    ensures profileInsert.Some? <==>
      (CheckSignIn(email, password).None? && signInReply.Ok? && lookup.ProfileMissing?)
    ensures profileInsert.Some? ==>
      (profileInsert.value ==
       ProfileRow(signInReply.value.id, signInReply.value.email, FallbackName(signInReply.value)))
    // success does not depend on the repair insert
    ensures CheckSignIn(email, password).None? && signInReply.Ok? ==>
      var auth := signInReply.value;
      var u := Enrollments.UserAfterEnrollmentLoad(
        Some(User(auth.id, DisplayName(lookup, auth), auth.email, [])), enrollReply);
      && outcome == Welcome(u.value)
      && app.View() == old(app.View()).(loggedInUser := u,
           userProgress := Progress.ProgressAfterLoad(u, old(app.userProgress), progressReply))
      && app.storage.entries == LocalCache.Saved(old(app.storage.entries), LocalCache.SnapshotOf(app.View()))
  {
    profileInsert := None;
    if email == "" || password == "" {
      return FillAllFields, profileInsert;
    }
    if signInReply.Failed? {
      return WrongCredentials, profileInsert;
    }
    var auth := signInReply.value;
    if lookup.ProfileMissing? {
      profileInsert := Some(ProfileRow(auth.id, auth.email, FallbackName(auth)));
      // an insert error is only logged
    }
    var name := if lookup.ProfileFound? then lookup.profile.name else FallbackName(auth);
    app.loggedInUser := Some(User(auth.id, name, auth.email, []));
    Enrollments.LoadUserEnrollments(app, enrollReply);
    Progress.LoadUserProgress(app, progressReply);
    LocalCache.SaveToLocalStorage(app);
    outcome := Welcome(app.loggedInUser.value);
  }

  /** `logOutUser()`: the session user is cleared in memory and in storage. */
  method LogOutUser(app: App)
    modifies app, app.storage
    ensures app.View() == old(app.View()).(loggedInUser := None)
    ensures app.storage.entries == old(app.storage.entries) - {LoggedInUserKey}
    ensures StoredUser(app.storage.entries).None?
  {
    app.loggedInUser := None;
    app.storage.RemoveItem(LoggedInUserKey);
  }
}
