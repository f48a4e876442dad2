/** The login gate (`screens/LoginScreen.tsx`): a form validity check, a
    fixed credential pair, and the transitions of the screen's login state
    over a key/value store holding one flag. Whether each storage call
    succeeds is an input; navigation is returned as an effect. */
module Login {
  import opened Options
  import opened Results
  import opened Text

  /** The storage key of the logged-in flag and the value that means "yes". */
  const LoggedInKey: string := "@logged_in"
  const LoggedInValue: string := "true"

  /** The only accepted credentials. */
  const AdminEmail: string := "admin@test.com"
  const AdminPassword: string := "test@456"

  const InvalidCredentialsMessage: string := "Invalid email or password"
  const LoginFailedMessage: string := "Login failed. Try again."
  const CheckFailedMessage: string := "Failed to check login"

  /** The persistent string key/value store. */
  datatype Storage = Storage(items: map<string, string>)

  /** `getItem(key)`: the stored value, or none. */
  function GetItem(st: Storage, key: string): Option<string> {
    if key in st.items then Some(st.items[key]) else None
  }

  /** `setItem(key, value)`. */
  function SetItem(st: Storage, key: string, value: string): (r: Storage)
    ensures GetItem(r, key) == Some(value)
    ensures forall k :: k != key ==> GetItem(r, k) == GetItem(st, k)
  {
    Storage(st.items[key := value])
  }

  /** Where the screen sends the user after a transition. */
  datatype Navigation = Stay | GoToList

  /** The form fields and the published login state (`Result<null>`). */
  datatype LoginScreen = LoginScreen(email: string, password: string, loginState: Result<()>)

  /** One transition: the new screen state, the store after it, and the
      navigation it triggers. */
  datatype Step = Step(screen: LoginScreen, storage: Storage, navigation: Navigation)

  /** The state on mount: empty fields, `loading`. */
  function Mounted(): LoginScreen {
    LoginScreen("", "", Loading)
  }

  /** `isFormValid`: both fields hold something besides whitespace. */
  function IsFormValid(email: string, password: string): (valid: bool)
    ensures valid <==> ((exists i :: 0 <= i < |email| && !IsWhitespace(email[i]))
                        && (exists i :: 0 <= i < |password| && !IsWhitespace(password[i])))
  {
    TrimEmptyIffBlank(email);
    TrimEmptyIffBlank(password);
    |Trim(email)| > 0 && |Trim(password)| > 0
  }

  /** The hardcoded credential check: exact, case-sensitive, untrimmed. An
      accepted pair passes the form check and has no whitespace at either
      end of either field, so no padded input is accepted. */
  predicate CredentialsMatch(email: string, password: string)
    ensures CredentialsMatch(email, password) ==>
      && IsFormValid(email, password)
      && !IsWhitespace(email[0]) && !IsWhitespace(email[|email| - 1])
      && !IsWhitespace(password[0]) && !IsWhitespace(password[|password| - 1])
  {
    if email == AdminEmail && password == AdminPassword then
      assert !IsWhitespace(email[0]) && !IsWhitespace(password[0]);
      true
    else
      false
  }

  /** `checkLoggedIn`, run on mount: a read failure publishes an error; a
      read publishes `success`, and navigates to the list exactly when the
      flag is stored as "true". The form and the store are untouched. */
  function CheckLoggedIn(s: LoginScreen, st: Storage, readSucceeds: bool): (r: Step)
    ensures r.storage == st
    ensures r.screen.email == s.email && r.screen.password == s.password
    ensures !readSucceeds ==> r.screen.loginState == Error(CheckFailedMessage) && r.navigation == Stay
    ensures readSucceeds ==> r.screen.loginState == Success(())
    ensures r.navigation == GoToList <==> readSucceeds && LoggedInKey in st.items && st.items[LoggedInKey] == LoggedInValue
  {
    if !readSucceeds then
      Step(s.(loginState := Error(CheckFailedMessage)), st, Stay)
    else if GetItem(st, LoggedInKey) == Some(LoggedInValue) then
      Step(s.(loginState := Success(())), st, GoToList)
    else
      Step(s.(loginState := Success(())), st, Stay)
  }

  /** The step `handleLogin` takes on a valid form before checking the
      credentials: publish `loading`. */
  function BeginLogin(s: LoginScreen): (r: LoginScreen)
    ensures r.loginState.Loading?
    ensures r.email == s.email && r.password == s.password
  {
    s.(loginState := Loading)
  }

  /** `handleLogin`. An invalid form is ignored. Otherwise, after `loading`:
      wrong credentials publish an error and write nothing; right
      credentials write the flag and navigate to the list, unless the
      write fails, which publishes an error instead. */
  function HandleLogin(s: LoginScreen, st: Storage, writeSucceeds: bool): (r: Step)
    ensures !IsFormValid(s.email, s.password) ==> r == Step(s, st, Stay)
    ensures r.screen.email == s.email && r.screen.password == s.password
    ensures IsFormValid(s.email, s.password) ==> !r.screen.loginState.Loading?
    ensures IsFormValid(s.email, s.password) && !CredentialsMatch(s.email, s.password) ==>
      r.screen.loginState == Error(InvalidCredentialsMessage) && r.storage == st
    ensures CredentialsMatch(s.email, s.password) && !writeSucceeds ==>
      r.screen.loginState == Error(LoginFailedMessage) && r.storage == st
    ensures CredentialsMatch(s.email, s.password) && writeSucceeds ==>
      r.screen.loginState == Success(()) && r.storage == SetItem(st, LoggedInKey, LoggedInValue)
    ensures r.navigation == GoToList <==> CredentialsMatch(s.email, s.password) && writeSucceeds
    ensures r.storage != st ==> GetItem(r.storage, LoggedInKey) == Some(LoggedInValue)
  {
    if !IsFormValid(s.email, s.password) then
      Step(s, st, Stay)
    else
      var pending := BeginLogin(s);
      if !CredentialsMatch(s.email, s.password) then
        Step(pending.(loginState := Error(InvalidCredentialsMessage)), st, Stay)
      else if !writeSucceeds then
        Step(pending.(loginState := Error(LoginFailedMessage)), st, Stay)
      else
        Step(pending.(loginState := Success(())), SetItem(st, LoggedInKey, LoggedInValue), GoToList)
  }

  /** A correct email padded with a space passes the form check but is
      rejected: the credentials are compared untrimmed. */
  lemma PaddedEmailRejected(st: Storage, writeSucceeds: bool)
    ensures var s := LoginScreen(" " + AdminEmail, AdminPassword, Success(()));
            IsFormValid(s.email, s.password)
            && HandleLogin(s, st, writeSucceeds).screen.loginState == Error(InvalidCredentialsMessage)
  {
    var s := LoginScreen(" " + AdminEmail, AdminPassword, Success(()));
    assert !IsWhitespace(s.email[1]);
    assert !IsWhitespace(s.password[0]);
    assert s.email != AdminEmail by { assert |s.email| != |AdminEmail|; }
  }

  /** The screen mounts in `loading` with an empty, invalid form, so
      submitting it as it is does nothing. */
  lemma SubmitOnMountIsIgnored(st: Storage, writeSucceeds: bool)
    ensures Mounted().loginState == Loading
    ensures !IsFormValid(Mounted().email, Mounted().password)
    ensures HandleLogin(Mounted(), st, writeSucceeds) == Step(Mounted(), st, Stay)
  {
  }

  /** A successful login is remembered: the next mount's check reads the
      flag and goes straight to the list, whatever the form holds then. */
  lemma LoginThenRestart(s: LoginScreen, st: Storage, later: LoginScreen)
    requires CredentialsMatch(s.email, s.password)
    ensures var after := HandleLogin(s, st, true);
            var check := CheckLoggedIn(later, after.storage, true);
            check.navigation == GoToList && check.screen.loginState == Success(())
  {
  }

  /** A store that never saw a login keeps the user on the login form. */
  lemma FreshStoreStaysOnLogin(readSucceeds: bool)
    ensures CheckLoggedIn(Mounted(), Storage(map[]), readSucceeds).navigation == Stay
  {
  }
}
