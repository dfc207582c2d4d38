/**
 The sign-in page (`pages/Login.tsx`): the form, the submit rules and their three outcomes, the
 post-login target taken from the gate's redirect state, the error clearing, the test-account list,
 and the redirect of a user who is already signed in.
 */
module LoginPage {
  import opened Wrappers
  import opened Text
  import opened Session
  import opened Responses
  import Routing
  import Sidebar

  datatype Form = Form(email: string, password: string)

  /** The page's state; an empty `error` is no error, as on the page. */
  datatype View = View(form: Form, error: string, isSubmitting: bool, showPassword: bool)

  const Initial := View(Form("", ""), "", false, false)

  const Incomplete := "請輸入完整的登入資訊"
  const WrongCredentials := "帳號或密碼錯誤，請檢查後重試"
  const LoginThrew := "登入過程中發生錯誤，請稍後再試"
  const DefaultTarget := "/dashboard"

  /** `from`: the path the gate's redirect remembered, unless there is none (or it is empty), in which
      case the dashboard. */
  function Target(state: Option<Routing.RedirectState>): (to: string)
    ensures state.Some? && state.value.from != "" ==> to == state.value.from
    ensures state.None? || state.value.from == "" ==> to == DefaultTarget
  {
    if state.Some? then OrElse(state.value.from, DefaultTarget) else DefaultTarget
  }

  /** The effect run on every render: a signed-in user is sent to the dashboard. */
  function SignedInRedirect(user: Option<User>): (r: Option<Routing.Redirect>)
    ensures r.Some? <==> IsAuthenticated(user)
    ensures r.Some? ==> r.value.to == DefaultTarget && !r.value.replace
  {
    if IsAuthenticated(user) then Some(Routing.Redirect(DefaultTarget, false, None)) else None
  }

  datatype Field = Email | Password

  /** Typing into a field: that field changes and any error is cleared. */
  function ChangeInput(v: View, field: Field, value: string): (w: View)
    ensures w.error == ""
    ensures field == Email ==> w.form == v.form.(email := value)
    ensures field == Password ==> w.form == v.form.(password := value)
    ensures w.isSubmitting == v.isSubmitting && w.showPassword == v.showPassword
  {
    match field
    case Email => v.(form := v.form.(email := value), error := "")
    case Password => v.(form := v.form.(password := value), error := "")
  }

  /** Filling in a test account: both fields are replaced and any error is cleared. */
  function FillTestAccount(v: View, email: string, password: string): (w: View)
    ensures w.form == Form(email, password) && w.error == ""
    ensures w.isSubmitting == v.isSubmitting && w.showPassword == v.showPassword
  {
    v.(form := Form(email, password), error := "")
  }

  /** The eye button flips the password's visibility and nothing else. */
  function TogglePassword(v: View): (w: View)
    ensures w.showPassword != v.showPassword
    ensures w.(showPassword := v.showPassword) == v
  {
    v.(showPassword := !v.showPassword)
  }

  /** Two clicks on the eye button restore the page. */
  lemma TogglePasswordTwice(v: View)
    ensures TogglePassword(TogglePassword(v)) == v
  {
  }

  /** What a submit leaves behind: the page, the session, the navigation it made, and whether it
      called `login` at all. */
  datatype Outcome = Outcome(view: View, session: AuthState, navigate: Option<Routing.Redirect>, loginCalled: bool)

  /** Both fields hold something other than whitespace. */
  predicate Complete(f: Form) {
    !IsBlank(f.email) && !IsBlank(f.password)
  }

  /**
   `handleSubmit`. An incomplete form only sets the error. Otherwise `login` runs on the untrimmed
   fields: acceptance navigates to the target, replacing the entry; rejection sets the
   wrong-credentials error. `storageFails` is the one way `login` can throw here, writing the
   storage entry after the user is set; the page then shows the generic error and stays. Every call
   of `login` ends with the submit flag down.
   */
  function Submit(v: View, st: AuthState, state: Option<Routing.RedirectState>, storageFails: bool): (o: Outcome)
    ensures !Complete(v.form) ==> o == Outcome(v.(error := Incomplete), st, None, false)
    ensures Complete(v.form) ==> o.loginCalled && !o.view.isSubmitting && o.view.form == v.form
    ensures Complete(v.form) && !Login(st, v.form.email, v.form.password).0 ==>
      o.view.error == WrongCredentials && o.session == st && o.navigate.None?
    ensures Complete(v.form) && Login(st, v.form.email, v.form.password).0 && !storageFails ==>
      && o.view.error == "" && o.session == Login(st, v.form.email, v.form.password).1
      && o.navigate == Some(Routing.Redirect(Target(state), true, None))
    ensures Complete(v.form) && Login(st, v.form.email, v.form.password).0 && storageFails ==>
      && o.view.error == LoginThrew && o.navigate.None?
      && o.session == AuthState(Login(st, v.form.email, v.form.password).1.user, st.stored)
  {
    if !Complete(v.form) then Outcome(v.(error := Incomplete), st, None, false)
    else
      var done := v.(isSubmitting := false, error := "");
      var (ok, signedIn) := Login(st, v.form.email, v.form.password);
      if !ok then Outcome(done.(error := WrongCredentials), st, None, true)
      else if storageFails then Outcome(done.(error := LoginThrew), signedIn.(stored := st.stored), None, true)
      else Outcome(done, signedIn, Some(Routing.Redirect(Target(state), true, None)), true)
  }

  /** A submit signs a user in only when it navigates away, and it navigates only with a signed-in user
      whose email is the form's. */
  lemma NavigationMeansSignedIn(v: View, st: AuthState, state: Option<Routing.RedirectState>, storageFails: bool)
    ensures var o := Submit(v, st, state, storageFails);
      o.navigate.Some? ==> o.session.user.Some? && o.session.user.value.email == v.form.email
    ensures var o := Submit(v, st, state, storageFails);
      o.session.user != st.user ==> Login(st, v.form.email, v.form.password).0
  {
  }

  /** One entry of the test-account list: email, password and role caption. */
  datatype TestAccount = TestAccount(email: string, password: string, caption: string)

  const TestAccounts: seq<TestAccount> := [
    TestAccount("admin@example.com", "admin123", "管理員"),
    TestAccount("accountant@example.com", "acc123", "會計師"),
    TestAccount("uploader@example.com", "upload123", "上傳者")
  ]

  /** Filling in the account and submitting navigates to the target, signed in as a user whose role
      the menu captions as the account does. */
  predicate SignsIn(v: View, st: AuthState, state: Option<Routing.RedirectState>, a: TestAccount) {
    var o := Submit(FillTestAccount(v, a.email, a.password), st, state, false);
    && o.navigate == Some(Routing.Redirect(Target(state), true, None))
    && o.session.user.Some? && Sidebar.RoleCaption(o.session.user.value.role) == a.caption
  }

  /** Filling in any listed test account and submitting signs in, as a user whose role the menu
      captions the way the list does, and goes to the target. */
  lemma TestAccountsSignIn(v: View, st: AuthState, state: Option<Routing.RedirectState>, i: nat)
    requires i < |TestAccounts|
    ensures SignsIn(v, st, state, TestAccounts[i])
  {
    var role := AccountRoles[i];
    AccountFilled(i);
    AccountLogsIn(st, i);
    AccountCaption(i);
    AccountSignsIn(v, st, state, TestAccounts[i], role);
  }

  /** The role each listed account signs in with. */
  const AccountRoles: seq<Role> := [Admin, Accountant, Uploader]

  /** Both fields of a listed account hold something other than whitespace. */
  lemma AccountFilled(i: nat)
    requires i < |TestAccounts|
    ensures !IsBlank(TestAccounts[i].email) && !IsBlank(TestAccounts[i].password)
  {
    NotBlank(TestAccounts[i].email);
    NotBlank(TestAccounts[i].password);
  }

  /** A listed account logs in, with the role it is listed for. */
  lemma AccountLogsIn(st: AuthState, i: nat)
    requires i < |TestAccounts|
    ensures Login(st, TestAccounts[i].email, TestAccounts[i].password).0
    ensures Login(st, TestAccounts[i].email, TestAccounts[i].password).1.user.value.role == AccountRoles[i]
  {
    var a := TestAccounts[i];
    if i == 0 {
      assert a == TestAccount("admin@example.com", "admin123", "管理員");
    } else if i == 1 {
      assert a == TestAccount("accountant@example.com", "acc123", "會計師");
    } else {
      assert a == TestAccount("uploader@example.com", "upload123", "上傳者");
    }
    TestAccountsLogIn(st);
  }

  /** The list's caption of each account is the menu's caption of its role. */
  lemma AccountCaption(i: nat)
    requires i < |TestAccounts|
    ensures Sidebar.RoleCaption(AccountRoles[i]) == TestAccounts[i].caption
  {
  }

  /** One account of the list signs in as a user of the given role. */
  lemma AccountSignsIn(v: View, st: AuthState, state: Option<Routing.RedirectState>, a: TestAccount, role: Role)
    requires !IsBlank(a.email) && !IsBlank(a.password)
    requires Login(st, a.email, a.password).0 && Login(st, a.email, a.password).1.user.value.role == role
    requires Sidebar.RoleCaption(role) == a.caption
    ensures SignsIn(v, st, state, a)
  {
    SignInOutcome(v, st, state, a.email, a.password);
  }

  /** A string starting with a visible character is not blank. */
  lemma NotBlank(s: string)
    requires |s| > 0 && !IsWhitespace(s[0])
    ensures !IsBlank(s)
  {
  }

  /** Submitting accepted credentials after filling them in navigates to the target with the new
      session. */
  lemma SignInOutcome(v: View, st: AuthState, state: Option<Routing.RedirectState>, email: string, password: string)
    requires !IsBlank(email) && !IsBlank(password) && Login(st, email, password).0
    ensures var o := Submit(FillTestAccount(v, email, password), st, state, false);
      o.navigate == Some(Routing.Redirect(Target(state), true, None)) && o.session == Login(st, email, password).1
  {
  }

  /** The round trip through the gate: signed out, a guarded path sends the visitor to the sign-in
      page remembering it; signing in there with a test account comes back to that path, which then
      shows exactly when the account's role may see it. */
  lemma ReturnAfterSignIn(path: string, i: nat, v: View, st: AuthState)
    requires Routing.IsKnownPath(path) && !Routing.IsPublicPath(path) && path != ""
    requires i < |TestAccounts|
    ensures var r := Routing.VisitPath(None, path);
      && r == Routing.Redirected(Routing.Redirect(Routing.LoginPath, true, Some(Routing.RedirectState(path, None))))
      && var a := TestAccounts[i];
         var o := Submit(FillTestAccount(v, a.email, a.password), st, r.redirect.state, false);
         && o.navigate == Some(Routing.Redirect(path, true, None))
         && (Routing.VisitPath(o.session.user, path).Shows? <==> Routing.MayVisit(o.session.user.value.role, path))
  {
    Routing.SignedOutAccess(path);
    var r := Routing.VisitPath(None, path);
    var a := TestAccounts[i];
    TestAccountsSignIn(v, st, r.redirect.state, i);
    var o := Submit(FillTestAccount(v, a.email, a.password), st, r.redirect.state, false);
    Routing.SignedInAccess(o.session.user.value, path);
  }
}
