/** The app's session: the mock authentication service, the login and
    logout transitions, and which screen is shown. The service's delays are
    not modelled; each transition is split into the part before the awaited
    call (loading on) and the part after it (loading off). */
module App {
  import opened Wrappers
  import LoginScreen

  const AdminRole: string := "admin"
  const OfficerRole: string := "officer"
  const InvalidCredentials: string := "Invalid credentials"

  /** What the mock service's `login` resolves to. */
  datatype LoginResult = Authenticated(role: string, userId: string) | Rejected(message: string)

  /** The only accepted credentials and the session each opens. */
  const Accounts: map<(string, string), (string, string)> := map[
    ("admin", "admin123") := (AdminRole, "admin-123"),
    ("officer", "officer123") := (OfficerRole, "officer-456")
  ]

  /** The mock service's `login`. */
  function Login(username: string, password: string): (r: LoginResult)
    ensures r.Authenticated? <==> (username, password) in Accounts
    ensures r.Authenticated? ==> (r.role, r.userId) == Accounts[(username, password)]
    ensures r.Rejected? ==> r.message == InvalidCredentials
  {
    if username == "admin" && password == "admin123" then Authenticated(AdminRole, "admin-123")
    else if username == "officer" && password == "officer123" then Authenticated(OfficerRole, "officer-456")
    else Rejected(InvalidCredentials)
  }

  /** The session state: role and user id (null until logged in) and the loading flag. */
  datatype Session = Session(role: Option<string>, userId: Option<string>, isLoading: bool)

  const Initial: Session := Session(None, None, false)

  /** A session is logged in with a known role, or logged out, never half of each. */
  ghost predicate WellFormed(s: Session)
  {
    && (s.role.Some? <==> s.userId.Some?)
    && (s.role.Some? ==> s.role.value in {AdminRole, OfficerRole})
  }

  /** `handleLogin` up to the awaited call: loading on. */
  function BeginLogin(s: Session): (r: Session)
    ensures Render(r) == Spinner
    ensures r.role == s.role && r.userId == s.userId
  {
    s.(isLoading := true)
  }

  /** `handleLogin` after the call resolves: take role and id from a success, then loading off. */
  function FinishLogin(s: Session, result: LoginResult): (r: Session)
    ensures !r.isLoading
    ensures result.Authenticated? ==> r.role == Some(result.role) && r.userId == Some(result.userId)
    ensures result.Rejected? ==> r.role == s.role && r.userId == s.userId
  {
    match result
    case Authenticated(role, userId) => Session(Some(role), Some(userId), false)
    case Rejected(_) => s.(isLoading := false)
  }

  /** The whole of `handleLogin`. */
  function HandleLogin(s: Session, username: string, password: string): (r: Session)
    ensures !r.isLoading
    ensures (username, password) in Accounts ==>
              r.role.Some? && r.userId.Some? && (r.role.value, r.userId.value) == Accounts[(username, password)]
    ensures (username, password) !in Accounts ==> r.role == s.role && r.userId == s.userId
  {
    FinishLogin(BeginLogin(s), Login(username, password))
  }

  /** `handleLogout` up to the awaited call: loading on. */
  function BeginLogout(s: Session): (r: Session)
    ensures Render(r) == Spinner
    ensures r.role == s.role && r.userId == s.userId
  {
    s.(isLoading := true)
  }

  /** `handleLogout` after the call resolves: role and id cleared, loading off. */
  function FinishLogout(s: Session): (r: Session)
    ensures Render(r) == LoginView
    ensures r.role.None? && r.userId.None? && !r.isLoading
  {
    Session(None, None, false)
  }

  function HandleLogout(s: Session): (r: Session)
    ensures r == Initial
  {
    FinishLogout(BeginLogout(s))
  }

  /** Login and logout keep a session well formed. */
  lemma TransitionsKeepWellFormed(s: Session, username: string, password: string)
    requires WellFormed(s)
    ensures WellFormed(BeginLogin(s)) && WellFormed(BeginLogout(s))
    ensures WellFormed(HandleLogin(s, username, password))
    ensures WellFormed(HandleLogout(s))
  {
  }

  /** The screen App renders. */
  datatype View = Spinner | AdminDashboardView(userId: Option<string>) | OfficerDashboardView(userId: Option<string>) | LoginView

  function Render(s: Session): (r: View)
    ensures s.isLoading <==> r == Spinner
    ensures !s.isLoading && s.role == Some(AdminRole) ==> r == AdminDashboardView(s.userId)
    ensures !s.isLoading && s.role == Some(OfficerRole) ==> r == OfficerDashboardView(s.userId)
    ensures !s.isLoading && s.role != Some(AdminRole) && s.role != Some(OfficerRole) ==> r == LoginView
  {
    if s.isLoading then Spinner
    else if s.role == Some(AdminRole) then AdminDashboardView(s.userId)
    else if s.role == Some(OfficerRole) then OfficerDashboardView(s.userId)
    else LoginView
  }

  /** While the call is awaited the spinner is shown, for login and for logout. */
  lemma SpinnerWhileWaiting(s: Session)
    ensures Render(BeginLogin(s)) == Spinner && Render(BeginLogout(s)) == Spinner
  {
  }

  /** Pressing "Login" on the login screen: the form guard, then `handleLogin`
      if it passes. The second component is the login form the user sees next.
      A refused press keeps the screen mounted with the error set. An accepted
      press turns loading on, so App renders the spinner in place of the
      screen; if the login screen comes back, it is a fresh one with its
      initial state. */
  function SubmitLogin(s: Session, f: LoginScreen.LoginForm): (r: (Session, LoginScreen.LoginForm))
    ensures f.username == "" || f.password == "" ==> r.0 == s && r.1 == LoginScreen.HandleLoginPress(f).0
    ensures f.username != "" && f.password != "" ==> r.0 == HandleLogin(s, f.username, f.password)
    ensures f.username != "" && f.password != "" ==> r.1 == LoginScreen.Initial
  {
    var (f', call) := LoginScreen.HandleLoginPress(f);
    match call
    case None => (s, f')
    case Some(c) => (HandleLogin(s, c.username, c.password), LoginScreen.Initial)
  }

  /** Wrong but non-empty credentials bring back the login screen blank and
      without any error: the only report of the failure is a console message. */
  lemma RejectedLoginShowsBlankForm(s: Session, f: LoginScreen.LoginForm)
    requires s.role.None?
    requires f.username != "" && f.password != "" && (f.username, f.password) !in Accounts
    ensures var (s', f') := SubmitLogin(s, f);
            Render(s') == LoginView && f' == LoginScreen.Initial && LoginScreen.ErrorLine(f').None?
  {
  }

  /** From the start, the two accounts reach their dashboards and every other
      non-empty pair returns to the login screen. */
  lemma LoginScenarios(f: LoginScreen.LoginForm)
    ensures Render(SubmitLogin(Initial, LoginScreen.LoginForm("admin", "admin123", "")).0) == AdminDashboardView(Some("admin-123"))
    ensures Render(SubmitLogin(Initial, LoginScreen.LoginForm("officer", "officer123", "")).0) == OfficerDashboardView(Some("officer-456"))
    ensures Render(SubmitLogin(Initial, f).0) == LoginView <==> (f.username, f.password) !in Accounts
  {
  }

  /** Logging out from either dashboard returns to the login screen. */
  lemma LogoutReturnsToLogin(s: Session)
    ensures Render(HandleLogout(s)) == LoginView
  {
  }
}
