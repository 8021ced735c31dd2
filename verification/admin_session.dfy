/** The `Admin` page: a fixed credential check, a stored session expiring
    24 hours after login, the validity check on mount, and logout. The
    browser's storage is the `stored` field; the clock is a parameter in
    milliseconds. */
module AdminSession {
  import opened Common

  const AdminUsername: string := "admin"
  const AdminPassword: string := "1234"
  const SessionLifetimeMs: int := 24 * 60 * 60 * 1000

  /** The stored `adminSession` object. */
  datatype Session = Session(authenticated: bool, expires: int)

  /** `isAuthenticated` and the stored session. */
  datatype AdminPage = AdminPage(isAuthenticated: bool, stored: Option<Session>)

  datatype View = LoginView | DashboardView

  /** The mount-time check: a stored session grants access only while its
      expiry is strictly in the future; an expired one is removed. */
  function Open(stored: Option<Session>, now: int): (p: AdminPage)
    ensures p.isAuthenticated <==> stored.Some? && stored.value.expires > now
    ensures p.isAuthenticated ==> p.stored == stored
    ensures !p.isAuthenticated ==> p.stored == None
  {
    match stored
    case None => AdminPage(false, None)
    case Some(s) => if s.expires > now then AdminPage(true, stored) else AdminPage(false, None)
  }

  /** `handleLogin`: succeeds exactly for admin/1234, then stores a session
      expiring one day after `now`; a failure changes nothing. */
  function Login(p: AdminPage, username: string, password: string, now: int): (r: (bool, AdminPage))
    ensures r.0 <==> username == AdminUsername && password == AdminPassword
    ensures r.0 ==> r.1.isAuthenticated && r.1.stored == Some(Session(true, now + 86_400_000))
    ensures !r.0 ==> r.1 == p
  {
    if username == AdminUsername && password == AdminPassword then
      (true, AdminPage(true, Some(Session(true, now + SessionLifetimeMs))))
    else
      (false, p)
  }

  /** `handleLogout`: whatever the page held, the flag is cleared and the
      stored session removed. */
  function Logout(p: AdminPage): (r: AdminPage)
    ensures !r.isAuthenticated && r.stored.None?
  {
    AdminPage(false, None)
  }

  /** The dashboard is shown exactly when authenticated. */
  function ViewOf(p: AdminPage): (v: View)
    ensures v == DashboardView <==> p.isAuthenticated
  {
    if p.isAuthenticated then DashboardView else LoginView
  }

  /** A successful login is honoured by later visits for exactly one day:
      a visit at `later` opens the dashboard iff `later < now + 24h`. */
  lemma SessionLastsOneDay(p: AdminPage, now: int, later: int)
    ensures var r := Login(p, AdminUsername, AdminPassword, now);
      ViewOf(Open(r.1.stored, later)) == DashboardView <==> later < now + SessionLifetimeMs
  {
  }

  /** Logout clears the flag and the stored session, so neither the current
      page nor any later visit shows the dashboard. */
  lemma LogoutEndsAccess(p: AdminPage, later: int)
    ensures ViewOf(Logout(p)) == LoginView
    ensures Logout(p).stored.None?
    ensures ViewOf(Open(Logout(p).stored, later)) == LoginView
  {
  }
}
