/** The web client's route table and its guard: which pages need a session,
    which roles each dashboard admits, and where a refused visitor is sent. */
module AppRoutes {
  import opened Common
  import opened Tables
  import opened ClientTypes

  /** What the auth context offers the guard. */
  datatype Session = Session(isAuthenticated: bool, token: Option<string>, user: Option<SessionUser>)

  /** What a route renders: its page, or a redirect. */
  datatype Outcome = Render | RedirectTo(path: string)

  const LoginPath := "/login"
  const HomePath := "/"

  /** `ProtectedRoute`: without a session flag and without a token, to the
      login page; then, when the route lists roles and a user is known whose
      role is not listed, to the home page; otherwise the page. */
  function ProtectedRoute(s: Session, allowedRoles: Option<seq<Role>>): (o: Outcome)
    ensures o == RedirectTo(LoginPath) <==> !s.isAuthenticated && !Truthy(s.token)
    ensures o == RedirectTo(HomePath) <==>
      (s.isAuthenticated || Truthy(s.token)) &&
      allowedRoles.Some? && s.user.Some? && s.user.value.role !in allowedRoles.value
    ensures o == Render <==>
      (s.isAuthenticated || Truthy(s.token)) &&
      (allowedRoles.None? || s.user.None? || s.user.value.role in allowedRoles.value)
  {
    if !s.isAuthenticated && !Truthy(s.token) then RedirectTo(LoginPath)
    else if allowedRoles.Some? && s.user.Some? && s.user.value.role !in allowedRoles.value then RedirectTo(HomePath)
    else Render
  }

  /** The pages behind `ProtectedRoute`. */
  predicate IsProtected(path: string) {
    path in {"/doctor", "/hospital", "/admin", "/profile", "/documents", "/chat"}
  }

  /** The role list each protected page passes; the profile, documents and
      chat pages pass none. */
  function AllowedRoles(path: string): (roles: Option<seq<Role>>)
    ensures roles.Some? ==> IsProtected(path)
  {
    if path == "/doctor" then Some([Doctor])
    else if path == "/hospital" then Some([Hospital])
    else if path == "/admin" then Some([Admin])
    else None
  }

  /** Visiting a path: a protected page goes through the guard with its role
      list, any other page renders. */
  function Visit(path: string, s: Session): (o: Outcome)
    ensures !IsProtected(path) ==> o == Render
    ensures IsProtected(path) ==> o == ProtectedRoute(s, AllowedRoles(path))
  {
    if IsProtected(path) then ProtectedRoute(s, AllowedRoles(path)) else Render
  }

  /** The dashboard a role has, if any. */
  function DashboardOf(role: Role): string {
    match role
    case Doctor => "/doctor"
    case Hospital => "/hospital"
    case Admin => "/admin"
    case Nurse => "/profile"
  }

  /** Each dashboard admits exactly its own role once a user is known; the
      login check comes first. */
  lemma DashboardAdmitsOnlyItsRole(path: string, s: Session, role: Role)
    requires path in {"/doctor", "/hospital", "/admin"} && path == DashboardOf(role)
    requires s.isAuthenticated && s.user.Some?
    ensures Visit(path, s) == Render <==> s.user.value.role == role
    ensures s.user.value.role != role ==> Visit(path, s) == RedirectTo(HomePath)
  {
    assert AllowedRoles(path) == Some([role]);
  }

  /** A token alone passes every guard while the user object is still
      unknown: the role check needs a user to refuse. */
  lemma TokenWithoutUserRendersEverything(path: string, s: Session)
    requires Truthy(s.token) && s.user.None?
    ensures Visit(path, s) == Render
  {
  }

  /** With neither a session flag nor a token every protected page sends to
      the login page, whatever user object is held. */
  lemma SignedOutGoesToLogin(path: string, s: Session)
    requires IsProtected(path) && !s.isAuthenticated && !Truthy(s.token)
    ensures Visit(path, s) == RedirectTo(LoginPath)
  {
  }

  /** The pages without a role list render for every signed-in user. */
  lemma SharedPagesAdmitEveryRole(path: string, s: Session)
    requires path in {"/profile", "/documents", "/chat"}
    requires s.isAuthenticated || Truthy(s.token)
    ensures Visit(path, s) == Render
  {
    assert AllowedRoles(path) == None;
  }
}
