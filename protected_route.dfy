/** The route guard (`ProtectedRoute`): what a protected route renders
    for the authentication state. */
module ProtectedRoute {
  import opened Common
  import opened DatabaseContext
  import opened AuthContext

  datatype Outcome = Spinner | RedirectToLogin | RenderChildren

  /** The guard: loading first, then a missing user, then the role test
      when roles are given. */
  function Guard(loading: bool, user: Option<PublicUser>, allowedRoles: seq<string>): Outcome
  {
    if loading then Spinner
    else if user.None? then RedirectToLogin
    else if |allowedRoles| > 0 && !HasRoleOf(user, allowedRoles) then RedirectToLogin
    else RenderChildren
  }

  /** The children render iff loading is over, a user is signed in, and
      either no roles are required or the user's role is among them;
      while loading the spinner shows whatever the user; otherwise the
      route sends to the login page. */
  lemma GuardCases(loading: bool, user: Option<PublicUser>, allowedRoles: seq<string>)
    ensures loading ==> Guard(loading, user, allowedRoles) == Spinner
    ensures Guard(loading, user, allowedRoles) == RenderChildren <==>
      !loading && user.Some? && (|allowedRoles| == 0 || user.value.role in allowedRoles)
    ensures Guard(loading, user, allowedRoles) == RedirectToLogin <==>
      !loading && (user.None? || (|allowedRoles| > 0 && user.value.role !in allowedRoles))
  {
  }

  /** Without required roles any signed-in user gets the children. */
  lemma NoRolesAdmitsAnyUser(user: PublicUser)
    ensures Guard(false, Some(user), []) == RenderChildren
  {
  }
}
