/**
 * The client's role-guarded route: render the page for an allowed role,
 * otherwise send the visitor to the login page or to their own dashboard.
 */
module RoleRoute {
  import opened Wrappers
  import opened AuthReducer
  import AuthMiddleware

  datatype Decision = Render | Redirect(path: string)

  const LoginPath: string := "/login"
  const HomePath: string := "/"

  /** The dashboard each known role is sent to, and the home page for any other role. */
  function DashboardFor(role: string): string
  {
    if role == "admin" then "/admin/dashboard"
    else if role == "facility_owner" then "/owner/dashboard"
    else if role == "user" then "/dashboard"
    else HomePath
  }

  function Decide(user: Option<Profile>, allowedRoles: seq<string>): (d: Decision)
    ensures user.None? ==> d == Redirect(LoginPath)
    ensures d == Render <==> user.Some? && user.value.role in allowedRoles
    ensures user.Some? && user.value.role !in allowedRoles ==> d == Redirect(DashboardFor(user.value.role))
  {
    if user.None? then Redirect(LoginPath)
    else if user.value.role !in allowedRoles then Redirect(DashboardFor(user.value.role))
    else Render
  }

  /** The client guard renders exactly when the server's `authorize` with the same roles lets the request through. */
  lemma GuardAgreesWithServer(user: Option<Profile>, allowedRoles: seq<string>)
    ensures Decide(user, allowedRoles) == Render <==>
      AuthMiddleware.Authorize(if user.Some? then Some(AuthMiddleware.Caller(user.value.id, user.value.role)) else None,
                               allowedRoles) == AuthMiddleware.Next
  {
  }

  /** A refused user is never sent to the login page, and a signed-out visitor always is. */
  lemma LoginOnlyForSignedOut(user: Option<Profile>, allowedRoles: seq<string>)
    ensures Decide(user, allowedRoles) == Redirect(LoginPath) <==> user.None?
  {
  }
}
