/** The guard wrapped around every page but the login and sign-up pages. */
module ProtectedRoute {
  import opened Util
  import opened Session

  datatype Outcome = Spinner | Redirect(to: string) | Render

  /** The guard's decision: wait while the session loads, send a visitor
      to the login page, send a user whose role the page does not admit to
      the dashboard, and otherwise show the page. A list of roles is present
      even when it is empty. */
  function Guard(isLoading: bool, user: Option<SessionUser>, allowedRoles: Option<seq<string>>): (o: Outcome)
    ensures isLoading ==> o == Spinner
    ensures !isLoading && user.None? ==> o == Redirect("/login")
    ensures !isLoading && user.Some? ==>
      (o == Render <==> allowedRoles.None? || user.value.role in allowedRoles.value)
    ensures !isLoading && user.Some? && o != Render ==> o == Redirect("/")
  {
    if isLoading then Spinner
    else if user.None? then Redirect("/login")
    else if allowedRoles.Some? && user.value.role !in allowedRoles.value then Redirect("/")
    else Render
  }

  /** An empty list of roles admits nobody. */
  lemma EmptyRolesAdmitNobody(user: SessionUser)
    ensures Guard(false, Some(user), Some([])) == Redirect("/")
  {
  }

  /** The roles each page of the application admits: the client master and
      task creation pages are for administrators, the others for any
      signed-in user. */
  function PageRoles(href: string): (r: Option<seq<string>>)
    ensures r.Some? <==> href == "/clients" || href == "/tasks"
    ensures r.Some? ==> r.value == ["admin"]
  {
    if href == "/clients" || href == "/tasks" then Some(["admin"]) else None
  }
}
