/** The navigation sidebar: which links a user sees, which one is
    highlighted, and the user card at the bottom. */
module Sidebar {
  import opened Util
  import opened Text
  import opened Session
  import ProtectedRoute

  datatype NavItem = NavItem(name: string, href: string, roles: seq<string>)

  const Navigation: seq<NavItem> := [
    NavItem("Dashboard", "/", Roles),
    NavItem("Client Master", "/clients", ["admin"]),
    NavItem("Task Creation", "/tasks", ["admin"]),
    NavItem("Settings", "/settings", Roles),
    NavItem("Documentation", "/about", Roles)
  ]

  /** A link is hidden only when someone is signed in and the link's roles
      leave that user's role out. */
  predicate Visible(item: NavItem, user: Option<SessionUser>) {
    !(user.Some? && user.value.role !in item.roles)
  }

  function VisibleItems(user: Option<SessionUser>): (r: seq<NavItem>)
    ensures forall item :: item in r <==> item in Navigation && Visible(item, user)
  {
    Filter(Navigation, (item: NavItem) => Visible(item, user))
  }

  /** Client master and task creation are shown to administrators only;
      dashboard, settings and documentation to all four roles. */
  lemma NavigationRoles(user: SessionUser)
    ensures forall item :: item in Navigation && (item.name == "Client Master" || item.name == "Task Creation") ==>
      (Visible(item, Some(user)) <==> user.role == "admin")
    ensures forall item :: item in Navigation && item.name in ["Dashboard", "Settings", "Documentation"] ==>
      (Visible(item, Some(user)) <==> user.role in Roles)
  {
  }

  /** With nobody signed in every link is shown. */
  lemma AllVisibleSignedOut()
    ensures VisibleItems(None) == Navigation
  {
    FilterKeepsAll(Navigation, (item: NavItem) => Visible(item, None));
  }

  /** For a user with one of the four roles, a link is shown exactly when
      the guard on its page lets that user in. */
  lemma NavigationMatchesGuards(user: SessionUser, item: NavItem)
    requires user.role in Roles && item in Navigation
    ensures Visible(item, Some(user)) <==>
      ProtectedRoute.Guard(false, Some(user), ProtectedRoute.PageRoles(item.href)) == ProtectedRoute.Render
  {
  }

  /** Sign-up stores whatever role it is sent, so a user may hold none of
      the four roles. Such a user sees no link at all, while the guards still
      render every page that has no role list. */
  lemma UnknownRoleSeesNoLinks(user: SessionUser, item: NavItem)
    requires user.role !in Roles && item in Navigation
    ensures !Visible(item, Some(user))
    ensures ProtectedRoute.Guard(false, Some(user), ProtectedRoute.PageRoles(item.href)) == ProtectedRoute.Render
            <==> ProtectedRoute.PageRoles(item.href).None?
  {
  }

  /** The highlighted link: the path equals the link, or, for any link but
      "/", merely starts with it. */
  predicate IsActive(pathname: string, href: string) {
    pathname == href || (href != "/" && StartsWith(pathname, href))
  }

  /** "/" is active on "/" alone; any other link is active on every path it
      prefixes, with no check for a segment boundary. */
  lemma ActiveRule(pathname: string, href: string)
    ensures IsActive(pathname, "/") <==> pathname == "/"
    ensures href != "/" ==> (IsActive(pathname, href) <==> StartsWith(pathname, href))
    ensures IsActive("/tasksX", "/tasks")
  {
  }

  /** The avatar text: the name's first two characters upper-cased, or "U"
      when there is no name to take them from. */
  function Avatar(user: Option<SessionUser>): (r: string)
    ensures 1 <= |r| <= 2
    ensures user.Some? && Truthy(user.value.name) ==> r == Initials(user.value.name.value)
    ensures !(user.Some? && Truthy(user.value.name)) ==> r == "U"
  {
    if user.Some? && user.value.name.Some? && Initials(user.value.name.value) != ""
    then Initials(user.value.name.value)
    else "U"
  }

  /** The name line of the user card, "User" when there is none. */
  function DisplayName(user: Option<SessionUser>): (r: string)
    ensures r != ""
    ensures user.Some? && Truthy(user.value.name) ==> r == user.value.name.value
    ensures !(user.Some? && Truthy(user.value.name)) ==> r == "User"
  {
    if user.Some? && Truthy(user.value.name) then user.value.name.value else "User"
  }

  /** The role line of the user card, "Role" when there is none. */
  function DisplayRole(user: Option<SessionUser>): (r: string)
    ensures r != ""
    ensures user.Some? && user.value.role != "" ==> r == user.value.role
    ensures !(user.Some? && user.value.role != "") ==> r == "Role"
  {
    if user.Some? && user.value.role != "" then user.value.role else "Role"
  }
}
