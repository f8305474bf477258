/** The signed-in user the authentication context hands to the screens. */
module Session {
  import opened Util

  const Roles: seq<string> := ["admin", "employee", "client", "auditor"]

  /** The user object. The screens read its name through optional
      chaining, so the model lets the name be missing. */
  datatype SessionUser = SessionUser(id: int, name: Option<string>, email: string, role: string)
}
