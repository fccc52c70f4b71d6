/** The signed-in user as `auth()` hands it to the pages and route handlers. */
module Session {
  import opened Common
  import opened UserModel

  /** The session's user id and role; `None` in an `Option<SessionUser>` is no session user. */
  datatype SessionUser = SessionUser(id: Id, role: Role)
}
