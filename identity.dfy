/**
 * What the authentication listener makes of a signed-in user: the role
 * stored in the user's role document, `operario` when there is none, and a
 * forced sign-out when the role cannot be read.
 */
module Identity {
  import opened Wrappers

  datatype AuthUser = AuthUser(uid: string, email: string)

  /** The outcome of reading `roles/{uid}`; a document may lack the `rol` field. */
  datatype RoleLookup = RoleDocument(rol: Option<string>) | NoRoleDocument | LookupFailed

  datatype Session = SignedIn(user: AuthUser, rol: Option<string>) | SignedOut

  const DEFAULT_ROLE := "operario"
  const ADMIN_ROLE := "admin"

  /** The session after an authentication event. */
  function ResolveSession(current: Option<AuthUser>, lookup: RoleLookup): (s: Session)
    ensures current.None? || lookup.LookupFailed? <==> s.SignedOut?
    ensures s.SignedIn? ==> s.user == current.value
    ensures s.SignedIn? && lookup.NoRoleDocument? ==> s.rol == Some(DEFAULT_ROLE)
    ensures s.SignedIn? && lookup.RoleDocument? ==> s.rol == lookup.rol
  {
    match current
    case None => SignedOut
    case Some(u) =>
      match lookup
      case RoleDocument(rol) => SignedIn(u, rol)
      case NoRoleDocument => SignedIn(u, Some(DEFAULT_ROLE))
      case LookupFailed => SignedOut
  }

  /** The administrator panel is rendered only for the `admin` role, and only when chosen. */
  predicate ShowsAdminPanel(s: Session, showAdminPanel: bool) {
    s.SignedIn? && showAdminPanel && s.rol == Some(ADMIN_ROLE)
  }

  /** Only a role document that says `admin` opens the administrator panel. */
  lemma AdminPanelNeedsAdminRoleDocument(current: Option<AuthUser>, lookup: RoleLookup, showAdminPanel: bool)
    requires ShowsAdminPanel(ResolveSession(current, lookup), showAdminPanel)
    ensures current.Some? && lookup == RoleDocument(Some(ADMIN_ROLE))
  {
  }
}
