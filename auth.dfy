/**
 * Sign-in state and the permission table. A session is the signed-in user
 * (or none) and the role read from that user's `users` document. The role of
 * a user without a document is derived from the email address; the two
 * addresses the login form accepts are the administrator and the guest.
 */
module Auth {
  import opened Wrappers

  const AdminEmail: string := "admin@forkris.com"
  const GuestEmail: string := "guest@forkris.com"
  const AdminRole: string := "admin"
  const GuestRole: string := "guest"

  datatype User = User(uid: string, email: string)

  /** `currentUser` and `userRole`; `None` stands for `null`. */
  datatype Session = Session(user: Option<User>, role: Option<string>)

  /** A role that JavaScript treats as truthy: present and not the empty string. */
  predicate HasRole(s: Session)
  {
    s.role.Some? && s.role.value != ""
  }

  predicate IsAdmin(s: Session)
  {
    s.role == Some(AdminRole)
  }

  // ---------------------------------------------------------------- role derivation

  /**
   * What reading `users/<uid>` gave: the document with its `role` field (absent
   * when the field is missing); no document, followed by a write that succeeded
   * or failed; or a failed read.
   */
  datatype RoleLookup = Found(stored: Option<string>) | Missing(writeSucceeds: bool) | Failed

  /** The role for an email that has no `users` document. */
  function RoleForEmail(email: string): (role: string)
    ensures role == AdminRole <==> email == AdminEmail
    ensures role == AdminRole || role == GuestRole
  {
    if email == AdminEmail then AdminRole
    else if email == GuestEmail then GuestRole
    else GuestRole
  }

  /** The user document written for a user seen for the first time. */
  datatype UserDoc = UserDoc(email: string, role: string)

  /**
   * The auth-state listener for a signed-in user: the session it leaves and the
   * user document it writes. A failure anywhere in the lookup leaves the guest role.
   */
  function SignedIn(user: User, lookup: RoleLookup): (r: (Session, Option<UserDoc>))
    ensures r.0.user == Some(user)
    ensures lookup.Found? ==> r.0.role == lookup.stored && r.1 == None
    ensures lookup == Missing(true) ==>
      r.0.role == Some(RoleForEmail(user.email)) && r.1 == Some(UserDoc(user.email, RoleForEmail(user.email)))
    ensures lookup.Failed? || lookup == Missing(false) ==> r.0.role == Some(GuestRole)
    ensures r.1.Some? ==> lookup.Missing?
  {
    match lookup
    case Found(stored) => (Session(Some(user), stored), None)
    case Missing(ok) =>
      var role := RoleForEmail(user.email);
      if ok then (Session(Some(user), Some(role)), Some(UserDoc(user.email, role)))
      else (Session(Some(user), Some(GuestRole)), None)
    case Failed => (Session(Some(user), Some(GuestRole)), None)
  }

  /** The auth-state listener when nobody is signed in (also the state after `signOut`). */
  function SignedOut(): (s: Session)
    ensures s.user.None? && s.role.None?
  {
    Session(None, None)
  }

  /** Without a stored role, only the administrator address becomes an administrator. */
  lemma OnlyAdminEmailBecomesAdmin(user: User, lookup: RoleLookup)
    requires !lookup.Found?
    ensures IsAdmin(SignedIn(user, lookup).0) <==> lookup == Missing(true) && user.email == AdminEmail
  {
  }

  // ---------------------------------------------------------------- login

  datatype LoginStep = Refused | SignIn(email: string)

  /** `handleLogin`: only the two known addresses reach the sign-in call. */
  function HandleLogin(email: string): (r: LoginStep)
    ensures r.SignIn? ==> r.email == email
    ensures r.SignIn? <==> email == AdminEmail || email == GuestEmail
  {
    if email in [AdminEmail, GuestEmail] then SignIn(email) else Refused
  }

  /** A first sign-in with either accepted address derives the role that address names. */
  lemma LoginRolesAreKnown(user: User)
    requires HandleLogin(user.email).SignIn?
    ensures SignedIn(user, Missing(true)).0.role == Some(if user.email == AdminEmail then AdminRole else GuestRole)
  {
  }

  // ---------------------------------------------------------------- permissions

  /** The actions the permission check knows. */
  predicate AnyRoleAction(action: string)
  {
    action == "add-transaction" || action == "view-transactions"
  }

  predicate AdminAction(action: string)
  {
    action == "edit-category" || action == "add-category" || action == "edit-settings"
  }

  /** `hasPermission(action)`. */
  function HasPermission(s: Session, action: string): (r: bool)
    ensures r ==> s.user.Some? && HasRole(s)
    ensures s.user.Some? && HasRole(s) ==> (AnyRoleAction(action) ==> r)
    ensures AdminAction(action) ==> (r <==> s.user.Some? && IsAdmin(s))
    ensures !AnyRoleAction(action) && !AdminAction(action) ==> !r
  {
    if s.user.None? || !HasRole(s) then false
    else if action == "add-transaction" then true
    else if action == "edit-category" || action == "add-category" || action == "edit-settings" then
      s.role.value == AdminRole
    else if action == "view-transactions" then true
    else false
  }

  /** An administrator may do everything a guest may. */
  lemma AdminCoversGuest(user: User, action: string)
    ensures HasPermission(Session(Some(user), Some(GuestRole)), action) ==>
      HasPermission(Session(Some(user), Some(AdminRole)), action)
  {
  }

  /** A guest may add and view transactions and nothing else. */
  lemma GuestPermissions(user: User, action: string)
    ensures HasPermission(Session(Some(user), Some(GuestRole)), action) <==> AnyRoleAction(action)
  {
  }

  /** After signing out nothing is permitted. */
  lemma SignedOutHasNoPermission(action: string)
    ensures !HasPermission(SignedOut(), action)
  {
  }

  /** `requireAuth()`: somebody is signed in. */
  function RequireAuth(s: Session): (r: bool)
    ensures r <==> s.user.Some?
  {
    s.user.Some?
  }

  /** `requireAdmin()`: a signed-in user with the administrator role. */
  function RequireAdmin(s: Session): (r: bool)
    ensures r <==> s.user.Some? && IsAdmin(s)
    ensures r ==> RequireAuth(s)
  {
    if !RequireAuth(s) then false
    else if s.role != Some(AdminRole) then false
    else true
  }

  /** The admin guard agrees with the permission table on the administrator's actions. */
  lemma RequireAdminIsAdminPermission(s: Session, action: string)
    requires AdminAction(action)
    ensures RequireAdmin(s) <==> HasPermission(s, action)
  {
  }
}
