/** The client-side session store of lib/store/auth.ts: four state fields
    and the two cookies that mirror them. Every answer from the API, and
    `JSON.parse`/`JSON.stringify` of the user cookie, is a parameter. */
module AuthStore {
  import opened Wrappers
  import opened Types
  import Permissions

  datatype AuthState = AuthState(
    user: Option<User>,
    token: Option<string>,
    isAuthenticated: bool,
    isLoading: bool)

  /** The `auth_token` and `auth_user` cookies; absent when removed. */
  datatype Cookies = Cookies(token: Option<string>, userJson: Option<string>)

  /** The store together with the browser's cookies. */
  datatype Session = Session(state: AuthState, cookies: Cookies)

  /** The state every completed action leaves behind when it signs out. */
  const SignedOut: AuthState := AuthState(None, None, false, false)

  /** A settled state: nothing in flight, and the user, the token and the
      authenticated flag are present together or absent together. */
  predicate Settled(st: AuthState) {
    && !st.isLoading
    && (st.isAuthenticated <==> st.user.Some?)
    && (st.user.Some? <==> st.token.Some?)
  }

  /** The store as created: no session yet, and loading until
      `initializeAuth` has run. */
  function Initial(cookies: Cookies): (r: Session)
    ensures r.state.user.None? && r.state.token.None?
    ensures !r.state.isAuthenticated && r.state.isLoading
    ensures r.cookies == cookies
  {
    Session(AuthState(None, None, false, true), cookies)
  }

  /** `set({ isLoading: true })`, the first step of `login` and
      `initializeAuth`. */
  function BeginLoading(s: Session): (r: Session)
    ensures r.state.isLoading
    ensures r.state.user == s.state.user && r.state.token == s.state.token
    ensures r.state.isAuthenticated == s.state.isAuthenticated
    ensures r.cookies == s.cookies
  {
    s.(state := s.state.(isLoading := true))
  }

  /** The end of `login`: the new session, and the error re-thrown to the
      caller when the request failed. */
  datatype LoginOutcome = LoginOutcome(session: Session, rethrown: Option<string>)

  /** `login` after its request answered `response` (user and token, or an
      error message). */
  function Login(s: Session, response: Result<(User, string), string>, encode: User -> string): (r: LoginOutcome)
    ensures Settled(r.session.state)
    ensures response.Ok? ==>
      && r.rethrown.None?
      && r.session.state.user == Some(response.value.0)
      && r.session.state.token == Some(response.value.1)
      && r.session.cookies == Cookies(Some(response.value.1), Some(encode(response.value.0)))
    ensures response.Err? ==>
      && r.rethrown == Some(response.error)
      && r.session.state == SignedOut
      && r.session.cookies == s.cookies
  {
    match response
    case Ok((user, token)) =>
      LoginOutcome(
        Session(AuthState(Some(user), Some(token), true, false), Cookies(Some(token), Some(encode(user)))),
        None)
    case Err(e) =>
      LoginOutcome(Session(SignedOut, BeginLoading(s).cookies), Some(e))
  }

  /** `logout`: both cookies removed and the store cleared, whatever it
      held. */
  function Logout(s: Session): (r: Session)
    ensures r.state == SignedOut && Settled(r.state)
    ensures r.cookies.token.None? && r.cookies.userJson.None?
  {
    Session(SignedOut, Cookies(None, None))
  }

  /** A cookie read as a JavaScript condition: absent and empty are both
      falsy. */
  predicate Present(c: Option<string>) {
    c.Some? && c.value != ""
  }

  /** `initializeAuth`, given how the user cookie parses and what the
      profile request answers. */
  function InitializeAuth(
    s: Session,
    parse: string -> Option<User>,
    profile: Result<User, string>,
    encode: User -> string): (r: Session)
    ensures Settled(r.state)
    ensures !Present(s.cookies.token) || !Present(s.cookies.userJson) ==>
      r.state == SignedOut && r.cookies == s.cookies
    ensures Present(s.cookies.token) && Present(s.cookies.userJson) ==>
      if parse(s.cookies.userJson.value).None? || profile.Err? then
        r.state == SignedOut && r.cookies == Cookies(None, None)
      else
        && r.state.user == Some(profile.value)
        && r.state.token == s.cookies.token
        && r.cookies == Cookies(s.cookies.token, Some(encode(profile.value)))
  {
    var cookies := BeginLoading(s).cookies;
    if !Present(cookies.token) || !Present(cookies.userJson) then
      Session(SignedOut, cookies)
    else if parse(cookies.userJson.value).None? then
      Session(SignedOut, Cookies(None, None))
    else
      match profile
      case Ok(current) =>
        Session(AuthState(Some(current), cookies.token, true, false),
                cookies.(userJson := Some(encode(current))))
      case Err(_) =>
        Session(SignedOut, Cookies(None, None))
  }

  /** `Partial<User>`: a field is replaced when the patch carries it. */
  datatype UserPatch = UserPatch(
    id: Option<int>,
    username: Option<string>,
    email: Option<string>,
    role: Option<RoleRef>,
    isActive: Option<bool>,
    lastLogin: Option<Option<string>>,
    createdAt: Option<string>,
    updatedAt: Option<string>)

  /** `{ ...user, ...patch }` */
  function Merge(u: User, patch: UserPatch): User {
    User(
      patch.id.GetOr(u.id),
      patch.username.GetOr(u.username),
      patch.email.GetOr(u.email),
      patch.role.GetOr(u.role),
      patch.isActive.GetOr(u.isActive),
      patch.lastLogin.GetOr(u.lastLogin),
      patch.createdAt.GetOr(u.createdAt),
      patch.updatedAt.GetOr(u.updatedAt))
  }

  /** `updateUser`: without a user nothing happens; otherwise the patched
      fields change, the rest of the user, the token and the flags stay,
      and the user cookie follows. */
  function UpdateUser(s: Session, patch: UserPatch, encode: User -> string): (r: Session)
    ensures s.state.user.None? ==> r == s
    ensures s.state.user.Some? ==>
      && r.state.user.Some?
      && r.state.token == s.state.token
      && r.state.isAuthenticated == s.state.isAuthenticated
      && r.state.isLoading == s.state.isLoading
      && r.cookies == s.cookies.(userJson := Some(encode(r.state.user.value)))
    ensures s.state.user.Some? ==>
      var (was, now) := (s.state.user.value, r.state.user.value);
      && now.id == (if patch.id.Some? then patch.id.value else was.id)
      && now.username == (if patch.username.Some? then patch.username.value else was.username)
      && now.email == (if patch.email.Some? then patch.email.value else was.email)
      && now.role == (if patch.role.Some? then patch.role.value else was.role)
      && now.isActive == (if patch.isActive.Some? then patch.isActive.value else was.isActive)
      && now.lastLogin == (if patch.lastLogin.Some? then patch.lastLogin.value else was.lastLogin)
      && now.createdAt == (if patch.createdAt.Some? then patch.createdAt.value else was.createdAt)
      && now.updatedAt == (if patch.updatedAt.Some? then patch.updatedAt.value else was.updatedAt)
  {
    match s.state.user
    case None => s
    case Some(current) =>
      var updated := Merge(current, patch);
      Session(s.state.(user := Some(updated)), s.cookies.(userJson := Some(encode(updated))))
  }

  /** `roleHierarchy[name] || 0`: any name other than the three roles
      counts as level 0. */
  function StoreLevel(name: string): (r: nat)
    ensures r == 0 <==> ParseRoleName(name).None?
    ensures r <= 3
  {
    if name == "Viewer" then 1 else if name == "Manager" then 2 else if name == "Admin" then 3 else 0
  }

  /** The store's `hasPermission(requiredRole)`. */
  function HasPermission(st: AuthState, requiredRole: Role): (r: bool)
    ensures st.user.None? ==> !r
    ensures st.user.Some? && ParseRoleName(st.user.value.role.name).None? ==> !r
  {
    match st.user
    case None => false
    case Some(u) => StoreLevel(u.role.name) >= Permissions.Rank(requiredRole)
  }

  /** A user signed in under one of the three role names passes exactly
      the requirements at or below that role. */
  lemma SignedInRank(st: AuthState, u: Role, requiredRole: Role)
    requires st.user.Some? && st.user.value.role.name == RoleName(u)
    ensures HasPermission(st, requiredRole) <==> Permissions.Rank(u) >= Permissions.Rank(requiredRole)
  {
    match u
    case Viewer => assert StoreLevel("Viewer") == 1;
    case Manager => assert StoreLevel("Manager") == 2;
    case Admin => assert StoreLevel("Admin") == 3;
  }

  /** The store's ranking agrees with the permission table's on every role
      name: a user passes the store's test iff the checker built from the
      user's role name passes `hasMinimumRole`. */
  lemma StoreAgreesWithPermissions(st: AuthState, requiredRole: Role)
    requires st.user.Some?
    ensures HasPermission(st, requiredRole)
        <==> Permissions.PermissionChecker(st.user.value.role.name).HasMinimumRole(requiredRole)
  {
    var name := st.user.value.role.name;
    match ParseRoleName(name)
    case Some(u) =>
      assert StoreLevel(name) == Permissions.Rank(u);
    case None =>
  }

  /** Signing out is the same from every state. */
  lemma LogoutForgetsEverything(s1: Session, s2: Session)
    ensures Logout(s1) == Logout(s2)
    ensures !HasPermission(Logout(s1).state, Viewer)
  {
  }

  /** `updateUser` keeps a settled state settled. */
  lemma UpdateUserKeepsSettled(s: Session, patch: UserPatch, encode: User -> string)
    requires Settled(s.state)
    ensures Settled(UpdateUser(s, patch, encode).state)
  {
  }

  /** An empty patch leaves the user as it was. */
  lemma EmptyPatchChangesNothing(s: Session, encode: User -> string)
    requires s.state.user.Some?
    ensures UpdateUser(s, UserPatch(None, None, None, None, None, None, None, None), encode).state == s.state
  {
  }
}
