/** The authorization components of components/auth/index.tsx. Each gate
    reads the signed-in user from the session store, builds a permission
    checker from the user's role name, and renders its children, a
    caller-supplied fallback, a built-in denial notice, or nothing. React
    nodes are left abstract: `N` is the type of the children and of the
    fallback, and an absent or falsy fallback is `None`. */
module AuthGates {
  import opened Wrappers
  import opened Types
  import opened Text
  import opened Permissions
  import AuthStore
  import Seqs

  /** What a gate renders. */
  datatype View<N> =
    | Children(children: N)
    | Fallback(fallback: N)
      /** The built-in notice, carrying the text it shows. */
    | Notice(text: string)
    | Loading
    | Nothing

  /** `user?.role.name`: the role name of the signed-in user, if any. */
  function RoleNameOf(user: Option<User>): (r: Option<string>)
    ensures r.Some? <==> user.Some?
  {
    match user
    case Some(u) => Some(u.role.name)
    case None => None
  }

  /** The denial branch every gate shares: the fallback when one is shown
      and given, the built-in notice when only shown, otherwise nothing. */
  function Deny<N>(showFallback: bool, fallback: Option<N>, notice: string): (r: View<N>)
    ensures !showFallback ==> r == Nothing
    ensures showFallback && fallback.Some? ==> r == Fallback(fallback.value)
    ensures showFallback && fallback.None? ==> r == Notice(notice)
  {
    if showFallback && fallback.Some? then Fallback(fallback.value)
    else if showFallback then Notice(notice)
    else Nothing
  }

  /** The gate itself: children when allowed, the denial branch otherwise. */
  function Gate<N>(allowed: bool, children: N, showFallback: bool, fallback: Option<N>, notice: string): (r: View<N>)
    ensures r.Children? <==> allowed
    ensures r.Children? ==> r.children == children
    ensures !allowed ==> r == Deny(showFallback, fallback, notice)
  {
    if allowed then Children(children) else Deny(showFallback, fallback, notice)
  }

  /** The text of `PermissionDenied` for one key. */
  function PermissionNotice(p: Permission): string {
    "Permission required: " + Key(p)
  }

  /** The text of `PermissionDenied` for a list of keys. */
  function PermissionsNotice(ps: seq<Permission>): string {
    "Permissions required: " + Join(", ", Seqs.Map(Key, ps))
  }

  /** `<CanAccess permission>`: children iff the user's role is listed for
      the permission. */
  function CanAccess<N>(user: Option<User>, p: Permission, children: N, fallback: Option<N>, showFallback: bool): (r: View<N>)
    ensures r.Children? <==> user.Some? && user.value.role.name in AllowedRoleNames(p)
    ensures !r.Children? ==> r == Deny(showFallback, fallback, PermissionNotice(p))
  {
    var checker := CreatePermissionChecker(RoleNameOf(user));
    Gate(checker.Some? && checker.value.HasPermission(p), children, showFallback, fallback, PermissionNotice(p))
  }

  /** `<CanAccessAny permissions>`: children iff the role is listed for at
      least one of the keys. */
  function CanAccessAny<N>(user: Option<User>, ps: seq<Permission>, children: N, fallback: Option<N>, showFallback: bool): (r: View<N>)
    ensures r.Children? <==>
      user.Some? && exists i :: 0 <= i < |ps| && user.value.role.name in AllowedRoleNames(ps[i])
    ensures !r.Children? ==> r == Deny(showFallback, fallback, PermissionsNotice(ps))
  {
    var checker := CreatePermissionChecker(RoleNameOf(user));
    Gate(checker.Some? && checker.value.HasAnyPermission(ps), children, showFallback, fallback, PermissionsNotice(ps))
  }

  /** `<CanAccessAll permissions>`: children iff a checker exists (a
      non-empty role name) and the role is listed for every key. */
  function CanAccessAll<N>(user: Option<User>, ps: seq<Permission>, children: N, fallback: Option<N>, showFallback: bool): (r: View<N>)
    ensures r.Children? <==>
      && user.Some? && user.value.role.name != ""
      && forall i :: 0 <= i < |ps| ==> user.value.role.name in AllowedRoleNames(ps[i])
    ensures !r.Children? ==> r == Deny(showFallback, fallback, PermissionsNotice(ps))
  {
    var checker := CreatePermissionChecker(RoleNameOf(user));
    Gate(checker.Some? && checker.value.HasAllPermissions(ps), children, showFallback, fallback, PermissionsNotice(ps))
  }

  /** The text of `RoleDenied`: the required role, and the current one when
      the user has a non-empty role name. */
  function RoleNotice(required: Role, userRole: Option<string>): (r: string)
    ensures StartsWith(r, RoleName(required) + " role required")
    ensures userRole.Some? && userRole.value != "" ==>
      r == RoleName(required) + " role required (current: " + userRole.value + ")"
    ensures userRole.None? || userRole.value == "" ==> r == RoleName(required) + " role required"
  {
    var head := RoleName(required) + " role required";
    assert (head + "")[..|head|] == head;
    if userRole.Some? && userRole.value != "" then
      assert (head + (" (current: " + userRole.value + ")"))[..|head|] == head;
      head + " (current: " + userRole.value + ")"
    else head + ""
  }

  /** The current role can be read back from the notice: it sits between
      " (current: " and the closing parenthesis. */
  lemma RoleNoticeReadsBack(required: Role, name: string)
    requires name != ""
    ensures var r := RoleNotice(required, Some(name));
      var start := |RoleName(required) + " role required (current: "|;
      |r| == start + |name| + 1 && r[start..|r| - 1] == name && r[|r| - 1] == ')'
  {
    var head := RoleName(required) + " role required (current: ";
    assert RoleNotice(required, Some(name)) == head + name + ")";
  }

  /** `<RequireRole role>`: children iff the user's role is one of the
      three role names and ranks at least `role`. */
  function RequireRole<N>(user: Option<User>, role: Role, children: N, fallback: Option<N>, showFallback: bool): (r: View<N>)
    ensures r.Children? <==>
      user.Some? && exists u: Role :: RoleName(u) == user.value.role.name && Rank(u) >= Rank(role)
    ensures !r.Children? ==> r == Deny(showFallback, fallback, RoleNotice(role, RoleNameOf(user)))
  {
    var checker := CreatePermissionChecker(RoleNameOf(user));
    Gate(checker.Some? && checker.value.HasMinimumRole(role), children, showFallback, fallback,
         RoleNotice(role, RoleNameOf(user)))
  }

  /** `<RequireAuth>`: the loading notice while the store loads, then
      children iff signed in. */
  function RequireAuth<N>(isAuthenticated: bool, isLoading: bool, children: N, fallback: Option<N>, showFallback: bool): (r: View<N>)
    ensures isLoading ==> r == Loading
    ensures !isLoading ==> (r.Children? <==> isAuthenticated)
    ensures !isLoading && !isAuthenticated ==> r == Deny(showFallback, fallback, "Authentication required")
  {
    if isLoading then Loading
    else Gate(isAuthenticated, children, showFallback, fallback, "Authentication required")
  }

  /** `usePermissions().canAccess`: `false` when there is no checker. */
  function HookCanAccess(user: Option<User>, p: Permission): (r: bool)
    ensures r <==> user.Some? && PermissionChecker(user.value.role.name).HasPermission(p)
  {
    match CreatePermissionChecker(RoleNameOf(user))
    case Some(c) => c.HasPermission(p)
    case None => false
  }

  /** `usePermissions().canAccessAny` */
  function HookCanAccessAny(user: Option<User>, ps: seq<Permission>): (r: bool)
    ensures ps == [] ==> !r
    ensures r <==> exists i :: 0 <= i < |ps| && HookCanAccess(user, ps[i])
  {
    match CreatePermissionChecker(RoleNameOf(user))
    case Some(c) => c.HasAnyPermission(ps)
    case None => false
  }

  /** `usePermissions().canAccessAll` */
  function HookCanAccessAll(user: Option<User>, ps: seq<Permission>): (r: bool)
    ensures r <==> && user.Some? && user.value.role.name != ""
                   && forall i :: 0 <= i < |ps| ==> HookCanAccess(user, ps[i])
  {
    match CreatePermissionChecker(RoleNameOf(user))
    case Some(c) => c.HasAllPermissions(ps)
    case None => false
  }

  /** `usePermissions().hasRole` */
  function HookHasRole(user: Option<User>, role: Role): (r: bool)
    ensures r <==> HasMinimumRoleFor(RoleNameOf(user), role)
  {
    match CreatePermissionChecker(RoleNameOf(user))
    case Some(c) => c.HasMinimumRole(role)
    case None => false
  }

  /** `usePermissions().getAllPermissions`: the granted keys in table
      order, or none without a checker. */
  function HookAllPermissions(user: Option<User>): (r: seq<Permission>)
    ensures forall i :: 0 <= i < |r| ==> HookCanAccess(user, r[i])
  {
    match CreatePermissionChecker(RoleNameOf(user))
    case Some(c) => c.GetUserPermissions()
    case None => []
  }

  /** The hook lists exactly the keys its `canAccess` grants. */
  lemma HookListsWhatItGrants(user: Option<User>, p: Permission)
    ensures p in HookAllPermissions(user) <==> HookCanAccess(user, p)
  {
    if CreatePermissionChecker(RoleNameOf(user)).Some? {
      GrantedKeysExactly(PermissionChecker(user.value.role.name), p);
    }
  }

  /** The `<CanAccess>` gate and the hook's `canAccess` agree. */
  lemma GateAgreesWithHook<N>(user: Option<User>, p: Permission, children: N, fallback: Option<N>, showFallback: bool)
    ensures CanAccess(user, p, children, fallback, showFallback).Children? <==> HookCanAccess(user, p)
  {
  }

  /** `<CanAccessAny>` with no keys never renders its children, while
      `<CanAccessAll>` with no keys renders them for any non-empty role
      name, even one that is not a role. */
  lemma EmptyListGates<N>(user: Option<User>, children: N, fallback: Option<N>, showFallback: bool)
    ensures !CanAccessAny(user, [], children, fallback, showFallback).Children?
    ensures CanAccessAll(user, [], children, fallback, showFallback).Children?
        <==> user.Some? && user.value.role.name != ""
  {
  }

  /** `<RequireRole>` agrees with the store's own `hasPermission` on every
      state. */
  lemma RequireRoleAgreesWithStore<N>(st: AuthStore.AuthState, role: Role, children: N, fallback: Option<N>, showFallback: bool)
    ensures RequireRole(st.user, role, children, fallback, showFallback).Children?
        <==> AuthStore.HasPermission(st, role)
  {
    if st.user.Some? {
      AuthStore.StoreAgreesWithPermissions(st, role);
    }
  }

  /** A user holding a permission passes the gate for it at every more
      senior role. */
  lemma GateMonotoneInRole<N>(user: User, senior: Role, p: Permission, children: N, fallback: Option<N>, showFallback: bool)
    requires ParseRoleName(user.role.name).Some?
    requires Rank(ParseRoleName(user.role.name).value) <= Rank(senior)
    requires CanAccess(Some(user), p, children, fallback, showFallback).Children?
    ensures CanAccess(Some(user.(role := user.role.(name := RoleName(senior)))), p, children, fallback, showFallback).Children?
  {
    SeniorNeverDenied(ParseRoleName(user.role.name).value, senior, p);
  }
}
