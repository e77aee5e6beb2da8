/** The central permission table of lib/permissions.ts: 22 permission keys,
    each granted to a list of roles; the Viewer < Manager < Admin ranking;
    and the checker built on both. The checker is created from whatever role
    string the session carries, so non-role strings are modelled too. */
module Permissions {
  import opened Wrappers
  import opened Types
  import Seqs

  datatype Permission =
    | DashboardView
    | InventoryView | InventoryCreate | InventoryEdit | InventoryDelete | InventoryQuantityUpdate
    | UsersView | UsersCreate | UsersEdit | UsersDelete | UsersStatusUpdate
    | MerchantsView | MerchantsCreate | MerchantsEdit | MerchantsDelete | MerchantsImport
    | ReportsView | ReportsSend | ReportsHistory
    | ProfileView | ProfileEdit | ProfilePasswordChange

  /** The permission's key in the table. */
  function Key(p: Permission): string {
    match p
    case DashboardView => "dashboard.view"
    case InventoryView => "inventory.view"
    case InventoryCreate => "inventory.create"
    case InventoryEdit => "inventory.edit"
    case InventoryDelete => "inventory.delete"
    case InventoryQuantityUpdate => "inventory.quantity.update"
    case UsersView => "users.view"
    case UsersCreate => "users.create"
    case UsersEdit => "users.edit"
    case UsersDelete => "users.delete"
    case UsersStatusUpdate => "users.status.update"
    case MerchantsView => "merchants.view"
    case MerchantsCreate => "merchants.create"
    case MerchantsEdit => "merchants.edit"
    case MerchantsDelete => "merchants.delete"
    case MerchantsImport => "merchants.import"
    case ReportsView => "reports.view"
    case ReportsSend => "reports.send"
    case ReportsHistory => "reports.history"
    case ProfileView => "profile.view"
    case ProfileEdit => "profile.edit"
    case ProfilePasswordChange => "profile.password.change"
  }

  /** The table's keys in declaration order (the order `Object.entries`
      yields them). */
  const AllPermissions: seq<Permission> := [
    DashboardView,
    InventoryView, InventoryCreate, InventoryEdit, InventoryDelete, InventoryQuantityUpdate,
    UsersView, UsersCreate, UsersEdit, UsersDelete, UsersStatusUpdate,
    MerchantsView, MerchantsCreate, MerchantsEdit, MerchantsDelete, MerchantsImport,
    ReportsView, ReportsSend, ReportsHistory,
    ProfileView, ProfileEdit, ProfilePasswordChange
  ]

  /** `PERMISSIONS[p].roles`: the role names the key is granted to. */
  function AllowedRoleNames(p: Permission): seq<string> {
    match p
    case DashboardView | InventoryView | ProfileView | ProfileEdit | ProfilePasswordChange =>
      ["Viewer", "Manager", "Admin"]
    case UsersView | UsersCreate | UsersEdit | UsersDelete | UsersStatusUpdate =>
      ["Admin"]
    case _ =>
      ["Manager", "Admin"]
  }

  /** `ROLE_HIERARCHY` */
  function Rank(r: Role): nat {
    match r
    case Viewer => 1
    case Manager => 2
    case Admin => 3
  }

  /** `ROLE_HIERARCHY[name]`: absent for a string that is not a role name. */
  function Level(name: string): (r: Option<nat>)
    ensures r.Some? <==> exists u: Role :: RoleName(u) == name
    ensures forall u: Role :: RoleName(u) == name ==> r == Some(Rank(u))
  {
    match ParseRoleName(name)
    case Some(u) => Some(Rank(u))
    case None => None
  }

  /** The least senior role a permission is meant for: an independent
      reading of the table by area (dashboard, inventory browsing and the
      profile for everyone, user management for Admin, the rest for
      Manager). */
  function MinRole(p: Permission): Role {
    match p
    case DashboardView | InventoryView => Viewer
    case ProfileView | ProfileEdit | ProfilePasswordChange => Viewer
    case UsersView | UsersCreate | UsersEdit | UsersDelete | UsersStatusUpdate => Admin
    case _ => Manager
  }

  /** `ROUTE_PERMISSIONS[route]`, for the eleven listed routes. */
  function RoutePermissions(route: string): Option<seq<Permission>> {
    if route == "/dashboard" then Some([DashboardView])
    else if route == "/dashboard/inventory" then Some([InventoryView])
    else if route == "/dashboard/inventory/new" then Some([InventoryCreate])
    else if route == "/dashboard/inventory/[id]/edit" then Some([InventoryEdit])
    else if route == "/dashboard/users" then Some([UsersView])
    else if route == "/dashboard/users/new" then Some([UsersCreate])
    else if route == "/dashboard/users/[id]/edit" then Some([UsersEdit])
    else if route == "/dashboard/merchants" then Some([MerchantsView])
    else if route == "/dashboard/merchants/new" then Some([MerchantsCreate])
    else if route == "/dashboard/reports" then Some([ReportsView])
    else if route == "/dashboard/profile" then Some([ProfileView])
    else None
  }

  /** The keys of `ROUTE_PERMISSIONS`, in declaration order. */
  const RouteKeys: seq<string> := [
    "/dashboard", "/dashboard/inventory", "/dashboard/inventory/new",
    "/dashboard/inventory/[id]/edit", "/dashboard/users", "/dashboard/users/new",
    "/dashboard/users/[id]/edit", "/dashboard/merchants", "/dashboard/merchants/new",
    "/dashboard/reports", "/dashboard/profile"
  ]

  /** `new PermissionChecker(userRole)` */
  datatype PermissionChecker = PermissionChecker(userRole: string) {

    /** `PERMISSIONS[p].roles.includes(userRole)`: a string comparison
        against the listed role names. */
    function HasPermission(p: Permission): (r: bool)
      ensures r <==> ParseRoleName(userRole).Some? && Rank(ParseRoleName(userRole).value) >= Rank(MinRole(p))
    {
      userRole in AllowedRoleNames(p)
    }

    /** `ps.some(hasPermission)` */
    function HasAnyPermission(ps: seq<Permission>): (r: bool)
      ensures r <==> exists i :: 0 <= i < |ps| && HasPermission(ps[i])
      ensures ps == [] ==> !r
    {
      if ps == [] then false
      else HasPermission(ps[0]) || HasAnyPermission(ps[1..])
    }

    /** `ps.every(hasPermission)` */
    function HasAllPermissions(ps: seq<Permission>): (r: bool)
      ensures r <==> forall i :: 0 <= i < |ps| ==> HasPermission(ps[i])
      ensures ps == [] ==> r
    {
      if ps == [] then true
      else HasPermission(ps[0]) && HasAllPermissions(ps[1..])
    }

    /** `ROLE_HIERARCHY[userRole] >= ROLE_HIERARCHY[minimumRole]`; for a
        non-role string the left side is `undefined` and the comparison is
        false. */
    function HasMinimumRole(minimumRole: Role): (r: bool)
      ensures r <==> exists u: Role :: RoleName(u) == userRole && Rank(u) >= Rank(minimumRole)
    {
      match Level(userRole)
      case Some(l) => l >= Rank(minimumRole)
      case None => false
    }

    /** The granted keys, in table order. */
    function GetUserPermissions(): (r: seq<Permission>)
      ensures forall i :: 0 <= i < |r| ==> HasPermission(r[i])
    {
      GrantedAmong(this, AllPermissions)
    }

    /** A route without an entry is open; a listed route needs any of its
        permissions. */
    function CanAccessRoute(route: string): (r: bool)
      ensures route !in RouteKeys ==> r
      ensures route in RouteKeys ==> (r <==> HasAnyPermission(RoutePermissions(route).value))
    {
      RouteKeysExact(route);
      match RoutePermissions(route)
      case None => true
      case Some(ps) => HasAnyPermission(ps)
    }

    /** `canAccessRoute` with its failure: the table is a plain object, so
        an inherited key finds a function or `Object.prototype` instead of
        `undefined`, and spreading that value throws a `TypeError`. */
    function RouteAccess(route: string): (r: Result<bool, string>)
      ensures r.Err? <==> route in InheritedKeys
      ensures route in RouteKeys ==> r == Ok(HasAnyPermission(RoutePermissions(route).value))
      ensures route !in RouteKeys && route !in InheritedKeys ==> r == Ok(true)
    {
      RouteKeysExact(route);
      ListedRoutesAreOwn(route);
      if route in InheritedKeys then Err("TypeError: not iterable")
      else Ok(CanAccessRoute(route))
    }
  }

  /** Every listed route starts with `/`, and no inherited name does, so a
      listed route never meets the failure. */
  lemma ListedRoutesAreOwn(route: string)
    ensures route in RouteKeys ==> route !in InheritedKeys
  {
    if route in RouteKeys {
      assert route[0] == '/';
      forall k | k in InheritedKeys ensures k == [] || k[0] != '/' {
      }
    }
  }

  /** The names every object inherits from `Object.prototype`. */
  const InheritedKeys: set<string> := {
    "constructor", "hasOwnProperty", "isPrototypeOf", "propertyIsEnumerable",
    "toLocaleString", "toString", "valueOf", "__proto__",
    "__defineGetter__", "__defineSetter__", "__lookupGetter__", "__lookupSetter__"
  }

  /** The checker's test as a function value, for `filter`. */
  function Grants(c: PermissionChecker): Permission -> bool {
    p => c.HasPermission(p)
  }

  /** The keys of `ps` the checker grants, in order. */
  function GrantedAmong(c: PermissionChecker, ps: seq<Permission>): (r: seq<Permission>)
    ensures forall i :: 0 <= i < |r| ==> c.HasPermission(r[i])
  {
    Seqs.Filter(Grants(c), ps)
  }

  /** A key is in the checker's list iff the checker grants it. */
  lemma GrantedKeysExactly(c: PermissionChecker, p: Permission)
    ensures p in c.GetUserPermissions() <==> c.HasPermission(p)
  {
    AllPermissionsComplete();
    Seqs.FilterMembership(Grants(c), AllPermissions, p);
  }

  /** The granted keys keep the table's order. */
  lemma GrantedKeysInTableOrder(c: PermissionChecker)
    ensures Seqs.IsSubsequence(c.GetUserPermissions(), AllPermissions)
  {
    Seqs.FilterIsSubsequence(Grants(c), AllPermissions);
  }

  /** `createPermissionChecker`: no checker for an absent or empty role. */
  function CreatePermissionChecker(userRole: Option<string>): (r: Option<PermissionChecker>)
    ensures r.Some? <==> userRole.Some? && userRole.value != ""
    ensures r.Some? ==> r.value.userRole == userRole.value
  {
    match userRole
    case Some(name) => if name == "" then None else Some(PermissionChecker(name))
    case None => None
  }

  /** The free `hasPermission(userRole, permission)`. */
  function HasPermissionFor(userRole: Option<string>, p: Permission): (r: bool)
    ensures r <==> userRole.Some? && PermissionChecker(userRole.value).HasPermission(p)
  {
    match CreatePermissionChecker(userRole)
    case Some(checker) => checker.HasPermission(p)
    case None => false
  }

  /** The free `hasMinimumRole(userRole, minimumRole)`. */
  function HasMinimumRoleFor(userRole: Option<string>, minimumRole: Role): (r: bool)
    ensures r <==> exists u: Role :: userRole == Some(RoleName(u)) && Rank(u) >= Rank(minimumRole)
  {
    match userRole
    case Some(name) => name != "" && PermissionChecker(name).HasMinimumRole(minimumRole)
    case None => false
  }

  /** The position of a permission in the table. */
  function Index(p: Permission): nat {
    match p
    case DashboardView => 0
    case InventoryView => 1
    case InventoryCreate => 2
    case InventoryEdit => 3
    case InventoryDelete => 4
    case InventoryQuantityUpdate => 5
    case UsersView => 6
    case UsersCreate => 7
    case UsersEdit => 8
    case UsersDelete => 9
    case UsersStatusUpdate => 10
    case MerchantsView => 11
    case MerchantsCreate => 12
    case MerchantsEdit => 13
    case MerchantsDelete => 14
    case MerchantsImport => 15
    case ReportsView => 16
    case ReportsSend => 17
    case ReportsHistory => 18
    case ProfileView => 19
    case ProfileEdit => 20
    case ProfilePasswordChange => 21
  }

  lemma AllPermissionsComplete()
    ensures forall p: Permission :: p in AllPermissions
  {
    forall p: Permission ensures p in AllPermissions {
      assert AllPermissions[Index(p)] == p;
    }
  }

  lemma RouteKeysExact(route: string)
    ensures RoutePermissions(route).Some? <==> route in RouteKeys
  {
  }

  /** Every role list in the table is upward closed: a role holds a
      permission iff its rank reaches the permission's least role. */
  lemma PermissionIffRankReachesMinRole(u: Role, p: Permission)
    ensures PermissionChecker(RoleName(u)).HasPermission(p) <==> Rank(u) >= Rank(MinRole(p))
  {
  }

  /** A more senior role is never denied what a junior role holds. */
  lemma SeniorNeverDenied(junior: Role, senior: Role, p: Permission)
    requires Rank(junior) <= Rank(senior)
    requires PermissionChecker(RoleName(junior)).HasPermission(p)
    ensures PermissionChecker(RoleName(senior)).HasPermission(p)
  {
    PermissionIffRankReachesMinRole(junior, p);
    PermissionIffRankReachesMinRole(senior, p);
  }

  /** A string that is not a role name holds no permission. */
  lemma UnknownRoleHoldsNothing(name: string, p: Permission)
    requires ParseRoleName(name).None?
    ensures !PermissionChecker(name).HasPermission(p)
  {
  }

  /** ... so its list of keys is empty. */
  lemma UnknownRoleListsNothing(name: string)
    requires ParseRoleName(name).None?
    ensures PermissionChecker(name).GetUserPermissions() == []
  {
    var f := Grants(PermissionChecker(name));
    forall i | 0 <= i < |AllPermissions|
      ensures !f(AllPermissions[i])
    {
      UnknownRoleHoldsNothing(name, AllPermissions[i]);
    }
    Seqs.FilterNone(f, AllPermissions);
  }

  /** The minimum-role test is reflexive and transitive on role names, and
      Admin clears every bar. */
  lemma MinimumRoleIsPreorder(a: Role, b: Role, c: Role)
    ensures PermissionChecker(RoleName(a)).HasMinimumRole(a)
    ensures PermissionChecker(RoleName(a)).HasMinimumRole(b)
         && PermissionChecker(RoleName(b)).HasMinimumRole(c)
         ==> PermissionChecker(RoleName(a)).HasMinimumRole(c)
    ensures PermissionChecker(RoleName(Admin)).HasMinimumRole(a)
  {
  }

  /** Role seniority and permission sets say the same thing: `u` meets the
      bar `m` iff `u` holds every permission `m` holds. */
  lemma MinimumRoleIffPermissionSuperset(u: Role, m: Role)
    ensures PermissionChecker(RoleName(u)).HasMinimumRole(m)
        <==> forall p :: PermissionChecker(RoleName(m)).HasPermission(p)
                     ==> PermissionChecker(RoleName(u)).HasPermission(p)
  {
    if Rank(u) >= Rank(m) {
      forall p | PermissionChecker(RoleName(m)).HasPermission(p)
        ensures PermissionChecker(RoleName(u)).HasPermission(p)
      {
        SeniorNeverDenied(m, u, p);
      }
    } else {
      // a witness permission m holds and u lacks
      var p := if m == Admin then UsersView else InventoryCreate;
      PermissionIffRankReachesMinRole(u, p);
      PermissionIffRankReachesMinRole(m, p);
    }
  }

  /** The table cut into runs of keys that share a least role. */
  const EveryoneFirst: seq<Permission> := [DashboardView, InventoryView]
  const InventoryManagement: seq<Permission> :=
    [InventoryCreate, InventoryEdit, InventoryDelete, InventoryQuantityUpdate]
  const UserManagement: seq<Permission> :=
    [UsersView, UsersCreate, UsersEdit, UsersDelete, UsersStatusUpdate]
  const MerchantsAndReports: seq<Permission> := [
    MerchantsView, MerchantsCreate, MerchantsEdit, MerchantsDelete, MerchantsImport,
    ReportsView, ReportsSend, ReportsHistory
  ]
  const ProfileKeys: seq<Permission> := [ProfileView, ProfileEdit, ProfilePasswordChange]

  const ViewerPermissions: seq<Permission> := EveryoneFirst + ProfileKeys
  const ManagerPermissions: seq<Permission> :=
    EveryoneFirst + InventoryManagement + MerchantsAndReports + ProfileKeys

  lemma RunsCoverTable()
    ensures AllPermissions == EveryoneFirst + InventoryManagement + UserManagement + MerchantsAndReports + ProfileKeys
  {
  }

  /** The run `run` if role `u` reaches the run's least role `m`, else
      nothing. */
  function Held(u: Role, run: seq<Permission>, m: Role): seq<Permission> {
    if Rank(u) >= Rank(m) then run else []
  }

  /** A role keeps all of a run whose keys share the least role `m` if it
      reaches `m`, and none of it otherwise. */
  lemma RunByRank(u: Role, run: seq<Permission>, m: Role)
    requires forall i :: 0 <= i < |run| ==> MinRole(run[i]) == m
    ensures Seqs.Filter(Grants(PermissionChecker(RoleName(u))), run) == Held(u, run, m)
  {
    var f := Grants(PermissionChecker(RoleName(u)));
    forall i | 0 <= i < |run| ensures f(run[i]) <==> Rank(u) >= Rank(m) {
      PermissionIffRankReachesMinRole(u, run[i]);
    }
    if Rank(u) >= Rank(m) {
      Seqs.FilterAll(f, run);
    } else {
      Seqs.FilterNone(f, run);
    }
  }

  /** Filtering a table made of five runs, whose least roles are Viewer,
      Manager, Admin, Manager and Viewer, run by run. */
  lemma FilterRuns(u: Role, t: seq<Permission>, a: seq<Permission>, b: seq<Permission>,
                   c: seq<Permission>, d: seq<Permission>, e: seq<Permission>)
    requires t == a + b + c + d + e
    requires forall i :: 0 <= i < |a| ==> MinRole(a[i]) == Viewer
    requires forall i :: 0 <= i < |b| ==> MinRole(b[i]) == Manager
    requires forall i :: 0 <= i < |c| ==> MinRole(c[i]) == Admin
    requires forall i :: 0 <= i < |d| ==> MinRole(d[i]) == Manager
    requires forall i :: 0 <= i < |e| ==> MinRole(e[i]) == Viewer
    ensures Seqs.Filter(Grants(PermissionChecker(RoleName(u))), t)
         == a + Held(u, b, Manager) + Held(u, c, Admin) + Held(u, d, Manager) + e
  {
    var f := Grants(PermissionChecker(RoleName(u)));
    Seqs.FilterAppend5(f, a, b, c, d, e);
    RunByRank(u, a, Viewer);
    RunByRank(u, b, Manager);
    RunByRank(u, c, Admin);
    RunByRank(u, d, Manager);
    RunByRank(u, e, Viewer);
  }

  /** A role's list, run by run. */
  lemma ListByRuns(u: Role)
    ensures PermissionChecker(RoleName(u)).GetUserPermissions()
         == EveryoneFirst + Held(u, InventoryManagement, Manager) + Held(u, UserManagement, Admin)
          + Held(u, MerchantsAndReports, Manager) + ProfileKeys
  {
    RunsCoverTable();
    FilterRuns(u, AllPermissions, EveryoneFirst, InventoryManagement, UserManagement, MerchantsAndReports, ProfileKeys);
  }

  /** The keys each role is meant to hold, in table order. */
  function RoleList(u: Role): seq<Permission> {
    match u
    case Viewer => ViewerPermissions
    case Manager => ManagerPermissions
    case Admin => AllPermissions
  }

  /** Exactly the Viewer's, the Manager's and every key, in table order. */
  lemma ExactPermissionLists(u: Role)
    ensures PermissionChecker(RoleName(u)).GetUserPermissions() == RoleList(u)
  {
    ListByRuns(u);
    RunsMakeRoleList(u);
  }

  lemma RunsMakeRoleList(u: Role)
    ensures EveryoneFirst + Held(u, InventoryManagement, Manager) + Held(u, UserManagement, Admin)
          + Held(u, MerchantsAndReports, Manager) + ProfileKeys == RoleList(u)
  {
    if u == Admin {
      RunsCoverTable();
    }
  }

  /** 5, 17 and 22 keys. */
  lemma ListSizes(u: Role)
    ensures |RoleList(u)| == (match u case Viewer => 5 case Manager => 17 case Admin => 22)
  {
  }

  /** A senior role's list contains a junior role's list, in the same
      order. */
  lemma SeniorListContainsJunior(junior: Role, senior: Role)
    requires Rank(junior) <= Rank(senior)
    ensures Seqs.IsSubsequence(
      PermissionChecker(RoleName(junior)).GetUserPermissions(),
      PermissionChecker(RoleName(senior)).GetUserPermissions())
  {
    var j := PermissionChecker(RoleName(junior));
    var s := PermissionChecker(RoleName(senior));
    forall i | 0 <= i < |AllPermissions| && Grants(j)(AllPermissions[i])
      ensures Grants(s)(AllPermissions[i])
    {
      SeniorNeverDenied(junior, senior, AllPermissions[i]);
    }
    Seqs.FilterWeakerTest(Grants(j), Grants(s), AllPermissions);
  }

  /** `canAccessRoute` of a concrete path that is not literally a table key
      is true for every role string. */
  lemma ConcretePathsAreOpen(name: string)
    ensures PermissionChecker(name).CanAccessRoute("/dashboard/users/7/edit")
  {
  }
}
