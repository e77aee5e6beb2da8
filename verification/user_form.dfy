/** The user form of components/users/user-form.tsx: the create and update
    schemas, the request each mode submits, the reset, and the list of
    permissions shown for the chosen role. zod's `.email()` check is an
    input, `isEmail`. */
module UserForm {
  import opened Wrappers
  import opened Types

  datatype Mode = Create | Edit

  /** The form's fields; `roleId` is `None` while no role is chosen (the
      form holds `undefined` there, which `z.coerce.number()` turns into
      NaN and `.min(1)` rejects). */
  datatype Fields = Fields(
    username: string,
    email: string,
    password: string,
    roleId: Option<int>,
    isActive: bool)

  /** A character of `[a-zA-Z0-9_-]`. */
  predicate UsernameChar(c: char) {
    ('a' <= c <= 'z') || ('A' <= c <= 'Z') || ('0' <= c <= '9') || c == '_' || c == '-'
  }

  /** 3 to 50 characters, each a letter, digit, `_` or `-`. */
  predicate UsernameOk(u: string) {
    3 <= |u| <= 50 && forall k :: 0 <= k < |u| ==> UsernameChar(u[k])
  }

  /** The rules both schemas share. */
  predicate CommonOk(f: Fields, isEmail: bool) {
    && UsernameOk(f.username)
    && isEmail && |f.email| <= 255
    && f.roleId.Some? && f.roleId.value >= 1
  }

  /** `createUserSchema`: the common rules and a password of 6 to 100
      characters. */
  predicate CreateAccepts(f: Fields, isEmail: bool) {
    CommonOk(f, isEmail) && 6 <= |f.password| <= 100
  }

  /** `updateUserSchema`: the password is optional and unchecked. */
  predicate UpdateAccepts(f: Fields, isEmail: bool) {
    CommonOk(f, isEmail)
  }

  predicate Accepts(mode: Mode, f: Fields, isEmail: bool) {
    match mode
    case Create => CreateAccepts(f, isEmail)
    case Edit => UpdateAccepts(f, isEmail)
  }

  /** Whatever the create schema accepts, the update schema accepts; the
      update schema never looks at the password. */
  lemma CreateStricterThanUpdate(f: Fields, isEmail: bool, password: string)
    ensures CreateAccepts(f, isEmail) ==> UpdateAccepts(f, isEmail)
    ensures UpdateAccepts(f, isEmail) == UpdateAccepts(f.(password := password), isEmail)
  {
  }

  /** `CreateUserRequest` and `UpdateUserRequest` as the form fills them;
      the update request has no password. */
  datatype UserRequest =
    | CreateRequest(username: string, email: string, password: string, roleId: int, isActive: bool)
    | UpdateRequest(username: string, email: string, roleId: int, isActive: bool)

  /** `handleSubmit(handleFormSubmit)`: nothing is submitted unless the
      mode's schema accepts; then create sends the password and edit does
      not. */
  function Submit(mode: Mode, f: Fields, isEmail: bool): (r: Option<UserRequest>)
    ensures r.Some? <==> Accepts(mode, f, isEmail)
    ensures r.Some? && mode == Create ==>
      r.value == CreateRequest(f.username, f.email, f.password, f.roleId.value, f.isActive)
    ensures r.Some? && mode == Edit ==>
      r.value == UpdateRequest(f.username, f.email, f.roleId.value, f.isActive)
  {
    if !Accepts(mode, f, isEmail) then None
    else
      match mode
      case Create => Some(CreateRequest(f.username, f.email, f.password, f.roleId.value, f.isActive))
      case Edit => Some(UpdateRequest(f.username, f.email, f.roleId.value, f.isActive))
  }

  /** A created user's password obeys the length rule; an edit submits the
      same request whatever is in the password field. */
  lemma SubmitPasswordRules(f: Fields, isEmail: bool, password: string)
    ensures Submit(Create, f, isEmail).Some? ==> 6 <= |Submit(Create, f, isEmail).value.password| <= 100
    ensures Submit(Edit, f, isEmail) == Submit(Edit, f.(password := password), isEmail)
  {
  }

  /** `initialData?.role.id || undefined`: the id 0 counts as no role. */
  function RoleIdOf(initial: Option<User>): (r: Option<int>)
    ensures r.Some? <==> initial.Some? && initial.value.role.id != 0
    ensures r.Some? ==> r.value == initial.value.role.id
  {
    if initial.Some? && initial.value.role.id != 0 then Some(initial.value.role.id) else None
  }

  /** `handleReset`: create clears every field; edit restores the user's
      values. The edit reset leaves the hidden password field empty. */
  function Reset(mode: Mode, initial: Option<User>): (r: Fields)
    ensures mode == Create ==> r == Fields("", "", "", None, true)
    ensures mode == Edit && initial.Some? ==>
      && r.username == initial.value.username && r.email == initial.value.email
      && r.isActive == initial.value.isActive && r.password == ""
      && r.roleId == RoleIdOf(initial)
    ensures mode == Edit && initial.None? ==> r == Fields("", "", "", None, true)
  {
    match mode
    case Create => Fields("", "", "", None, true)
    case Edit =>
      match initial
      case Some(u) => Fields(u.username, u.email, "", RoleIdOf(initial), u.isActive)
      case None => Fields("", "", "", None, true)
  }

  /** `defaultValues`, which do not depend on the mode. */
  function Defaults(initial: Option<User>): (r: Fields)
    ensures r.password == ""
    ensures initial.None? ==> r == Reset(Create, initial)
  {
    match initial
    case Some(u) => Fields(u.username, u.email, "", RoleIdOf(initial), u.isActive)
    case None => Fields("", "", "", None, true)
  }

  /** Resetting an edit form gives back the values it opened with. */
  lemma EditResetRestoresDefaults(initial: Option<User>)
    ensures Reset(Edit, initial) == Defaults(initial)
  {
  }

  /** A freshly reset create form cannot be submitted. */
  lemma ResetCreateIsRejected(initial: Option<User>, isEmail: bool)
    ensures Submit(Create, Reset(Create, initial), isEmail).None?
  {
  }

  /** Submitting a reset edit form of a well-formed user sends the user's
      own values back unchanged. */
  lemma ResetEditResubmits(u: User)
    requires UsernameOk(u.username) && |u.email| <= 255 && u.role.id >= 1
    ensures Submit(Edit, Reset(Edit, Some(u)), true) ==
      Some(UpdateRequest(u.username, u.email, u.role.id, u.isActive))
  {
  }

  const AdminLines: seq<string> := ["Full system access", "User management", "All inventory operations", "All reports"]
  const ManagerLines: seq<string> := ["Inventory management", "Merchant management", "Send reports", "View all data"]
  const ViewerLines: seq<string> := ["View inventory", "View dashboard", "Read-only access"]

  /** The permission lines listed for a role name; a name that is not one
      of the three lists nothing. */
  function PermissionLines(roleName: string): (r: seq<string>)
    ensures roleName == "Admin" ==> |r| == 4
    ensures roleName == "Manager" ==> |r| == 4
    ensures roleName == "Viewer" ==> |r| == 3
    ensures roleName !in {"Admin", "Manager", "Viewer"} ==> r == []
  {
    if roleName == "Admin" then AdminLines
    else if roleName == "Manager" then ManagerLines
    else if roleName == "Viewer" then ViewerLines
    else []
  }

  /** `roles.find(r => r.id === watchedRoleId)`: the index of the first
      role with that id, or `|roles|`. */
  function FindRole(roles: seq<RoleRef>, id: int): (r: nat)
    ensures r <= |roles|
    ensures r < |roles| ==> roles[r].id == id
    ensures forall k :: 0 <= k < r ==> roles[k].id != id
  {
    if roles == [] then 0
    else if roles[0].id == id then 0
    else 1 + FindRole(roles[1..], id)
  }

  /** The "Role Permissions" card: shown only when a role is chosen (a
      non-zero id), the roles are loaded and one of them has that id. */
  function PermissionsInfo(roleId: Option<int>, roles: Option<seq<RoleRef>>): (r: seq<string>)
    ensures roleId.None? || roleId.value == 0 || roles.None? ==> r == []
    ensures r != [] ==> exists k :: 0 <= k < |roles.value| && roles.value[k].id == roleId.value
                                    && r == PermissionLines(roles.value[k].name)
  {
    if roleId.None? || roleId.value == 0 || roles.None? then []
    else
      var k := FindRole(roles.value, roleId.value);
      if k < |roles.value| then PermissionLines(roles.value[k].name) else []
  }

  /** For a loaded role list whose ids are distinct, the card lists the
      chosen role's lines, and nothing for an id no role has. */
  lemma PermissionsInfoOfChosenRole(roleId: int, roles: seq<RoleRef>, k: int)
    requires roleId != 0 && 0 <= k < |roles| && roles[k].id == roleId
    requires forall i, j :: 0 <= i < j < |roles| ==> roles[i].id != roles[j].id
    ensures PermissionsInfo(Some(roleId), Some(roles)) == PermissionLines(roles[k].name)
  {
  }

  lemma PermissionsInfoOfUnknownId(roleId: int, roles: seq<RoleRef>)
    requires forall k :: 0 <= k < |roles| ==> roles[k].id != roleId
    ensures PermissionsInfo(Some(roleId), Some(roles)) == []
  {
  }
}
