/** The user list of components/users/users-table.tsx: its query state and
    filters, the guards that stop a user deleting or disabling their own
    account, the role badge and the last-login cell. */
module UsersTable {
  import opened Wrappers
  import opened Types

  /** The table's initial query: first page of ten, no search, every role,
      every status. */
  const InitialQuery: UserQueryParams :=
    UserQueryParams(Some(1), Some(10), Some(""), None, Some(""))

  /** The choice "all" of a filter select is stored as the empty string. */
  function FilterValue(choice: string): (r: string)
    ensures choice == "all" ==> r == ""
    ensures choice != "all" ==> r == choice
  {
    if choice == "all" then "" else choice
  }

  /** The select shows `value || "all"`. */
  function Shown(value: Option<string>): (r: string)
    ensures value.None? || value.value == "" ==> r == "all"
    ensures value.Some? && value.value != "" ==> r == value.value
  {
    if value.None? || value.value == "" then "all" else value.value
  }

  /** Choosing an option and reading the select back gives that option,
      for every option but the empty string. */
  lemma FilterShowsChoice(choice: string)
    requires choice != ""
    ensures Shown(Some(FilterValue(choice))) == choice
  {
  }

  /** `handleSearch`, `handleRoleFilter`, `handleStatusFilter`: each sets its
      field and goes back to the first page. */
  function Search(p: UserQueryParams, search: string): (r: UserQueryParams)
    ensures r.search == Some(search) && r.page == Some(1)
    ensures r.(search := p.search, page := p.page) == p
  {
    p.(search := Some(search), page := Some(1))
  }

  function FilterRole(p: UserQueryParams, choice: string): (r: UserQueryParams)
    ensures r.page == Some(1) && r.role == Some(FilterValue(choice))
    ensures r.search == p.search && r.status == p.status && r.limit == p.limit
  {
    p.(role := Some(FilterValue(choice)), page := Some(1))
  }

  function FilterStatus(p: UserQueryParams, choice: string): (r: UserQueryParams)
    ensures r.page == Some(1) && r.status == Some(FilterValue(choice))
    ensures r.search == p.search && r.role == p.role && r.limit == p.limit
  {
    p.(status := Some(FilterValue(choice)), page := Some(1))
  }

  /** `handlePageChange`: only the page moves. */
  function ChangePage(p: UserQueryParams, page: int): (r: UserQueryParams)
    ensures r.page == Some(page) && r.(page := p.page) == p
  {
    p.(page := Some(page))
  }

  /** A search or a filter after any paging lands on the first page. */
  lemma FiltersForgetPage(p: UserQueryParams, page: int, search: string, role: string)
    ensures Search(ChangePage(p, page), search) == Search(p, search)
    ensures FilterRole(ChangePage(p, page), role) == FilterRole(p, role)
  {
  }

  /** The two filters touch different fields: applying them in either
      order gives the same query. */
  lemma FiltersCommute(p: UserQueryParams, role: string, status: string)
    ensures FilterStatus(FilterRole(p, role), status) == FilterRole(FilterStatus(p, status), role)
  {
  }

  /** What a row action leads to. */
  datatype Outcome = RefusedSelf | Cancelled | DeleteUser(id: int) | SetStatus(id: int, isActive: bool)

  predicate IsSelf(currentUser: Option<User>, id: int) {
    currentUser.Some? && currentUser.value.id == id
  }

  /** `handleDelete`: one's own account is refused before any prompt. */
  function Delete(currentUser: Option<User>, id: int, confirmed: bool): (r: Outcome)
    ensures IsSelf(currentUser, id) ==> r == RefusedSelf
    ensures !IsSelf(currentUser, id) ==> r == (if confirmed then DeleteUser(id) else Cancelled)
  {
    if IsSelf(currentUser, id) then RefusedSelf
    else if confirmed then DeleteUser(id)
    else Cancelled
  }

  /** `handleStatusToggle`: disabling one's own active account is refused;
      otherwise a confirmed toggle sets the opposite status. */
  function ToggleStatus(currentUser: Option<User>, id: int, currentStatus: bool, confirmed: bool): (r: Outcome)
    ensures r == RefusedSelf <==> IsSelf(currentUser, id) && currentStatus
    ensures r.SetStatus? <==> !(IsSelf(currentUser, id) && currentStatus) && confirmed
    ensures r.SetStatus? ==> r.id == id && r.isActive == !currentStatus
  {
    if IsSelf(currentUser, id) && currentStatus then RefusedSelf
    else if confirmed then SetStatus(id, !currentStatus)
    else Cancelled
  }

  /** The row's status switch and delete item are disabled while their
      mutation runs and on one's own row. */
  predicate ControlDisabled(pending: bool, currentUser: Option<User>, id: int) {
    pending || IsSelf(currentUser, id)
  }

  /** Nobody can delete or disable their own account from the table:
      the controls are disabled on their row, and the handlers refuse. */
  lemma NoSelfHarm(currentUser: Option<User>, pending: bool, confirmed: bool)
    requires currentUser.Some?
    ensures var id := currentUser.value.id;
      && ControlDisabled(pending, currentUser, id)
      && Delete(currentUser, id, confirmed) == RefusedSelf
      && ToggleStatus(currentUser, id, true, confirmed) == RefusedSelf
  {
  }

  /** Any other row's actions go through once confirmed. */
  lemma OtherRowsAct(currentUser: Option<User>, id: int, currentStatus: bool)
    requires !IsSelf(currentUser, id)
    ensures Delete(currentUser, id, true) == DeleteUser(id)
    ensures ToggleStatus(currentUser, id, currentStatus, true) == SetStatus(id, !currentStatus)
    ensures !ControlDisabled(false, currentUser, id)
  {
  }

  datatype BadgeVariant = Destructive | Default | Secondary | Outline

  /** `getRoleBadgeVariant` */
  function RoleBadge(roleName: string): (r: BadgeVariant)
    ensures r == Outline <==> ParseRoleName(roleName).None?
    ensures ParseRoleName(roleName) == Some(Admin) <==> r == Destructive
    ensures ParseRoleName(roleName) == Some(Manager) <==> r == Default
    ensures ParseRoleName(roleName) == Some(Viewer) <==> r == Secondary
  {
    match roleName
    case "Admin" => Destructive
    case "Manager" => Default
    case "Viewer" => Secondary
    case _ => Outline
  }

  /** `formatLastLogin`: "Never" (here `None`) for a missing or empty
      value, the date otherwise. */
  function LastLogin(lastLogin: Option<string>): (r: Option<string>)
    ensures r.None? <==> lastLogin.None? || lastLogin.value == ""
    ensures r.Some? ==> r == lastLogin
  {
    if lastLogin.None? || lastLogin.value == "" then None else lastLogin
  }
}
