/** The user queries of hooks/use-users.ts: the list query's parameters,
    the single-user query, and the statistics assembled from six counting
    requests. */
module UseUsers {
  import opened Wrappers
  import opened Types
  import opened QueryString
  import Seqs
  import UsersTable
  import opened Text

  /** The fields `useUsers` appends, in order. */
  function ListFields(p: UserQueryParams): (r: seq<Field>)
    ensures |r| == 5 && DistinctKeys(r)
    ensures Keys(r) == ["page", "limit", "search", "role", "status"]
  {
    [("page", NumValue(p.page)), ("limit", NumValue(p.limit)), ("search", TextValue(p.search)),
     ("role", TextValue(p.role)), ("status", TextValue(p.status))]
  }

  function ListPairs(p: UserQueryParams): (r: seq<Pair>)
    ensures |r| <= 5
  {
    Build(ListFields(p))
  }

  /** The users table's first request: the empty search and role and the
      missing status are all falsy, so only the page and the limit go out. */
  lemma TableFirstRequest()
    ensures UsersTable.InitialQuery.search == Some("") && UsersTable.InitialQuery.status.None?
    ensures ListPairs(UsersTable.InitialQuery) == [("page", "1"), ("limit", "10")]
  {
    assert IntToString(10) == "10" by {
      assert NatToString(10) == NatToString(1) + [DigitChar(0)];
    }
  }

  /** The list query sends page, limit, search, role and status in that
      order, each only when truthy. */
  lemma ListPairsSpec(p: UserQueryParams)
    ensures Seqs.IsSubsequence(Keys(ListPairs(p)), ["page", "limit", "search", "role", "status"])
    ensures Lookup(ListPairs(p), "page") == NumValue(p.page)
    ensures Lookup(ListPairs(p), "limit") == NumValue(p.limit)
    ensures Lookup(ListPairs(p), "search") == TextValue(p.search)
    ensures Lookup(ListPairs(p), "role") == TextValue(p.role)
    ensures Lookup(ListPairs(p), "status") == TextValue(p.status)
  {
    var fs := ListFields(p);
    BuildKeepsOrder(fs);
    BuildSends(fs, 0);
    BuildSends(fs, 1);
    BuildSends(fs, 2);
    BuildSends(fs, 3);
    BuildSends(fs, 4);
  }

  /** The table's "all" choice, stored as "", sends no filter at all. */
  lemma AllSendsNoFilter(p: UserQueryParams)
    ensures Lookup(ListPairs(UsersTable.FilterRole(p, "all")), "role").None?
    ensures Lookup(ListPairs(UsersTable.FilterStatus(p, "all")), "status").None?
  {
    ListPairsSpec(UsersTable.FilterRole(p, "all"));
    ListPairsSpec(UsersTable.FilterStatus(p, "all"));
  }

  /** `useUser(id)`: disabled without a non-zero id, and its query function
      throws when run without one. */
  function FetchUser(id: Option<int>): (r: Result<int, string>)
    ensures r.Ok? <==> FetchEnabled(id)
    ensures r.Ok? ==> r.value == id.value
    ensures r.Err? ==> r.error == "ID is required"
  {
    if FetchEnabled(id) then Ok(id.value) else Err("ID is required")
  }

  /** `useUserStats`'s result. */
  datatype UserStats = UserStats(
    total: int,
    adminCount: int,
    managerCount: int,
    viewerCount: int,
    activeCount: int,
    inactiveCount: int)

  /** The six requests, each `limit=1` with at most one filter. */
  const TotalRequest: seq<Pair> := [("limit", "1")]
  function RoleRequest(role: Role): seq<Pair> {
    [("limit", "1"), ("role", RoleName(role))]
  }
  function StatusRequest(active: bool): seq<Pair> {
    [("limit", "1"), ("status", if active then "active" else "inactive")]
  }

  /** Each field is the `pagination.total` of its own request; `total`
      comes from the unfiltered one. */
  function Stats(count: seq<Pair> -> int): (r: UserStats)
    ensures r.total == count(TotalRequest)
    ensures r.adminCount == count(RoleRequest(Admin)) && r.managerCount == count(RoleRequest(Manager))
    ensures r.viewerCount == count(RoleRequest(Viewer))
    ensures r.activeCount == count(StatusRequest(true)) && r.inactiveCount == count(StatusRequest(false))
  {
    UserStats(count(TotalRequest), count(RoleRequest(Admin)), count(RoleRequest(Manager)),
              count(RoleRequest(Viewer)), count(StatusRequest(true)), count(StatusRequest(false)))
  }

  /** How this model reads the server's filters: `role` names the role,
      `status` is "active" or "inactive". */
  predicate Matches(u: User, pairs: seq<Pair>) {
    && (Lookup(pairs, "role").Some? ==> u.role.name == Lookup(pairs, "role").value)
    && (Lookup(pairs, "status") == Some("active") ==> u.isActive)
    && (Lookup(pairs, "status") == Some("inactive") ==> !u.isActive)
  }

  function CountMatching(users: seq<User>, pairs: seq<Pair>): (r: nat)
    ensures r <= |users|
  {
    if users == [] then 0
    else (if Matches(users[0], pairs) then 1 else 0) + CountMatching(users[1..], pairs)
  }

  /** Over a server that counts its users that way, the per-role counts
      add up to the total when every user has one of the three roles, and
      the active and inactive counts always do. */
  lemma StatsAddUp(users: seq<User>, count: seq<Pair> -> int)
    requires forall pairs :: count(pairs) == CountMatching(users, pairs)
    ensures Stats(count).activeCount + Stats(count).inactiveCount == Stats(count).total == |users|
    ensures (forall k :: 0 <= k < |users| ==> ParseRoleName(users[k].role.name).Some?) ==>
      Stats(count).adminCount + Stats(count).managerCount + Stats(count).viewerCount == Stats(count).total
  {
    StatusSplit(users);
    if forall k :: 0 <= k < |users| ==> ParseRoleName(users[k].role.name).Some? {
      RoleSplit(users);
    }
  }

  lemma {:induction false} StatusSplit(users: seq<User>)
    ensures CountMatching(users, StatusRequest(true)) + CountMatching(users, StatusRequest(false))
         == CountMatching(users, TotalRequest) == |users|
  {
    if users != [] {
      StatusSplit(users[1..]);
    }
  }

  lemma {:induction false} RoleSplit(users: seq<User>)
    requires forall k :: 0 <= k < |users| ==> ParseRoleName(users[k].role.name).Some?
    ensures CountMatching(users, RoleRequest(Admin)) + CountMatching(users, RoleRequest(Manager))
          + CountMatching(users, RoleRequest(Viewer)) == |users|
  {
    if users != [] {
      assert ParseRoleName(users[0].role.name).Some?;
      RoleSplit(users[1..]);
    }
  }
}
