/** The role-filtered lists of the dashboard: the quick actions of
    app/dashboard/page.tsx and the statistic cards of
    components/dashboard/stats-cards.tsx. Both filter a declared list by the
    session store's `hasPermission`. */
module Dashboard {
  import opened Wrappers
  import opened Types
  import AuthStore
  import Seqs
  import Permissions

  datatype QuickAction = AddNewItem | ViewInventory | ManageMerchants | ManageUsers | SendReports

  function ActionTitle(a: QuickAction): string {
    match a
    case AddNewItem => "Add New Item"
    case ViewInventory => "View Inventory"
    case ManageMerchants => "Manage Merchants"
    case ManageUsers => "Manage Users"
    case SendReports => "Send Reports"
  }

  function ActionHref(a: QuickAction): string {
    match a
    case AddNewItem => "/dashboard/inventory/new"
    case ViewInventory => "/dashboard/inventory"
    case ManageMerchants => "/dashboard/merchants"
    case ManageUsers => "/dashboard/users"
    case SendReports => "/dashboard/reports"
  }

  /** The actions in declaration order. */
  const AllActions: seq<QuickAction> := [AddNewItem, ViewInventory, ManageMerchants, ManageUsers, SendReports]

  /** The `show` flag of each action. */
  predicate ActionShown(st: AuthStore.AuthState, a: QuickAction) {
    match a
    case ViewInventory => true
    case ManageUsers => AuthStore.HasPermission(st, Admin)
    case _ => AuthStore.HasPermission(st, Manager)
  }

  function ShowsAction(st: AuthStore.AuthState): QuickAction -> bool {
    a => ActionShown(st, a)
  }

  /** `quickActions`: the declared actions whose flag is set, in order. */
  function QuickActions(st: AuthStore.AuthState): (r: seq<QuickAction>)
    ensures ViewInventory in r
    ensures forall i :: 0 <= i < |r| ==> ActionShown(st, r[i])
  {
    Seqs.FilterMembership(ShowsAction(st), AllActions, ViewInventory);
    Seqs.Filter(ShowsAction(st), AllActions)
  }

  /** A store whose user has role name `RoleName(u)`. */
  predicate SignedInAs(st: AuthStore.AuthState, u: Role) {
    st.user.Some? && st.user.value.role.name == RoleName(u)
  }

  /** One element of a filter over a literal list. */
  function Keep<T>(b: bool, x: T): seq<T> {
    if b then [x] else []
  }

  lemma FilterCons<T>(f: T -> bool, x: T, xs: seq<T>)
    ensures Seqs.Filter(f, [x] + xs) == Keep(f(x), x) + Seqs.Filter(f, xs)
  {
    assert ([x] + xs)[1..] == xs;
  }

  lemma FilterOfFive<T>(f: T -> bool, a: T, b: T, c: T, d: T, e: T)
    ensures Seqs.Filter(f, [a, b, c, d, e])
         == Keep(f(a), a) + (Keep(f(b), b) + (Keep(f(c), c) + (Keep(f(d), d) + Keep(f(e), e))))
  {
    var s4: seq<T> := [e] + [];
    var s3 := [d] + s4;
    var s2 := [c] + s3;
    var s1 := [b] + s2;
    FilterCons(f, e, []);
    FilterCons(f, d, s4);
    FilterCons(f, c, s3);
    FilterCons(f, b, s2);
    FilterCons(f, a, s1);
    assert [a, b, c, d, e] == [a] + s1;
  }

  lemma FilterOfFour<T>(f: T -> bool, a: T, b: T, c: T, d: T)
    ensures Seqs.Filter(f, [a, b, c, d]) == Keep(f(a), a) + (Keep(f(b), b) + (Keep(f(c), c) + Keep(f(d), d)))
  {
    var s3: seq<T> := [d] + [];
    var s2 := [c] + s3;
    var s1 := [b] + s2;
    FilterCons(f, d, []);
    FilterCons(f, c, s3);
    FilterCons(f, b, s2);
    FilterCons(f, a, s1);
    assert [a, b, c, d] == [a] + s1;
  }

  /** The quick actions left by the manager flag `m` and the admin flag
      `a`. */
  function ActionsOfFlags(m: bool, a: bool): seq<QuickAction> {
    Keep(m, AddNewItem) + ([ViewInventory] + (Keep(m, ManageMerchants) + (Keep(a, ManageUsers) + Keep(m, SendReports))))
  }

  /** `QuickActions` spelled out flag by flag. */
  lemma QuickActionsUnrolled(st: AuthStore.AuthState)
    ensures QuickActions(st) == ActionsOfFlags(AuthStore.HasPermission(st, Manager), AuthStore.HasPermission(st, Admin))
  {
    var f := ShowsAction(st);
    var m := AuthStore.HasPermission(st, Manager);
    assert f(AddNewItem) == m && f(ManageMerchants) == m && f(SendReports) == m;
    assert f(ViewInventory) && f(ManageUsers) == AuthStore.HasPermission(st, Admin);
    FilterOfFive(f, AddNewItem, ViewInventory, ManageMerchants, ManageUsers, SendReports);
  }

  lemma ActionsOfFlagsCases(m: bool, a: bool)
    requires a ==> m
    ensures !m ==> ActionsOfFlags(m, a) == [ViewInventory]
    ensures m && !a ==> ActionsOfFlags(m, a) == [AddNewItem, ViewInventory, ManageMerchants, SendReports]
    ensures a ==> ActionsOfFlags(m, a) == AllActions
  {
  }

  /** The exact list each role sees. */
  lemma QuickActionsPerRole(st: AuthStore.AuthState, u: Role)
    requires SignedInAs(st, u)
    ensures u == Viewer ==> QuickActions(st) == [ViewInventory]
    ensures u == Manager ==> QuickActions(st) == [AddNewItem, ViewInventory, ManageMerchants, SendReports]
    ensures u == Admin ==> QuickActions(st) == AllActions
  {
    QuickActionsUnrolled(st);
    AuthStore.SignedInRank(st, u, Manager);
    AuthStore.SignedInRank(st, u, Admin);
    ActionsOfFlagsCases(u != Viewer, u == Admin);
  }

  /** The filter keeps declaration order, and a more senior user sees every
      action a junior one sees. */
  lemma QuickActionsOrderedAndMonotone(junior: AuthStore.AuthState, senior: AuthStore.AuthState, a: Role, b: Role)
    requires SignedInAs(junior, a) && SignedInAs(senior, b)
    requires Permissions.Rank(a) <= Permissions.Rank(b)
    ensures Seqs.IsSubsequence(QuickActions(junior), AllActions)
    ensures Seqs.IsSubsequence(QuickActions(junior), QuickActions(senior))
  {
    var p := ShowsAction(junior);
    var q := ShowsAction(senior);
    forall x: QuickAction | p(x) ensures q(x) {
      SeniorSeesAction(junior, senior, a, b, x);
    }
    Seqs.FilterIsSubsequence(p, AllActions);
    Seqs.FilterWeakerTest(p, q, AllActions);
  }

  /** One action: what the junior user sees, the senior one sees. */
  lemma SeniorSeesAction(junior: AuthStore.AuthState, senior: AuthStore.AuthState, a: Role, b: Role, x: QuickAction)
    requires SignedInAs(junior, a) && SignedInAs(senior, b)
    requires Permissions.Rank(a) <= Permissions.Rank(b)
    ensures ShowsAction(junior)(x) ==> ShowsAction(senior)(x)
  {
    AuthStore.SignedInRank(junior, a, Manager);
    AuthStore.SignedInRank(junior, a, Admin);
    AuthStore.SignedInRank(senior, b, Manager);
    AuthStore.SignedInRank(senior, b, Admin);
  }

  /** The merchant statistics and the status breakdown. */
  predicate ShowsMerchantPanels(st: AuthStore.AuthState) {
    AuthStore.HasPermission(st, Manager)
  }

  lemma MerchantPanelsForManagersUp(st: AuthStore.AuthState, u: Role)
    requires SignedInAs(st, u)
    ensures ShowsMerchantPanels(st) <==> u != Viewer
  {
    AuthStore.SignedInRank(st, u, Manager);
  }

  // ---- statistic cards ----

  /** The answer of the quick-stats query. */
  datatype QuickStats = QuickStats(inventoryCount: int, userCount: int, merchantCount: int)

  datatype CardKind = TotalInventory | SystemUsers | Merchants | LowStock

  /** A card's value: a number, or the literal dash. */
  datatype CardValue = Count(n: int) | Dash

  datatype StatCard = StatCard(title: string, value: CardValue, description: string)

  datatype StatsView =
    | Skeletons(count: nat)
    | LoadFailed
    | Cards(cards: seq<StatCard>)

  const AllCards: seq<CardKind> := [TotalInventory, SystemUsers, Merchants, LowStock]

  predicate CardShown(st: AuthStore.AuthState, k: CardKind) {
    match k
    case SystemUsers => AuthStore.HasPermission(st, Admin)
    case Merchants => AuthStore.HasPermission(st, Manager)
    case _ => true
  }

  function ShowsCard(st: AuthStore.AuthState): CardKind -> bool {
    k => CardShown(st, k)
  }

  /** `n || 0` on an optional count: absent and zero both show 0. */
  function OrZero(n: Option<int>): (r: int)
    ensures n.None? ==> r == 0
    ensures n.Some? ==> r == n.value
  {
    if n.Some? && n.value != 0 then n.value else 0
  }

  function Card(k: CardKind, stats: Option<QuickStats>): StatCard {
    match k
    case TotalInventory =>
      StatCard("Total Inventory", Count(OrZero(if stats.Some? then Some(stats.value.inventoryCount) else None)), "Items in stock")
    case SystemUsers =>
      StatCard("System Users", Count(OrZero(if stats.Some? then Some(stats.value.userCount) else None)), "Active users")
    case Merchants =>
      StatCard("Merchants", Count(OrZero(if stats.Some? then Some(stats.value.merchantCount) else None)), "Registered merchants")
    case LowStock =>
      StatCard("Low Stock Items", Dash, "Items running low")
  }

  /** The kinds of card shown, in declaration order. */
  function ShownCards(st: AuthStore.AuthState): (r: seq<CardKind>)
    ensures TotalInventory in r && LowStock in r
    ensures forall i :: 0 <= i < |r| ==> CardShown(st, r[i])
  {
    var r := ShownAmong(st, AllCards);
    assert AllCards[0] == TotalInventory && AllCards[3] == LowStock;
    r
  }

  /** The cards of `ks` shown to the session, in order. */
  function ShownAmong(st: AuthStore.AuthState, ks: seq<CardKind>): (r: seq<CardKind>)
    ensures forall i :: 0 <= i < |r| ==> CardShown(st, r[i])
    ensures forall i :: 0 <= i < |ks| && CardShown(st, ks[i]) ==> ks[i] in r
  {
    Seqs.Filter(ShowsCard(st), ks)
  }

  /** `<StatsCards>` */
  function RenderStats(isLoading: bool, failed: bool, stats: Option<QuickStats>, st: AuthStore.AuthState): (r: StatsView)
    ensures isLoading ==> r == Skeletons(4)
    ensures !isLoading && failed ==> r == LoadFailed
    ensures !isLoading && !failed ==> r.Cards? && |r.cards| == |ShownCards(st)|
    ensures r.Cards? ==> forall i :: 0 <= i < |r.cards| ==>
      r.cards[i].value == Card(ShownCards(st)[i], stats).value
  {
    if isLoading then Skeletons(4)
    else if failed then LoadFailed
    else Cards(Seqs.Map((k: CardKind) => Card(k, stats), ShownCards(st)))
  }

  /** Which cards a signed-in role sees. */
  lemma CardFlags(st: AuthStore.AuthState, u: Role)
    requires SignedInAs(st, u)
    ensures CardShown(st, Merchants) == (u != Viewer)
    ensures CardShown(st, SystemUsers) == (u == Admin)
  {
    AuthStore.SignedInRank(st, u, Manager);
    AuthStore.SignedInRank(st, u, Admin);
  }

  /** The exact card list each role sees. */
  lemma CardsPerRole(st: AuthStore.AuthState, u: Role)
    requires SignedInAs(st, u)
    ensures u == Viewer ==> ShownCards(st) == [TotalInventory, LowStock]
    ensures u == Manager ==> ShownCards(st) == [TotalInventory, Merchants, LowStock]
    ensures u == Admin ==> ShownCards(st) == AllCards
  {
    var f := ShowsCard(st);
    FilterOfFour(f, TotalInventory, SystemUsers, Merchants, LowStock);
    assert f(TotalInventory) && f(LowStock);
    assert Seqs.Filter(f, AllCards) == CardsOfFlags(CardShown(st, Merchants), CardShown(st, SystemUsers));
    CardFlags(st, u);
    CardsOfFlagsCases(u != Viewer, u == Admin);
  }

  /** The cards left by the manager flag `m` and the admin flag `a`. */
  function CardsOfFlags(m: bool, a: bool): seq<CardKind> {
    Keep(true, TotalInventory) + (Keep(a, SystemUsers) + (Keep(m, Merchants) + Keep(true, LowStock)))
  }

  lemma CardsOfFlagsCases(m: bool, a: bool)
    requires a ==> m
    ensures !m ==> CardsOfFlags(m, a) == [TotalInventory, LowStock]
    ensures m && !a ==> CardsOfFlags(m, a) == [TotalInventory, Merchants, LowStock]
    ensures a ==> CardsOfFlags(m, a) == AllCards
  {
  }

  /** The low-stock card always shows the dash, and a missing answer shows
      every count as 0. */
  lemma CardValues(k: CardKind, stats: Option<QuickStats>)
    ensures k == LowStock ==> Card(k, stats).value == Dash
    ensures k != LowStock && stats.None? ==> Card(k, stats).value == Count(0)
    ensures k == TotalInventory && stats.Some? ==> Card(k, stats).value == Count(stats.value.inventoryCount)
  {
  }

  /** The skeleton row does not depend on the role. */
  lemma SkeletonsIgnoreRole(failed: bool, stats: Option<QuickStats>, st1: AuthStore.AuthState, st2: AuthStore.AuthState)
    ensures RenderStats(true, failed, stats, st1) == RenderStats(true, failed, stats, st2)
  {
  }
}
