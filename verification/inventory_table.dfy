/** The inventory list of components/inventory/inventory-table.tsx: its query
    state and the reducers that change it, the stock badge, the price cells,
    and which controls a role sees. */
module InventoryTable {
  import opened Wrappers
  import opened Types
  import AuthStore
  import UseDashboard

  /** The table's initial query: first page of ten, by name, ascending. */
  const InitialQuery: InventoryQueryParams :=
    InventoryQueryParams(Some(1), Some(10), Some(""), Some("name"), Some(Asc))

  /** `handleSearch`: the new text, back to the first page. */
  function Search(p: InventoryQueryParams, search: string): (r: InventoryQueryParams)
    ensures r.search == Some(search) && r.page == Some(1)
    ensures r.limit == p.limit && r.sort == p.sort && r.order == p.order
  {
    p.(search := Some(search), page := Some(1))
  }

  /** `handleSort`: a click on the current ascending column flips it to
      descending; any other click sorts ascending. The page is kept. */
  function Sort(p: InventoryQueryParams, key: string): (r: InventoryQueryParams)
    ensures r.sort == Some(key)
    ensures r.order == Some(Desc) <==> p.sort == Some(key) && p.order == Some(Asc)
    ensures r.order.Some?
    ensures r.page == p.page && r.limit == p.limit && r.search == p.search
  {
    p.(sort := Some(key), order := Some(if p.sort == Some(key) && p.order == Some(Asc) then Desc else Asc))
  }

  /** Clicking a column header again reverses its order; clicking a new
      column always starts ascending. */
  lemma SortToggles(p: InventoryQueryParams, key: string)
    ensures Sort(Sort(p, key), key).order != Sort(p, key).order
    ensures Sort(Sort(Sort(p, key), key), key).order == Sort(p, key).order
    ensures p.sort != Some(key) ==> Sort(p, key).order == Some(Asc)
  {
  }

  /** `handlePageChange` */
  function ChangePage(p: InventoryQueryParams, page: int): (r: InventoryQueryParams)
    ensures r.page == Some(page)
    ensures r.(page := p.page) == p
  {
    p.(page := Some(page))
  }

  /** A search after any paging lands on the first page with the text. */
  lemma SearchForgetsPage(p: InventoryQueryParams, page: int, search: string)
    ensures Search(ChangePage(p, page), search) == Search(p, search)
  {
  }

  datatype StockStatus = OutOfStock | LowStock | InStock

  /** `getStockStatus` */
  function StockStatusOf(quantity: int): (r: StockStatus)
    ensures r == OutOfStock <==> quantity == 0
    ensures r == LowStock <==> quantity != 0 && quantity <= 10
    ensures r == InStock <==> quantity > 10
  {
    if quantity == 0 then OutOfStock
    else if quantity <= 10 then LowStock
    else InStock
  }

  /** The badge agrees with the dashboard's low-stock count: an item is
      counted there iff its badge is not "In Stock". */
  lemma BadgeAgreesWithDashboard(item: InventoryItem)
    ensures UseDashboard.IsLowStock(item) <==> StockStatusOf(item.quantity) != InStock
  {
  }

  /** The unit-price and total-value cells: "N/A" (here `None`) when the
      price is zero, otherwise the price and `quantity * price`. */
  function PriceCells(item: InventoryItem): (r: Option<(int, int)>)
    ensures r.None? <==> item.unitPriceCents == 0
    ensures r.Some? ==> r.value.0 == item.unitPriceCents && r.value.1 == UseDashboard.ItemValue(item)
  {
    if item.unitPriceCents == 0 then None else Some((item.unitPriceCents, UseDashboard.ItemValue(item)))
  }

  /** The controls a signed-in user sees. */
  datatype Controls = Controls(addButton: bool, quantityEditor: bool, actionsColumn: bool)

  function ControlsFor(st: AuthStore.AuthState, showActions: bool): (r: Controls)
    ensures r.addButton == r.quantityEditor
    ensures r.actionsColumn ==> r.addButton && showActions
    ensures r.addButton <==> AuthStore.HasPermission(st, Manager)
  {
    var manager := AuthStore.HasPermission(st, Manager);
    Controls(manager, manager, showActions && manager)
  }

  /** A viewer, or nobody signed in, gets no control that changes stock;
      a manager or an admin gets them all. */
  lemma ControlsByRole(st: AuthStore.AuthState, showActions: bool)
    ensures st.user.None? ==> ControlsFor(st, showActions) == Controls(false, false, false)
    ensures st.user.Some? && st.user.value.role.name == "Viewer" ==>
      ControlsFor(st, showActions) == Controls(false, false, false)
    ensures st.user.Some? && st.user.value.role.name in {"Manager", "Admin"} ==>
      ControlsFor(st, showActions) == Controls(true, true, showActions)
  {
  }

  /** `handleDelete`: the id to delete once the user confirms. */
  function DeleteRequest(id: int, confirmed: bool): (r: Option<int>)
    ensures r.Some? <==> confirmed
    ensures r.Some? ==> r.value == id
  {
    if confirmed then Some(id) else None
  }

  /** The "N items total" line: `pagination.total || 0`, 0 before any
      answer. */
  function TotalLine(meta: Option<PaginationMeta>): (r: int)
    ensures meta.None? ==> r == 0
    ensures meta.Some? ==> r == meta.value.total
  {
    match meta
    case None => 0
    case Some(m) => m.total
  }
}
