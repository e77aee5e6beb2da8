/** The merchant table of components/merchants/merchants-table.tsx: its
    query state, the search and status filters, paging, and the confirmed
    delete and activate/deactivate actions. Unlike the users table it has
    no guard on whose row is acted on. */
module MerchantsTable {
  import opened Wrappers
  import opened Types
  import opened QueryString
  import UseMerchants
  import UseUsers
  import UsersTable
  import Seqs

  /** The first query: page 1 of 10, empty search, no status. */
  const InitialQuery := MerchantQueryParams(Some(1), Some(10), Some(""), None)

  /** `handleSearch`: the new text, back to page 1. */
  function Search(p: MerchantQueryParams, text: string): (r: MerchantQueryParams)
    ensures r.search == Some(text) && r.page == Some(1)
    ensures r.(search := p.search, page := p.page) == p
  {
    p.(search := Some(text), page := Some(1))
  }

  /** The status select's items. */
  const StatusItems: seq<string> := ["all", "active", "inactive"]

  /** `handleStatusFilter`: "all" clears the status; back to page 1. */
  function FilterStatus(p: MerchantQueryParams, item: string): (r: MerchantQueryParams)
    requires item in StatusItems
    ensures r.status.None? <==> item == "all"
    ensures r.status.Some? ==> r.status.value == item
    ensures r.page == Some(1) && r.(status := p.status, page := p.page) == p
  {
    p.(status := if item == "all" then None else Some(item), page := Some(1))
  }

  /** `value={queryParams.status || "all"}` */
  function StatusSelectValue(p: MerchantQueryParams): (r: string)
    ensures p.status.None? || p.status.value == "" ==> r == "all"
    ensures p.status.Some? && p.status.value != "" ==> r == p.status.value
  {
    UsersTable.Shown(p.status)
  }

  /** The status select shows the item just chosen. */
  lemma StatusSelectShowsChoice(p: MerchantQueryParams, item: string)
    requires item in StatusItems
    ensures StatusSelectValue(FilterStatus(p, item)) == item
  {
  }

  /** `handlePageChange` */
  function ChangePage(p: MerchantQueryParams, page: int): (r: MerchantQueryParams)
    ensures r.page == Some(page) && r.(page := p.page) == p
  {
    p.(page := Some(page))
  }

  /** "all" sends no status; "active" and "inactive" send themselves; the
      search and page stay as they were. */
  lemma StatusFilterRequest(p: MerchantQueryParams, item: string)
    requires item in StatusItems
    ensures item == "all" ==> Lookup(UseMerchants.ListPairs(FilterStatus(p, item)), "status").None?
    ensures item != "all" ==> Lookup(UseMerchants.ListPairs(FilterStatus(p, item)), "status") == Some(item)
    ensures Lookup(UseMerchants.ListPairs(FilterStatus(p, item)), "search") == TextValue(p.search)
    ensures Lookup(UseMerchants.ListPairs(FilterStatus(p, item)), "page") == Some("1")
  {
    UseMerchants.ListPairsSpec(FilterStatus(p, item));
    assert Text.IntToString(1) == "1";
  }

  /** The users table stores "all" as "" and this one as nothing; either
      way no status reaches the server. */
  lemma AllMeansNoStatusInBothTables(mp: MerchantQueryParams, up: UserQueryParams)
    ensures Lookup(UseMerchants.ListPairs(FilterStatus(mp, "all")), "status").None?
    ensures Lookup(UseUsers.ListPairs(UsersTable.FilterStatus(up, "all")), "status").None?
    ensures FilterStatus(mp, "all").status.None? && UsersTable.FilterStatus(up, "all").status == Some("")
  {
    StatusFilterRequest(mp, "all");
    UseUsers.AllSendsNoFilter(up);
  }

  /** What a confirmed action asks the server to do. */
  datatype Outcome = Cancelled | DeleteMerchant(id: int) | SetActive(id: int, isActive: bool)

  /** `handleDelete`: deletes once confirmed. */
  function Delete(id: int, confirmed: bool): (r: Outcome)
    ensures r.DeleteMerchant? <==> confirmed
    ensures r.DeleteMerchant? ==> r.id == id
    ensures !confirmed ==> r == Cancelled
  {
    if confirmed then DeleteMerchant(id) else Cancelled
  }

  /** The verb the confirmation names: "activate" for an inactive
      merchant, "deactivate" for an active one. */
  function ToggleVerb(currentStatus: bool): (r: string)
    ensures r == "activate" <==> !currentStatus
  {
    if !currentStatus then "activate" else "deactivate"
  }

  /** `handleStatusToggle`: once confirmed, sends the opposite status. */
  function Toggle(id: int, currentStatus: bool, confirmed: bool): (r: Outcome)
    ensures r.SetActive? <==> confirmed
    ensures r.SetActive? ==> r.id == id && r.isActive != currentStatus
    ensures !confirmed ==> r == Cancelled
  {
    if confirmed then SetActive(id, !currentStatus) else Cancelled
  }

  /** The server applying an outcome to the merchant list. */
  function Apply(ms: seq<Merchant>, o: Outcome): (r: seq<Merchant>)
    ensures o.Cancelled? ==> r == ms
    ensures o.SetActive? ==> |r| == |ms|
  {
    match o
    case Cancelled => ms
    case DeleteMerchant(id) => Seqs.Filter((m: Merchant) => m.id != id, ms)
    case SetActive(id, a) => Seqs.Map((m: Merchant) => if m.id == id then m.(isActive := a) else m, ms)
  }

  predicate UniqueIds(ms: seq<Merchant>) {
    forall j, k :: 0 <= j < k < |ms| ==> ms[j].id != ms[k].id
  }

  /** A confirmed toggle flips the merchant's status and touches no other
      row; toggling the same row again restores the list. */
  lemma ToggleFlipsOnlyThatRow(ms: seq<Merchant>, i: int)
    requires 0 <= i < |ms| && UniqueIds(ms)
    ensures var r := Apply(ms, Toggle(ms[i].id, ms[i].isActive, true));
      && r[i] == ms[i].(isActive := !ms[i].isActive)
      && (forall k :: 0 <= k < |ms| && k != i ==> r[k] == ms[k])
    ensures var r := Apply(ms, Toggle(ms[i].id, ms[i].isActive, true));
      Apply(r, Toggle(r[i].id, r[i].isActive, true)) == ms
  {
    var r := Apply(ms, Toggle(ms[i].id, ms[i].isActive, true));
    var back := Apply(r, Toggle(r[i].id, r[i].isActive, true));
    assert |back| == |ms|;
    forall k | 0 <= k < |ms| ensures back[k] == ms[k] {
      if k != i {
        assert ms[k].id != ms[i].id;
      }
    }
  }

  /** A confirmed delete removes exactly the rows with that id. */
  lemma DeleteRemovesThatRow(ms: seq<Merchant>, id: int)
    ensures forall m :: m in Apply(ms, Delete(id, true)) ==> m in ms && m.id != id
    ensures forall m :: m in ms && m.id != id ==> m in Apply(ms, Delete(id, true))
  {
    var r := Apply(ms, Delete(id, true));
    forall m | m in r ensures m in ms && m.id != id {
      var k :| 0 <= k < |r| && r[k] == m;
    }
    forall m | m in ms && m.id != id ensures m in r {
      var k :| 0 <= k < |ms| && ms[k] == m;
    }
  }
}
