/** The two queries of hooks/use-dashboard.ts: the statistics computed from
    the first page of inventory (up to 100 items), and the three counts of
    the statistic cards, where the user and merchant counts fall back to 0
    when their request is refused. Prices are whole cents and `createdAt` is
    the item's timestamp. */
module UseDashboard {
  import opened Wrappers
  import opened Types
  import Seqs
  import Dashboard

  /** The stock level at or below which an item counts as low in the
      dashboard statistics and the inventory table. */
  const LowStockThreshold: int := 10

  predicate IsLowStock(item: InventoryItem) {
    item.quantity <= LowStockThreshold
  }

  /** `items.filter(item => item.quantity <= 10).length` */
  function LowStockCount(items: seq<InventoryItem>): (r: nat)
    ensures r <= |items|
  {
    |Seqs.Filter(IsLowStock, items)|
  }

  /** The count is 0 exactly when no item is low, and the number of items
      exactly when every item is. */
  lemma LowStockCountExtremes(items: seq<InventoryItem>)
    ensures LowStockCount(items) == 0 <==> forall i :: 0 <= i < |items| ==> !IsLowStock(items[i])
    ensures LowStockCount(items) == |items| <==> forall i :: 0 <= i < |items| ==> IsLowStock(items[i])
  {
    NoLowStock(items);
    AllLowStock(items);
  }

  lemma NoLowStock(items: seq<InventoryItem>)
    ensures LowStockCount(items) == 0 <==> forall i :: 0 <= i < |items| ==> !IsLowStock(items[i])
  {
    if forall i :: 0 <= i < |items| ==> !IsLowStock(items[i]) {
      Seqs.FilterNone(IsLowStock, items);
    } else {
      var i :| 0 <= i < |items| && IsLowStock(items[i]);
      assert items[i] in Seqs.Filter(IsLowStock, items);
    }
  }

  lemma AllLowStock(items: seq<InventoryItem>)
    ensures LowStockCount(items) == |items| <==> forall i :: 0 <= i < |items| ==> IsLowStock(items[i])
  {
    if forall i :: 0 <= i < |items| ==> IsLowStock(items[i]) {
      Seqs.FilterAll(IsLowStock, items);
    } else {
      var i :| 0 <= i < |items| && !IsLowStock(items[i]);
      Seqs.FilterComplementLength(IsLowStock, items);
      assert items[i] in Seqs.Filter(x => !IsLowStock(x), items);
    }
  }

  /** The stock value of one item, `unitPrice * quantity`. */
  function ItemValue(item: InventoryItem): int {
    item.unitPriceCents * item.quantity
  }

  /** `items.reduce((sum, item) => sum + item.unitPrice * item.quantity, 0)` */
  function TotalValue(items: seq<InventoryItem>): (r: int)
    ensures (forall i :: 0 <= i < |items| ==> ItemValue(items[i]) >= 0) ==> r >= 0
  {
    if items == [] then 0 else ItemValue(items[0]) + TotalValue(items[1..])
  }

  /** The reduce splits over concatenation. */
  lemma {:induction false} TotalValueAppend(xs: seq<InventoryItem>, ys: seq<InventoryItem>)
    ensures TotalValue(xs + ys) == TotalValue(xs) + TotalValue(ys)
  {
    if xs == [] {
      assert xs + ys == ys;
    } else {
      assert (xs + ys)[1..] == xs[1..] + ys;
      TotalValueAppend(xs[1..], ys);
    }
  }

  /** Newest first: no item is newer than one before it. */
  predicate NewestFirst(s: seq<InventoryItem>) {
    forall i, j :: 0 <= i < j < |s| ==> s[i].createdAt >= s[j].createdAt
  }

  /** No item of `s` is newer than `t`. */
  predicate NoNewerThan(s: seq<InventoryItem>, t: int) {
    forall k :: 0 <= k < |s| ==> s[k].createdAt <= t
  }

  /** Puts `x` in front of the first item that is not newer than it. */
  function Insert(x: InventoryItem, s: seq<InventoryItem>): (r: seq<InventoryItem>)
    ensures |r| == |s| + 1
    ensures multiset(r) == multiset{x} + multiset(s)
  {
    if s == [] || s[0].createdAt <= x.createdAt then
      [x] + s
    else
      assert s == [s[0]] + s[1..];
      [s[0]] + Insert(x, s[1..])
  }

  lemma {:induction false} InsertNoNewer(x: InventoryItem, s: seq<InventoryItem>, t: int)
    requires NoNewerThan(s, t) && x.createdAt <= t
    ensures NoNewerThan(Insert(x, s), t)
  {
    if !(s == [] || s[0].createdAt <= x.createdAt) {
      InsertNoNewer(x, s[1..], t);
      assert forall k :: 1 <= k < |s| ==> s[1..][k - 1] == s[k];
    }
  }

  /** Inserting into a newest-first list keeps it newest first. */
  lemma {:induction false} InsertSorted(x: InventoryItem, s: seq<InventoryItem>)
    requires NewestFirst(s)
    ensures NewestFirst(Insert(x, s))
  {
    if !(s == [] || s[0].createdAt <= x.createdAt) {
      var rest := Insert(x, s[1..]);
      InsertSorted(x, s[1..]);
      assert NoNewerThan(s[1..], s[0].createdAt);
      InsertNoNewer(x, s[1..], s[0].createdAt);
      var r := [s[0]] + rest;
      assert forall k :: 1 <= k < |r| ==> r[k] == rest[k - 1];
    }
  }

  /** `items.sort((a, b) => b.createdAt - a.createdAt)`: an insertion sort
      that keeps equal timestamps in their original order. */
  function SortNewestFirst(items: seq<InventoryItem>): (r: seq<InventoryItem>)
    ensures |r| == |items|
    ensures multiset(r) == multiset(items)
    ensures NewestFirst(r)
  {
    if items == [] then []
    else
      assert items == [items[0]] + items[1..];
      InsertSorted(items[0], SortNewestFirst(items[1..]));
      Insert(items[0], SortNewestFirst(items[1..]))
  }

  /** Inserting adds the item's value and its low-stock mark. */
  lemma {:induction false} InsertKeepsStats(x: InventoryItem, s: seq<InventoryItem>)
    ensures TotalValue(Insert(x, s)) == ItemValue(x) + TotalValue(s)
    ensures LowStockCount(Insert(x, s)) == LowStockCount([x]) + LowStockCount(s)
  {
    if s == [] || s[0].createdAt <= x.createdAt {
      assert ([x] + s)[1..] == s;
      Seqs.FilterAppend(IsLowStock, [x], s);
    } else {
      var rest := Insert(x, s[1..]);
      InsertKeepsStats(x, s[1..]);
      assert ([s[0]] + rest)[1..] == rest;
      assert s == [s[0]] + s[1..];
      Seqs.FilterAppend(IsLowStock, [s[0]], rest);
      Seqs.FilterAppend(IsLowStock, [s[0]], s[1..]);
    }
  }

  /** `.slice(0, 5)` of the sorted items: the five newest. */
  function RecentItems(items: seq<InventoryItem>): (r: seq<InventoryItem>)
    ensures |r| == if |items| < 5 then |items| else 5
    ensures r == SortNewestFirst(items)[..|r|]
    ensures NewestFirst(r)
    ensures multiset(r) <= multiset(items)
  {
    var sorted := SortNewestFirst(items);
    var r := Seqs.Take(sorted, 5);
    calc {
      multiset(items);
      multiset(sorted);
      { assert sorted == r + sorted[|r|..]; }
      multiset(r) + multiset(sorted[|r|..]);
    }
    r
  }

  /** Every item left out of the recent list is no newer than any item in
      it. */
  lemma OmittedItemsAreOlder(items: seq<InventoryItem>, i: int, j: int)
    requires 0 <= i < |RecentItems(items)| <= j < |items|
    ensures SortNewestFirst(items)[j].createdAt <= RecentItems(items)[i].createdAt
  {
    var sorted := SortNewestFirst(items);
    assert |sorted| == |items|;
    assert RecentItems(items)[i] == sorted[i];
  }

  /** The answer of `GET /inventory?limit=100`. */
  datatype InventoryPage = InventoryPage(data: seq<InventoryItem>, pagination: PaginationMeta)

  datatype DashboardStats = DashboardStats(
    totalItems: int,
    lowStockItems: nat,
    totalValue: int,
    recentItems: seq<InventoryItem>)

  /** `useDashboardStats`: a failed request fails the query; otherwise the
      statistics of the page, with the server's total. */
  function DashboardStatsOf(response: Result<InventoryPage, string>): (r: Result<DashboardStats, string>)
    ensures response.Err? ==> r == Err(response.error)
    ensures response.Ok? ==> r.Ok? && r.value.totalItems == response.value.pagination.total
    ensures response.Ok? ==> r.value.lowStockItems <= |response.value.data|
    ensures response.Ok? ==> |r.value.recentItems| <= 5 && NewestFirst(r.value.recentItems)
    ensures response.Ok? ==> r.value.lowStockItems == LowStockCount(response.value.data)
    ensures response.Ok? ==> r.value.totalValue == TotalValue(response.value.data)
    ensures response.Ok? ==> r.value.recentItems == RecentItems(response.value.data)
  {
    match response
    case Err(e) => Err(e)
    case Ok(page) =>
      Ok(DashboardStats(page.pagination.total, LowStockCount(page.data), TotalValue(page.data), RecentItems(page.data)))
  }

  /** The low-stock count and the total value do not depend on the order
      the server returned the items in. */
  lemma StatsIgnoreOrder(items: seq<InventoryItem>)
    ensures LowStockCount(SortNewestFirst(items)) == LowStockCount(items)
    ensures TotalValue(SortNewestFirst(items)) == TotalValue(items)
  {
    LowStockIgnoresOrder(items);
    ValueIgnoresOrder(items);
  }

  lemma {:induction false} LowStockIgnoresOrder(items: seq<InventoryItem>)
    ensures LowStockCount(SortNewestFirst(items)) == LowStockCount(items)
  {
    if items != [] {
      LowStockIgnoresOrder(items[1..]);
      InsertKeepsStats(items[0], SortNewestFirst(items[1..]));
      assert items == [items[0]] + items[1..];
      Seqs.FilterAppend(IsLowStock, [items[0]], items[1..]);
    }
  }

  lemma {:induction false} ValueIgnoresOrder(items: seq<InventoryItem>)
    ensures TotalValue(SortNewestFirst(items)) == TotalValue(items)
  {
    if items != [] {
      ValueIgnoresOrder(items[1..]);
      InsertKeepsStats(items[0], SortNewestFirst(items[1..]));
    }
  }

  /** The statistics do not depend on the order of the page: the page and
      the same page sorted newest first give the same counts, value and
      recent list. */
  lemma StatsOfSortedPage(page: InventoryPage)
    ensures var sorted := page.(data := SortNewestFirst(page.data));
      DashboardStatsOf(Ok(sorted)) == DashboardStatsOf(Ok(page))
  {
    StatsIgnoreOrder(page.data);
    SortedIsFixed(SortNewestFirst(page.data));
  }

  /** Sorting a list that is already newest first changes nothing. */
  lemma {:induction false} SortedIsFixed(items: seq<InventoryItem>)
    requires NewestFirst(items)
    ensures SortNewestFirst(items) == items
  {
    if items != [] {
      var rest := items[1..];
      assert NewestFirst(rest) by {
        assert forall i :: 0 <= i < |rest| ==> rest[i] == items[i + 1];
      }
      SortedIsFixed(rest);
      assert items == [items[0]] + rest;
    }
  }

  /** `pagination?.total || 0` of an optional request: a refused request,
      a missing total and a zero total all give 0. */
  function CountOrZero(response: Result<Option<int>, string>): (r: int)
    ensures response.Err? ==> r == 0
    ensures response.Ok? ==> r == Dashboard.OrZero(response.value)
  {
    match response
    case Err(_) => 0
    case Ok(total) => Dashboard.OrZero(total)
  }

  /** `useQuickStats`: the inventory request decides success; the user and
      merchant requests never fail the query. */
  function QuickStatsOf(inventory: Result<int, string>, users: Result<Option<int>, string>, merchants: Result<Option<int>, string>)
    : (r: Result<Dashboard.QuickStats, string>)
    ensures inventory.Err? <==> r.Err?
    ensures inventory.Err? ==> r.error == inventory.error
    ensures r.Ok? ==> r.value.inventoryCount == inventory.value
    ensures r.Ok? ==> r.value.userCount == CountOrZero(users) && r.value.merchantCount == CountOrZero(merchants)
  {
    match inventory
    case Err(e) => Err(e)
    case Ok(total) => Ok(Dashboard.QuickStats(total, CountOrZero(users), CountOrZero(merchants)))
  }

  /** A viewer, refused by both guarded endpoints, sees counts of 0. */
  lemma RefusedCountsAreZero(total: int, e1: string, e2: string)
    ensures QuickStatsOf(Ok(total), Err(e1), Err(e2)) == Ok(Dashboard.QuickStats(total, 0, 0))
  {
  }
}
