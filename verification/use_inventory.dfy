/** The inventory queries of hooks/use-inventory.ts: the list query's
    parameters, the search query, and when the single-item query runs. */
module UseInventory {
  import opened Wrappers
  import opened Types
  import opened Text
  import opened QueryString
  import Seqs
  import InventoryTable

  /** The fields `useInventory` appends, in order. */
  function ListFields(p: InventoryQueryParams): (r: seq<Field>)
    ensures |r| == 5 && DistinctKeys(r)
    ensures Keys(r) == ["page", "limit", "search", "sort", "order"]
  {
    var order := if p.order.Some? then Some(SortOrderName(p.order.value)) else None;
    [("page", NumValue(p.page)), ("limit", NumValue(p.limit)), ("search", TextValue(p.search)),
     ("sort", TextValue(p.sort)), ("order", order)]
  }

  function ListPairs(p: InventoryQueryParams): (r: seq<Pair>)
    ensures |r| <= 5
  {
    Build(ListFields(p))
  }

  /** The list query sends page, limit, search, sort and order in that
      order, each only when truthy; sort and order pass through. */
  lemma ListPairsSpec(p: InventoryQueryParams)
    ensures Seqs.IsSubsequence(Keys(ListPairs(p)), ["page", "limit", "search", "sort", "order"])
    ensures Lookup(ListPairs(p), "page") == NumValue(p.page)
    ensures Lookup(ListPairs(p), "limit") == NumValue(p.limit)
    ensures Lookup(ListPairs(p), "search") == TextValue(p.search)
    ensures Lookup(ListPairs(p), "sort") == TextValue(p.sort)
    ensures Lookup(ListPairs(p), "order") == if p.order.Some? then Some(SortOrderName(p.order.value)) else None
  {
    var fs := ListFields(p);
    BuildKeepsOrder(fs);
    BuildSends(fs, 0);
    BuildSends(fs, 1);
    BuildSends(fs, 2);
    BuildSends(fs, 3);
    BuildSends(fs, 4);
  }

  /** The inventory table's first request leaves the empty search out. */
  lemma TableFirstRequest()
    ensures ListPairs(InventoryTable.InitialQuery) ==
      [("page", "1"), ("limit", "10"), ("sort", "name"), ("order", "asc")]
  {
    assert IntToString(10) == "10" by {
      assert NatToString(10) == NatToString(1) + [DigitChar(0)];
    }
  }

  /** `useInventorySearch(query, limit = 10)`: a blank query sends nothing
      (the query is disabled and would answer `[]`); otherwise the raw,
      untrimmed query goes out with the limit. */
  function SearchRequest(query: string, limit: Option<int>): (r: Option<(string, int)>)
    ensures r.None? <==> IsBlank(query)
    ensures r.Some? ==> r.value.0 == query
    ensures r.Some? && limit.None? ==> r.value.1 == 10
    ensures r.Some? && limit.Some? ==> r.value.1 == limit.value
  {
    if IsBlank(query) then None else Some((query, limit.GetOr(10)))
  }

  /** The search results: `[]` without a request for a blank query, the
      server's answer otherwise. */
  function SearchResults(query: string, limit: Option<int>, answer: (string, int) -> seq<InventoryItem>): (r: seq<InventoryItem>)
    ensures IsBlank(query) ==> r == []
    ensures !IsBlank(query) ==> r == answer(query, limit.GetOr(10))
  {
    match SearchRequest(query, limit)
    case None => []
    case Some(req) => answer(req.0, req.1)
  }

  /** `useInventoryItem(id)` runs only for a non-zero id. */
  function ItemRequest(id: Option<int>): (r: Option<int>)
    ensures r.Some? <==> FetchEnabled(id)
    ensures r.Some? ==> r.value == id.value
  {
    if FetchEnabled(id) then Some(id.value) else None
  }
}
