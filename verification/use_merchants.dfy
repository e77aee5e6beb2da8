/** The merchant queries of hooks/use-merchants.ts: the list query's
    parameters, the messages after a bulk import, the by-id query, the
    active-merchant list and the statistics. */
module UseMerchants {
  import opened Wrappers
  import opened Types
  import opened Text
  import opened QueryString
  import Seqs

  /** The fields `useMerchants` appends, in order. */
  function ListFields(p: MerchantQueryParams): (r: seq<Field>)
    ensures |r| == 4 && DistinctKeys(r)
    ensures Keys(r) == ["page", "limit", "search", "status"]
  {
    [("page", NumValue(p.page)), ("limit", NumValue(p.limit)), ("search", TextValue(p.search)),
     ("status", TextValue(p.status))]
  }

  function ListPairs(p: MerchantQueryParams): (r: seq<Pair>)
    ensures |r| <= 4
  {
    Build(ListFields(p))
  }

  /** The list query sends page, limit, search and status in that order,
      each only when truthy. */
  lemma ListPairsSpec(p: MerchantQueryParams)
    ensures Seqs.IsSubsequence(Keys(ListPairs(p)), ["page", "limit", "search", "status"])
    ensures Lookup(ListPairs(p), "page") == NumValue(p.page)
    ensures Lookup(ListPairs(p), "limit") == NumValue(p.limit)
    ensures Lookup(ListPairs(p), "search") == TextValue(p.search)
    ensures Lookup(ListPairs(p), "status") == TextValue(p.status)
  {
    var fs := ListFields(p);
    BuildKeepsOrder(fs);
    BuildSends(fs, 0);
    BuildSends(fs, 1);
    BuildSends(fs, 2);
    BuildSends(fs, 3);
  }

  /** `BulkImportResponse` */
  datatype BulkImportResponse = BulkImportResponse(imported: int, skipped: int, errors: seq<string>)

  /** The toasts after an import: a success line only when something was
      imported, naming the skipped count only when there is one, then one
      error toast per returned error, in order. */
  datatype ImportToasts = ImportToasts(success: Option<string>, errors: seq<string>)

  function ImportMessages(result: BulkImportResponse): (r: ImportToasts)
    ensures r.success.Some? <==> result.imported > 0
    ensures r.success.Some? ==>
      StartsWith(r.success.value, "Successfully imported " + IntToString(result.imported) + " merchants")
    ensures r.success.Some? && result.skipped <= 0 ==>
      r.success.value == "Successfully imported " + IntToString(result.imported) + " merchants"
    ensures r.success.Some? && result.skipped > 0 ==>
      r.success.value == "Successfully imported " + IntToString(result.imported) + " merchants, skipped "
                         + IntToString(result.skipped)
    ensures r.errors == result.errors
  {
    var head := "Successfully imported " + IntToString(result.imported) + " merchants";
    var tail := if result.skipped > 0 then ", skipped " + IntToString(result.skipped) else "";
    assert (head + tail)[..|head|] == head;
    ImportToasts(if result.imported > 0 then Some(head + tail) else None, result.errors)
  }

  /** The skipped count is named exactly when it is positive. */
  lemma SkippedNamedIffPositive(result: BulkImportResponse)
    requires result.imported > 0
    ensures var msg := ImportMessages(result).success.value;
      var head := "Successfully imported " + IntToString(result.imported) + " merchants";
      result.skipped > 0 <==> |msg| > |head|
  {
  }

  /** `useMerchantsByIds(ids)`: disabled and `[]` for no ids; otherwise one
      fetch per id, the answers in the same order. */
  function ByIds(ids: seq<int>, fetch: int -> Merchant): (r: seq<Merchant>)
    ensures |r| == |ids|
    ensures forall i :: 0 <= i < |r| ==> r[i] == fetch(ids[i])
  {
    if |ids| == 0 then [] else Seqs.Map(fetch, ids)
  }

  predicate ByIdsEnabled(ids: seq<int>) {
    |ids| > 0
  }

  /** `useActiveMerchants`: active merchants, up to 1000. */
  const ActiveListRequest: seq<Pair> := [("status", "active"), ("limit", "1000")]

  /** `useMerchantStats`'s result and its three counting requests. */
  datatype MerchantStats = MerchantStats(total: int, activeCount: int, inactiveCount: int)

  const TotalRequest: seq<Pair> := [("limit", "1")]
  function StatusRequest(active: bool): seq<Pair> {
    [("limit", "1"), ("status", if active then "active" else "inactive")]
  }

  function Stats(count: seq<Pair> -> int): (r: MerchantStats)
    ensures r.total == count(TotalRequest)
    ensures r.activeCount == count(StatusRequest(true))
    ensures r.inactiveCount == count(StatusRequest(false))
  {
    MerchantStats(count(TotalRequest), count(StatusRequest(true)), count(StatusRequest(false)))
  }

  /** How this model reads the server's `status` filter. */
  predicate Matches(m: Merchant, pairs: seq<Pair>) {
    && (Lookup(pairs, "status") == Some("active") ==> m.isActive)
    && (Lookup(pairs, "status") == Some("inactive") ==> !m.isActive)
  }

  function CountMatching(merchants: seq<Merchant>, pairs: seq<Pair>): (r: nat)
    ensures r <= |merchants|
  {
    if merchants == [] then 0
    else (if Matches(merchants[0], pairs) then 1 else 0) + CountMatching(merchants[1..], pairs)
  }

  /** Over a server that counts that way, active and inactive add up to the
      total, and the active list asks for exactly the active ones. */
  lemma StatsAddUp(merchants: seq<Merchant>, count: seq<Pair> -> int)
    requires forall pairs :: count(pairs) == CountMatching(merchants, pairs)
    ensures Stats(count).activeCount + Stats(count).inactiveCount == Stats(count).total == |merchants|
    ensures CountMatching(merchants, ActiveListRequest) == Stats(count).activeCount
  {
    StatusSplit(merchants);
  }

  lemma {:induction false} StatusSplit(merchants: seq<Merchant>)
    ensures CountMatching(merchants, StatusRequest(true)) + CountMatching(merchants, StatusRequest(false))
         == CountMatching(merchants, TotalRequest) == |merchants|
    ensures CountMatching(merchants, ActiveListRequest) == CountMatching(merchants, StatusRequest(true))
  {
    if merchants != [] {
      StatusSplit(merchants[1..]);
    }
  }
}
