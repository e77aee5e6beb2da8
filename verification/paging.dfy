/** The pagination footer every table repeats (inventory-table.tsx,
    merchants-table.tsx, users-table.tsx, email-logs-table.tsx): shown for
    more than one page, "Showing from to to of total", and the Previous and
    Next buttons. */
module Paging {
  import opened Wrappers
  import opened Types

  /** The footer is shown only when there is more than one page. */
  predicate FooterShown(m: PaginationMeta) {
    m.totalPages > 1
  }

  /** The meta a server answer is expected to carry: pages of `limit`
      items, `totalPages` the ceiling of `total / limit`, and the two flags
      saying whether a page lies before or after this one. */
  predicate Consistent(m: PaginationMeta) {
    && m.limit >= 1 && m.total >= 0
    && m.totalPages == (m.total + m.limit - 1) / m.limit
    && 1 <= m.page <= m.totalPages
    && m.hasPrev == (m.page > 1)
    && m.hasNext == (m.page < m.totalPages)
  }

  /** `(page - 1) * limit + 1` */
  function ShowingFrom(m: PaginationMeta): int {
    (m.page - 1) * m.limit + 1
  }

  /** `Math.min(page * limit, total)` */
  function ShowingTo(m: PaginationMeta): int {
    if m.page * m.limit <= m.total then m.page * m.limit else m.total
  }

  /** On a consistent page the range is non-empty, inside `1..total`, at
      most `limit` long, and full on every page but the last. */
  lemma RangeBounds(m: PaginationMeta)
    requires Consistent(m)
    ensures 1 <= ShowingFrom(m) <= ShowingTo(m) <= m.total
    ensures ShowingTo(m) - ShowingFrom(m) + 1 <= m.limit
    ensures m.page < m.totalPages ==> ShowingTo(m) - ShowingFrom(m) + 1 == m.limit
    ensures m.page == m.totalPages ==> ShowingTo(m) == m.total
  {
    var p, L, q, t := m.page, m.limit, m.totalPages, m.total;
    var a, b := (p - 1) * L, (q - 1) * L;
    PagesFit(t, L);
    assert b <= t - 1 < b + L;
    MulMonotone(p - 1, q - 1, L);
    MulMonotone(0, p - 1, L);
    assert 0 <= a <= b;
    assert p * L == a + L;
    if p < q {
      MulMonotone(p, q - 1, L);
      assert a + L <= b;
    }
  }

  /** `totalPages` pages hold the items, and one page fewer does not. */
  lemma PagesFit(t: int, L: int)
    requires L >= 1 && t >= 0
    ensures var q := (t + L - 1) / L; (q - 1) * L <= t - 1 < (q - 1) * L + L
  {
    var q := (t + L - 1) / L;
    var rest := (t + L - 1) % L;
    assert t + L - 1 == q * L + rest;
    assert (q - 1) * L == q * L - L;
  }

  lemma MulMonotone(a: int, b: int, c: int)
    requires a <= b && c >= 0
    ensures a * c <= b * c
  {
  }

  /** Whenever the page starts inside the items, the range is non-empty. */
  lemma RangeNonEmpty(m: PaginationMeta)
    requires m.page >= 1 && m.limit >= 1 && (m.page - 1) * m.limit < m.total
    ensures 1 <= ShowingFrom(m) <= ShowingTo(m) <= m.total
  {
    MulMonotone(0, m.page - 1, m.limit);
    assert m.page * m.limit == (m.page - 1) * m.limit + m.limit;
  }

  /** The page the Previous or Next button asks for, if it is enabled. */
  function Previous(m: PaginationMeta): (r: Option<int>)
    ensures r.Some? <==> m.hasPrev
    ensures r.Some? ==> r.value == m.page - 1
  {
    if m.hasPrev then Some(m.page - 1) else None
  }

  function Next(m: PaginationMeta): (r: Option<int>)
    ensures r.Some? <==> m.hasNext
    ensures r.Some? ==> r.value == m.page + 1
  {
    if m.hasNext then Some(m.page + 1) else None
  }

  /** On a consistent page the buttons never leave `1..totalPages`. */
  lemma ButtonsStayInRange(m: PaginationMeta)
    requires Consistent(m)
    ensures Previous(m).Some? ==> 1 <= Previous(m).value < m.page
    ensures Next(m).Some? ==> m.page < Next(m).value <= m.totalPages
    ensures FooterShown(m) ==> Previous(m).Some? || Next(m).Some?
  {
  }

  /** Consecutive pages tile the items: the next page starts right after
      this one ends. */
  lemma PagesTile(m: PaginationMeta)
    requires Consistent(m) && m.hasNext
    ensures ShowingTo(m) + 1 == ShowingFrom(m.(page := m.page + 1, hasPrev := true,
                                                 hasNext := m.page + 1 < m.totalPages))
  {
    RangeBounds(m);
  }
}
