/** The email-log table of components/reports/email-logs-table.tsx: its
    query state, the search, status and period filters, paging, the export
    and the admin-only retry entry. Days are UTC day numbers and `iso`
    renders one as `YYYY-MM-DD`; `today` is the clock's day. */
module EmailLogsTable {
  import opened Wrappers
  import opened Types
  import opened QueryString
  import AuthStore
  import UseEmailLogs

  type Query = UseEmailLogs.EmailLogQuery

  /** `{ page: 1, limit: 10, ...defaultParams }`: a default given for the
      page or the limit wins over 1 and 10. */
  function Initial(defaults: Query): (r: Query)
    ensures r.page == (if defaults.page.Some? then defaults.page else Some(1))
    ensures r.limit == (if defaults.limit.Some? then defaults.limit else Some(10))
    ensures r.status == defaults.status && r.dateFrom == defaults.dateFrom
    ensures r.dateTo == defaults.dateTo && r.search == defaults.search
  {
    defaults.(page := if defaults.page.Some? then defaults.page else Some(1),
              limit := if defaults.limit.Some? then defaults.limit else Some(10))
  }

  /** `handleSearch`: the new text, back to page 1. */
  function Search(q: Query, text: string): (r: Query)
    ensures r.search == Some(text) && r.page == Some(1)
    ensures r.(search := q.search, page := q.page) == q
  {
    q.(search := Some(text), page := Some(1))
  }

  /** The status select's items. */
  const StatusItems: seq<string> := ["all", "sent", "failed", "pending"]

  function StatusOfItem(item: string): Option<EmailStatus> {
    if item == "sent" then Some(Sent)
    else if item == "failed" then Some(Failed)
    else if item == "pending" then Some(Pending)
    else None
  }

  /** `handleStatusFilter`: "all" clears the status; back to page 1. */
  function FilterStatus(q: Query, item: string): (r: Query)
    requires item in StatusItems
    ensures r.status.None? <==> item == "all"
    ensures r.page == Some(1)
    ensures r.(status := q.status, page := q.page) == q
  {
    q.(status := StatusOfItem(item), page := Some(1))
  }

  /** `value={queryParams.status || "all"}` */
  function StatusSelectValue(q: Query): (r: string)
    ensures r in StatusItems
    ensures r == "all" <==> q.status.None?
    ensures StatusOfItem(r) == q.status
  {
    if q.status.None? then "all" else EmailStatusName(q.status.value)
  }

  /** The status select shows the item just chosen. */
  lemma StatusSelectShowsChoice(q: Query, item: string)
    requires item in StatusItems
    ensures StatusSelectValue(FilterStatus(q, item)) == item
  {
  }

  /** The period select's items. */
  const PeriodItems: seq<string> := ["all", "today", "week", "month"]

  /** The first day of a period: today, 7 days back, 30 days back; any
      other choice has no start. */
  function PeriodStart(period: string, today: int): (r: Option<int>)
    ensures r.Some? <==> period in ["today", "week", "month"]
    ensures r.Some? ==> today - 30 <= r.value <= today
  {
    if period == "today" then Some(today)
    else if period == "week" then Some(today - 7)
    else if period == "month" then Some(today - 30)
    else None
  }

  /** `handleDateFilter`: the period's start as `dateFrom`, no `dateTo`,
      back to page 1. */
  function Period(q: Query, period: string, today: int, iso: int -> string): (r: Query)
    ensures r.dateFrom.None? <==> PeriodStart(period, today).None?
    ensures r.dateFrom.Some? ==> r.dateFrom.value == iso(PeriodStart(period, today).value)
    ensures r.dateTo.None? && r.page == Some(1)
    ensures r.(dateFrom := q.dateFrom, dateTo := q.dateTo, page := q.page) == q
  {
    var start := PeriodStart(period, today);
    q.(dateFrom := if start.Some? then Some(iso(start.value)) else None, dateTo := None, page := Some(1))
  }

  /** `handlePageChange` */
  function ChangePage(q: Query, page: int): (r: Query)
    ensures r.page == Some(page) && r.(page := q.page) == q
  {
    q.(page := Some(page))
  }

  /** `handleExport`: the current query goes to the export as it is, so
      the export follows the status and period filters but neither the
      search box nor the page. */
  function Export(q: Query): (r: seq<Pair>)
    ensures Lookup(r, "status") == UseEmailLogs.StatusValue(q.status)
    ensures Lookup(r, "dateFrom") == TextValue(q.dateFrom) && Lookup(r, "dateTo") == TextValue(q.dateTo)
    ensures Lookup(r, "format") == Some("csv") && Lookup(r, "limit") == Some("10000")
    ensures "search" !in Keys(r) && "page" !in Keys(r)
  {
    UseEmailLogs.ExportSends(q);
    UseEmailLogs.ExportIgnoresPaging(q, q.page, q.limit, q.search);
    UseEmailLogs.ExportPairs(q)
  }

  /** Typing a search or turning the page leaves the export unchanged,
      while the period filter reaches it. */
  lemma ExportIgnoresSearch(q: Query, text: string, page: int, today: int, iso: int -> string)
    ensures Export(Search(q, text)) == Export(q)
    ensures Export(ChangePage(q, page)) == Export(q)
    ensures Lookup(Export(Period(q, "week", today, iso)), "dateFrom") == TextValue(Some(iso(today - 7)))
  {
    UseEmailLogs.ExportIgnoresPaging(q, Some(1), q.limit, Some(text));
    UseEmailLogs.ExportIgnoresPaging(q, Some(page), q.limit, q.search);
  }

  /** "Retry Send" is offered on failed logs to admins only. */
  function RetryShown(log: EmailLog, st: AuthStore.AuthState): (r: bool)
    ensures r ==> log.status == Failed && st.user.Some?
  {
    log.status == Failed && AuthStore.HasPermission(st, Admin)
  }

  /** The retry entry appears exactly for a failed log seen by a user whose
      role is "Admin". */
  lemma RetryOnlyForAdmins(log: EmailLog, st: AuthStore.AuthState)
    ensures RetryShown(log, st) <==> log.status == Failed && st.user.Some? && st.user.value.role.name == "Admin"
  {
  }

  // ---- the period select ----

  /** As written: `value={queryParams.dateFrom ? "custom" : "all"}`. */
  function PeriodSelectValueAsWritten(q: Query): (r: string)
    ensures r == "all" <==> q.dateFrom.None? || q.dateFrom.value == ""
  {
    if q.dateFrom.Some? && q.dateFrom.value != "" then "custom" else "all"
  }

  /** As written, choosing today, the last week or the last month leaves
      the select on "custom", which is none of its items, so the chosen
      period's label is not shown. */
  lemma PeriodLabelLostAsWritten(q: Query, period: string, today: int, iso: int -> string)
    requires period in ["today", "week", "month"]
    requires forall d :: iso(d) != ""
    ensures PeriodSelectValueAsWritten(Period(q, period, today, iso)) !in PeriodItems
  {
  }

  /** The table with the period the user chose remembered next to the
      query; "custom" stands for a start date given by the defaults. */
  datatype Table = Table(query: Query, period: string)

  const CorrectedPeriodItems: seq<string> := PeriodItems + ["custom"]

  predicate PeriodKnown(t: Table) {
    t.period in CorrectedPeriodItems
  }

  function InitialTable(defaults: Query): (r: Table)
    ensures r.query == Initial(defaults) && PeriodKnown(r)
    ensures r.period == PeriodSelectValueAsWritten(r.query)
  {
    var q := Initial(defaults);
    Table(q, PeriodSelectValueAsWritten(q))
  }

  /** Choosing a period changes the query as written and remembers the
      choice; any other value counts as "all", as the switch's default. */
  function ChoosePeriod(t: Table, period: string, today: int, iso: int -> string): (r: Table)
    ensures r.query == Period(t.query, period, today, iso)
    ensures period in PeriodItems ==> r.period == period
    ensures PeriodKnown(r)
  {
    Table(Period(t.query, period, today, iso), if period in PeriodItems then period else "all")
  }

  function SearchTable(t: Table, text: string): (r: Table)
    ensures r == Table(Search(t.query, text), t.period)
  {
    t.(query := Search(t.query, text))
  }

  function FilterStatusTable(t: Table, item: string): (r: Table)
    requires item in StatusItems
    ensures r == Table(FilterStatus(t.query, item), t.period)
  {
    t.(query := FilterStatus(t.query, item))
  }

  function ChangePageTable(t: Table, page: int): (r: Table)
    ensures r == Table(ChangePage(t.query, page), t.period)
  {
    t.(query := ChangePage(t.query, page))
  }

  /** Corrected: the select always names one of its items, the one just
      chosen after a period choice, and "all" exactly when no start date
      is set. */
  lemma PeriodLabelShown(t: Table, period: string, today: int, iso: int -> string)
    requires PeriodKnown(t)
    requires forall d :: iso(d) != ""
    ensures var r := ChoosePeriod(t, period, today, iso);
      && r.period in CorrectedPeriodItems
      && (period in PeriodItems ==> r.period == period)
      && (r.period == "all" <==> r.query.dateFrom.None?)
  {
  }

  /** The other controls keep the remembered period known. */
  lemma OtherControlsKeepPeriod(t: Table, text: string, item: string, page: int)
    requires PeriodKnown(t) && item in StatusItems
    ensures PeriodKnown(SearchTable(t, text)) && PeriodKnown(FilterStatusTable(t, item))
    ensures PeriodKnown(ChangePageTable(t, page))
    ensures SearchTable(t, text).query.dateFrom == t.query.dateFrom
  {
  }
}
