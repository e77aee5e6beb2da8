/** The email-log queries of hooks/use-email-logs.ts: the list and export
    query parameters, the per-day activity buckets, and the statistics with
    their success rate. Days are UTC day numbers; `iso` renders one as the
    `YYYY-MM-DD` text the requests carry. */
module UseEmailLogs {
  import opened Wrappers
  import opened Types
  import opened QueryString
  import opened Text
  import Seqs
  import Paging

  /** `EmailLogQueryParams` */
  datatype EmailLogQuery = EmailLogQuery(
    page: Option<int>,
    limit: Option<int>,
    status: Option<EmailStatus>,
    dateFrom: Option<string>,
    dateTo: Option<string>,
    search: Option<string>)

  function StatusValue(s: Option<EmailStatus>): (r: Option<string>)
    ensures r.None? <==> s.None?
    ensures r.Some? ==> r.value == EmailStatusName(s.value)
  {
    if s.None? then None else Some(EmailStatusName(s.value))
  }

  /** The fields `useEmailLogs` appends, in order. */
  function ListFields(q: EmailLogQuery): (r: seq<Field>)
    ensures |r| == 6 && DistinctKeys(r)
    ensures Keys(r) == ["page", "limit", "status", "dateFrom", "dateTo", "search"]
  {
    [("page", NumValue(q.page)), ("limit", NumValue(q.limit)), ("status", StatusValue(q.status)),
     ("dateFrom", TextValue(q.dateFrom)), ("dateTo", TextValue(q.dateTo)), ("search", TextValue(q.search))]
  }

  function ListPairs(q: EmailLogQuery): (r: seq<Pair>)
    ensures |r| <= 6
  {
    Build(ListFields(q))
  }

  /** The list query sends page, limit, status, dateFrom, dateTo and
      search in that order, each only when truthy. */
  lemma ListPairsSpec(q: EmailLogQuery)
    ensures Seqs.IsSubsequence(Keys(ListPairs(q)), ["page", "limit", "status", "dateFrom", "dateTo", "search"])
    ensures Lookup(ListPairs(q), "page") == NumValue(q.page)
    ensures Lookup(ListPairs(q), "limit") == NumValue(q.limit)
    ensures Lookup(ListPairs(q), "status") == StatusValue(q.status)
    ensures Lookup(ListPairs(q), "dateFrom") == TextValue(q.dateFrom)
    ensures Lookup(ListPairs(q), "dateTo") == TextValue(q.dateTo)
    ensures Lookup(ListPairs(q), "search") == TextValue(q.search)
  {
    var fs := ListFields(q);
    BuildKeepsOrder(fs);
    BuildSends(fs, 0);
    BuildSends(fs, 1);
    BuildSends(fs, 2);
    BuildSends(fs, 3);
    BuildSends(fs, 4);
    BuildSends(fs, 5);
  }

  /** The fields `useExportEmailLogs` appends: the three filters when set,
      then `format=csv` and `limit=10000`. */
  function ExportFields(q: EmailLogQuery): (r: seq<Field>)
    ensures |r| == 5 && DistinctKeys(r)
    ensures Keys(r) == ["status", "dateFrom", "dateTo", "format", "limit"]
  {
    [("status", StatusValue(q.status)), ("dateFrom", TextValue(q.dateFrom)), ("dateTo", TextValue(q.dateTo)),
     ("format", Some("csv")), ("limit", Some("10000"))]
  }

  function ExportPairs(q: EmailLogQuery): (r: seq<Pair>)
    ensures |r| <= 5
  {
    Build(ExportFields(q))
  }

  /** The export carries the filters and always asks for CSV with the
      limit 10000. */
  lemma ExportSends(q: EmailLogQuery)
    ensures Lookup(ExportPairs(q), "status") == StatusValue(q.status)
    ensures Lookup(ExportPairs(q), "dateFrom") == TextValue(q.dateFrom)
    ensures Lookup(ExportPairs(q), "dateTo") == TextValue(q.dateTo)
    ensures Lookup(ExportPairs(q), "format") == Some("csv")
    ensures Lookup(ExportPairs(q), "limit") == Some("10000")
  {
    var fs := ExportFields(q);
    BuildSends(fs, 0);
    BuildSends(fs, 1);
    BuildSends(fs, 2);
    BuildSends(fs, 3);
    BuildSends(fs, 4);
  }

  /** The export ignores the table's page, limit and search: it sends no
      search and no page, and changing them changes nothing. */
  lemma ExportIgnoresPaging(q: EmailLogQuery, page: Option<int>, limit: Option<int>, search: Option<string>)
    ensures "search" !in Keys(ExportPairs(q)) && "page" !in Keys(ExportPairs(q))
    ensures ExportPairs(q.(page := page, limit := limit, search := search)) == ExportPairs(q)
  {
    var fs := ExportFields(q);
    BuildKeepsOrder(fs);
    if "search" in Keys(ExportPairs(q)) {
      SubsequenceMembers(Keys(ExportPairs(q)), Keys(fs), "search");
      assert false;
    }
    if "page" in Keys(ExportPairs(q)) {
      SubsequenceMembers(Keys(ExportPairs(q)), Keys(fs), "page");
      assert false;
    }
    assert ExportFields(q.(page := page, limit := limit, search := search)) == fs;
  }

  /** `useEmailLog(id)`: disabled without a non-zero id, and its query
      function throws when run without one. */
  function FetchLog(id: Option<int>): (r: Result<int, string>)
    ensures r.Ok? <==> FetchEnabled(id)
    ensures r.Ok? ==> r.value == id.value
    ensures r.Err? ==> r.error == "Email log ID is required"
  {
    if FetchEnabled(id) then Ok(id.value) else Err("Email log ID is required")
  }

  /** `useEmailLogsByStatus(status, limit = 10)`: the first page of one
      status, with the pairs written straight into the path. */
  function ByStatusRequest(status: EmailStatus, limit: Option<int>): (r: seq<Pair>)
    ensures Lookup(r, "status") == Some(EmailStatusName(status))
    ensures Lookup(r, "limit") == Some(IntToString(limit.GetOr(10)))
    ensures Lookup(r, "page") == Some("1")
  {
    var r := [("status", EmailStatusName(status)), ("limit", IntToString(limit.GetOr(10))), ("page", "1")];
    assert r[1..][1..] == [("page", "1")];
    assert "status" != "page" && "limit" != "page" && "status" != "limit";
    assert Lookup(r[1..], "page") == Lookup(r[1..][1..], "page") == Some("1");
    r
  }

  // ---- success rate ----

  /** `Math.round(sent / total * 100)`, or 0 without emails; rounding is
      to the nearest integer, halves upwards. */
  function SuccessRate(total: int, sent: int): (r: int)
    ensures total <= 0 ==> r == 0
    ensures total > 0 ==> 2 * total * r <= 200 * sent + total < 2 * total * (r + 1)
  {
    if total > 0 then (200 * sent + total) / (2 * total) else 0
  }

  /** With no more sent than total, the rate is a percentage, and all
      sent is 100. */
  lemma SuccessRateIsPercentage(total: int, sent: int)
    requires 0 <= sent <= total
    ensures 0 <= SuccessRate(total, sent) <= 100
    ensures sent == total && total > 0 ==> SuccessRate(total, sent) == 100
  {
    if total > 0 {
      var r := SuccessRate(total, sent);
      var t := 2 * total;
      var n := 200 * sent + total;
      assert t * r <= n < t * (r + 1);
      if r < 0 {
        Paging.MulMonotone(r + 1, 0, t);
        assert false;
      }
      if r > 100 {
        Paging.MulMonotone(101, r, t);
        assert false;
      }
      if sent == total && r < 100 {
        Paging.MulMonotone(r + 1, 100, t);
        assert false;
      }
    }
  }

  // ---- statistics ----

  datatype EmailLogStats = EmailLogStats(
    totalEmails: int,
    totalSent: int,
    totalFailed: int,
    totalPending: int,
    todayCount: int,
    thisWeekCount: int,
    thisMonthCount: int,
    successRate: int)

  const AllRequest: seq<Pair> := [("limit", "1")]

  function StatusRequest(s: EmailStatus): seq<Pair> {
    [("status", EmailStatusName(s)), ("limit", "1")]
  }

  function SinceRequest(day: int, iso: int -> string): seq<Pair> {
    [("dateFrom", iso(day)), ("limit", "1")]
  }

  /** `useEmailLogStats`: each field is the `pagination.total` of its own
      request; the week and month start 7 and 30 days before today. */
  function Stats(count: seq<Pair> -> int, today: int, iso: int -> string): (r: EmailLogStats)
    ensures r.totalEmails == count(AllRequest)
    ensures r.totalSent == count(StatusRequest(Sent)) && r.totalFailed == count(StatusRequest(Failed))
    ensures r.totalPending == count(StatusRequest(Pending))
    ensures r.todayCount == count(SinceRequest(today, iso))
    ensures r.thisWeekCount == count(SinceRequest(today - 7, iso))
    ensures r.thisMonthCount == count(SinceRequest(today - 30, iso))
    ensures r.successRate == SuccessRate(r.totalEmails, r.totalSent)
  {
    var all := count(AllRequest);
    var sent := count(StatusRequest(Sent));
    EmailLogStats(all, sent, count(StatusRequest(Failed)), count(StatusRequest(Pending)),
      count(SinceRequest(today, iso)), count(SinceRequest(today - 7, iso)),
      count(SinceRequest(today - 30, iso)), SuccessRate(all, sent))
  }

  /** How this model reads the server's filters: `status` names the
      status, `dateFrom` keeps logs created on or after that day. */
  predicate Matches(log: EmailLog, pairs: seq<Pair>, dayOf: string -> int) {
    && (Lookup(pairs, "status").Some? ==> EmailStatusName(log.status) == Lookup(pairs, "status").value)
    && (Lookup(pairs, "dateFrom").Some? ==> log.createdDay >= dayOf(Lookup(pairs, "dateFrom").value))
  }

  function CountMatching(logs: seq<EmailLog>, pairs: seq<Pair>, dayOf: string -> int): (r: nat)
    ensures r <= |logs|
  {
    if logs == [] then 0
    else (if Matches(logs[0], pairs, dayOf) then 1 else 0) + CountMatching(logs[1..], pairs, dayOf)
  }

  /** Over a server that counts that way: the three statuses add up to the
      total, the rate is a percentage, and today's count is at most the
      week's, which is at most the month's. */
  lemma StatsAreConsistent(logs: seq<EmailLog>, count: seq<Pair> -> int, today: int,
                           iso: int -> string, dayOf: string -> int)
    requires forall pairs :: count(pairs) == CountMatching(logs, pairs, dayOf)
    requires forall d :: dayOf(iso(d)) == d
    ensures var s := Stats(count, today, iso);
      && s.totalSent + s.totalFailed + s.totalPending == s.totalEmails == |logs|
      && 0 <= s.successRate <= 100
      && s.todayCount <= s.thisWeekCount <= s.thisMonthCount
  {
    StatusSplit(logs, dayOf);
    SinceMonotone(logs, today - 7, today, iso, dayOf);
    SinceMonotone(logs, today - 30, today - 7, iso, dayOf);
    SuccessRateIsPercentage(count(AllRequest), count(StatusRequest(Sent)));
  }

  lemma {:induction false} StatusSplit(logs: seq<EmailLog>, dayOf: string -> int)
    ensures CountMatching(logs, StatusRequest(Sent), dayOf) + CountMatching(logs, StatusRequest(Failed), dayOf)
          + CountMatching(logs, StatusRequest(Pending), dayOf) == CountMatching(logs, AllRequest, dayOf) == |logs|
  {
    if logs != [] {
      StatusSplit(logs[1..], dayOf);
    }
  }

  lemma {:induction false} SinceMonotone(logs: seq<EmailLog>, early: int, late: int, iso: int -> string, dayOf: string -> int)
    requires early <= late
    requires dayOf(iso(early)) == early && dayOf(iso(late)) == late
    ensures CountMatching(logs, SinceRequest(late, iso), dayOf) <= CountMatching(logs, SinceRequest(early, iso), dayOf)
  {
    if logs != [] {
      SinceMonotone(logs[1..], early, late, iso, dayOf);
    }
  }

  // ---- activity by day ----

  /** One day of `activityByDate`. */
  datatype Bucket = Bucket(day: int, sent: nat, failed: nat, pending: nat)

  function Tally(b: Bucket, s: EmailStatus): nat {
    match s
    case Sent => b.sent
    case Failed => b.failed
    case Pending => b.pending
  }

  /** `acc[date][log.status]++` */
  function Bump(b: Bucket, s: EmailStatus): (r: Bucket)
    ensures r.day == b.day
    ensures forall t :: Tally(r, t) == Tally(b, t) + (if t == s then 1 else 0)
  {
    match s
    case Sent => b.(sent := b.sent + 1)
    case Failed => b.(failed := b.failed + 1)
    case Pending => b.(pending := b.pending + 1)
  }

  function Size(b: Bucket): nat {
    b.sent + b.failed + b.pending
  }

  function SumSizes(bs: seq<Bucket>): nat {
    if bs == [] then 0 else Size(bs[0]) + SumSizes(bs[1..])
  }

  function Days(bs: seq<Bucket>): set<int> {
    set i | 0 <= i < |bs| :: bs[i].day
  }

  predicate Ascending(bs: seq<Bucket>) {
    forall i, j :: 0 <= i < j < |bs| ==> bs[i].day < bs[j].day
  }

  /** The number of `s` logs the buckets hold for day `d`. */
  function CountIn(bs: seq<Bucket>, d: int, s: EmailStatus): nat {
    if bs == [] then 0
    else (if bs[0].day == d then Tally(bs[0], s) else 0) + CountIn(bs[1..], d, s)
  }

  /** One log added to the ascending buckets: its day's bucket is bumped,
      or a new bucket opens in its place. */
  function Place(bs: seq<Bucket>, log: EmailLog): (r: seq<Bucket>)
    requires Ascending(bs)
    ensures Ascending(r)
    ensures Days(r) == Days(bs) + {log.createdDay}
    ensures SumSizes(r) == SumSizes(bs) + 1
  {
    var created := Bump(Bucket(log.createdDay, 0, 0, 0), log.status);
    BumpSize(Bucket(log.createdDay, 0, 0, 0), log.status);
    if bs == [] || log.createdDay < bs[0].day then
      ConsBucket(created, bs);
      [created] + bs
    else
      SplitFirst(bs);
      if bs[0].day == log.createdDay then
        var bumped := Bump(bs[0], log.status);
        BumpSize(bs[0], log.status);
        ConsBucket(bumped, bs[1..]);
        [bumped] + bs[1..]
      else
        var tail := Place(bs[1..], log);
        forall j | 0 <= j < |tail| ensures bs[0].day < tail[j].day {
          assert tail[j].day in Days(tail);
        }
        ConsBucket(bs[0], tail);
        [bs[0]] + tail
  }

  /** Bumping a bucket adds one to its size. */
  lemma BumpSize(b: Bucket, s: EmailStatus)
    ensures Size(Bump(b, s)) == Size(b) + 1
  {
  }

  /** A bucket put in front of ascending buckets that all come later. */
  lemma ConsBucket(b: Bucket, bs: seq<Bucket>)
    requires Ascending(bs)
    requires forall j :: 0 <= j < |bs| ==> b.day < bs[j].day
    ensures Ascending([b] + bs)
    ensures Days([b] + bs) == {b.day} + Days(bs)
    ensures SumSizes([b] + bs) == Size(b) + SumSizes(bs)
  {
    assert ([b] + bs)[1..] == bs;
    DaysCons(b, bs);
  }

  /** Ascending buckets are their first bucket in front of the later
      ones. */
  lemma SplitFirst(bs: seq<Bucket>)
    requires Ascending(bs) && bs != []
    ensures Ascending(bs[1..])
    ensures forall j :: 0 <= j < |bs[1..]| ==> bs[0].day < bs[1..][j].day
    ensures Days(bs) == {bs[0].day} + Days(bs[1..])
    ensures SumSizes(bs) == Size(bs[0]) + SumSizes(bs[1..])
  {
    assert bs == [bs[0]] + bs[1..];
    ConsBucket(bs[0], bs[1..]);
  }

  lemma DaysCons(b: Bucket, bs: seq<Bucket>)
    ensures Days([b] + bs) == {b.day} + Days(bs)
  {
    var r := [b] + bs;
    forall d | d in Days(bs) ensures d in Days(r) {
      var i :| 0 <= i < |bs| && bs[i].day == d;
      assert r[i + 1].day == d;
    }
    assert r[0].day == b.day;
  }

  /** Placing a log adds one to exactly its day and status. */
  lemma {:induction false} PlaceCounts(bs: seq<Bucket>, log: EmailLog, d: int, s: EmailStatus)
    requires Ascending(bs)
    ensures CountIn(Place(bs, log), d, s) == CountIn(bs, d, s) + (if log.createdDay == d && log.status == s then 1 else 0)
  {
    var created := Bump(Bucket(log.createdDay, 0, 0, 0), log.status);
    if bs == [] || log.createdDay < bs[0].day {
      assert Place(bs, log) == [created] + bs;
      CountInCons(created, bs, d, s);
    } else {
      SplitFirst(bs);
      CountInCons(bs[0], bs[1..], d, s);
      if bs[0].day == log.createdDay {
        assert Place(bs, log) == [Bump(bs[0], log.status)] + bs[1..];
        CountInCons(Bump(bs[0], log.status), bs[1..], d, s);
      } else {
        PlaceCounts(bs[1..], log, d, s);
        assert Place(bs, log) == [bs[0]] + Place(bs[1..], log);
        CountInCons(bs[0], Place(bs[1..], log), d, s);
      }
    }
  }

  lemma CountInCons(b: Bucket, bs: seq<Bucket>, d: int, s: EmailStatus)
    ensures CountIn([b] + bs, d, s) == (if b.day == d then Tally(b, s) else 0) + CountIn(bs, d, s)
  {
    assert ([b] + bs)[1..] == bs;
  }

  /** The logs of day `d` and status `s`. */
  function CountLogs(logs: seq<EmailLog>, d: int, s: EmailStatus): nat {
    if logs == [] then 0
    else
      var last := logs[|logs| - 1];
      CountLogs(logs[..|logs| - 1], d, s) + (if last.createdDay == d && last.status == s then 1 else 0)
  }

  /** `logs.reduce(...)` then `Object.values(...).sort(by date)`: one bucket
      per day a log was created, in ascending order, every log counted
      once. */
  function Activity(logs: seq<EmailLog>): (r: seq<Bucket>)
    ensures Ascending(r)
    ensures Days(r) == set i | 0 <= i < |logs| :: logs[i].createdDay
    ensures SumSizes(r) == |logs|
  {
    if logs == [] then []
    else
      var init := logs[..|logs| - 1];
      var last := logs[|logs| - 1];
      var r := Place(Activity(init), last);
      assert (set i | 0 <= i < |logs| :: logs[i].createdDay)
          == (set i | 0 <= i < |init| :: init[i].createdDay) + {last.createdDay} by {
        forall i | 0 <= i < |init| ensures init[i] == logs[i] { }
      }
      r
  }

  /** Each bucket counts exactly the logs of its day, per status. */
  lemma {:induction false} ActivityCounts(logs: seq<EmailLog>, d: int, s: EmailStatus)
    ensures CountIn(Activity(logs), d, s) == CountLogs(logs, d, s)
  {
    if logs != [] {
      var init := logs[..|logs| - 1];
      ActivityCounts(init, d, s);
      PlaceCounts(Activity(init), logs[|logs| - 1], d, s);
    }
  }

  /** In ascending buckets, the count for a bucket's day is that bucket's
      own tally. */
  lemma {:induction false} CountInAscending(bs: seq<Bucket>, i: int, s: EmailStatus)
    requires Ascending(bs) && 0 <= i < |bs|
    ensures CountIn(bs, bs[i].day, s) == Tally(bs[i], s)
  {
    if i == 0 {
      AbsentDay(bs[1..], bs[0].day, s);
    } else {
      CountInAscending(bs[1..], i - 1, s);
    }
  }

  lemma {:induction false} AbsentDay(bs: seq<Bucket>, d: int, s: EmailStatus)
    requires forall j :: 0 <= j < |bs| ==> bs[j].day > d
    ensures CountIn(bs, d, s) == 0
  {
    if bs != [] {
      AbsentDay(bs[1..], d, s);
    }
  }

  /** The activity result: every bucket's tally is the number of fetched
      logs of that day and status. */
  lemma BucketTalliesAreCounts(logs: seq<EmailLog>, i: int, s: EmailStatus)
    requires 0 <= i < |Activity(logs)|
    ensures Tally(Activity(logs)[i], s) == CountLogs(logs, Activity(logs)[i].day, s)
  {
    CountInAscending(Activity(logs), i, s);
    ActivityCounts(logs, Activity(logs)[i].day, s);
  }

  /** `useRecentEmailActivity(days = 7)`: the request, logs since `days`
      ago up to 100, and the result, whose `totalCount` is the server's
      total rather than the number of fetched logs. */
  function RecentRequest(today: int, days: Option<int>, iso: int -> string): (r: seq<Pair>)
    ensures r == [("dateFrom", iso(today - days.GetOr(7))), ("limit", "100")]
  {
    [("dateFrom", iso(today - days.GetOr(7))), ("limit", "100")]
  }

  datatype RecentActivity = RecentActivity(logs: seq<EmailLog>, activityByDate: seq<Bucket>, totalCount: int)

  function Recent(logs: seq<EmailLog>, meta: PaginationMeta): (r: RecentActivity)
    ensures r.logs == logs && r.totalCount == meta.total
    ensures Ascending(r.activityByDate) && SumSizes(r.activityByDate) == |logs|
  {
    RecentActivity(logs, Activity(logs), meta.total)
  }
}
