/**
 * The admin panel's readers in js/api.js (window.getApplications, getAnalytics,
 * getSocialAnalytics, getPageViews): each awaits API.request and reshapes the reply, and
 * falls back to localStorage when an exception reaches its catch block. The request's
 * outcome and the storage at the time of the catch are parameters.
 */
module AdminViews {
  import opened Values
  import opened Sql
  import opened Counters
  import opened Reports
  import opened BrowserStorage
  import opened ClientApi
  import AnalyticsApi
  import ApplicationsApi
  import Database

  // ----- writing report rows into a plain object -----

  /** Writing `obj[key(x)] = value(x)` for each x in order: the last write of a key wins. */
  function FoldLast<T>(xs: seq<T>, key: T -> string, value: T -> int): map<string, int>
    decreases |xs|
  {
    if xs == [] then map[]
    else FoldLast(xs[..|xs| - 1], key, value)[key(xs[|xs| - 1]) := value(xs[|xs| - 1])]
  }

  /** The object has one key per distinct key among the rows. */
  lemma {:induction false} FoldLastKeys<T>(xs: seq<T>, key: T -> string, value: T -> int)
    ensures FoldLast(xs, key, value).Keys == set i | 0 <= i < |xs| :: key(xs[i])
    decreases |xs|
  {
    if xs != [] {
      var init := xs[..|xs| - 1];
      FoldLastKeys(init, key, value);
      assert forall i | 0 <= i < |init| :: init[i] == xs[i];
    }
  }

  /** A key holds the value of the last row that wrote it. */
  lemma {:induction false} FoldLastValue<T>(xs: seq<T>, key: T -> string, value: T -> int, i: nat)
    requires i < |xs|
    requires forall j | i < j < |xs| :: key(xs[j]) != key(xs[i])
    ensures key(xs[i]) in FoldLast(xs, key, value)
    ensures FoldLast(xs, key, value)[key(xs[i])] == value(xs[i])
    decreases |xs|
  {
    if i < |xs| - 1 {
      var init := xs[..|xs| - 1];
      assert init[i] == xs[i];
      forall j | i < j < |init| ensures key(init[j]) != key(init[i]) {
        assert init[j] == xs[j];
      }
      FoldLastValue(init, key, value, i);
    }
  }

  /** The running total of `x += value(row)`. */
  function SumOf<T>(xs: seq<T>, value: T -> int): int
    decreases |xs|
  {
    if xs == [] then 0 else SumOf(xs[..|xs| - 1], value) + value(xs[|xs| - 1])
  }

  lemma {:induction false} SumOfNonNegative<T>(xs: seq<T>, value: T -> int)
    requires forall i | 0 <= i < |xs| :: value(xs[i]) >= 0
    ensures SumOf(xs, value) >= 0
    decreases |xs|
  {
    if xs != [] {
      var init := xs[..|xs| - 1];
      assert forall i | 0 <= i < |init| :: init[i] == xs[i];
      SumOfNonNegative(init, value);
    }
  }

  /** `socialData[date][platform] = clicks` for each row in order. */
  function NestedFold(rows: seq<SocialRow>): map<string, map<string, int>>
    decreases |rows|
  {
    if rows == [] then map[]
    else
      var m := NestedFold(rows[..|rows| - 1]);
      var r := rows[|rows| - 1];
      m[r.date := Inner(m, r.date)[r.platform := r.clicks]]
  }

  /** A (date, platform) pair holds the clicks of the last row that wrote it. */
  lemma {:induction false} NestedFoldValue(rows: seq<SocialRow>, i: nat)
    requires i < |rows|
    requires forall j | i < j < |rows| :: (rows[j].date, rows[j].platform) != (rows[i].date, rows[i].platform)
    ensures rows[i].date in NestedFold(rows)
    ensures rows[i].platform in NestedFold(rows)[rows[i].date]
    ensures NestedFold(rows)[rows[i].date][rows[i].platform] == rows[i].clicks
    decreases |rows|
  {
    var init := rows[..|rows| - 1];
    if i < |rows| - 1 {
      assert init[i] == rows[i];
      forall j | i < j < |init| ensures (init[j].date, init[j].platform) != (init[i].date, init[i].platform) {
        assert init[j] == rows[j];
      }
      NestedFoldValue(init, i);
    }
  }

  /** The object has one date key per date among the rows. */
  lemma {:induction false} NestedFoldDates(rows: seq<SocialRow>)
    ensures NestedFold(rows).Keys == set i | 0 <= i < |rows| :: rows[i].date
    decreases |rows|
  {
    if rows != [] {
      var init := rows[..|rows| - 1];
      NestedFoldDates(init);
      assert forall i | 0 <= i < |init| :: init[i] == rows[i];
    }
  }

  /** The key a reported day is written under: its text, or "null" for a NULL date. */
  function DayKey(c: Cell): string
  {
    if c.Str? then c.s else "null"
  }

  function StatDay(st: StatRow): string
  {
    DayKey(st.date)
  }

  function StatCount(st: StatRow): int
  {
    st.count
  }

  function ViewDay(r: PageViewRow): string
  {
    r.date
  }

  function ViewCount(r: PageViewRow): int
  {
    r.views
  }

  // ----- the four readers -----

  /** window.getApplications: the reply's data on success, [] otherwise, the stored list after an exception. */
  function ApplicationsView(outcome: Outcome, s: Store): (p: Payload)
    ensures outcome.Threw? ==> p == Rows(s.applications)
    ensures outcome.Returned? ==> p == if outcome.reply.success then outcome.reply.data else Rows([])
  {
    match outcome
    case Threw => Rows(s.applications)
    case Returned(reply) => if reply.success then reply.data else Rows([])
  }

  /**
   * With the server up, the admin panel lists exactly the rows getApplications selected:
   * one item per live application, in the server's newest-first order.
   */
  lemma ServerListingReachesPanel(apps: map<string, Database.Row>, rows: seq<Database.Row>,
                                  s: Store, today: string, encodeRow: Database.Row -> Json)
    requires ApplicationsApi.IsListing(apps, rows)
    ensures var remote := FromApplications(ApplicationsApi.Response(200, ApplicationsApi.Listing(rows)), encodeRow);
      var p := ApplicationsView(RequestOf(s, GetApplicationsCall(), remote, today).0, s);
      p.Rows? && |p.items| == |ApplicationsApi.LiveIds(apps, apps.Keys)| &&
      forall i | 0 <= i < |rows| :: p.items[i] == encodeRow(rows[i]) && !apps[rows[i].id].archived
  {
    forall i | 0 <= i < |rows| ensures rows[i].id in apps && !apps[rows[i].id].archived {
      assert rows[i] in rows;
    }
  }

  /**
   * Without a usable server answer (unreachable, not JSON, or a non-2xx status) the admin
   * panel lists the applications stored in this browser: the fallback serves them, so the
   * catch block is never reached.
   */
  lemma ApplicationsViewWithoutServer(s: Store, remote: Remote, today: string)
    requires !(remote.Answered? && remote.ok)
    ensures ApplicationsView(RequestOf(s, GetApplicationsCall(), remote, today).0, s) == Rows(s.applications)
  {
    ApplicationsEndpoint("");
  }

  /** A server that answers getApplications with an error status leaves the panel on the stored list. */
  lemma ServerErrorShowsStored(resp: ApplicationsApi.Response, s: Store, today: string,
                               encodeRow: Database.Row -> Json)
    requires !(200 <= resp.code < 300)
    ensures ApplicationsView(RequestOf(s, GetApplicationsCall(), FromApplications(resp, encodeRow), today).0, s) ==
            Rows(s.applications)
  {
    ApplicationsViewWithoutServer(s, FromApplications(resp, encodeRow), today);
  }

  /** The analytics object the admin panel receives; None stands for `{}`. */
  datatype Summary = Summary(dailyApplications: map<string, int>, totalApplications: int, lastUpdated: Option<string>)

  /** `JSON.parse(localStorage.getItem('analytics') || '{}')`. */
  function StoredSummary(s: Store): Option<Summary>
  {
    if s.analytics.Some? then
      Some(Summary(s.analytics.value.dailyApplications, s.analytics.value.totalApplications,
                   Some(s.analytics.value.lastUpdated)))
    else None
  }

  /**
   * window.getAnalytics: on success, one daily count per reported day (the last row of a
   * day wins) and the total of all reported counts. A success without report rows (reply
   * data that has no applicationStats list) throws inside the try, as does an exception
   * from the request, and the stored object is returned; a failed reply gives `{}`.
   */
  method GetAnalytics(outcome: Outcome, s: Store) returns (r: Option<Summary>)
    ensures outcome.Threw? ==> r == StoredSummary(s)
    ensures outcome.Returned? && !outcome.reply.success ==> r == None
    ensures outcome.Returned? && outcome.reply.success && outcome.reply.data.ServerStats? ==>
      var stats := outcome.reply.data.applicationStats;
      r == Some(Summary(FoldLast(stats, StatDay, StatCount), SumOf(stats, StatCount), None))
    ensures outcome.Returned? && outcome.reply.success && outcome.reply.data.LocalStats? ==>
      r == Some(Summary(map[], 0, None))
    ensures outcome.Returned? && outcome.reply.success && (outcome.reply.data.NoData? || outcome.reply.data.Rows?) ==>
      r == StoredSummary(s)
  {
    if outcome.Threw? {
      return StoredSummary(s);
    }
    var response := outcome.reply;
    if !response.success {
      return None;
    }
    var stats: seq<StatRow>;
    match response.data {
      case ServerStats(_, _, applicationStats) => stats := applicationStats;
      case LocalStats(_, _) => stats := [];
      case _ => return StoredSummary(s);
    }
    var dailyApplications: map<string, int> := map[];
    var totalApplications := 0;
    var i := 0;
    while i < |stats|
      invariant 0 <= i <= |stats|
      invariant dailyApplications == FoldLast(stats[..i], StatDay, StatCount)
      invariant totalApplications == SumOf(stats[..i], StatCount)
    {
      var stat := stats[i];
      assert stats[..i + 1][..i] == stats[..i];
      dailyApplications := dailyApplications[StatDay(stat) := stat.count];
      totalApplications := totalApplications + stat.count;
      i := i + 1;
    }
    assert stats[..i] == stats;
    r := Some(Summary(dailyApplications, totalApplications, None));
  }

  /**
   * window.getSocialAnalytics: on success with report rows, `[date][platform] = clicks`
   * row by row. The fallback's data is a plain object, whose missing forEach throws, so
   * that case, like a reply without rows and a failed request, reads the stored object;
   * a failed reply gives `{}`.
   */
  method GetSocialAnalytics(outcome: Outcome, s: Store) returns (r: map<string, map<string, int>>)
    ensures outcome.Threw? ==> r == s.socialAnalytics
    ensures outcome.Returned? && !outcome.reply.success ==> r == map[]
    ensures outcome.Returned? && outcome.reply.success ==>
      r == if outcome.reply.data.ServerStats? then NestedFold(outcome.reply.data.socialAnalytics) else s.socialAnalytics
  {
    if outcome.Threw? {
      return s.socialAnalytics;
    }
    var response := outcome.reply;
    if !response.success {
      return map[];
    }
    if !response.data.ServerStats? {
      return s.socialAnalytics;
    }
    var rows := response.data.socialAnalytics;
    var socialData: map<string, map<string, int>> := map[];
    var i := 0;
    while i < |rows|
      invariant 0 <= i <= |rows|
      invariant socialData == NestedFold(rows[..i])
    {
      var item := rows[i];
      assert rows[..i + 1][..i] == rows[..i];
      if item.date !in socialData {
        socialData := socialData[item.date := map[]];
      }
      socialData := socialData[item.date := socialData[item.date][item.platform := item.clicks]];
      i := i + 1;
    }
    assert rows[..i] == rows;
    r := socialData;
  }

  /** window.getPageViews: like getSocialAnalytics, with `[date] = views`. */
  method GetPageViews(outcome: Outcome, s: Store) returns (r: map<string, int>)
    ensures outcome.Threw? ==> r == s.pageViews
    ensures outcome.Returned? && !outcome.reply.success ==> r == map[]
    ensures outcome.Returned? && outcome.reply.success ==>
      r == if outcome.reply.data.ServerStats? then FoldLast(outcome.reply.data.pageViews, ViewDay, ViewCount) else s.pageViews
  {
    if outcome.Threw? {
      return s.pageViews;
    }
    var response := outcome.reply;
    if !response.success {
      return map[];
    }
    if !response.data.ServerStats? {
      return s.pageViews;
    }
    var rows := response.data.pageViews;
    var pageViews: map<string, int> := map[];
    var i := 0;
    while i < |rows|
      invariant 0 <= i <= |rows|
      invariant pageViews == FoldLast(rows[..i], ViewDay, ViewCount)
    {
      var item := rows[i];
      assert rows[..i + 1][..i] == rows[..i];
      pageViews := pageViews[ViewDay(item) := item.views];
      i := i + 1;
    }
    assert rows[..i] == rows;
    r := pageViews;
  }

  // ----- end to end -----

  /** The page-view report has one row per day: the days are the keys of a table. */
  lemma ReportedDaysDistinct(rows: seq<PageViewRow>, table: map<string, int>, n: nat)
    requires IsLatestOf(AnalyticsApi.ViewEntries(rows), table, AnalyticsApi.DateOfView, n)
    ensures forall i, j | 0 <= i < j < |rows| :: rows[i].date != rows[j].date
  {
    var entries := AnalyticsApi.ViewEntries(rows);
    forall i, j | 0 <= i < j < |rows| ensures rows[i].date != rows[j].date {
      assert entries[i].0 == rows[i].date && entries[j].0 == rows[j].date;
    }
  }

  /** Every reported row carries the count stored for its day. */
  lemma ReportedViewsStored(rows: seq<PageViewRow>, table: map<string, int>, n: nat)
    requires IsLatestOf(AnalyticsApi.ViewEntries(rows), table, AnalyticsApi.DateOfView, n)
    ensures forall i | 0 <= i < |rows| :: rows[i].date in table && table[rows[i].date] == rows[i].views
  {
    var entries := AnalyticsApi.ViewEntries(rows);
    forall i | 0 <= i < |rows| ensures rows[i].date in table && table[rows[i].date] == rows[i].views {
      assert entries[i] in entries;
    }
  }

  /** When no two rows share a day, getPageViews' object shows each row's own count. */
  lemma DistinctViewsFolded(rows: seq<PageViewRow>, i: nat)
    requires forall a, b | 0 <= a < b < |rows| :: rows[a].date != rows[b].date
    requires i < |rows|
    ensures rows[i].date in FoldLast(rows, ViewDay, ViewCount)
    ensures FoldLast(rows, ViewDay, ViewCount)[rows[i].date] == rows[i].views
  {
    FoldLastValue(rows, ViewDay, ViewCount, i);
  }

  /**
   * The page views the server reports reach the admin panel unchanged: every reported day
   * shows its stored count.
   */
  lemma ReportedViewsShown(rows: seq<PageViewRow>, table: map<string, int>, n: nat)
    requires IsLatestOf(AnalyticsApi.ViewEntries(rows), table, AnalyticsApi.DateOfView, n)
    ensures forall i | 0 <= i < |rows| ::
      rows[i].date in table && rows[i].date in FoldLast(rows, ViewDay, ViewCount) &&
      FoldLast(rows, ViewDay, ViewCount)[rows[i].date] == table[rows[i].date]
  {
    ReportedDaysDistinct(rows, table, n);
    ReportedViewsStored(rows, table, n);
    forall i | 0 <= i < |rows|
      ensures rows[i].date in FoldLast(rows, ViewDay, ViewCount) &&
              FoldLast(rows, ViewDay, ViewCount)[rows[i].date] == rows[i].views
    {
      DistinctViewsFolded(rows, i);
    }
  }

  /** With the server up, the admin readers receive the three reports exactly as the server sent them. */
  lemma ServerViewsReachPanel(db: AnalyticsApi.Response, s: Store, today: string)
    requires db.code == 200 && db.body.Stats?
    ensures var outcome := RequestOf(s, GetAnalyticsCall(), FromAnalytics(db), today).0;
      outcome == Returned(Reply(true, None, None,
                                ServerStats(db.body.pageViews, db.body.socialAnalytics, db.body.applicationStats)))
  {
  }

  /** Offline, getPageViews and getSocialAnalytics show what this browser stored. */
  lemma OfflineViewsAreLocal(s: Store, today: string)
    ensures RequestOf(s, GetAnalyticsCall(), Unreachable, today).0 ==
            Returned(Reply(true, None, None, LocalStats(s.pageViews, s.socialAnalytics)))
  {
    ApplicationsEndpoint("");
    AnalyticsEndpoint();
  }
}
