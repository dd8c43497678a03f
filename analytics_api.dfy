/**
 * The analytics endpoint (api/analytics.php): GET reports the counters, POST records a
 * page view or a social click.
 */
module AnalyticsApi {
  import opened Values
  import opened Php
  import opened Sql
  import opened Counters
  import opened Database
  import opened Reports

  datatype Body =
    | Ack(message: string)
    | Stats(pageViews: seq<PageViewRow>, socialAnalytics: seq<SocialRow>, applicationStats: seq<StatRow>)
    | Failed(error: string)
    | MethodNotAllowed

  datatype Response = Response(code: int, body: Body)

  /** The `LIMIT` of each of the three report queries. */
  const ReportLimit: nat := 30

  /** The platform a social click is recorded under: `$input['platform'] ?? 'unknown'`, as bound. */
  function ClickPlatform(input: Json): (platform: string)
    ensures Field(input, "platform") == JNull ==> platform == "unknown"
    ensures Field(input, "platform").JStr? ==> platform == Field(input, "platform").s
  {
    Bind(Coalesce(Field(input, "platform"), JStr("unknown"))).s
  }

  /** A request body updateAnalytics refuses with 400. */
  predicate Refused(input: Json)
  {
    Falsy(input) || !IsSet(input, "type")
  }

  /**
   * What updateAnalytics does to the two counter tables: a refused body changes nothing.
   * A `page_view` raises today's views (from 0 when the day has no row); a `social_click`
   * raises the clicks of (today, platform); any other type changes no counter and still
   * reports success.
   */
  predicate AnalyticsUpdated(views: map<string, int>, clicks: map<(string, string), int>, input: Json,
                             today: string, views': map<string, int>, clicks': map<(string, string), int>,
                             resp: Response)
  {
    if Refused(input) then
      resp == Response(400, Failed("Invalid input")) && views' == views && clicks' == clicks
    else
      var kind := Field(input, "type");
      resp == Response(200, Ack("Analytics updated")) &&
      if LooseEqualsWord(kind, "page_view") then
        views' == Bump(views, today) && clicks' == clicks
      else if LooseEqualsWord(kind, "social_click") then
        views' == views && clicks' == Bump(clicks, (today, ClickPlatform(input)))
      else
        views' == views && clicks' == clicks
  }

  method UpdateAnalytics(db: Db, input: Json, today: string) returns (resp: Response)
    modifies db
    ensures db.applications == old(db.applications)
    ensures AnalyticsUpdated(old(db.pageViews), old(db.socialClicks), input, today,
                             db.pageViews, db.socialClicks, resp)
  {
    if Falsy(input) || !IsSet(input, "type") {
      return Response(400, Failed("Invalid input"));
    }
    var kind := Field(input, "type");
    if LooseEqualsWord(kind, "page_view") {
      // INSERT ... VALUES (:date, 1) ON DUPLICATE KEY UPDATE views = views + 1
      db.pageViews := db.pageViews[today := Count(db.pageViews, today) + 1];
    } else if LooseEqualsWord(kind, "social_click") {
      var platform := ClickPlatform(input);
      db.socialClicks := db.socialClicks[(today, platform) := Count(db.socialClicks, (today, platform)) + 1];
    }
    resp := Response(200, Ack("Analytics updated"));
  }

  /** The first page view of an empty table creates today's row with one view. */
  lemma FirstPageView(today: string, views': map<string, int>, clicks': map<(string, string), int>,
                      resp: Response)
    requires AnalyticsUpdated(map[], map[], JObject(map["type" := JStr("page_view")]), today,
                              views', clicks', resp)
    ensures views' == map[today := 1] && clicks' == map[] && resp.code == 200
  {
    assert Field(JObject(map["type" := JStr("page_view")]), "type") == JStr("page_view");
  }

  /** A social click whose body names no platform is counted under "unknown". */
  lemma ClickWithoutPlatformIsUnknown(views: map<string, int>, clicks: map<(string, string), int>,
                                      today: string, views': map<string, int>,
                                      clicks': map<(string, string), int>, resp: Response)
    requires AnalyticsUpdated(views, clicks, JObject(map["type" := JStr("social_click")]), today,
                              views', clicks', resp)
    ensures views' == views && clicks' == Bump(clicks, (today, "unknown")) && resp.code == 200
  {
    var input := JObject(map["type" := JStr("social_click")]);
    assert Field(input, "type") == JStr("social_click");
    assert Field(input, "platform") == JNull;
  }

  ghost function IdsOn(apps: map<string, Row>, dayOf: Cell -> Cell, among: set<string>, day: Cell)
    : set<string>
  {
    set id | id in among && id in apps && dayOf(apps[id].createdAt) == day
  }

  ghost function Days(apps: map<string, Row>, dayOf: Cell -> Cell, among: set<string>): set<Cell>
  {
    set id | id in among && id in apps :: dayOf(apps[id].createdAt)
  }

  /** `GROUP BY DATE(created_at)`: each date that occurs, with the number of its applications. */
  ghost function DailyCounts(apps: map<string, Row>, dayOf: Cell -> Cell): map<Cell, int>
  {
    map day | day in Days(apps, dayOf, apps.Keys) :: |IdsOn(apps, dayOf, apps.Keys, day)|
  }

  /** Counts the applications of each calendar date; `dayOf` is the database's DATE(). */
  method CountByDay(apps: map<string, Row>, dayOf: Cell -> Cell) returns (counts: map<Cell, int>)
    ensures counts == DailyCounts(apps, dayOf)
  {
    var pending := apps.Keys;
    ghost var done: set<string> := {};
    counts := map[];
    while pending != {}
      invariant pending <= apps.Keys && done == apps.Keys - pending
      invariant counts.Keys == Days(apps, dayOf, done)
      invariant forall day | day in counts :: counts[day] == |IdsOn(apps, dayOf, done, day)|
      decreases pending
    {
      var id :| id in pending;
      var day := dayOf(apps[id].createdAt);
      CountStep(apps, dayOf, done, id, counts);
      counts := counts[day := Count(counts, day) + 1];
      pending := pending - {id};
      done := done + {id};
    }
    assert done == apps.Keys;
    assert counts.Keys == DailyCounts(apps, dayOf).Keys;
  }

  /** Counting one more application raises the count of its own date only. */
  lemma CountStep(apps: map<string, Row>, dayOf: Cell -> Cell, done: set<string>, id: string,
                  counts: map<Cell, int>)
    requires id in apps && id !in done
    requires counts.Keys == Days(apps, dayOf, done)
    requires forall d | d in counts :: counts[d] == |IdsOn(apps, dayOf, done, d)|
    ensures var day := dayOf(apps[id].createdAt);
      var next := counts[day := Count(counts, day) + 1];
      next.Keys == Days(apps, dayOf, done + {id}) &&
      forall d | d in next :: next[d] == |IdsOn(apps, dayOf, done + {id}, d)|
  {
    var day := dayOf(apps[id].createdAt);
    var done' := done + {id};
    assert IdsOn(apps, dayOf, done', day) == IdsOn(apps, dayOf, done, day) + {id};
    if day !in counts {
      assert IdsOn(apps, dayOf, done, day) == {};
    }
    forall d | d != day
      ensures IdsOn(apps, dayOf, done', d) == IdsOn(apps, dayOf, done, d)
    {
    }
    assert Days(apps, dayOf, done') == Days(apps, dayOf, done) + {day};
  }

  function DateOfView(p: (string, int)): Cell
  {
    Str(p.0)
  }

  function DateOfClick(p: ((string, string), int)): Cell
  {
    Str(p.0.0)
  }

  function DateOfStat(p: (Cell, int)): Cell
  {
    p.0
  }

  function ViewEntries(rows: seq<PageViewRow>): seq<(string, int)>
  {
    seq(|rows|, i requires 0 <= i < |rows| => (rows[i].date, rows[i].views))
  }

  function ClickEntries(rows: seq<SocialRow>): seq<((string, string), int)>
  {
    seq(|rows|, i requires 0 <= i < |rows| => ((rows[i].date, rows[i].platform), rows[i].clicks))
  }

  function StatEntries(rows: seq<StatRow>): seq<(Cell, int)>
  {
    seq(|rows|, i requires 0 <= i < |rows| => (rows[i].date, rows[i].count))
  }

  /**
   * The report getAnalytics answers with: the 30 latest page-view days, the 30 latest
   * social-click rows and the application counts of the 30 latest calendar dates, each
   * newest first.
   */
  ghost predicate IsReport(views: map<string, int>, clicks: map<(string, string), int>,
                           apps: map<string, Row>, dayOf: Cell -> Cell, resp: Response)
  {
    && resp.code == 200 && resp.body.Stats?
    && IsLatestOf(ViewEntries(resp.body.pageViews), views, DateOfView, ReportLimit)
    && IsLatestOf(ClickEntries(resp.body.socialAnalytics), clicks, DateOfClick, ReportLimit)
    && IsLatestOf(StatEntries(resp.body.applicationStats), DailyCounts(apps, dayOf), DateOfStat, ReportLimit)
  }

  method GetAnalytics(db: Db, dayOf: Cell -> Cell) returns (resp: Response)
    ensures IsReport(db.pageViews, db.socialClicks, db.applications, dayOf, resp)
  {
    var views := LatestEntries(db.pageViews, DateOfView, ReportLimit);
    var pageViews := seq(|views|, i requires 0 <= i < |views| => PageViewRow(views[i].0, views[i].1));
    assert ViewEntries(pageViews) == views;

    var clicks := LatestEntries(db.socialClicks, DateOfClick, ReportLimit);
    var social := seq(|clicks|, i requires 0 <= i < |clicks| =>
      SocialRow(clicks[i].0.0, clicks[i].0.1, clicks[i].1));
    assert ClickEntries(social) == clicks;

    var counts := CountByDay(db.applications, dayOf);
    var days := LatestEntries(counts, DateOfStat, ReportLimit);
    var stats := seq(|days|, i requires 0 <= i < |days| => StatRow(days[i].0, days[i].1));
    assert StatEntries(stats) == days;

    resp := Response(200, Stats(pageViews, social, stats));
  }

  /** The router: GET reports, POST records, any other method is refused with 405. */
  method Handle(db: Db, httpMethod: string, input: Json, today: string, dayOf: Cell -> Cell)
    returns (resp: Response)
    modifies db
    ensures db.applications == old(db.applications)
    ensures httpMethod == "GET" ==>
      db.pageViews == old(db.pageViews) && db.socialClicks == old(db.socialClicks) &&
      IsReport(db.pageViews, db.socialClicks, db.applications, dayOf, resp)
    ensures httpMethod == "POST" ==>
      AnalyticsUpdated(old(db.pageViews), old(db.socialClicks), input, today, db.pageViews, db.socialClicks, resp)
    ensures httpMethod != "GET" && httpMethod != "POST" ==>
      resp == Response(405, MethodNotAllowed) &&
      db.pageViews == old(db.pageViews) && db.socialClicks == old(db.socialClicks)
  {
    if httpMethod == "GET" {
      resp := GetAnalytics(db, dayOf);
    } else if httpMethod == "POST" {
      resp := UpdateAnalytics(db, input, today);
    } else {
      resp := Response(405, MethodNotAllowed);
    }
  }
}
