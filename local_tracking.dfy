/**
 * The storage side of script.js: keeping a submitted application and the per-day counters
 * in localStorage (storeApplication, updateAnalytics, trackSocialClick, trackPageView).
 * `today` stands for `new Date().toDateString()` and `nowIso` for
 * `new Date().toISOString()`, both read by the caller.
 */
module LocalTracking {
  import opened Values
  import opened Counters
  import opened BrowserStorage

  /**
   * The 'analytics' object after one more application: a missing object or a missing
   * daily map starts empty, today's count and the total both grow by one, and the time
   * of the update is recorded.
   */
  function Recorded(analytics: Option<AppAnalytics>, today: string, nowIso: string): (r: AppAnalytics)
    ensures r.dailyApplications.Keys == {today} + (if analytics.Some? then analytics.value.dailyApplications.Keys else {})
    ensures r.totalApplications == (if analytics.Some? then analytics.value.totalApplications else 0) + 1
    ensures r.dailyApplications[today] ==
            (if analytics.Some? then Count(analytics.value.dailyApplications, today) else 0) + 1
    ensures analytics.Some? ==>
      forall d | d in analytics.value.dailyApplications && d != today ::
        d in r.dailyApplications && r.dailyApplications[d] == analytics.value.dailyApplications[d]
    ensures r.lastUpdated == nowIso
  {
    var daily := if analytics.Some? then analytics.value.dailyApplications else map[];
    var total := if analytics.Some? then analytics.value.totalApplications else 0;
    AppAnalytics(Bump(daily, today), total + 1, nowIso)
  }

  /**
   * Starting from nothing stored, after n applications on one day the daily count and the
   * total are both n.
   */
  lemma {:induction false} RecordedRepeatedly(n: nat, today: string, nowIso: string)
    requires n > 0
    ensures var a := RecordedTimes(n, today, nowIso);
      a.totalApplications == n && a.dailyApplications == map[today := n]
  {
    if n > 1 {
      RecordedRepeatedly(n - 1, today, nowIso);
    }
  }

  function RecordedTimes(n: nat, today: string, nowIso: string): AppAnalytics
    requires n > 0
  {
    if n == 1 then Recorded(None, today, nowIso)
    else Recorded(Some(RecordedTimes(n - 1, today, nowIso)), today, nowIso)
  }

  /** updateAnalytics: read 'analytics', count today's application, write it back. */
  method UpdateAnalytics(ls: LocalStorage, today: string, nowIso: string)
    modifies ls
    ensures ls.analytics == Some(Recorded(old(ls.analytics), today, nowIso))
    ensures ls.applications == old(ls.applications)
    ensures ls.pageViews == old(ls.pageViews) && ls.socialAnalytics == old(ls.socialAnalytics)
  {
    var analytics := ls.analytics;
    var daily: map<string, int> := map[];
    var total := 0;
    if analytics.Some? {
      daily := analytics.value.dailyApplications;
      total := analytics.value.totalApplications;
    }
    ghost var before := daily;
    if today !in daily {
      daily := daily[today := 0];
    }
    daily := daily[today := daily[today] + 1];
    assert daily == Bump(before, today);
    ls.analytics := Some(AppAnalytics(daily, total + 1, nowIso));
  }

  /** storeApplication: append the application to 'applications', then update the analytics. */
  method StoreApplication(ls: LocalStorage, data: Json, today: string, nowIso: string)
    modifies ls
    ensures ls.applications == old(ls.applications) + [data]
    ensures ls.analytics == Some(Recorded(old(ls.analytics), today, nowIso))
    ensures ls.pageViews == old(ls.pageViews) && ls.socialAnalytics == old(ls.socialAnalytics)
  {
    var applications := ls.applications;
    applications := applications + [data];
    ls.applications := applications;
    UpdateAnalytics(ls, today, nowIso);
  }

  /** trackSocialClick: one more click for `platform` today. */
  method TrackSocialClick(ls: LocalStorage, platform: string, today: string)
    modifies ls
    ensures ls.socialAnalytics == BumpNested(old(ls.socialAnalytics), today, platform)
    ensures ls.applications == old(ls.applications) && ls.analytics == old(ls.analytics)
    ensures ls.pageViews == old(ls.pageViews)
  {
    var socialAnalytics := ls.socialAnalytics;
    if today !in socialAnalytics {
      socialAnalytics := socialAnalytics[today := map[]];
    }
    var platforms := socialAnalytics[today];
    ghost var before := platforms;
    if platform !in platforms {
      platforms := platforms[platform := 0];
    }
    platforms := platforms[platform := platforms[platform] + 1];
    assert platforms == Bump(Inner(old(ls.socialAnalytics), today), platform) by {
      assert before == Inner(old(ls.socialAnalytics), today);
    }
    socialAnalytics := socialAnalytics[today := platforms];
    assert socialAnalytics == BumpNested(old(ls.socialAnalytics), today, platform);
    ls.socialAnalytics := socialAnalytics;
  }

  /** trackPageView: one more view today. */
  method TrackPageView(ls: LocalStorage, today: string)
    modifies ls
    ensures ls.pageViews == Bump(old(ls.pageViews), today)
    ensures ls.applications == old(ls.applications) && ls.analytics == old(ls.analytics)
    ensures ls.socialAnalytics == old(ls.socialAnalytics)
  {
    var pageViews := ls.pageViews;
    if today !in pageViews {
      pageViews := pageViews[today := 0];
    }
    pageViews := pageViews[today := pageViews[today] + 1];
    assert pageViews == Bump(old(ls.pageViews), today);
    ls.pageViews := pageViews;
  }
}
