/**
 * The browser's localStorage as the client scripts use it: four keys, each holding JSON
 * text that the scripts parse on read (an absent key reads as its default) and rewrite in
 * full on every update. The model keeps the parsed values.
 */
module BrowserStorage {
  import opened Values

  /** The object under 'analytics' that script.js maintains. */
  datatype AppAnalytics = AppAnalytics(dailyApplications: map<string, int>, totalApplications: int, lastUpdated: string)

  /** The parsed contents of the four keys at one moment. */
  datatype Store = Store(applications: seq<Json>, analytics: Option<AppAnalytics>,
                         pageViews: map<string, int>, socialAnalytics: map<string, map<string, int>>)

  /**
   * localStorage: 'applications' (a list, default '[]'), 'analytics' (absent until the
   * first application), 'pageViews' and 'socialAnalytics' (objects, default '{}').
   */
  class LocalStorage {
    var applications: seq<Json>
    var analytics: Option<AppAnalytics>
    var pageViews: map<string, int>
    var socialAnalytics: map<string, map<string, int>>

    function Snapshot(): Store
      reads this
    {
      Store(applications, analytics, pageViews, socialAnalytics)
    }

    /** A browser profile where nothing has been stored yet. */
    constructor ()
      ensures Snapshot() == Store([], None, map[], map[])
    {
      applications, analytics, pageViews, socialAnalytics := [], None, map[], map[];
    }

    /** `setItem` on each key with the text of `s`'s value: the storage then reads as `s`. */
    method Put(s: Store)
      modifies this
      ensures Snapshot() == s
    {
      applications, analytics, pageViews, socialAnalytics := s.applications, s.analytics, s.pageViews, s.socialAnalytics;
    }
  }
}
