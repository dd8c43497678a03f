/**
 * The API helper of js/api.js: API.request sends a call to the server and, when the server
 * cannot be reached or does not answer with a 2xx status and a JSON body, serves the call
 * from localStorage instead (fallbackToLocalStorage). The wrappers build the calls, and the
 * functions api.js redefines (storeApplication, updateAnalytics, trackSocialClick,
 * trackPageView) go through it. `today` stands for `new Date().toDateString()`.
 */
module ClientApi {
  import opened Values
  import opened Text
  import opened Counters
  import opened Sql
  import opened Reports
  import opened BrowserStorage
  import AnalyticsApi
  import ApplicationsApi
  import Database

  /** The options of a call: the HTTP method and the value whose JSON text is the body. */
  datatype Options = Options(httpMethod: Option<string>, body: Option<Json>)

  /** An endpoint below /api and its options. */
  datatype Call = Call(endpoint: string, options: Options)

  /** The reply fields the callers read. */
  datatype Payload =
    | NoData
    | Rows(items: seq<Json>)
    | ServerStats(pageViews: seq<PageViewRow>, socialAnalytics: seq<SocialRow>, applicationStats: seq<StatRow>)
    | LocalStats(pageViewCounts: map<string, int>, socialCounts: map<string, map<string, int>>)

  datatype Reply = Reply(success: bool, message: Option<string>, error: Option<string>, data: Payload)

  /** How the server answered: a parsed body and whether the status was 2xx, a body that is not JSON, or nothing. */
  datatype Remote = Answered(ok: bool, reply: Reply) | Unreadable | Unreachable

  /** What API.request settles with: a reply, or an exception thrown by the fallback. */
  datatype Outcome = Returned(reply: Reply) | Threw

  const ApplicationSaved: string := "Application saved to localStorage"
  const AnalyticsSaved: string := "Analytics saved to localStorage"
  const NotSupported: string := "Endpoint not supported in fallback mode"

  // ----- the calls the wrappers make -----

  const ApplicationsPhp: string := "/applications.php"
  const AnalyticsPhp: string := "/analytics.php"

  function GetApplicationsCall(): Call
  {
    Call(ApplicationsPhp, Options(None, None))
  }

  function CreateApplicationCall(applicationData: Json): Call
  {
    Call(ApplicationsPhp, Options(Some("POST"), Some(applicationData)))
  }

  function UpdateStatusCall(applicationId: Json, status: Json): Call
  {
    Call(ApplicationsPhp + "?action=update_status",
         Options(Some("POST"), Some(JObject(map["id" := applicationId, "status" := status]))))
  }

  function ArchiveCall(applicationId: Json): Call
  {
    Call(ApplicationsPhp + "?action=archive", Options(Some("POST"), Some(JObject(map["id" := applicationId]))))
  }

  function DeleteCall(applicationId: string): Call
  {
    Call(ApplicationsPhp + ("?id=" + applicationId), Options(Some("DELETE"), None))
  }

  function GetAnalyticsCall(): Call
  {
    Call(AnalyticsPhp, Options(None, None))
  }

  function TrackPageViewCall(): Call
  {
    Call(AnalyticsPhp, Options(Some("POST"), Some(JObject(map["type" := JStr("page_view")]))))
  }

  function TrackSocialClickCall(platform: Json): Call
  {
    Call(AnalyticsPhp, Options(Some("POST"),
         Some(JObject(map["type" := JStr("social_click"), "platform" := platform]))))
  }

  // ----- JavaScript property access and String() -----

  /** `v.key` on a parsed value: null throws, a non-object has no such property. */
  datatype Access = Throws | Undefined | Value(v: Json)

  function Member(v: Json, key: string): (a: Access)
    ensures a.Throws? <==> v.JNull?
    ensures v.JObject? && key in v.fields ==> a == Value(v.fields[key])
  {
    match v
    case JNull => Throws
    case JObject(fields) => if key in fields then Value(fields[key]) else Undefined
    case _ => Undefined
  }

  /** `String(v)`, the property key a value is used as. */
  function JsString(v: Json): string
    decreases v, 1
  {
    match v
    case JNull => "null"
    case JBool(b) => if b then "true" else "false"
    case JInt(i) => IntToString(i)
    case JStr(s) => s
    case JList(items) => JoinItems(v, items)
    case JObject(_) => "[object Object]"
  }

  /** Array.prototype.join(','): null elements give empty text. */
  function JoinItems(parent: Json, items: seq<Json>): string
    requires forall x | x in items :: x < parent
    decreases parent, 0, |items|
  {
    if items == [] then ""
    else
      assert items[0] in items;
      assert forall x | x in items[1..] :: x in items;
      var head := if items[0].JNull? then "" else JsString(items[0]);
      if |items| == 1 then head else head + "," + JoinItems(parent, items[1..])
  }

  /** The key of `data.platform`: an absent platform is counted under "undefined". */
  function PlatformKey(a: Access): (k: string)
    ensures a.Value? && a.v.JStr? ==> k == a.v.s
    ensures a.Undefined? ==> k == "undefined"
  {
    if a.Value? then JsString(a.v) else "undefined"
  }

  // ----- the fallback -----

  /** fallbackToLocalStorage: the settled value and the storage afterwards. */
  function FallbackOf(s: Store, call: Call, today: string): (r: (Outcome, Store))
    ensures r.1.analytics == s.analytics
    ensures r.0.Threw? ==> r.1 == s
    ensures r.1.applications == s.applications ||
            (call.options.body.Some? && r.1.applications == s.applications + [call.options.body.value])
  {
    var options := call.options;
    if Contains(call.endpoint, "/applications") then
      if options.httpMethod == Some("POST") then
        if options.body.None? then (Threw, s)
        else (Returned(Reply(true, Some(ApplicationSaved), None, NoData)),
              s.(applications := s.applications + [options.body.value]))
      else (Returned(Reply(true, None, None, Rows(s.applications))), s)
    else if Contains(call.endpoint, "/analytics") then
      if options.httpMethod == Some("POST") then
        if options.body.None? then (Threw, s)
        else
          var data := options.body.value;
          var saved := Returned(Reply(true, Some(AnalyticsSaved), None, NoData));
          var kind := Member(data, "type");
          if kind.Throws? then (Threw, s)
          else if kind == Value(JStr("page_view")) then (saved, s.(pageViews := Bump(s.pageViews, today)))
          else if kind == Value(JStr("social_click")) then
            (saved, s.(socialAnalytics := BumpNested(s.socialAnalytics, today, PlatformKey(Member(data, "platform")))))
          else (saved, s)
      else (Returned(Reply(true, None, None, LocalStats(s.pageViews, s.socialAnalytics))), s)
    else (Returned(Reply(false, None, Some(NotSupported), NoData)), s)
  }

  /** API.request: a 2xx JSON answer is returned as is; anything else is served by the fallback. */
  function RequestOf(s: Store, call: Call, remote: Remote, today: string): (r: (Outcome, Store))
    ensures remote.Answered? && remote.ok ==> r == (Returned(remote.reply), s)
    ensures !(remote.Answered? && remote.ok) ==> r == FallbackOf(s, call, today)
  {
    if remote.Answered? && remote.ok then (Returned(remote.reply), s) else FallbackOf(s, call, today)
  }

  /** fallbackToLocalStorage on the browser's storage: settles and writes back as FallbackOf says. */
  method Fallback(ls: LocalStorage, call: Call, today: string) returns (outcome: Outcome)
    modifies ls
    ensures (outcome, ls.Snapshot()) == FallbackOf(old(ls.Snapshot()), call, today)
  {
    var r := FallbackOf(ls.Snapshot(), call, today);
    outcome := r.0;
    ls.Put(r.1);
  }

  method Request(ls: LocalStorage, call: Call, remote: Remote, today: string) returns (outcome: Outcome)
    modifies ls
    ensures (outcome, ls.Snapshot()) == RequestOf(old(ls.Snapshot()), call, remote, today)
  {
    if remote.Answered? && remote.ok {
      return Returned(remote.reply);
    }
    outcome := Fallback(ls, call, today);
  }

  // ----- the redefined script functions -----

  /**
   * storeApplication (api.js): create the application; when the reply reports success,
   * updateAnalytics sends a page view. Both calls' failures are swallowed.
   */
  function StoreApplicationOf(s: Store, data: Json, create: Remote, view: Remote, today: string): (r: Store)
  {
    var (created, s1) := RequestOf(s, CreateApplicationCall(data), create, today);
    if created.Returned? && created.reply.success then RequestOf(s1, TrackPageViewCall(), view, today).1 else s1
  }

  method StoreApplication(ls: LocalStorage, data: Json, create: Remote, view: Remote, today: string)
    modifies ls
    ensures ls.Snapshot() == StoreApplicationOf(old(ls.Snapshot()), data, create, view, today)
  {
    var response := Request(ls, CreateApplicationCall(data), create, today);
    if response.Returned? && response.reply.success {
      UpdateAnalytics(ls, view, today);
    }
  }

  /** updateAnalytics (api.js): a page view, not an application count. */
  method UpdateAnalytics(ls: LocalStorage, view: Remote, today: string)
    modifies ls
    ensures ls.Snapshot() == RequestOf(old(ls.Snapshot()), TrackPageViewCall(), view, today).1
  {
    var _ := Request(ls, TrackPageViewCall(), view, today);
  }

  method TrackSocialClick(ls: LocalStorage, platform: string, remote: Remote, today: string)
    modifies ls
    ensures ls.Snapshot() == RequestOf(old(ls.Snapshot()), TrackSocialClickCall(JStr(platform)), remote, today).1
  {
    var _ := Request(ls, TrackSocialClickCall(JStr(platform)), remote, today);
  }

  method TrackPageView(ls: LocalStorage, remote: Remote, today: string)
    modifies ls
    ensures ls.Snapshot() == RequestOf(old(ls.Snapshot()), TrackPageViewCall(), remote, today).1
  {
    var _ := Request(ls, TrackPageViewCall(), remote, today);
  }

  // ----- what the fallback does to each call -----

  lemma ApplicationsEndpoint(rest: string)
    ensures Contains(ApplicationsPhp, "/applications")
    ensures Contains(ApplicationsPhp + rest, "/applications")
    ensures !Contains(AnalyticsPhp, "/applications")
  {
    assert OccursAt(ApplicationsPhp, "/applications", 0);
    assert OccursAt(ApplicationsPhp + rest, "/applications", 0);
    var a := AnalyticsPhp;
    forall i | 0 <= i <= |a| - |"/applications"| ensures !OccursAt(a, "/applications", i) {
      assert a[i..i + |"/applications"|][3] != "/applications"[3];
    }
  }

  lemma AnalyticsEndpoint()
    ensures Contains(AnalyticsPhp, "/analytics")
  {
    assert OccursAt(AnalyticsPhp, "/analytics", 0);
  }

  /** The applications test comes first: a call to it never touches the counters. */
  lemma ApplicationsFirst(s: Store, call: Call, today: string)
    requires Contains(call.endpoint, "/applications")
    ensures FallbackOf(s, call, today).1.pageViews == s.pageViews
    ensures FallbackOf(s, call, today).1.socialAnalytics == s.socialAnalytics
  {
  }

  /** Offline, a created application is appended to the stored ones. */
  lemma CreateOffline(s: Store, data: Json, today: string)
    ensures FallbackOf(s, CreateApplicationCall(data), today) ==
            (Returned(Reply(true, Some(ApplicationSaved), None, NoData)), s.(applications := s.applications + [data]))
  {
    ApplicationsEndpoint("");
  }

  /** Offline, a status update is stored as one more application holding just the id and the status. */
  lemma UpdateStatusOffline(s: Store, applicationId: Json, status: Json, today: string)
    ensures FallbackOf(s, UpdateStatusCall(applicationId, status), today).1 ==
            s.(applications := s.applications + [JObject(map["id" := applicationId, "status" := status])])
  {
    ApplicationsEndpoint("?action=update_status");
  }

  /** Offline, a delete removes nothing and answers with the stored list. */
  lemma DeleteOffline(s: Store, applicationId: string, today: string)
    ensures FallbackOf(s, DeleteCall(applicationId), today) ==
            (Returned(Reply(true, None, None, Rows(s.applications))), s)
  {
    ApplicationsEndpoint("?id=" + applicationId);
  }

  /** Offline, a page view raises today's count. */
  lemma PageViewOffline(s: Store, today: string)
    ensures FallbackOf(s, TrackPageViewCall(), today) ==
            (Returned(Reply(true, Some(AnalyticsSaved), None, NoData)), s.(pageViews := Bump(s.pageViews, today)))
  {
    ApplicationsEndpoint("");
    AnalyticsEndpoint();
  }

  /** Offline, a click raises the count of its platform today. */
  lemma SocialClickOffline(s: Store, platform: string, today: string)
    ensures FallbackOf(s, TrackSocialClickCall(JStr(platform)), today).1 ==
            s.(socialAnalytics := BumpNested(s.socialAnalytics, today, platform))
  {
    ApplicationsEndpoint("");
    AnalyticsEndpoint();
  }

  /** A click whose body has no platform is counted under "undefined". */
  lemma ClickWithoutPlatform(s: Store, today: string)
    ensures var call := Call(AnalyticsPhp, Options(Some("POST"), Some(JObject(map["type" := JStr("social_click")]))));
      FallbackOf(s, call, today).1 == s.(socialAnalytics := BumpNested(s.socialAnalytics, today, "undefined"))
  {
    ApplicationsEndpoint("");
    AnalyticsEndpoint();
  }

  /** A POST body of null makes the fallback throw, leaving the storage as it was. */
  lemma NullAnalyticsBodyThrows(s: Store, today: string)
    ensures FallbackOf(s, Call(AnalyticsPhp, Options(Some("POST"), Some(JNull))), today) == (Threw, s)
  {
    ApplicationsEndpoint("");
    AnalyticsEndpoint();
  }

  /** An endpoint matching neither test is refused and changes nothing. */
  lemma UnsupportedEndpoint(s: Store, call: Call, today: string)
    requires !Contains(call.endpoint, "/applications") && !Contains(call.endpoint, "/analytics")
    ensures FallbackOf(s, call, today) == (Returned(Reply(false, None, Some(NotSupported), NoData)), s)
  {
  }

  /** Reads never change the storage, with or without the server. */
  lemma ReadsKeepStorage(s: Store, remote: Remote, today: string)
    ensures RequestOf(s, GetApplicationsCall(), remote, today).1 == s
    ensures RequestOf(s, GetAnalyticsCall(), remote, today).1 == s
  {
    ApplicationsEndpoint("");
    AnalyticsEndpoint();
  }

  /**
   * With no server at all, storeApplication keeps the application locally and counts one
   * page view for today; the application counters under 'analytics' do not move.
   */
  lemma StoreApplicationOffline(s: Store, data: Json, today: string)
    ensures var r := StoreApplicationOf(s, data, Unreachable, Unreachable, today);
      r.applications == s.applications + [data] &&
      r.pageViews == Bump(s.pageViews, today) &&
      r.analytics == s.analytics && r.socialAnalytics == s.socialAnalytics
  {
    CreateOffline(s, data, today);
    PageViewOffline(s.(applications := s.applications + [data]), today);
  }

  /** A server reply as the client sees it: 2xx is ok; an error body has no success flag. */
  function FromAnalytics(resp: AnalyticsApi.Response): (remote: Remote)
    ensures remote.Answered?
    ensures resp.body.Stats? && resp.code == 200 ==>
      remote == Answered(true, Reply(true, None, None,
                         ServerStats(resp.body.pageViews, resp.body.socialAnalytics, resp.body.applicationStats)))
  {
    var ok := 200 <= resp.code < 300;
    match resp.body
    case Ack(message) => Answered(ok, Reply(true, Some(message), None, NoData))
    case Stats(views, clicks, stats) => Answered(ok, Reply(true, None, None, ServerStats(views, clicks, stats)))
    case Failed(error) => Answered(ok, Reply(false, None, Some(error), NoData))
    case MethodNotAllowed => Answered(ok, Reply(false, None, Some("Method not allowed"), NoData))
  }

  /**
   * An applications.php reply as the client sees it. `encodeRow` stands for json_encode of
   * a fetched row followed by JSON.parse in the browser.
   */
  function FromApplications(resp: ApplicationsApi.Response, encodeRow: Database.Row -> Json): (remote: Remote)
    ensures remote.Answered? && remote.ok == (200 <= resp.code < 300)
    ensures resp.body.Listing? ==>
      remote.reply == Reply(true, None, None, Rows(EncodedRows(resp.body.rows, encodeRow)))
    ensures resp.body.Failed? || resp.body.MethodNotAllowed? ==> !remote.reply.success
  {
    var ok := 200 <= resp.code < 300;
    match resp.body
    case Ack(message) => Answered(ok, Reply(true, Some(message), None, NoData))
    case Listing(rows) => Answered(ok, Reply(true, None, None, Rows(EncodedRows(rows, encodeRow))))
    case Failed(error) => Answered(ok, Reply(false, None, Some(error), NoData))
    case MethodNotAllowed => Answered(ok, Reply(false, None, Some("Method not allowed"), NoData))
  }

  /** The `data` list of a listing: one parsed object per row, in the server's order. */
  function EncodedRows(rows: seq<Database.Row>, encodeRow: Database.Row -> Json): (items: seq<Json>)
    ensures |items| == |rows|
    ensures forall i | 0 <= i < |rows| :: items[i] == encodeRow(rows[i])
  {
    seq(|rows|, i requires 0 <= i < |rows| => encodeRow(rows[i]))
  }
}
