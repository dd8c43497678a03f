/**
 * The applications endpoint (api/applications.php): a router on the request method and
 * the `action` query parameter, and five handlers over the applications table.
 */
module ApplicationsApi {
  import opened Values
  import opened Php
  import opened Sql
  import opened Database

  datatype Body =
    | Ack(message: string)
    | Listing(rows: seq<Row>)
    | Failed(error: string)
    | MethodNotAllowed

  /** An HTTP status code and the JSON body echoed with it. */
  datatype Response = Response(code: int, body: Body)

  /**
   * `strtotime('+14 days')` relative to the moment of archiving. It adds 14 calendar days in
   * the server's local time, so it is this many seconds of the server's local wall clock,
   * which is how the model reads every clock value (across a daylight-saving change it is
   * an hour more or less of elapsed time).
   */
  const AutoDeleteDelay: int := 14 * 24 * 60 * 60

  /** The text PDO's exception carries; its wording is not modelled. */
  const DatabaseError: string := "database error"

  /** The row the INSERT of createApplication writes for the given key. */
  function NewRow(id: string, input: Json): (r: Row)
    ensures r.id == id
    ensures r.name == Bind(Field(input, "name")) && r.email == Bind(Field(input, "email"))
    ensures r.phone == Bind(Field(input, "phone"))
    ensures Field(input, "experience") == JNull ==> r.experience == Str("")
    ensures Field(input, "experience") != JNull ==> r.experience == Bind(Field(input, "experience"))
    ensures Field(input, "message") == JNull ==> r.message == Str("")
    ensures Field(input, "message") != JNull ==> r.message == Bind(Field(input, "message"))
    ensures Field(input, "status") == JNull ==> r.status == Str("pending")
    ensures Field(input, "status") != JNull ==> r.status == Bind(Field(input, "status"))
    ensures Field(input, "files") == JNull ==> r.files == JList([])
    ensures Field(input, "files") != JNull ==> r.files == Field(input, "files")
    ensures r.createdAt == Bind(Field(input, "timestamp")) && r.updatedAt == Given(r.createdAt)
    ensures !r.archived && r.archivedAt == None && r.autoDeleteDate == None
  {
    var created := Bind(Field(input, "timestamp"));
    Row(id,
        Bind(Field(input, "name")),
        Bind(Field(input, "email")),
        Bind(Field(input, "phone")),
        Bind(Coalesce(Field(input, "experience"), JStr(""))),
        Bind(Coalesce(Field(input, "message"), JStr(""))),
        Coalesce(Field(input, "files"), JList([])),
        Bind(Coalesce(Field(input, "status"), JStr("pending"))),
        created,
        Given(created),
        false, None, None)
  }

  /**
   * What createApplication does: a falsy body is refused with 400. Otherwise one row is
   * inserted; a NULL or already used `id` violates the primary key and fails with 500,
   * leaving the table as it was.
   */
  predicate Created(before: map<string, Row>, input: Json, after: map<string, Row>, resp: Response)
  {
    if Falsy(input) then
      resp == Response(400, Failed("Invalid input")) && after == before
    else
      var key := Bind(Field(input, "id"));
      if key.Str? && key.s !in before then
        after == before[key.s := NewRow(key.s, input)] &&
        resp == Response(200, Ack("Application saved successfully"))
      else
        after == before && resp == Response(500, Failed(DatabaseError))
  }

  method CreateApplication(db: Db, input: Json) returns (resp: Response)
    requires db.Valid()
    modifies db
    ensures db.Valid()
    ensures db.pageViews == old(db.pageViews) && db.socialClicks == old(db.socialClicks)
    ensures Created(old(db.applications), input, db.applications, resp)
  {
    if Falsy(input) {
      return Response(400, Failed("Invalid input"));
    }
    var key := Bind(Field(input, "id"));
    if key.Null? || key.s in db.applications {
      return Response(500, Failed(DatabaseError));
    }
    db.applications := db.applications[key.s := NewRow(key.s, input)];
    resp := Response(200, Ack("Application saved successfully"));
  }

  /** A body updateApplicationStatus refuses: none, or one without an id or a status. */
  predicate StatusRefused(input: Json)
  {
    Falsy(input) || !IsSet(input, "id") || !IsSet(input, "status")
  }

  /**
   * What updateApplicationStatus does, with `now` the clock reading of `date()`: a refused
   * body gets 400. Otherwise the row with that id, if any, gets the new status and
   * `updated_at = now`; an unknown id still succeeds.
   */
  predicate StatusUpdated(before: map<string, Row>, input: Json, now: int, after: map<string, Row>,
                          resp: Response)
  {
    if StatusRefused(input) then
      resp == Response(400, Failed("Missing required fields")) && after == before
    else
      var id := Bind(Field(input, "id")).s;
      resp == Response(200, Ack("Status updated successfully")) &&
      after == if id in before then
        before[id := before[id].(status := Bind(Field(input, "status")), updatedAt := Clock(now))]
      else before
  }

  method UpdateApplicationStatus(db: Db, input: Json, now: int) returns (resp: Response)
    requires db.Valid()
    modifies db
    ensures db.Valid()
    ensures db.pageViews == old(db.pageViews) && db.socialClicks == old(db.socialClicks)
    ensures StatusUpdated(old(db.applications), input, now, db.applications, resp)
  {
    if Falsy(input) || !IsSet(input, "id") || !IsSet(input, "status") {
      return Response(400, Failed("Missing required fields"));
    }
    var id := Bind(Field(input, "id")).s;
    if id in db.applications {
      db.applications := db.applications[id := db.applications[id].(
        status := Bind(Field(input, "status")), updatedAt := Clock(now))];
    }
    resp := Response(200, Ack("Status updated successfully"));
  }

  /**
   * The columns archiveApplication writes, as the code computes them: the delete date
   * from the clock reading `first` (strtotime, line 147) and `archived_at` from the later
   * reading `second` (date, line 150).
   */
  function ArchiveStampsAsWritten(first: int, second: int): (r: (int, int))
    ensures r.0 == second && r.1 == first + AutoDeleteDelay
  {
    (second, first + AutoDeleteDelay)
  }

  /** When the clock ticks between the two readings, the delete date is short by the tick. */
  lemma ArchiveStampsCanDisagree()
    ensures var r := ArchiveStampsAsWritten(1000, 1001); r.1 == r.0 + AutoDeleteDelay - 1
  {
  }

  /** The columns written with one clock reading: the delete date is 14 days after archiving. */
  function ArchiveStamps(now: int): (r: (int, int))
    ensures r.1 - r.0 == AutoDeleteDelay
    ensures r == ArchiveStampsAsWritten(now, now)
  {
    (now, now + AutoDeleteDelay)
  }

  /** A body archiveApplication refuses: none, or one without an id. */
  predicate ArchiveRefused(input: Json)
  {
    Falsy(input) || !IsSet(input, "id")
  }

  /**
   * What archiveApplication does, with `first` the clock reading of `strtotime('+14 days')`
   * and `second` the later one of `date()`: a refused body gets 400. Otherwise the row with
   * that id, if any, is marked archived, with `archived_at = second` and
   * `auto_delete_date = first + 14 days`; an unknown id still succeeds.
   */
  predicate Archived(before: map<string, Row>, input: Json, first: int, second: int,
                     after: map<string, Row>, resp: Response)
  {
    if ArchiveRefused(input) then
      resp == Response(400, Failed("Missing application ID")) && after == before
    else
      var id := Bind(Field(input, "id")).s;
      resp == Response(200, Ack("Application archived successfully")) &&
      after == if id in before then
        before[id := before[id].(
          archived := true, archivedAt := Some(second), autoDeleteDate := Some(first + AutoDeleteDelay))]
      else before
  }

  /**
   * Archiving with a single clock reading for both columns, as intended: the archived row's
   * delete date is exactly 14 days after its `archived_at`, as ArchiveStamps gives them.
   */
  lemma ArchivedWithOneReading(before: map<string, Row>, input: Json, now: int,
                               after: map<string, Row>, resp: Response)
    requires Archived(before, input, now, now, after, resp) && resp.code == 200
    requires Bind(Field(input, "id")).Str? && Bind(Field(input, "id")).s in before
    ensures var row := after[Bind(Field(input, "id")).s];
      row.archived && row.archivedAt.Some? && row.autoDeleteDate.Some? &&
      (row.archivedAt.value, row.autoDeleteDate.value) == ArchiveStamps(now) &&
      row.autoDeleteDate.value - row.archivedAt.value == AutoDeleteDelay
  {
  }

  method ArchiveApplication(db: Db, input: Json, first: int, second: int) returns (resp: Response)
    requires db.Valid()
    modifies db
    ensures db.Valid()
    ensures db.pageViews == old(db.pageViews) && db.socialClicks == old(db.socialClicks)
    ensures Archived(old(db.applications), input, first, second, db.applications, resp)
  {
    if Falsy(input) || !IsSet(input, "id") {
      return Response(400, Failed("Missing application ID"));
    }
    var id := Bind(Field(input, "id")).s;
    if id in db.applications {
      var stamps := ArchiveStampsAsWritten(first, second);
      db.applications := db.applications[id := db.applications[id].(
        archived := true, archivedAt := Some(stamps.0), autoDeleteDate := Some(stamps.1))];
    }
    resp := Response(200, Ack("Application archived successfully"));
  }

  /** PHP's `!$id` for the `id` query parameter: absent, empty or "0". */
  predicate MissingId(id: Option<string>)
  {
    id.None? || id.value == "" || id.value == "0"
  }

  /**
   * What deleteApplication does: without a usable `id` query parameter the answer is 400.
   * Otherwise exactly the row with that id is removed; an unknown id still succeeds.
   */
  predicate Deleted(before: map<string, Row>, id: Option<string>, after: map<string, Row>, resp: Response)
  {
    if MissingId(id) then
      resp == Response(400, Failed("Missing application ID")) && after == before
    else
      resp == Response(200, Ack("Application deleted successfully")) && after == before - {id.value}
  }

  method DeleteApplication(db: Db, id: Option<string>) returns (resp: Response)
    requires db.Valid()
    modifies db
    ensures db.Valid()
    ensures db.pageViews == old(db.pageViews) && db.socialClicks == old(db.socialClicks)
    ensures Deleted(old(db.applications), id, db.applications, resp)
  {
    if MissingId(id) {
      return Response(400, Failed("Missing application ID"));
    }
    db.applications := db.applications - {id.value};
    resp := Response(200, Ack("Application deleted successfully"));
  }

  /**
   * The `files` column after the listing decodes it. The column holds json_encode's text of
   * the stored value; json_decode runs only when that text is truthy and gives the value
   * back, and a falsy text is returned as that string. Only json_encode(0), the text "0",
   * is falsy.
   */
  function DecodedFiles(stored: Json): (v: Json)
    ensures var text := JsonText(stored); v == if Falsy(JStr(text)) then JStr(text) else stored
  {
    FalsyJsonText(stored);
    if stored == JInt(0) then JStr("0") else stored
  }

  function Listed(r: Row): Row
  {
    r.(files := DecodedFiles(r.files))
  }

  function CreatedKey(r: Row): Cell
  {
    r.createdAt
  }

  ghost function LiveIds(applications: map<string, Row>, among: set<string>): set<string>
  {
    set id | id in among && id in applications && !applications[id].archived
  }

  /** The rows of `SELECT * FROM applications WHERE archived = 0`, in no particular order. */
  method SelectLive(apps: map<string, Row>) returns (live: seq<Row>)
    requires forall id | id in apps :: apps[id].id == id
    ensures forall r | r in live :: r.id in apps && !apps[r.id].archived && apps[r.id] == r
    ensures forall id | id in apps && !apps[id].archived :: apps[id] in live
    ensures |live| == |LiveIds(apps, apps.Keys)|
  {
    var pending := apps.Keys;
    live := [];
    while pending != {}
      invariant pending <= apps.Keys
      invariant forall r | r in live :: r.id in apps && !apps[r.id].archived && apps[r.id] == r
      invariant forall r | r in live :: r.id !in pending
      invariant forall id | id in apps.Keys - pending && !apps[id].archived :: apps[id] in live
      invariant |live| == |LiveIds(apps, apps.Keys - pending)|
      decreases pending
    {
      var id :| id in pending;
      ghost var before := LiveIds(apps, apps.Keys - pending);
      if !apps[id].archived {
        assert LiveIds(apps, apps.Keys - (pending - {id})) == before + {id};
        assert apps[id] !in live;
        live := live + [apps[id]];
      } else {
        assert LiveIds(apps, apps.Keys - (pending - {id})) == before;
      }
      pending := pending - {id};
    }
    assert apps.Keys - pending == apps.Keys;
  }

  /** `foreach ($applications as &$app)`: decodes the files column of each row in place. */
  method DecodeFilesColumn(fetched: seq<Row>) returns (rows: seq<Row>)
    ensures |rows| == |fetched|
    ensures forall k | 0 <= k < |fetched| :: rows[k] == Listed(fetched[k])
  {
    rows := fetched;
    var i := 0;
    while i < |rows|
      invariant 0 <= i <= |rows| == |fetched|
      invariant forall k | 0 <= k < i :: rows[k] == Listed(fetched[k])
      invariant forall k | i <= k < |rows| :: rows[k] == fetched[k]
    {
      rows := rows[i := Listed(rows[i])];
      i := i + 1;
    }
  }

  /**
   * The listing getApplications answers with: every row with `archived = 0`, once each,
   * newest `created_at` first, with its `files` column decoded.
   */
  ghost predicate IsListing(apps: map<string, Row>, rows: seq<Row>)
  {
    && (forall r | r in rows :: r.id in apps && !apps[r.id].archived && r == Listed(apps[r.id]))
    && (forall id | id in apps && !apps[id].archived :: Listed(apps[id]) in rows)
    && |rows| == |LiveIds(apps, apps.Keys)|
    && SortedDesc(rows, CreatedKey)
  }

  method GetApplications(db: Db) returns (rows: seq<Row>)
    requires db.Valid()
    ensures IsListing(db.applications, rows)
  {
    var apps := db.applications;
    var live := SelectLive(apps);
    // ORDER BY created_at DESC, done by the database
    var sorted := SortDesc(live, CreatedKey);
    rows := DecodeFilesColumn(sorted);
    SameElements(live, sorted);
    ListedRowsLive(apps, sorted, rows);
    LiveRowsListed(apps, sorted, rows);
    ListedRowsSorted(sorted, rows);
  }

  /** Decoding the files column keeps each row a decoded live row. */
  lemma ListedRowsLive(apps: map<string, Row>, sorted: seq<Row>, rows: seq<Row>)
    requires forall r | r in sorted :: r.id in apps && !apps[r.id].archived && apps[r.id] == r
    requires |rows| == |sorted| && forall k | 0 <= k < |sorted| :: rows[k] == Listed(sorted[k])
    ensures forall r | r in rows :: r.id in apps && !apps[r.id].archived && r == Listed(apps[r.id])
  {
    forall r | r in rows ensures r.id in apps && !apps[r.id].archived && r == Listed(apps[r.id]) {
      var k :| 0 <= k < |rows| && rows[k] == r;
      assert sorted[k] in sorted;
    }
  }

  /** Every live row, decoded, is among the listed rows. */
  lemma LiveRowsListed(apps: map<string, Row>, sorted: seq<Row>, rows: seq<Row>)
    requires forall id | id in apps && !apps[id].archived :: apps[id] in sorted
    requires |rows| == |sorted| && forall k | 0 <= k < |sorted| :: rows[k] == Listed(sorted[k])
    ensures forall id | id in apps && !apps[id].archived :: Listed(apps[id]) in rows
  {
    forall id | id in apps && !apps[id].archived ensures Listed(apps[id]) in rows {
      var k :| 0 <= k < |sorted| && sorted[k] == apps[id];
      assert rows[k] == Listed(apps[id]);
    }
  }

  /** Decoding the files column keeps the order by `created_at`. */
  lemma ListedRowsSorted(sorted: seq<Row>, rows: seq<Row>)
    requires SortedDesc(sorted, CreatedKey)
    requires |rows| == |sorted| && forall k | 0 <= k < |sorted| :: rows[k] == Listed(sorted[k])
    ensures SortedDesc(rows, CreatedKey)
  {
    forall i, j | 0 <= i < j < |rows| ensures CellLe(CreatedKey(rows[j]), CreatedKey(rows[i])) {
      assert CreatedKey(rows[j]) == CreatedKey(sorted[j]);
      assert CreatedKey(rows[i]) == CreatedKey(sorted[i]);
    }
  }

  lemma SameElements<T>(a: seq<T>, b: seq<T>)
    requires multiset(a) == multiset(b)
    ensures forall x :: x in a <==> x in b
    ensures |a| == |b|
  {
    forall x ensures x in a <==> x in b {
      assert x in a <==> x in multiset(a);
      assert x in b <==> x in multiset(b);
    }
    assert |multiset(a)| == |multiset(b)|;
  }

  /** The handler a request reaches. */
  datatype Route = ListRoute | UpdateStatusRoute | ArchiveRoute | CreateRoute | DeleteRoute | Refuse

  /**
   * The router: GET lists; POST updates the status or archives for those two actions and
   * creates for any other action or none; DELETE deletes; any other method is refused.
   */
  function RouteOf(httpMethod: string, action: Option<string>): (r: Route)
    ensures r == ListRoute <==> httpMethod == "GET"
    ensures r == UpdateStatusRoute <==> httpMethod == "POST" && action == Some("update_status")
    ensures r == ArchiveRoute <==> httpMethod == "POST" && action == Some("archive")
    ensures r == CreateRoute <==>
      httpMethod == "POST" && action != Some("update_status") && action != Some("archive")
    ensures r == DeleteRoute <==> httpMethod == "DELETE"
    ensures r == Refuse <==> httpMethod != "GET" && httpMethod != "POST" && httpMethod != "DELETE"
  {
    match httpMethod
    case "GET" => ListRoute
    case "POST" =>
      if action.Some? then
        match action.value
        case "update_status" => UpdateStatusRoute
        case "archive" => ArchiveRoute
        case _ => CreateRoute
      else CreateRoute
    case "DELETE" => DeleteRoute
    case _ => Refuse
  }

  /**
   * Serves one request, dispatching on RouteOf, and has exactly the effect of the handler it
   * reaches; a refused method gets 405 and changes nothing. `now` and `later` are the two
   * clock readings a handler may take, in that order.
   */
  method Handle(db: Db, httpMethod: string, action: Option<string>, queryId: Option<string>,
                input: Json, now: int, later: int)
    returns (resp: Response)
    requires db.Valid()
    modifies db
    ensures db.Valid()
    ensures db.pageViews == old(db.pageViews) && db.socialClicks == old(db.socialClicks)
    ensures RouteOf(httpMethod, action) == ListRoute ==>
      db.applications == old(db.applications) && resp.code == 200 && resp.body.Listing? &&
      IsListing(db.applications, resp.body.rows)
    ensures RouteOf(httpMethod, action) == UpdateStatusRoute ==>
      StatusUpdated(old(db.applications), input, now, db.applications, resp)
    ensures RouteOf(httpMethod, action) == ArchiveRoute ==>
      Archived(old(db.applications), input, now, later, db.applications, resp)
    ensures RouteOf(httpMethod, action) == CreateRoute ==>
      Created(old(db.applications), input, db.applications, resp)
    ensures RouteOf(httpMethod, action) == DeleteRoute ==>
      Deleted(old(db.applications), queryId, db.applications, resp)
    ensures RouteOf(httpMethod, action) == Refuse ==>
      resp == Response(405, MethodNotAllowed) && db.applications == old(db.applications)
  {
    match RouteOf(httpMethod, action)
    case ListRoute =>
      var rows := GetApplications(db);
      resp := Response(200, Listing(rows));
    case UpdateStatusRoute =>
      resp := UpdateApplicationStatus(db, input, now);
    case ArchiveRoute =>
      resp := ArchiveApplication(db, input, now, later);
    case CreateRoute =>
      resp := CreateApplication(db, input);
    case DeleteRoute =>
      resp := DeleteApplication(db, queryId);
    case Refuse =>
      resp := Response(405, MethodNotAllowed);
  }

  // ----- what a later listing shows -----

  /** A successfully created application is in the next listing, as its new row. */
  lemma CreatedIsListed(before: map<string, Row>, input: Json, after: map<string, Row>, resp: Response,
                        rows: seq<Row>)
    requires Created(before, input, after, resp) && resp.code == 200
    requires IsListing(after, rows)
    ensures !Falsy(input) && Bind(Field(input, "id")).Str?
    ensures var id := Bind(Field(input, "id")).s; Listed(NewRow(id, input)) in rows
  {
    var id := Bind(Field(input, "id")).s;
    assert id in after && after[id] == NewRow(id, input);
  }

  /** A successfully archived application is no longer listed. */
  lemma ArchivedIsNotListed(before: map<string, Row>, input: Json, first: int, second: int,
                            after: map<string, Row>, resp: Response, rows: seq<Row>)
    requires Archived(before, input, first, second, after, resp) && resp.code == 200
    requires IsListing(after, rows)
    ensures !ArchiveRefused(input)
    ensures forall r | r in rows :: r.id != Bind(Field(input, "id")).s
  {
    var id := Bind(Field(input, "id")).s;
    forall r | r in rows ensures r.id != id {
      if id in before {
        assert after[id].archived;
      } else {
        assert id !in after;
      }
    }
  }

  /** A successfully deleted application is no longer listed. */
  lemma DeletedIsNotListed(before: map<string, Row>, id: Option<string>, after: map<string, Row>,
                           resp: Response, rows: seq<Row>)
    requires Deleted(before, id, after, resp) && resp.code == 200
    requires IsListing(after, rows)
    ensures !MissingId(id)
    ensures forall r | r in rows :: r.id != id.value
  {
    assert id.value !in after;
  }

  /** A status update leaves the same applications listed, in the same number. */
  lemma StatusUpdateKeepsListedIds(before: map<string, Row>, input: Json, now: int,
                                   after: map<string, Row>, resp: Response)
    requires StatusUpdated(before, input, now, after, resp)
    ensures LiveIds(after, after.Keys) == LiveIds(before, before.Keys)
  {
    if !StatusRefused(input) {
      var id := Bind(Field(input, "id")).s;
      if id in before {
        assert after.Keys == before.Keys;
        forall k | k in before ensures after[k].archived == before[k].archived {
        }
      }
    }
  }
}
