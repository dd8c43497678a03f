# Job-application intake: a Dafny model

This project models the core of a small recruitment site. Candidates fill in an
application form with four file inputs. The page (`script.js`) validates the text fields
and files, reads the files into data URLs, and records applications, page views and
social-media clicks. A client layer (`js/api.js`) sends these to two PHP endpoints and
falls back to the browser's `localStorage` when the server cannot be used. The endpoints
are:

- `api/applications.php`: list, create, update the status of, archive and delete
  applications;
- `api/analytics.php`: record page views and social clicks, and report the counters.

The model has one module per concern:

- **Shared values.**
  - `Values`: JSON values and `Option`.
  - `Text`: substring search and UTF-16 length.
  - `Php`: PHP truthiness, `isset`, `??`, PHP 8 `switch` comparison and the text `json_encode` writes.
  - `Sql`: PDO parameter binding, text ordering, and `ORDER BY … DESC LIMIT n`.
  - `Counters`: the "raise a count, starting from 0" update used on both sides.
  - `Reports`: the report row types.
- **The server.**
  - `Database`: a class `Db` holding the three tables as maps.
  - `ApplicationsApi`: `api/applications.php`.
  - `AnalyticsApi`: `api/analytics.php`.
- **The browser.**
  - `BrowserStorage`: a class `LocalStorage` holding the four stored keys.
  - `FormValidation`: `validateForm` and `isValidEmail`.
  - `FileSelection`: the file inputs, `handleFileSelection`, `removeFileFromInput`,
    `getTotalFileCount` and `validateFiles`.
  - `FileUploads`: `processFileUploads` as a state machine over read completions.
  - `LocalTracking`: the storage helpers of `script.js`.
  - `PageScript`: the job filter and the social platform choice.
  - `ClientApi`: `js/api.js`, its request and fallback, and the script functions it
    redefines.
  - `AdminViews`: the admin panel's readers (`window.getApplications` and the others).

Code that changes state in place stays imperative. These are the handlers over `Db`, the
storage helpers over `LocalStorage`, the file input class `FileInput`, and the upload
batches from `processFileUploads`. The loops of the source become `while` loops proved
against specification functions. Pure computations are functions with lemmas. Each
endpoint handler's effect is a predicate over the table before and after and the answer
(`Created`, `StatusUpdated`, `Archived`, `Deleted`, `AnalyticsUpdated`), which both the
handler and the router ensure. Lemmas over these predicates relate a write to the next
listing.

## Model

| member | source | states |
|---|---|---|
| FormValidation.ValidateForm | script.js:319-335 | Each of the three messages is present exactly when its rule fails: a name of at least 2 UTF-16 units, an accepted e-mail, a phone of at least 10 units. The messages keep the order name, e-mail, phone. The list is empty exactly when all three rules hold. |
| FormValidation.EmailCheckMatchesPattern | script.js:337-340 | The e-mail check described in words equals the language of `/^[^\s@]+@[^\s@]+\.[^\s@]+$/`. The words are: no whitespace, exactly one '@' with something before it, and a '.' strictly inside the part after it. Both directions are proved. |
| FormValidation.AcceptedEmailMatches | script.js:338 | An address the check accepts splits into the three plain runs of the pattern. |
| FormValidation.MatchedEmailAccepted | script.js:338 | A string the pattern matches passes the check: one '@' and no whitespace anywhere. |
| FileSelection.ScreenSelection | script.js:370-382 | The loop over the picked files gives one "too large" message per file over 5 MB, in order, and keeps exactly the other files, in order. With no message, every file is kept. |
| FileSelection.OversizeErrorsEmpty | script.js:376-388 | No message is produced exactly when every file is at most 5 MB (both directions). |
| FileSelection.OversizeErrorsAppend | script.js:376-382 | The messages for two lists in a row are the messages of each list, concatenated. |
| FileSelection.FittingAppend | script.js:376-382 | The kept files of two lists in a row are the kept files of each, concatenated. |
| FileSelection.FittingAllWithoutErrors | script.js:384-391 | When no message is produced, the preview gets the whole selection. |
| FileSelection.FileInput.HandleSelection | script.js:370-392 | It returns the oversize messages of the current files. With a message, the input is cleared and the preview left alone. Without one, the files stay and the preview shows them all. |
| FileSelection.WithoutIndex | script.js:438-446 | An index in range drops exactly that file, keeping the others in order (one fewer). Any other index, including a negative one, keeps the list. |
| FileSelection.FileInput.RemoveFile | script.js:438-450 | The input's files become the list without that index, and the selection is then re-screened as `handleFileSelection` does. |
| FileSelection.TotalFileCount | script.js:518-530 | The nested loop counts exactly the entries of positive size over the four inputs. |
| FileSelection.PositiveCountAll | script.js:518-530 | The total is the sum of the four per-input counts. |
| FileSelection.ValidateFiles | script.js:532-551 | The messages are "passport required" when there is no passport, then one "too large" message per descriptor over 5 MB. The order is passport, cv, certificates, other documents, and list order within each. |
| FileSelection.PassportMessageFirst | script.js:537-539 | The first message is "passport required" exactly when no passport was given. |
| FileSelection.OversizeErrorsAreTooLarge | script.js:542-548 | The walk over the files only ever adds "too large" messages. |
| FileUploads.SynchronousWalk | script.js:469-509 | The synchronous `forEach` over the four inputs ends with the counter equal to the number of comparisons it made. It resolves exactly when one comparison hit (the k-th increment equal to its bound). It starts exactly one read per entry of positive size. |
| FileUploads.WalkField | script.js:473-508 | One input's walk. An empty list adds one comparison with 4 (`fileFields.length`). A size-0 entry adds one comparison with the total. A positive entry starts a read. |
| FileUploads.UploadBatch.constructor | script.js:460-514 | The initial state is the walk's counter, the started reads and an empty `files`. The promise is resolved with empty lists when the walk hit its bound or the total is 0, and is pending otherwise. |
| FileUploads.UploadBatch.ReadLoaded | script.js:486-499 | `onload` for the running read of entry `i` of an input: that entry exists and has a positive size. Its descriptor (that entry's name, size and type, the data URL and the time) is pushed into the input's list, `i` is recorded as loaded, and 1 is added to the counter. It resolves when the counter equals the total and the promise was pending. The read accounting is preserved. |
| FileUploads.UploadBatch.ReadFailed | script.js:500 | `onerror` rejects a pending promise. A settled one is unchanged. |
| FileUploads.AccountedAtStart | script.js:483-485 | At the start, every started read is unread and none has loaded or failed. The accounting holds: per input, every positive-size entry is exactly one of loaded, unread or failed, every descriptor names the entry it was read from, no entry is loaded twice, and the three counts add up to the input's positive-size entries. |
| FileUploads.UnreadIsStarted | script.js:483-485 | A running read belongs to an existing entry of its input, and that entry has a positive size. |
| FileUploads.Balance | script.js:483-507 | Per input, descriptors pushed plus reads still running plus reads failed equals the count of positive-size entries. Over all inputs, this sums to the total. |
| FileUploads.PositiveIndicesCount | script.js:483-485 | The reads started in a list are as many as its positive-size entries, which is what `getTotalFileCount` counts. |
| FileUploads.EarlyResolution | script.js:475-507 | A 1200-byte passport with three empty inputs, each giving one size-0 entry: the comparisons are 1, 1, 1 against a total of 1. The count is hit while the passport read is still running. |
| FileUploads.PassportReportedMissing | script.js:84-96 | For that form the promise settles with no files, so `validateFiles` reports the passport as missing although one was chosen. |
| FileUploads.NeverSettles | script.js:475-498 | A passport alone, with the other inputs giving no entries: the counter reaches 4 and never equals the total of 1. No read is left, the passport's descriptor is in `files`, and the promise stays pending. |
| FileUploads.CorrectedUploadBatch.ReadLoaded | script.js:486-499 | In the corrected machine, which counts only reads, a load resolves exactly when it was the last running read. The invariant holds: open means no failure and some read running; fulfilled means every read done. |
| FileUploads.CorrectedUploadBatch.ReadFailed | script.js:500 | A failure rejects an open promise and leaves a settled one alone. The invariant holds. |
| FileUploads.CorrectAfterLoad | script.js:495-498 | With reads counted alone, "counter equals total" and "no read left" agree on every load. |
| FileUploads.SettledFileDescribed | script.js:483-499 | Once no read of an input is running or failed, every positive-size entry of it has a descriptor naming it. |
| FileUploads.SettledDescriptorStarted | script.js:483-499 | Once no read of an input is running or failed, every descriptor in its list names a positive-size entry of it. |
| FileUploads.CorrectedUploadBatch.ResolvedHoldsEveryFile | script.js:460-516 | A fulfilled corrected promise holds, for each input, a descriptor of every positive-size entry, only descriptors of positive-size entries, and exactly as many descriptors as such entries. |
| PageScript.Platform | script.js:133-135 | A click is attributed to instagram, tiktok, facebook or other. Each outcome holds exactly when its class is present and no earlier-tested class is. |
| PageScript.FilterJobs | script.js:609-645 | A card is visible exactly when it matches both the search term and the filter. "No results" is shown exactly when no card is visible. |
| PageScript.ActiveFilter | script.js:611 | A non-empty `data-filter` is the filter itself. An absent or empty one counts as "all". Either way the filter is never empty. |
| PageScript.TitleMatch | script.js:619-625 | A term occurring in the lower-cased title makes the card match the search. |
| PageScript.CountryMatch | script.js:618-628 | A term occurring in the country, which is not lower-cased, makes the card match. |
| PageScript.EmptySearchFiltersByCategory | script.js:624-631 | With an empty search term a card is shown exactly when the filter is "all" or equals its category. |
| PageScript.AllShowsMore | script.js:631 | A card shown under some filter is also shown under "all". |
| LocalTracking.Recorded | script.js:203-217 | One recorded application: today's daily count goes up by one (from 0 when absent), other days stay, the total goes up by one and the timestamp is renewed. A missing object starts empty. |
| LocalTracking.RecordedRepeatedly | script.js:203-220 | After n applications from an empty store on one day, the total is n and the map is {today: n}. |
| LocalTracking.UpdateAnalytics | script.js:203-220 | The stored analytics become the recorded value. The other keys are untouched. |
| LocalTracking.StoreApplication | script.js:194-201 | The application is appended to the stored list and the analytics recorded. The counters are untouched. |
| LocalTracking.TrackSocialClick | script.js:289-303 | Today's count for the platform goes up by one (from 0), with other platforms and days kept. Only `socialAnalytics` changes. |
| LocalTracking.TrackPageView | script.js:306-316 | Today's page views go up by one (from 0). Only `pageViews` changes. |
| Counters.Bump | script.js:310-314 | Raising a counter: the key is present afterwards with its old count (or 0) plus one, and every other key is kept. |
| Counters.BumpedRepeatedly | script.js:306-316 | `n` raises of one key add exactly `n` to it, leave every other key's count as it was, and add the key once `n > 0`. |
| Counters.BumpNested | script.js:293-301 | Raising a per-day, per-platform counter: the day is present and its inner map is raised, other days are kept. |
| ClientApi.RequestOf | js/api.js:6-30 | A 2xx JSON answer is returned as is. A non-2xx answer, an unreadable body or no answer goes to the fallback with the same endpoint and options. |
| ClientApi.Request | js/api.js:6-30 | The method returns the outcome and leaves the storage as `RequestOf` says. |
| ClientApi.FallbackOf | js/api.js:33-78 | The application counters are never touched. An exception leaves the storage as it was. The stored applications either stay or get the request body appended. |
| ClientApi.Fallback | js/api.js:33-78 | The method settles with the outcome and writes the storage back, both exactly as `FallbackOf` says. |
| ClientApi.ApplicationsFirst | js/api.js:36-47 | A call whose endpoint contains "/applications" never changes the page views or clicks. |
| ClientApi.CreateOffline | js/api.js:37-42 | Offline, createApplication appends the application and answers that it was saved to localStorage. |
| ClientApi.UpdateStatusOffline | js/api.js:92-97 | Offline, a status update is stored as one more application holding only the id and the status. |
| ClientApi.DeleteOffline | js/api.js:43-46 | Offline, a delete removes nothing and answers with the stored list. |
| ClientApi.PageViewOffline | js/api.js:50-56 | Offline, a page view raises today's count and answers "saved". |
| ClientApi.SocialClickOffline | js/api.js:57-62 | Offline, a click raises today's count for its platform. |
| ClientApi.ClickWithoutPlatform | js/api.js:61 | A click body without a platform is counted under the key "undefined". |
| ClientApi.NullAnalyticsBodyThrows | js/api.js:51-52 | A POST body of `null` makes `data.type` throw. The storage is unchanged and the caller sees an exception. |
| ClientApi.UnsupportedEndpoint | js/api.js:77 | An endpoint matching neither test gets the "not supported" error and changes nothing. |
| ClientApi.ReadsKeepStorage | js/api.js:43-46 | Listing applications and reading analytics never change the storage, with or without the server. |
| ClientApi.StoreApplication | js/api.js:133-146 | Create the application; if the reply reports success, send a page view (`updateAnalytics`). The resulting storage is `StoreApplicationOf`. |
| ClientApi.StoreApplicationOffline | js/api.js:133-152 | With no server, storeApplication keeps the application locally and counts one page view for today. The application counters under 'analytics' do not move. |
| ClientApi.UpdateAnalytics | js/api.js:148-152 | The redefined updateAnalytics sends a page view, not an application count. |
| ClientApi.TrackSocialClick | js/api.js:154-156 | The storage afterwards is that of the social-click request for the platform. |
| ClientApi.TrackPageView | js/api.js:158-160 | The storage afterwards is that of the page-view request. |
| ClientApi.Member | js/api.js:51-52 | Reading a property of `null` throws. A present object key gives its value. |
| ClientApi.PlatformKey | js/api.js:61 | A string platform is its own key. An absent one becomes "undefined". |
| ClientApi.FromAnalytics | api/analytics.php:41-48 | A 200 report reaches the client as a successful reply that carries the three lists. |
| ClientApi.FromApplications | api/applications.php:49 | A listing reaches the client as a successful reply whose `data` holds one parsed object per row, in order. Error bodies have no success flag. The status is ok exactly when it is 2xx. |
| ClientApi.EncodedRows | api/applications.php:49 | The `data` list has one item per listed row, each the parsed object of that row. |
| AdminViews.ApplicationsView | js/api.js:163-171 | On a returned reply: its data on success, `[]` otherwise. After an exception: the stored list. |
| AdminViews.ServerListingReachesPanel | js/api.js:163-171 | With the server up, the panel lists exactly what getApplications selected: one item per live application, in the server's newest-first order. |
| AdminViews.ApplicationsViewWithoutServer | js/api.js:163-171 | When the server is unreachable, answers with something other than JSON, or answers with a non-2xx status, the panel lists the applications stored in this browser. The fallback serves them, so the catch block is never reached. |
| AdminViews.ServerErrorShowsStored | js/api.js:163-171 | An error status from applications.php leaves the panel on the stored list. |
| AdminViews.GetAnalytics | js/api.js:173-195 | On a successful report: one daily count per reported day, where the last row of a day wins, and the sum of all counts. The fallback's empty `applicationStats` gives `{}` with total 0. A reply without the list throws and reads storage. A failed reply gives `{}`. |
| AdminViews.GetSocialAnalytics | js/api.js:197-213 | On a successful report: `[date][platform] = clicks` row by row. The fallback's plain object has no `forEach`, so the call throws and the stored object is read. A failed reply gives `{}`. |
| AdminViews.GetPageViews | js/api.js:215-230 | Like getSocialAnalytics, with `[date] = views`. |
| AdminViews.FoldLastKeys | js/api.js:220-222 | The object written row by row has exactly one key per distinct key among the rows. |
| AdminViews.FoldLastValue | js/api.js:183-185 | A key holds the value of the last row that wrote it. |
| AdminViews.NestedFoldValue | js/api.js:202-205 | A (date, platform) pair holds the clicks of the last row that wrote it. |
| AdminViews.NestedFoldDates | js/api.js:202-205 | The social object has one date key per reported date. |
| AdminViews.SumOfNonNegative | js/api.js:185 | The total of non-negative daily counts is non-negative. |
| AdminViews.ReportedViewsShown | js/api.js:215-223 | Every day in the server's page-view report appears in the admin object with the count stored in the table. |
| AdminViews.ReportedDaysDistinct | api/analytics.php:24 | The page-view report has at most one row per day. |
| AdminViews.ReportedViewsStored | api/analytics.php:24-25 | Every reported row carries the count stored for its day. |
| AdminViews.ServerViewsReachPanel | js/api.js:16-24 | With the server up, the admin readers receive the server's three reports unchanged. |
| AdminViews.OfflineViewsAreLocal | js/api.js:65-73 | Offline, the analytics read returns the stored page views and clicks and an empty application list. |
| ApplicationsApi.RouteOf | api/applications.php:6-33 | GET lists. POST updates the status or archives for those two actions, and creates for any other action or none. DELETE deletes. Every other method is refused. Each of these is an if-and-only-if. |
| ApplicationsApi.Handle | api/applications.php:6-33 | Each route has exactly the effect of its handler. Listing changes nothing and answers 200 with the listing `IsListing` describes. Update, archive, create and delete satisfy `StatusUpdated`, `Archived`, `Created` and `Deleted`, the same predicates their handlers ensure. A refused method answers 405 and changes nothing. No route touches the analytics tables. |
| ApplicationsApi.GetApplications | api/applications.php:35-49 | `IsListing`: the rows are exactly the non-archived applications, each once, newest `created_at` first, with the files column decoded. |
| ApplicationsApi.ListedRowsLive | api/applications.php:39-47 | Every row of the listing is a stored, non-archived application with its files column decoded. |
| ApplicationsApi.LiveRowsListed | api/applications.php:39-47 | Every non-archived application appears in the listing, decoded. |
| ApplicationsApi.ListedRowsSorted | api/applications.php:39-47 | Decoding the files column keeps the `ORDER BY created_at DESC` order. |
| ApplicationsApi.SelectLive | api/applications.php:39 | `WHERE archived = 0`: every selected row is a stored non-archived one, and each non-archived row is selected once. |
| ApplicationsApi.DecodeFilesColumn | api/applications.php:43-47 | Each row's files column is decoded in place, with the number and order of rows kept. |
| ApplicationsApi.DecodedFiles | api/applications.php:44-46 | The result follows the source's rule on the column's text, json_encode's text of the stored value. A truthy text is decoded back to the value. A falsy text is kept as that string. |
| ApplicationsApi.NewRow | api/applications.php:68-89 | The inserted row binds each field of the body. Missing experience and message become "". A missing status becomes "pending". Missing files become `[]`, and `updated_at` is the given timestamp. |
| ApplicationsApi.CreateApplication | api/applications.php:56-96 | `Created`: a falsy body answers 400 and changes nothing. A NULL or already used id fails with 500 and changes nothing. Otherwise exactly one row is added under its id. |
| ApplicationsApi.UpdateApplicationStatus | api/applications.php:98-127 | `StatusUpdated`: without a body, an id or a status the answer is 400 with no change. Otherwise only that row's status and `updated_at` change, and an unknown id still succeeds. |
| ApplicationsApi.ArchiveApplication | api/applications.php:129-160 | `Archived`, with the two clock readings as the code takes them: without a body or an id the answer is 400. Otherwise only that row is archived, with `archived_at` from the second reading and `auto_delete_date` 14 days after the first. An unknown id still succeeds. |
| ApplicationsApi.DeleteApplication | api/applications.php:162-182 | `Deleted`: a missing, empty or "0" id answers 400. Otherwise exactly that key is removed, and an unknown id still succeeds. |
| ApplicationsApi.ArchiveStampsAsWritten | api/applications.php:147-151 | As written, the delete date comes from the first clock reading and `archived_at` from the second. |
| ApplicationsApi.ArchiveStampsCanDisagree | api/applications.php:147-151 | When the second reading is one second later, the delete date is 14 days minus one second after `archived_at`. |
| ApplicationsApi.ArchiveStamps | api/applications.php:147-151 | With one clock reading, the delete date is exactly 14 days after `archived_at`. |
| ApplicationsApi.ArchivedWithOneReading | api/applications.php:147-151 | When both readings are the same instant, the archived row's delete date is exactly 14 days after its `archived_at`, the stamps of ArchiveStamps. |
| ApplicationsApi.CreatedIsListed | api/applications.php:56-96 | A successful create puts its new row, decoded, into the next listing. |
| ApplicationsApi.ArchivedIsNotListed | api/applications.php:129-160 | After a successful archive, no listed row has that id. |
| ApplicationsApi.DeletedIsNotListed | api/applications.php:162-182 | After a successful delete, no listed row has that id. |
| ApplicationsApi.StatusUpdateKeepsListedIds | api/applications.php:98-127 | A status update leaves the set of listed applications unchanged. |
| AnalyticsApi.UpdateAnalytics | api/analytics.php:55-101 | `AnalyticsUpdated`: a falsy body or a missing type answers 400 and changes nothing. `page_view` raises today's views and `social_click` raises today's clicks for the platform, each from 0 when absent. Any other type changes nothing and still succeeds. Applications are never touched. |
| AnalyticsApi.FirstPageView | api/analytics.php:70-78 | The first page view on empty tables creates today's row with one view and answers 200. |
| AnalyticsApi.ClickWithoutPlatformIsUnknown | api/analytics.php:80-93 | A social click whose body names no platform raises the counter of (today, "unknown"). |
| AnalyticsApi.ClickPlatform | api/analytics.php:81 | A missing or null platform is recorded as "unknown". A string platform is itself. |
| AnalyticsApi.CountByDay | api/analytics.php:32-38 | `GROUP BY DATE(created_at)` with `COUNT(*)`: each day holds the number of applications created that day. |
| AnalyticsApi.GetAnalytics | api/analytics.php:19-48 | `IsReport`: the answer is 200, and each of the three lists is the newest 30 entries of its table (by date, descending), each entry once with its stored value. |
| AnalyticsApi.Handle | api/analytics.php:6-17 | GET answers with the report `IsReport` describes and changes nothing. POST has exactly the effect `AnalyticsUpdated` describes. Any other method answers 405 and changes nothing. Applications are never touched. |
| Sql.Latest | api/analytics.php:24-37 | `ORDER BY key DESC LIMIT n`: min(n, size) rows, sorted descending, a sub-multiset of the input, and no dropped row is newer than a kept one. |
| Sql.SortDesc | api/applications.php:39 | The result is sorted descending by the key and is a permutation of the input. |
| Sql.LatestEntries | api/analytics.php:24-29 | The newest n entries of a keyed table: min(n, size) entries, sorted, distinct keys, values as stored, none newer left out. |
| Sql.Bind | api/applications.php:78-89 | A PDO parameter: `null` binds NULL and a string binds itself. |
| Php.FalsyJsonText | api/applications.php:44 | The text json_encode writes is falsy (`!$text`) exactly when the value is the integer 0, whose text is "0". |
| Php.DigitsZero | api/applications.php:44 | The decimal text of a natural number is "0" only for 0. |
| Text.Utf16Length | script.js:322 | JavaScript's `length` counts UTF-16 code units: between one and two per character. |
| Text.Utf16LengthBmp | script.js:330 | For text inside the Basic Multilingual Plane, `length` is the number of characters. |

## Left out

- The page's user interface is only partly modelled. Left out are the menu, smooth scrolling, the modal, the FAQ accordion, the scroll effects, showSuccessMessage, showFilePreview's HTML, clearFilePreview, showNoResultsMessage, clearSearch and openApplicationModal. These only manipulate DOM nodes. The preview is modelled as the list of files it shows.
- formatFileSize is not modelled: it computes display text with floating point (`Math.log`, `toFixed`).
- generateId is not modelled: it depends on `Date.now` and `Math.random`. Ids are opaque inputs.
- The submit handler (script.js:70-113) is modelled only where it passes the promise's files to validateFiles (FileUploads.PassportReportedMissing). Field copying, the metadata it adds and the modal reset are not modelled.
- FileReader and `new Date()` are not modelled. The data URL and upload date of each read are parameters of the read completion. Today's date and the current time are parameters everywhere, as is `DATE(created_at)` on the server.
- I/O is not modelled: `fetch`, HTTP headers, `JSON.stringify`/`JSON.parse` and `json_decode`. Outside the files column, JSON text is identified with the value it encodes, and `json_decode(json_encode(v))` is taken to give back `v`. json_encode's text (`Php.JsonText`) is modelled only where the listing tests it for truthiness. The server's answer is a parameter (`Remote`) of each request.
- The server clock is an integer count of seconds of local wall-clock time, the form `date()` writes. `strtotime('+14 days')` adds 14 calendar days in local time, which is 14 × 24 × 60 × 60 of these seconds; across a daylight-saving change it is an hour more or less of elapsed time. Time zones and leap seconds are not modelled.
- The order in which file reads complete and the interleaving of requests are not modelled. Each read completion is a separate method call, so any order can be expressed. Concurrency between requests is not modelled.
- The replies the client reads are typed. A server report whose counts are not integers, or whose body has other shapes, is outside the model. So is a reply that is not valid JSON: it is `Unreadable` and goes to the fallback.
- PDO errors are narrowed. The only database failure modelled is the primary-key violation on insert (NULL or duplicate id). Connection errors and the exception text are left out: a failing statement answers 500 with a fixed message.
- The database schema is assumed, not checked: unique `date` in page_views and unique `(date, platform)` in social_analytics. This is what the `ON DUPLICATE KEY UPDATE` statements rely on, and config.php is not part of this model.
- Php.JsonText writes an array's keys in some order, because a map does not record PHP's insertion order. It also writes an array whose keys are 0, 1, 2, … as an object, where PHP writes a list. Neither changes whether the text is falsy.
- ClientApi.FromApplications: the JSON object a fetched row becomes in the browser is a parameter (`encodeRow`). Column types and date formatting are not modelled.
- Rows that tie on `created_at`/`date` are returned in some order, and the model does not fix it.
- Lower-casing (`toLowerCase`) is a parameter of the job filter. Unicode case mapping is not modelled.
- The two definitions of storeApplication, updateAnalytics, trackSocialClick, trackPageView and the window getters are modelled separately: the ones in script.js (`LocalTracking`) and the ones in js/api.js (`ClientApi`, `AdminViews`). The script.js getters at script.js:343-357 only read storage. That is the catch branch of the js/api.js getters, so they have no member of their own.
- FileUploads.UploadBatch: the promise's value is a snapshot of `files` taken when it resolves. In the source it is the live object, which later `onload` calls keep filling.

## Findings

| source | as written | input that shows it | evidently intended | confidence | as-written member | corrected member |
|---|---|---|---|---|---|---|
| script.js:475-507 | `processedCount` is raised for an input with no entries (compared with 4) and for an entry of size 0 (compared with the number of positive-size files), as well as for each completed read | A form with a 1200-byte passport and the three other inputs left empty. Each empty input yields one size-0 entry, so the count reaches the total 1 before the passport is read: the promise resolves with no files and validateFiles reports the passport as missing. If the empty inputs yield no entries, the counter ends at 4 against a total of 1 and the promise never settles | Resolve once every started read has completed, and resolve at once when no file has a positive size | not executed | FileUploads.EarlyResolution, FileUploads.PassportReportedMissing, FileUploads.NeverSettles | FileUploads.CorrectedUploadBatch (ReadLoaded, ReadFailed, ResolvedHoldsEveryFile) |
| api/applications.php:147-151 | The delete date is computed from `strtotime('+14 days')` before `archived_at` is read from `date()`, two separate clock readings | Archiving when the clock ticks between the two readings (1000 then 1001): the delete date is 14 days minus one second after `archived_at` | `auto_delete_date` exactly 14 days after `archived_at` | not executed | ApplicationsApi.ArchiveApplication, ApplicationsApi.ArchiveStampsCanDisagree | ApplicationsApi.ArchiveStamps, ApplicationsApi.ArchivedWithOneReading |
