# OnTrack core, modelled in Dafny

OnTrack is a Next.js dashboard. Its core is a registry of rented GPU instances,
where each record carries a local id, a friendly name, the provider's instance id,
a believed power state and a creation time. Around the registry sit these parts:

- the pure list helpers, and a module-level cache that is replaced whole on every save;
- the server route that adds a record, and the client components that add, delete,
  change status and run a "drift sweep" that re-queries every record's status;
- the card's power toggle: an auth test, one start/stop request, then a poll of at
  most 12 attempts that waits for the provider to report the new state;
- the server-side single-shot toggle and the provider status projection;
- the appliance-scan route's `Model:` / `Serial:` line parser;
- the admin side: page and file-name sanitisers, page creation, image upload, the
  `/admin` cookie guard and the editor password check.

Each source file is one Dafny module:

- `db.dfy`, `refresh_instances.dfy`, `toggle_power.dfy`, `admin_pages.dfy`,
  `upload_image.dfy`, `middleware.dfy` and `admin_auth.dfy` model pure code, so
  they are functions and lemmas.
- `store.dfy` models the module cache as a class.
- The loops are methods proved against specification functions: the card's
  confirmation poll (`InstanceCard.Poll`), the sweep
  (`InstancesModule.SweepStatuses`) and the line parser
  (`ScanAppliance.ParseLines`).
- The handlers that write component state and storage are methods of
  `InstancesModule.InstancesView`.
- `text.dfy` holds the string primitives the routes use: ECMAScript `trim`, ASCII
  lower-casing, `split('\n')`, decimal rendering and the sanitiser's character
  class. `instance.dfy` holds the record and the provider-reply types, and
  `wrappers.dfy` the `Option` type they share.

Provider calls, storage reads and the clock are inputs:

- A status query is a `StatusReply`: it threw, or it replied with `success` and a
  status string.
- The card's poll gets one reply per attempt.
- A storage entry is a `Slot`: absent, unparseable, or a stored list.
- A write that can throw is a `writeFails` flag.
- Ids and timestamps are parameters.

The power toggle is described by the sequence of its observable effects (`Effect`):
busy flag, auth test, request, wait, status query, status change, warning and
release timer. Its properties are counts and positions in that sequence.

## Model

| member | source | states |
|---|---|---|
| Instances.ObservedRunning | components/instances-module.tsx:84-85 | a reply reports a power state exactly when it succeeded, and the state is on exactly when the status is "running" |
| Instances.AppendKeepsUnique | app/api/instances/route.ts:25-37 | appending a record whose provider id is not present keeps provider ids unique |
| Db.AddLocalInstance | lib/db.ts:42-44 | the result is the input followed by the new record, one longer; with no uniqueness check, the count of the record's id grows by one even if already present |
| Db.DeleteLocalInstance | lib/db.ts:47-49 | a record is kept exactly when it was present and its id differs; the length drops by the number of records carrying the id |
| Db.DeleteAppend | lib/db.ts:47-49 | delete distributes over concatenation, so kept records stay in their original order |
| Db.DeleteOne | lib/db.ts:47-49 | on one record, delete removes it exactly when its id matches |
| Db.DeleteAbsent | lib/db.ts:47-49 | deleting an id no record carries returns an equal list (not an error) |
| Db.DeleteIdempotent | lib/db.ts:47-49 | deleting twice equals deleting once |
| Db.UpdateLocalInstance | lib/db.ts:52-54 | the update keeps the length |
| Db.UpdateAt | lib/db.ts:52-54 | non-matching records are unchanged; in a matching record each field the patch carries takes the patch value and every other field keeps its old value |
| Db.UpdateIdempotent | lib/db.ts:52-54 | a patch that does not change the id, applied twice, equals applying it once |
| Db.SetStatus | components/instances-module.tsx:157-159 | only the `status` of records with the id changes, every other record is identical, and provider ids stay unique |
| InstanceStore.Reloaded | lib/instances.ts:23-30 | the cache changes only in a browser with an empty cache, and then only to the stored list |
| InstanceStore.SlotAfterSave | lib/instances.ts:36-43 | storage is untouched on the server or when the write throws, and otherwise holds the saved list |
| InstanceStore.Store.constructor | lib/instances.ts:4 | the cache starts empty |
| InstanceStore.Store.InitializeCache | lib/instances.ts:10-21 | in a browser a parseable stored list replaces the cache; an absent or unparseable entry leaves it |
| InstanceStore.Store.GetInstances | lib/instances.ts:23-30 | the cache is reloaded only in a browser when it is empty, and the result is the cache |
| InstanceStore.Store.SaveInstances | lib/instances.ts:32-44 | the cache becomes the saved list wholesale, whether or not the storage write succeeds |
| InstanceStore.SaveThenGet | lib/instances.ts:23-44 | on the server, or when the write succeeds, save-then-get returns exactly the saved list |
| InstanceStore.FailedWriteKeepsCache | lib/instances.ts:32-44 | a failed write keeps a non-empty saved list; saving an empty list in a browser whose write fails lets the next get bring the old stored list back |
| InstancesRoute.Decide | app/api/instances/route.ts:14-43 | an unreadable body is a 500 and a falsy field a 400, neither saving; a present provider id is a 400 with no save; a readable body with two truthy fields and a new provider id is always a 201, with an untrimmed, stopped record, and the saved list is the old one plus that record, ids kept unique |
| InstancesRoute.Post | app/api/instances/route.ts:14-43 | the field checks leave the store untouched; otherwise the list is read once and at most one whole-list save happens, of exactly the list `Decide` chose |
| InstancesModule.Swept | components/instances-module.tsx:63-94 | the swept list has the snapshot's length, and each record is refreshed from its own reply only |
| InstancesModule.SweepChangesOnlyDrifted | components/instances-module.tsx:63-94 | (the same code is in components/instance-list.tsx:49-80) a sweep keeps length, order and every field but `status`; a record changes exactly when its reply succeeded with the opposite state; a failed reply leaves its record alone |
| InstancesModule.SweepIsolation | components/instance-list.tsx:77-79 | changing one record's reply (a failure, say) changes no other record's outcome |
| InstancesModule.SweepStatuses | components/instances-module.tsx:66-96 | the per-index loop yields the swept list, and `hasChanges` is set exactly when that list differs from the snapshot |
| InstancesModule.SeedStatus | components/instances-module.tsx:204-217 | the seeded status is true exactly for a successful reply saying "running"; an error seeds false |
| InstancesModule.Register | components/instances-module.tsx:180-229 | a blank trimmed name or id is rejected first, then a trimmed id already present; otherwise exactly one record with trimmed fields and the seeded status is appended, ids kept unique |
| InstancesModule.InstancesView.constructor | components/instances-module.tsx:19 | the list state starts empty and storage is as given |
| InstancesModule.InstancesView.RefreshAllStatuses | components/instances-module.tsx:59-116 | (the same code is in components/instance-list.tsx:45-102) an empty snapshot or an unchanged sweep writes nothing; otherwise the state becomes the whole swept list once, and storage does too unless the write throws |
| InstancesModule.InstancesView.HandleDeleteInstance | components/instances-module.tsx:128-151 | (the same code is in components/instance-list.tsx:114-137) storage and state become the list filtered on the id (an absent id is a no-op success); a failed write changes neither |
| InstancesModule.InstancesView.HandleStatusChange | components/instances-module.tsx:154-174 | (the same code is in components/instance-list.tsx:140-160) storage and state become the list with `status` set on matching ids only; a failed write changes neither |
| InstancesModule.InstancesView.HandleSubmit | components/instances-module.tsx:177-255 | the outcome is `Register` on the current list; the status query happens only for an accepted record; only an accepted record is written, to storage and state |
| AddInstanceForm.StoredOrEmpty | components/add-instance-form.tsx:37-45 | an absent or unparseable storage entry counts as the empty list |
| AddInstanceForm.HandleSubmit | components/add-instance-form.tsx:21-110 | blank fields are rejected before storage is read; a duplicate trimmed id before the status query, with nothing written; otherwise the written list is the stored list plus exactly one record with trimmed fields and the seeded status |
| InstanceCard.FirstConfirm | components/instance-card.tsx:108-128 | the first attempt whose reply confirms the target, with every earlier attempt unconfirmed, or the budget when none does |
| InstanceCard.PollQueries | components/instance-card.tsx:108-128 | the poll makes one query per attempt up to and including the first confirmation, or one per attempt when none confirms |
| InstanceCard.PollChanges | components/instance-card.tsx:112-121 | the poll changes status to the target once when some attempt confirms, and never otherwise |
| InstanceCard.PollNeverReverts | components/instance-card.tsx:112-121 | the poll never sets the status away from the target |
| InstanceCard.PollTimesOut | components/instance-card.tsx:129-137 | the timeout warning appears once exactly when no attempt confirms |
| InstanceCard.PollMakesNoRequest | components/instance-card.tsx:105-128 | the poll issues no start or stop request |
| InstanceCard.PollWaitsBeforeQuery | components/instance-card.tsx:108-111 | in the poll, every status query comes right after a 5-second wait |
| InstanceCard.AuthGate | components/instance-card.tsx:84-94 | a failed auth test makes no request, no poll and no status change, and clears the busy flag at once |
| InstanceCard.RequestChoice | components/instance-card.tsx:96-104 | after a passed auth test exactly one request is made, right after the test: stop when believed on, start when believed off |
| InstanceCard.RequestFailureStops | components/instance-card.tsx:138-151 | a thrown or refused request ends in a warning ("Still On"/"Still Off" when the provider gives no message), with no poll and no status change |
| InstanceCard.BoundedPoll | components/instance-card.tsx:105-128 | a toggle makes at most 12 status queries, and none unless the auth test passed and the request succeeded |
| InstanceCard.QueriesFollowWaits | components/instance-card.tsx:108-111 | in the whole toggle, every status query comes right after a 5-second wait |
| InstanceCard.SomeConfirmIff | components/instance-card.tsx:108-128 | some attempt confirms exactly when the first confirmation lies within the budget |
| InstanceCard.ChangeOnlyOnConfirm | components/instance-card.tsx:112-121 | `onStatusChange` is never called with the believed status, and is called with its negation once exactly when auth passed, the request succeeded and some attempt confirmed |
| InstanceCard.ConfirmAfterQueries | components/instance-card.tsx:110-127 | failed, refused or non-matching replies use up their attempt: a confirmation at attempt k comes after k + 1 queries |
| InstanceCard.TimeoutLeavesStatus | components/instance-card.tsx:129-137 | with no confirmation, all 12 queries are made, one timeout warning follows and the status is never changed |
| InstanceCard.PollUnrolls | components/instance-card.tsx:108-128 | k unconfirmed attempts are k wait-and-query pairs followed by the poll from attempt k |
| InstanceCard.Poll | components/instance-card.tsx:104-137 | the loop with its counter, `confirmed` flag and `break` produces exactly the poll's effect sequence |
| InstanceCard.TogglePower | components/instance-card.tsx:80-152 | the handler produces exactly the toggle's effect sequence, about which the lemmas above hold |
| InstanceCard.RefreshStatus | components/instance-card.tsx:40-78 | every successful reply calls `onStatusChange` with the "running"-ness, even when unchanged; the update toast only when it differs from the believed status; an error toast only when the query threw |
| TogglePowerRoute.Post | app/api/toggle-power/route.ts:4-50 | an unparseable body is a 500; a missing id is a 400 before `turnOn` is looked at; an undefined `turnOn` is a 400; a call happens only when both pass, start when truthy and stop otherwise; a provider throw is a 500; otherwise the observed status is echoed and `success` holds exactly when it equals the expected one |
| TogglePowerRoute.SameComparisonAsCard | app/api/toggle-power/route.ts:28-42 | for "running"/"stopped", the route's success is the card's confirmation test, and its call is the one the card makes for the opposite belief |
| RefreshInstancesRoute.FindStatus | app/api/refresh-instances/route.ts:18 | no status when no provider record has the id; otherwise the status of a matching record with no earlier match |
| RefreshInstancesRoute.FirstMatchWins | app/api/refresh-instances/route.ts:18-21 | the first matching provider record supplies the status |
| RefreshInstancesRoute.Project | app/api/refresh-instances/route.ts:17-23 | one entry per requested id, in order, carrying that id; its status comes from a matching provider record, or is "unknown" when none matches |
| RefreshInstancesRoute.DuplicateIds | app/api/refresh-instances/route.ts:17-23 | a repeated id yields a repeated entry |
| RefreshInstancesRoute.ProjectAppend | app/api/refresh-instances/route.ts:17-23 | projecting a concatenation is concatenating the projections |
| RefreshInstancesRoute.StubReportsUnknown | app/api/refresh-instances/route.ts:14-23 | with the provider list the route actually receives (always empty), every requested id is reported "unknown" |
| RefreshInstancesRoute.PostReportsFirstMatch | app/api/refresh-instances/route.ts:14-23 | with a provider list that holds the instances, an id the provider knows is reported with its first record's status |
| RefreshInstancesRoute.Post | app/api/refresh-instances/route.ts:4-36 | a missing or non-array `instanceIds` is a 400; a provider failure or unreadable body a 500; otherwise the projection of the ids |
| ScanAppliance.ParseLines | app/api/scan-appliance/route.ts:210-222 | the loop's two variables end as the fold of the lines' kinds from "Not found" |
| ScanAppliance.LastModelWins | app/api/scan-appliance/route.ts:215-222 | the last model line decides the model |
| ScanAppliance.LastSerialWins | app/api/scan-appliance/route.ts:215-222 | the last serial line decides the serial |
| ScanAppliance.ModelDefault | app/api/scan-appliance/route.ts:210 | with no model line the model stays "Not found" |
| ScanAppliance.SerialDefault | app/api/scan-appliance/route.ts:211 | with no serial line the serial stays "Not found" |
| ScanAppliance.IgnoredLine | app/api/scan-appliance/route.ts:217-221 | a line that is neither kind changes nothing |
| ScanAppliance.ScannedModel | app/api/scan-appliance/route.ts:215-218 | over actual lines, the model is the value of the last line classified as a model line |
| ScanAppliance.ScannedSerial | app/api/scan-appliance/route.ts:215-220 | over actual lines, the serial is the value of the last line classified as a serial line (never a model line) |
| ScanAppliance.ModelLineAnyCase | app/api/scan-appliance/route.ts:216-218 | a line starting with "model:" in any letter case is a model line whose value is the rest, trimmed |
| ScanAppliance.SerialLineAnyCase | app/api/scan-appliance/route.ts:216-220 | a line starting with "serial:" in any letter case is a serial line whose value is the rest, trimmed |
| ScanAppliance.Post | app/api/scan-appliance/route.ts:77-252 | a missing key is a 500 before the form is read; an unparseable form a 500; no image a 400; a non-ok reply passes its status on; a thrown call or a reply without text is a 500; otherwise the parse of the trimmed text split on line feeds |
| AdminPages.ListPages | app/api/admin/pages/route.ts:21-26 | a page is listed exactly when its file ends in ".html", named by the file with its first ".html" removed |
| AdminPages.ListPagesAppend | app/api/admin/pages/route.ts:21-26 | listing a concatenation of directory entries is listing each part in turn, so pages keep directory order |
| AdminPages.ListPagesOne | app/api/admin/pages/route.ts:21-26 | a single file is listed exactly when it ends in ".html", as (name with the first ".html" removed, file) |
| AdminPages.SanitizePageName | app/api/admin/pages/route.ts:50 | the sanitised name has the input's length and only `[a-z0-9-]` characters |
| AdminPages.SanitizeIdempotent | app/api/admin/pages/route.ts:50 | sanitising twice is sanitising once |
| AdminPages.NameRoundTrip | app/api/admin/pages/route.ts:24 | for a name without dots, the listing recovers the name from name + ".html" |
| AdminPages.CreatedPageListed | app/api/admin/pages/route.ts:21-26 | a created page's file is listed under its sanitised name |
| AdminPages.CreatePage | app/api/admin/pages/route.ts:38-79 | an unreadable body is a 500, a missing name a 400, an existing file a 409 with nothing written; a new name is created exactly when the write succeeds, and a failed write is a 500 with nothing added; a created page is (sanitised, sanitised + ".html"), new, and the only file added |
| AdminPages.CreateTwiceConflicts | app/api/admin/pages/route.ts:53-59 | creating the same name again is a 409 and writes nothing |
| UploadImage.SanitizeFileName | app/api/admin/upload-image/route.ts:39 | the sanitised name has the input's length and only `[a-z0-9.-]` characters |
| UploadImage.StoredName | app/api/admin/upload-image/route.ts:38-40 | the stored name is the timestamp's digits, a dash and the sanitised name, with that length |
| UploadImage.StoredNameSafe | app/api/admin/upload-image/route.ts:39-41 | the stored name has no `/` and starts with a digit, so it names a file inside the images directory |
| UploadImage.TimestampRecoverable | app/api/admin/upload-image/route.ts:38-40 | the digits before the first dash read back as the timestamp |
| UploadImage.SanitizeIdempotent | app/api/admin/upload-image/route.ts:39 | sanitising twice is sanitising once |
| UploadImage.Post | app/api/admin/upload-image/route.ts:17-61 | an unparseable form is a 500; no image a 400; a type not starting with "image/" a 400; an upload succeeds exactly for an image type with a successful write, and its URL is the prefix plus the stored name |
| UploadImage.UrlInImagesDir | app/api/admin/upload-image/route.ts:52 | the URL starts with "/editable-content/images/" and has no further `/` |
| Middleware.Guard | middleware.ts:5-18 | a request is redirected exactly when its path starts with "/admin" and it has no `editor-auth` cookie, and then to "/admin/login" |
| Middleware.ApiAdminPasses | middleware.ts:5-25 | a path not starting with "/admin", "/api/admin/..." included, always passes |
| Middleware.AdminNeedsCookie | middleware.ts:7-14 | a matched "/admin" page is redirected exactly when the cookie is missing |
| Middleware.AnyCookieValuePasses | middleware.ts:9-12 | any cookie value passes, the empty one included |
| Middleware.LoginRedirectsToItself | middleware.ts:7-14 | as written, the login page without the cookie redirects to itself |
| Middleware.FixedGuard | middleware.ts:5-18 | the guard with the login page exempted: redirect exactly for other "/admin" paths without the cookie |
| Middleware.FixedGuardSettles | middleware.ts:5-18 | with the exemption no redirect points at the requested page, the login page is always served, and every other path is guarded as before |
| AdminAuth.Post | app/api/admin/auth/route.ts:3-29 | an unreadable body is a 400; an unset password a 500; success exactly for the configured password; 401 for any other |
| AdminAuth.OnlyExactPassword | app/api/admin/auth/route.ts:6-22 | a guess succeeds exactly when it equals a configured, non-empty password; with none configured nothing succeeds |
| Text.TrimEmptyIff | components/add-instance-form.tsx:24 | a field is blank after `trim()` exactly when all its characters are white space |
| Text.TrimIdempotent | app/api/scan-appliance/route.ts:216-218 | trimming twice is trimming once |
| Text.Split | app/api/scan-appliance/route.ts:214 | the pieces contain no line feed, there is at least one, and joining them with line feeds gives the text back |
| Text.SlugPointwise | app/api/admin/pages/route.ts:50 | allowed characters stay in place, ASCII capitals become lower case, and every other character becomes `-` |
| Text.DecimalRoundTrip | app/api/admin/upload-image/route.ts:40 | the decimal rendering of the timestamp reads back as the number |

## Left out

- The HTTP and provider clients are left out: fetch wrappers, bearer headers and
  JSON decoding. Every call is an input, such as a `StatusReply`, a `RequestReply`
  or a `Provider`.
- Timers are left out. The 5-second poll wait, the 3-second release and the
  10-second server wait are not time. The card records waits as `Wait` effects,
  and the 30-second sweep interval is an explicit call to `RefreshAllStatuses`.
- Concurrency is left out. The parallel tasks of the drift sweep run as a
  sequential per-index loop. Each task touches only its own index and the shared
  flag, so the order does not matter. Races between a sweep and a toggle over a
  stale snapshot are not modelled. The sweep has no overlap guard in the source
  and none here.
- Records are values. The source's shallow copy `[...instancesArray]` means line
  87 also mutates the old snapshot's record objects. That aliasing is not
  modelled.
- `uuid`, `crypto.randomUUID`, `Date.now` and `toISOString` are parameters.
  JSON serialisation over storage becomes a `Slot`.
- JSON values are simplified. A stored value that parses but is not a list is not
  modelled. Request fields are either present as strings or absent.
  Non-string fields are modelled only where the route tests their truthiness
  (`turnOn`).
- `AdminPages.CreatePage`: a `name` that is truthy but not a string (`{"name": 5}`)
  passes the presence check and then makes `name.toLowerCase()` throw, giving a
  500. The model's `name` is a string or absent/falsy, so that 500 is not
  modelled.
- `InstanceCard.TogglePower`: the UI-only setters are not in the effect sequence.
  These are `setPowerWarning(false)` at the start, the power-message texts and the
  toast texts.
- `InstanceCard.RefreshStatus`: the `isRefreshing` flag is left out.
- The scan route's Gemini prompt, image base64 encoding, remote call and `kv.incr`
  counter are left out. The reply is an input. The stray prose at the top of the
  file is not code.
- The admin routes' file system effects (mkdir, access, writeFile, readdir) are left
  out. The pages directory is a set of file names, and write failures are flags.
  A failing `readdir` in the page listing is not modelled.
- `Text.Lower`, `AdminPages.SanitizePageName` and `UploadImage.SanitizeFileName`
  lower-case only ASCII letters. Unicode case mapping is not modelled: some
  characters change length or map into ASCII (for example U+212A KELVIN SIGN
  becomes `k`). Dafny strings are sequences of code points, not UTF-16 code units.
- `Middleware.Effective` approximates the path matcher
  (`/admin/:path*`, `/api/admin/:path*`) by exact and prefix tests.
- Component state, toasts, form resets, `window.location.reload()` and the
  `useLocalInstances` hook are UI and are not modelled.
- Three behaviours of the code that a reader might not expect, which the model
  follows:
  - deleting an absent id is a silent success, not an error;
  - there is no per-instance busy set beyond the card's own toggling flag;
  - the password route reads the body before checking that a password is
    configured, so an unreadable body is a 400 even when none is configured.

## Findings

| source | as written | input that shows it | evidently intended | confidence | as-written member | corrected member |
|---|---|---|---|---|---|---|
| middleware.ts:7-14 | every path starting with "/admin" without the `editor-auth` cookie is redirected to "/admin/login", the login page included | a request for "/admin/login" with no cookies is redirected to "/admin/login" again, without end | the login page is exempt from the guard, so an unauthenticated user can reach it | not executed; high that the loop occurs if a login page is served under "/admin/login" | Middleware.LoginRedirectsToItself | Middleware.FixedGuardSettles |
| app/api/refresh-instances/route.ts:14 | the route takes its provider records from `getTensorDockInstances` (lib/tensordock-api.ts:70-74), a stub that always returns `[]` | any request with `instanceIds: ["abc"]`, even for an instance the provider runs, gets `[{instanceId: "abc", status: "unknown"}]` | the route reads the provider's real instance list and reports each known instance's status | not executed; high, the stub's body is a constant | RefreshInstancesRoute.StubReportsUnknown | RefreshInstancesRoute.PostReportsFirstMatch |
