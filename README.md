# TrueNAS configuration backup to S3 — a Dafny model

The repository ships two small Go programs that do the same job:

- `containers/truenas_backup` (called *TrueNasBackup* below);
- `containers/truenas_backup_to_s3` (called *TrueNasBackupToS3*).

Each program runs the same steps once:

1. It reads its settings from the environment.
2. It dials the TrueNAS appliance's JSON-RPC 2.0 WebSocket endpoint and logs in with an API key.
3. It asks `core.download` for a configuration archive and fetches that archive over HTTP.
4. It names the archive `<name>-config-<UTC timestamp>.tar`.
5. It uploads the archive to an S3-compatible bucket.
6. It deletes the objects under its prefix that are older than the retention period.

The two programs differ in a handful of places. The model keeps both behaviours side by side through one parameter, `Settings.Variant`:

- **Settings check.** TrueNasBackupToS3 checks the required settings with a single error message.
- **Timestamp layout.** TrueNasBackup writes `20060102-150405`; TrueNasBackupToS3 writes `2006-01-02_15-04-05`.
- **Step order.** The two programs name the archive and create the store client in opposite orders.
- **Errors that become panics.** TrueNasBackupToS3 panics where TrueNasBackup reports an error:
  - a download locator that is not a string;
  - a download request that cannot be built.
- **Ignored decoding and read errors.** TrueNasBackupToS3 ignores JSON decoding errors and a failed body read.
- **Keys and listing prefixes.** The two programs build object keys and listing prefixes differently.
- **Deletion count.** TrueNasBackupToS3 counts a failed delete as removed.

Modules, one per file:

- `Wrappers` (`wrappers.dfy`): `Option`, `Result` and `Outcome`.
- `GoStrings` (`gostrings.dfy`): the few `strings` functions the programs use.
- `Decimal` (`decimal.dfy`): decimal digits, `strconv.Atoi` and the zero-padded numbers of `time.Format`.
- `Settings` (`settings.dfy`): the environment as a map, the defaults, and the required-settings checks.
- `Rpc` (`rpc.dfy`): the JSON-RPC session as a class over a scripted connection, plus login.
- `Backup` (`backup.dfy`): the WebSocket URL, the download-locator check, the HTTP fetch and the backup stage.
- `Store` (`store.dfy`): the bucket as a class, the object key, upload, and the retention cleanup.
- `Naming` (`naming.dfy`): the timestamp layouts and the archive name, with a parser that inverts them.
- `Pipeline` (`pipeline.dfy`): the whole run, its stage order, its first-failure stop and its exit status.

Operations that change state are methods on classes and are proved against pure specification functions:

- `Rpc.Session` (the WebSocket client with its id counter);
- `Store.Bucket` (the object store, which records every call made on it);
- the cleanup loops;
- the run itself.

The properties are then proved about those specification functions.

## Model

| member | source | states |
|---|---|---|
| GoStrings.TrimPrefix | containers/truenas_backup/src/main.go:80-81 | the prefix is removed exactly when the string starts with it, otherwise the string is unchanged |
| GoStrings.ReplaceFirst | containers/truenas_backup/src/main.go:113-114 | only the first occurrence is replaced, and the text around it is kept; with no occurrence the string is unchanged |
| GoStrings.BeforeFirst | containers/truenas_backup/src/main.go:82 | the result is the longest prefix without the separator, and the separator follows it when the string is longer |
| Decimal.ParseInt | containers/truenas_backup/src/main.go:72 | `strconv.Atoi` accepts exactly an optional sign followed by a non-empty run of digits whose signed value fits in 64 bits, and returns that signed value |
| Decimal.FormatInt | containers/truenas_backup/src/main.go:72 | writing any 64-bit integer in decimal and parsing it back returns that integer |
| Decimal.ShowNatFacts | containers/truenas_backup/src/main.go:349 | the shortest decimal notation has at least one digit, denotes n, and uses no superfluous digit |
| Decimal.PaddedFacts | containers/truenas_backup/src/main.go:349 | a zero-padded field denotes its number, and a number below 10^width is written in exactly width digits |
| Settings.Lookup | containers/truenas_backup/src/main.go:42 | an unset variable reads as the empty string |
| Settings.GetEnv | containers/truenas_backup/src/main.go:63-68 | a set, non-empty value wins; otherwise the fallback is used |
| Settings.GetEnvInt | containers/truenas_backup/src/main.go:70-77 | a value that `Atoi` accepts wins; an unset, empty or malformed value gives the fallback |
| Settings.DeriveName | containers/truenas_backup/src/main.go:79-84 | the derived name has no ':' and is a prefix of the URL with "https://" and then "http://" stripped |
| Settings.DeriveNameOfHost | containers/truenas_backup_to_s3/src/main.go:27 | a URL made of scheme, host and optional port yields the bare host |
| Settings.DeriveNameExample | containers/truenas_backup/src/main.go:79-84 | "https://nas.local:443" yields the name "nas.local" |
| Settings.Resolve | containers/truenas_backup/src/main.go:38-52 | each setting equals its variable, or its default when the variable is empty; the name is derived from the URL; a malformed retention gives 30 days |
| Settings.LoadConfig | containers/truenas_backup/src/main.go:54-60 | it fails exactly when a required setting is empty; the API-key error is reported first |
| Settings.CheckRequired | containers/truenas_backup_to_s3/src/main.go:191-195 | it rejects exactly the environments `LoadConfig` rejects, with the single missing-variables error |
| Settings.LargestRetention | containers/truenas_backup/src/main.go:51 | BACKUP_RETENTION_DAYS set to the largest 64-bit integer is taken as the retention, unchanged |
| Rpc.CallOutcome | containers/truenas_backup/src/main.go:148-161 | a write failure, a read failure or an error object is an error; otherwise the result is passed on unchanged |
| Rpc.DecodeBool | containers/truenas_backup/src/main.go:170-173 | only the JSON value `true` decodes to true; JSON null decodes to false, as `json.Unmarshal` leaves the bool unset; a missing result or any other non-boolean value fails to decode |
| Rpc.DecodeList | containers/truenas_backup/src/main.go:205-208 | a JSON array decodes to its items and null decodes to the empty list; anything else fails |
| Rpc.LoginOutcome | containers/truenas_backup/src/main.go:164-179 | login passes exactly on a reply whose result is `true`; only TrueNasBackup reports an undecodable result separately |
| Rpc.Session.constructor | containers/truenas_backup/src/main.go:129 | a new client has sent nothing, is open, and its id counter is at 0 |
| Rpc.Session.Call | containers/truenas_backup/src/main.go:139-162 | it takes the next id (also when the write then fails), appends exactly one request envelope, and returns `CallOutcome` of the peer's next move |
| Rpc.Session.Authenticate | containers/truenas_backup/src/main.go:164-179 | it makes exactly one `auth.login_with_api_key` call, whose parameters are `[apiKey]`, and returns `LoginOutcome` |
| Rpc.Session.Close | containers/truenas_backup/src/main.go:181-183 | the connection is closed and nothing else changes |
| Rpc.ThreeCalls | containers/truenas_backup/src/main.go:140 | successive calls on a fresh client carry the ids 1, 2 and 3 |
| Backup.WsUrl | containers/truenas_backup/src/main.go:113-115 | the dialled URL always ends in "/api/current" |
| Backup.WsUrlOfHttps | containers/truenas_backup/src/main.go:113-115 | "https://host…" becomes "wss://host…/api/current" |
| Backup.WsUrlOfHttp | containers/truenas_backup_to_s3/src/main.go:89 | "http://host…" becomes "ws://host…/api/current" |
| Backup.CheckLocator | containers/truenas_backup/src/main.go:205-217 | a locator is accepted exactly when the result is a list of at least two items whose second is a string; otherwise TrueNasBackup reports an error and TrueNasBackupToS3 panics on a non-string second item |
| Backup.FetchOutcome | containers/truenas_backup/src/main.go:228-251 | only status 200 yields an archive, whose data is the body; other statuses give an error with the status and the body; only TrueNasBackupToS3 panics on an unbuildable request and keeps a partly read body |
| Backup.BackupSpec | containers/truenas_backup/src/main.go:185-252 | login is sent first (id 1); `core.download` (id 2) is sent only after a successful login; the download goes to the base URL plus the locator; an archive comes only from a status-200 response; a panic happens only in TrueNasBackupToS3 |
| Backup.OpenSession | containers/truenas_backup/src/main.go:112-137 | it dials `WsUrl`; a failed dial opens nothing; a refused login closes the connection and returns no client |
| Backup.GenerateBackup | containers/truenas_backup_to_s3/src/main.go:88-138 | the stage behaves as `BackupSpec` says, and a dialled connection is closed on every way out, including a panic |
| Store.ObjectKey | containers/truenas_backup/src/main.go:272-275 | the key ends in the filename and begins with the prefix and the list prefix; TrueNasBackup uses the bare filename only for an empty prefix |
| Store.ListPrefix | containers/truenas_backup/src/main.go:297-300 | the list prefix extends the prefix by at most a trailing "/"; TrueNasBackupToS3 always appends one |
| Store.Bucket.Put | containers/truenas_backup/src/main.go:279-284 | one `PutObject` call is recorded; on success the object is stored under the key with the upload time |
| Store.Bucket.NextPage | containers/truenas_backup/src/main.go:311 | one listing call is recorded and the next page is returned |
| Store.Bucket.Delete | containers/truenas_backup/src/main.go:318-321 | one delete call is recorded; the object goes away unless the store refuses |
| Store.Upload | containers/truenas_backup/src/main.go:271-290 | exactly one `PutObject` under `ObjectKey`; success returns the key and stores the object; failure leaves the objects unchanged |
| Store.Cutoff | containers/truenas_backup/src/main.go:302 | the intended cutoff lies exactly `days` UTC days before now, and is earlier than now for a positive retention (see Findings for Go's own computation) |
| Store.GoCutoff | containers/truenas_backup/src/main.go:302 | Go's cutoff is congruent modulo 2^64 to `days` days before now, and lies in the 64-bit range of seconds counted from year 1 |
| Store.GoCutoffAgrees | containers/truenas_backup_to_s3/src/main.go:171 | wherever the 64-bit count of seconds does not wrap, Go's cutoff is the intended one |
| Store.GoCutoffWraps | containers/truenas_backup/src/main.go:302-317 | for the largest retention `Atoi` accepts, Go's cutoff is one day after now, so an archive uploaded before now expires, while the intended cutoff keeps it |
| Store.ExpiredMembers | containers/truenas_backup/src/main.go:316-317 | a key is expired exactly when some listed object with that key was modified strictly before the cutoff |
| Store.CleanupTrace | containers/truenas_backup/src/main.go:304-313 | the first call of a non-empty listing is a listing call under the list prefix |
| Store.PagesRead | containers/truenas_backup/src/main.go:310-314 | the paging loop reads every page when none fails, and otherwise exactly the pages up to and including the first failing one |
| Store.CleanupTraceCalls | containers/truenas_backup/src/main.go:310-319 | cleanup makes one listing call under the list prefix per page it reads, and all its other calls are deletes |
| Store.AfterDeletesRemoves | containers/truenas_backup/src/main.go:318-325 | replaying the calls removes exactly the keys whose delete was accepted |
| Store.PruneObject | containers/truenas_backup/src/main.go:317-328 | an expired object gets one delete call; TrueNasBackup counts it only when the delete succeeds, TrueNasBackupToS3 always |
| Store.PrunePage | containers/truenas_backup/src/main.go:316-329 | the loop over a page issues the deletes of `Expired` in order, applies the accepted ones, and counts as `DeletedCount` says |
| Store.ReadPage | containers/truenas_backup/src/main.go:311-315 | one page is read and, when it was read successfully, pruned |
| Store.PrunePages | containers/truenas_backup/src/main.go:310-330 | the paging loop makes exactly the calls of `CleanupTrace`, fails exactly when a page fails, and leaves unread only the pages after the first failing one |
| Store.CleanupDeletesExpired | containers/truenas_backup/src/main.go:310-330 | the deleted keys are exactly the listed objects older than the cutoff, in listing order, and none from after a failed page |
| Store.DeletedCountByVariant | containers/truenas_backup_to_s3/src/main.go:180-184 | TrueNasBackupToS3 reports one deletion per delete call; TrueNasBackup reports no more than that, and the same number exactly when no delete failed |
| Store.RemovedKeysAreDeletedKeys | containers/truenas_backup/src/main.go:322-327 | the keys removed are the deleted keys the store did not refuse |
| Store.CleanupRemovesExpired | containers/truenas_backup/src/main.go:316-328 | a cleanup removes exactly the expired listed keys whose delete was accepted |
| Store.RetentionExample | containers/truenas_backup/src/main.go:302 | with 30 days retained on 2024-03-01, an object from 2024-01-01 expires and one from 2024-02-20 does not |
| Store.Cleanup | containers/truenas_backup/src/main.go:292-334 | a retention of 0 days or less does nothing and reads no page; otherwise the cleanup makes the calls of `CleanupTrace`, removes the accepted deletes and reads the pages `PagesRead` counts; a failed page fails the cleanup and a failed delete does not; the count follows `DeletedCount` |
| Naming.YearTextFacts | containers/truenas_backup/src/main.go:349 | a year from 0 to 9999 is written as four digits denoting it; a negative year starts with '-' |
| Naming.TwoDigitsFacts | containers/truenas_backup/src/main.go:349 | a two-digit field denotes its number, and a number below 100 takes exactly two characters |
| Naming.ScanRender | containers/truenas_backup/src/main.go:349 | scanning what the layout rendered gives back each two-digit field |
| Naming.LayoutShape | containers/truenas_backup_to_s3/src/main.go:210 | both layouts hold five two-digit fields after the year, 11 and 15 characters wide |
| Naming.ParseStamp | containers/truenas_backup/src/main.go:349 | a parsed timestamp has exactly the layout's width and a four-digit year |
| Naming.StampRoundTrip | containers/truenas_backup/src/main.go:349 | parsing the timestamp of a valid UTC time with a four-digit year returns that time (either layout) |
| Naming.StampInjective | containers/truenas_backup/src/main.go:349 | distinct times give distinct timestamps |
| Naming.StampLength | containers/truenas_backup_to_s3/src/main.go:210 | a timestamp is 15 characters in TrueNasBackup and 19 in TrueNasBackupToS3 |
| Naming.Filename | containers/truenas_backup/src/main.go:350 | the name starts with `<name>-config-` and ends with `.tar` |
| Naming.FilenameInjective | containers/truenas_backup/src/main.go:349-350 | for one appliance name, distinct times give distinct archive names |
| Naming.LayoutBackup | containers/truenas_backup/src/main.go:349 | the TrueNasBackup layout is month, day, '-', hour, minute, second |
| Naming.LayoutToS3 | containers/truenas_backup_to_s3/src/main.go:210 | the TrueNasBackupToS3 layout is '-', month, '-', day, '_', hour, '-', minute, '-', second |
| Naming.TwoDigitExamples | containers/truenas_backup/src/main.go:349 | 0, 1 and 3 are written "00", "01" and "03" |
| Naming.YearExample | containers/truenas_backup/src/main.go:349 | the year 2024 is written "2024" |
| Naming.StampExampleBackup | containers/truenas_backup/src/main.go:349 | 2024-03-01 00:00:00 UTC is written "20240301-000000" |
| Naming.StampExampleToS3 | containers/truenas_backup_to_s3/src/main.go:210 | 2024-03-01 00:00:00 UTC is written "2024-03-01_00-00-00" |
| Naming.FilenameExamples | containers/truenas_backup/src/main.go:349-350 | for appliance "nas", the names are "nas-config-20240301-000000.tar" and "nas-config-2024-03-01_00-00-00.tar" |
| Pipeline.ExitStatus | containers/truenas_backup/src/main.go:369-374 | the status is 0 exactly on success and 1 exactly after a reported error (2 after a panic) |
| Pipeline.Configure | containers/truenas_backup_to_s3/src/main.go:191-195 | both programs fail configuration exactly when a required setting is empty, and otherwise use the resolved settings |
| Pipeline.RunSpec | containers/truenas_backup/src/main.go:336-367 | a run enters a prefix of its stage order, reports a failure from the last stage it entered, completes only after all stages, and stops at configuration exactly when a setting is missing |
| Pipeline.FromBackup | containers/truenas_backup/src/main.go:344-347 | the run continues past the backup stage, and touches the store, only when the backup produced an archive |
| Pipeline.FromClient | containers/truenas_backup/src/main.go:349-355 | a missing store client stops the run at the client stage, after naming in TrueNasBackup and before it in TrueNasBackupToS3, with no store call and the objects unchanged; otherwise the run reaches the upload |
| Pipeline.FromUpload | containers/truenas_backup/src/main.go:357-359 | the first store call of the run is the upload under the archive's key; a rejected upload stops the run at the upload stage with that single call and the objects unchanged; otherwise the run reaches cleanup |
| Pipeline.FromCleanup | containers/truenas_backup/src/main.go:361-366 | after the upload, the run completes with the archive's name unless a listing page fails under a positive retention; a retention of 0 days or less makes no store call and changes nothing |
| Pipeline.StageOrders | containers/truenas_backup_to_s3/src/main.go:197-214 | the two programs' stage orders differ only in swapping naming and client creation |
| Pipeline.StagePositions | containers/truenas_backup_to_s3/src/main.go:204-210 | the naming stage is third in TrueNasBackup and fourth in TrueNasBackupToS3, and the client stage the other way round |
| Pipeline.ConfigGate | containers/truenas_backup_to_s3/src/main.go:192-195 | a missing setting stops the run with status 1 before any store call; TrueNasBackupToS3 reports the single missing-variables error |
| Pipeline.NamedOnlyAfterBackup | containers/truenas_backup/src/main.go:344-352 | the archive is named, and the store touched, only after a successful backup; TrueNasBackup names the archive before creating the client |
| Pipeline.CompletedRun | containers/truenas_backup/src/main.go:349-365 | a completed run reports `<name>-config-<timestamp>.tar`, uploaded it under its key as its first store call, and exits 0 |
| Pipeline.PrunedRun | containers/truenas_backup/src/main.go:357-363 | after cleanup with a positive retention, the bucket holds the new archive and everything else except the accepted deletes of expired listed objects |
| Pipeline.KeysAgree | containers/truenas_backup/src/main.go:48 | the prefix from the environment is never empty, so both programs store an archive under the same key |
| Pipeline.PanicsOnlyInToS3 | containers/truenas_backup_to_s3/src/main.go:122 | only TrueNasBackupToS3 can panic; it then exits with status 2 and has made no store call |
| Pipeline.Run | containers/truenas_backup/src/main.go:336-374 | the run does what `RunSpec` says to the bucket and the outcome; only a cleanup with a positive retention reads pages; the appliance connection is closed whenever it was opened and is never opened without the required settings |
| Pipeline.BackUpAndDeliver | containers/truenas_backup/src/main.go:344-347 | the backup stage, then delivery only when an archive exists, as `FromBackup` says; the appliance connection is closed whenever it was opened |
| Pipeline.Deliver | containers/truenas_backup_to_s3/src/main.go:204-214 | naming and client creation in each program's order, then the upload and cleanup, as `FromClient` says |
| Pipeline.StoreArchive | containers/truenas_backup_to_s3/src/main.go:211-219 | the upload and then the cleanup, as `FromUpload` says |
| Pipeline.Prune | containers/truenas_backup/src/main.go:361-363 | the cleanup stage, whose failed listing fails the run, as `FromCleanup` says |

## Left out

- **Wire formats.** JSON encoding and decoding on the wire are not modelled. A response arrives already decoded as a `Json` value, numbers are integers, and the decoded envelope (`Rpc.Response`) is taken as given.
- **Response ids.** Neither program compares a response's id with its request's id, so the model does not either. Each call consumes the next scripted exchange, and an exhausted script reads as a read failure.
- **TLS and timeouts.** The effect of `VERIFY_SSL` on dialling and on the HTTP transport is not modelled; the setting is resolved but the handshake's result is given as the `Dial` outcome. The 10-second handshake timeout and the 120-second HTTP timeout are not modelled either: a timeout is one of the given failure outcomes.
- **The AWS SDK.** Loading the SDK configuration and building the client (credentials, region, endpoint, path-style addressing) is reduced to whether the client can be built (`World.clientOk`). The bucket name and the `application/x-tar` content type are not modelled.
- **Archive bytes.** The bucket maps keys to last-modified times. The uploaded bytes are not stored.
- **The listing.** The listing is a scripted sequence of pages and is not derived from the bucket's objects. Go's paginator always fetches at least one page, so a faithful script is non-empty: an empty listing is one empty page. Continuation tokens are not modelled.
- **Clock readings.** The three readings (timestamp, upload time, cleanup `now`) are independent parameters, and their order in time is not modelled. Times are whole seconds, so sub-second precision in the `Before(cutoff)` comparison is not modelled. UTC has no daylight-saving shifts, so a day is 86400 seconds; leap seconds are ignored.
- Store.Cutoff: the run uses the intended cutoff, `days * 86400` seconds before now. Go's own computation, `Store.GoCutoff`, wraps for retentions above about 1.07e14 days (see Findings); the run does not model that wrap. Go compares instants as 64-bit counts of seconds from year 1, and the model compares unbounded integers; the two agree for last-modified times inside that range.
- **Calendar validity.** `time.Time` keeps its fields in range, and the model's `ValidTime` bounds each field, but does not tie the day to the length of its month.
- Naming.StampRoundTrip: proved only for years 0 to 9999; `YearText` still writes other years as `Format` does (a '-' sign, and more than four digits for larger years).
- **Strings.** Go strings are sequences of bytes; the model's strings are sequences of characters. The prefixes, separators and layouts the programs match are all ASCII, so the difference is not observable in what is modelled.
- **Output.** Printing and the log messages are left out. The error texts are abstracted to constructors, and `os.Exit` becomes `Pipeline.ExitStatus`.
- **Panics.** A Go runtime panic is the outcome `BackupPanicked`, with exit status 2. The deferred `Close` still runs during the panic and is modelled.
- **Concurrency.** The atomic id counter is used by one goroutine, so it is a plain counter.
- **Where the code decides.** Where the code and the system's design disagree, the model follows the code:
  - Neither program checks response ids.
  - TrueNasBackupToS3 always joins prefix and filename with "/". This differs from TrueNasBackup only for an empty prefix, which `Pipeline.KeysAgree` shows cannot come from the environment.
  - TrueNasBackupToS3 always appends "/" to the listing prefix. For a prefix that already ends in "/", such as "b/", it lists under "b//" while TrueNasBackup lists under "b/". Both programs store their own archives under "b//", but only TrueNasBackup's cleanup sees, and can delete, an object such as "b/x.tar".
  - TrueNasBackupToS3 panics on a non-string locator and on an unbuildable request.
  - A failed listing page fails the whole run with exit status 1 in both programs. The cleanup is not best-effort for listing errors.

## Findings

| source | as written | input that shows it | evidently intended | confidence | as-written member | corrected member |
|---|---|---|---|---|---|---|
| containers/truenas_backup/src/main.go:302 | `AddDate(0, 0, -days)` counts the cutoff in 64-bit seconds that wrap | BACKUP_RETENTION_DAYS=9223372036854775807 puts the cutoff one day after now, so cleanup deletes every listed object, the new archive included | a cutoff `days` days before now, earlier than now for every accepted positive retention | high; not executed | Store.GoCutoffWraps | Store.Cutoff |
| containers/truenas_backup_to_s3/src/main.go:171 | the same `AddDate(0, 0, -retentionDays)` | the same retention value | the same cutoff | high; not executed | Store.GoCutoffWraps | Store.Cutoff |
