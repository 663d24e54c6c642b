/**
  Backup generation: dial the appliance's WebSocket endpoint, log in, ask
  for a configuration archive with `core.download`, check the shape of the
  answer and fetch the archive over HTTP (`generateConfigBackup` in
  containers/truenas_backup, `generateBackup` in
  containers/truenas_backup_to_s3). Dialling and the HTTP exchange are
  given as outcomes; the session is the `Rpc.Session` object.
*/
module Backup {
  import opened Wrappers
  import opened GoStrings
  import opened Settings
  import opened Rpc

  type Bytes = seq<bv8>

  /**
    The dialled URL: the first "https://" becomes "wss://", then the first
    "http://" becomes "ws://", then "/api/current" is appended. Both
    replacements look anywhere in the URL, not only at its start.
  */
  function WsUrl(base: string): (r: string)
    ensures HasSuffix(r, "/api/current")
  {
    ReplaceFirst(ReplaceFirst(base, "https://", "wss://"), "http://", "ws://") + "/api/current"
  }

  /** A secure base URL becomes a secure WebSocket URL. */
  lemma {:induction false} WsUrlOfHttps(rest: string)
    requires Index(rest, "http://").None? && Index(rest, "https://").None?
    ensures WsUrl("https://" + rest) == "wss://" + rest + "/api/current"
  {
    var s := "https://" + rest;
    assert OccursAt(s, "https://", 0);
    assert Index(s, "https://") == Some(0);
    assert s[8..] == rest;
    var t := "wss://" + rest;
    assert ReplaceFirst(s, "https://", "wss://") == t;
    forall j | 0 <= j <= |t| ensures !OccursAt(t, "http://", j) {
      if j >= 6 {
        assert OccursAt(t, "http://", j) ==> OccursAt(rest, "http://", j - 6) by {
          if OccursAt(t, "http://", j) { assert t[j..j + 7] == rest[j - 6..j - 6 + 7]; }
        }
      } else if j + 7 <= |t| {
        assert t[j] != 'h' && t[j..j + 7][0] == t[j];
      }
    }
  }

  /** A plain base URL becomes a plain WebSocket URL. */
  lemma {:induction false} WsUrlOfHttp(rest: string)
    requires Index(rest, "http://").None? && Index(rest, "https://").None?
    ensures WsUrl("http://" + rest) == "ws://" + rest + "/api/current"
  {
    var s := "http://" + rest;
    forall j | 0 <= j <= |s| ensures !OccursAt(s, "https://", j) {
      if j >= 7 {
        assert OccursAt(s, "https://", j) ==> OccursAt(rest, "https://", j - 7) by {
          if OccursAt(s, "https://", j) { assert s[j..j + 8] == rest[j - 7..j - 7 + 8]; }
        }
      } else if j + 8 <= |s| {
        assert forall k :: 0 <= k < 7 ==> s[k] == "http://"[k];
        assert s[j] != 'h' || s[j + 4] != 's';
        assert s[j..j + 8][0] == s[j] && s[j..j + 8][4] == s[j + 4];
      }
    }
    assert ReplaceFirst(s, "https://", "wss://") == s;
    assert OccursAt(s, "http://", 0);
    assert s[7..] == rest;
  }

  const DownloadMethod := "core.download"

  /** `["config.save", [{"secretseed": true}], "config.tar"]`. */
  const DownloadParams: Json :=
    JArray([JString("config.save"), JArray([JObject([("secretseed", JBool(true))])]), JString("config.tar")])

  datatype BackupError =
    | DialFailed
    | Login(loginError: LoginError)
    | DownloadCallFailed(callError: CallError)
    | ResultUnreadable     // the result does not decode as a list (containers/truenas_backup only)
    | ResultTooShort       // fewer than two elements
    | LocatorNotString     // element 1 is not a string (containers/truenas_backup only)
    | RequestNotBuilt      // the download request cannot be built (containers/truenas_backup only)
    | TransportFailed
    | BadStatus(status: int, body: Bytes)
    | BodyUnreadable       // reading the archive failed (containers/truenas_backup only)

  /** The result of dialling: failure, or a connection whose peer follows the script. */
  datatype Dial = DialFails | Dialled(script: seq<Exchange>)

  /**
    The download as the HTTP client sees it: the request cannot be built
    for the URL, the transport fails, or a response arrives whose body was
    read completely or only in part.
  */
  datatype HttpOutcome =
    | UnbuildableRequest
    | TransportError
    | HttpResponse(status: int, body: Bytes, bodyComplete: bool)

  /** How the stage ends; a panic is the Go runtime aborting the program. */
  datatype BackupResult = Archive(data: Bytes) | BackupFailed(error: BackupError) | BackupPanicked

  /** The verdict on the `core.download` result. */
  datatype LocatorCheck = Locator(path: string) | Rejected(error: BackupError) | Panics

  /** A result that is a list of at least two elements whose second is a string. */
  predicate WellFormedResult(raw: Option<Json>) {
    raw.Some? && raw.value.JArray? && |raw.value.items| >= 2 && raw.value.items[1].JString?
  }

  /**
    Checking the `core.download` result. Both programs accept exactly a
    well-formed result and use its second element; what happens otherwise
    differs: containers/truenas_backup returns an error, while
    containers/truenas_backup_to_s3 treats an undecodable result as an
    empty list and panics on a second element that is not a string.
  */
  function CheckLocator(v: Variant, raw: Option<Json>): (r: LocatorCheck)
    ensures r.Locator? <==> WellFormedResult(raw)
    ensures r.Locator? ==> r.path == raw.value.items[1].s
    ensures r.Panics? <==>
      v.TrueNasBackupToS3? && raw.Some? && raw.value.JArray? && |raw.value.items| >= 2 && !WellFormedResult(raw)
    ensures r.Rejected? && v.TrueNasBackupToS3? ==> r.error == ResultTooShort
    ensures r.Rejected? && v.TrueNasBackup? ==> r.error in {ResultUnreadable, ResultTooShort, LocatorNotString}
  {
    var decoded := DecodeList(raw);
    if decoded.None? && v.TrueNasBackup? then Rejected(ResultUnreadable)
    else
      var items := if decoded.Some? then decoded.value else [];
      if |items| < 2 then Rejected(ResultTooShort)
      else if items[1].JString? then Locator(items[1].s)
      else if v.TrueNasBackup? then Rejected(LocatorNotString)
      else
        assert raw == Some(JArray(items));
        Panics
  }

  /**
    The HTTP download: only status 200 yields the archive, which is the
    body; any other status is an error carrying the status and the body.
    containers/truenas_backup_to_s3 panics when the request cannot be built
    and keeps a partly read body; containers/truenas_backup reports both.
  */
  function FetchOutcome(v: Variant, http: HttpOutcome): (r: BackupResult)
    ensures r.Archive? ==> http.HttpResponse? && http.status == 200 && r.data == http.body
    ensures http.HttpResponse? && http.status != 200 ==> r == BackupFailed(BadStatus(http.status, http.body))
    ensures http.HttpResponse? && http.status == 200 ==> (r.Archive? <==> v.TrueNasBackupToS3? || http.bodyComplete)
    ensures r.BackupPanicked? <==> v.TrueNasBackupToS3? && http.UnbuildableRequest?
    ensures http.TransportError? ==> r == BackupFailed(TransportFailed)
  {
    match http
    case UnbuildableRequest =>
      if v.TrueNasBackup? then BackupFailed(RequestNotBuilt) else BackupPanicked
    case TransportError => BackupFailed(TransportFailed)
    case HttpResponse(status, body, complete) =>
      if status != 200 then BackupFailed(BadStatus(status, body))
      else if !complete && v.TrueNasBackup? then BackupFailed(BodyUnreadable)
      else Archive(body)
  }

  function LoginRequest(apiKey: string): Request {
    Request("2.0", LoginMethod, 1, LoginParams(apiKey))
  }

  function DownloadRequest(): Request {
    Request("2.0", DownloadMethod, 2, DownloadParams)
  }

  /** What one backup stage does: its result, the requests it sends, and the URL it downloads from. */
  datatype BackupRun = BackupRun(result: BackupResult, requests: seq<Request>, downloadUrl: Option<string>)

  /**
    The backup stage as a whole. It sends the login request (id 1) and,
    only after a successful login, the `core.download` request (id 2); it
    downloads only from the base URL followed by the locator of a
    well-formed result, and yields an archive only for status 200.
  */
  function BackupSpec(v: Variant, cfg: Config, dial: Dial, http: HttpOutcome): (run: BackupRun)
    ensures dial.DialFails? ==> run == BackupRun(BackupFailed(DialFailed), [], None)
    ensures dial.Dialled? ==> 1 <= |run.requests| <= 2 && run.requests[0] == LoginRequest(cfg.apiKey)
    ensures |run.requests| == 2 <==> dial.Dialled? && LoginOutcome(v, Next(dial.script)).Pass?
    ensures |run.requests| == 2 ==> run.requests[1] == DownloadRequest()
    ensures dial.Dialled? && LoginOutcome(v, Next(dial.script)).Fail? ==>
      run.result == BackupFailed(Login(LoginOutcome(v, Next(dial.script)).error))
    ensures run.downloadUrl.Some? <==>
      && dial.Dialled?
      && LoginOutcome(v, Next(dial.script)).Pass?
      && CallOutcome(Next(Rest(dial.script))).Success?
      && WellFormedResult(CallOutcome(Next(Rest(dial.script))).value)
    ensures run.downloadUrl.Some? ==>
      run.downloadUrl.value == cfg.url + CallOutcome(Next(Rest(dial.script))).value.value.items[1].s
    ensures run.downloadUrl.Some? ==> run.result == FetchOutcome(v, http)
    ensures run.result.Archive? ==>
      run.downloadUrl.Some? && http.HttpResponse? && http.status == 200 && run.result.data == http.body
    ensures run.result.BackupPanicked? ==> v.TrueNasBackupToS3?
  {
    match dial
    case DialFails => BackupRun(BackupFailed(DialFailed), [], None)
    case Dialled(script) =>
      var login := LoginOutcome(v, Next(script));
      if login.Fail? then BackupRun(BackupFailed(Login(login.error)), [LoginRequest(cfg.apiKey)], None)
      else
        var sent := [LoginRequest(cfg.apiKey), DownloadRequest()];
        match CallOutcome(Next(Rest(script)))
        case Failure(e) => BackupRun(BackupFailed(DownloadCallFailed(e)), sent, None)
        case Success(raw) =>
          match CheckLocator(v, raw)
          case Rejected(e) => BackupRun(BackupFailed(e), sent, None)
          case Panics => BackupRun(BackupPanicked, sent, None)
          case Locator(path) => BackupRun(FetchOutcome(v, http), sent, Some(cfg.url + path))
  }

  /**
    `newTrueNASClient` (and the first lines of `generateBackup`): dial the
    WebSocket URL and log in. On a failed login the connection is closed
    and no client is returned.
  */
  method OpenSession(v: Variant, cfg: Config, dial: Dial) returns (r: Result<Session, BackupError>, ghost conn: Session?)
    ensures dial.DialFails? <==> conn == null
    ensures dial.DialFails? ==> r == Failure(DialFailed)
    ensures conn != null ==>
      && fresh(conn) && conn.Valid()
      && conn.url == WsUrl(cfg.url)
      && conn.requests == [LoginRequest(cfg.apiKey)]
      && conn.script == Rest(dial.script)
    ensures dial.Dialled? ==> (r.Success? <==> LoginOutcome(v, Next(dial.script)).Pass?)
    ensures r.Success? ==> r.value == conn && !conn.closed
    ensures dial.Dialled? && r.Failure? ==>
      conn.closed && r.error == Login(LoginOutcome(v, Next(dial.script)).error)
  {
    if dial.DialFails? {
      return Failure(DialFailed), null;
    }
    var s := new Session(WsUrl(cfg.url), dial.script);
    conn := s;
    var login := s.Authenticate(v, cfg.apiKey);
    if login.Fail? {
      s.Close();
      return Failure(Login(login.error)), conn;
    }
    r := Success(s);
  }

  /**
    `generateConfigBackup` / `generateBackup`: the stage behaves as
    `BackupSpec` says, and the connection, once dialled, is closed on every
    path out.
  */
  method GenerateBackup(v: Variant, cfg: Config, dial: Dial, http: HttpOutcome)
    returns (r: BackupResult, downloadUrl: Option<string>, ghost conn: Session?)
    ensures r == BackupSpec(v, cfg, dial, http).result
    ensures downloadUrl == BackupSpec(v, cfg, dial, http).downloadUrl
    ensures dial.DialFails? <==> conn == null
    ensures conn != null ==>
      && fresh(conn) && conn.closed
      && conn.url == WsUrl(cfg.url)
      && conn.requests == BackupSpec(v, cfg, dial, http).requests
  {
    var session;
    session, conn := OpenSession(v, cfg, dial);
    if session.Failure? {
      return BackupFailed(session.error), None, conn;
    }
    var client := session.value;
    var result := client.Call(DownloadMethod, DownloadParams);
    if result.Failure? {
      client.Close();
      return BackupFailed(DownloadCallFailed(result.error)), None, conn;
    }
    var check := CheckLocator(v, result.value);
    match check {
      case Rejected(e) =>
        client.Close();
        return BackupFailed(e), None, conn;
      case Panics =>
        // the deferred Close still runs while the panic unwinds
        client.Close();
        return BackupPanicked, None, conn;
      case Locator(path) =>
        downloadUrl := Some(cfg.url + path);
        r := FetchOutcome(v, http);
        client.Close();
    }
  }
}
