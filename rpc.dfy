/**
  The appliance's JSON-RPC 2.0 session over one WebSocket connection:
  `TrueNASClient` in containers/truenas_backup and `wsClient` in
  containers/truenas_backup_to_s3. The connection is modelled by a script:
  for each request, what the peer does (the write fails, the read fails,
  or a response arrives). Neither program compares the response id with
  the request id, so the model does not either.
*/
module Rpc {
  import opened Wrappers
  import opened Settings

  /** The JSON values a result can hold. */
  datatype Json =
    | JNull
    | JBool(b: bool)
    | JNumber(n: int)
    | JString(s: string)
    | JArray(items: seq<Json>)
    | JObject(fields: seq<(string, Json)>)

  datatype ErrorObject = ErrorObject(code: int, message: string)

  /**
    A decoded response envelope. `result` is None when the field is absent;
    `error` is Some when the field holds an object (a JSON null there
    decodes to no error).
  */
  datatype Response = Response(result: Option<Json>, error: Option<ErrorObject>)

  /** What happens to one request on the connection. */
  datatype Exchange = WriteFails | ReadFails | Reply(response: Response)

  /** A request envelope `{"jsonrpc", "method", "id", "params"}`. */
  datatype Request = Request(jsonrpc: string, name: string, id: int, params: Json)

  datatype CallError = WriteFailed | ReadFailed | RemoteError(code: int, message: string)

  /** What the peer does with the next request; once the script runs out, reads fail. */
  function Next(script: seq<Exchange>): Exchange {
    if script == [] then ReadFails else script[0]
  }

  function Rest(script: seq<Exchange>): seq<Exchange> {
    if script == [] then [] else script[1..]
  }

  /**
    The value `call` returns for one exchange: a write or read failure, or
    an error object, is an error and carries no result; otherwise the
    result is passed on as it came.
  */
  function CallOutcome(x: Exchange): (r: Result<Option<Json>, CallError>)
    ensures r.Success? <==> x.Reply? && x.response.error.None?
    ensures r.Success? ==> r.value == x.response.result
    ensures x.Reply? && x.response.error.Some? ==>
      r == Failure(RemoteError(x.response.error.value.code, x.response.error.value.message))
    ensures x.WriteFails? ==> r == Failure(WriteFailed)
    ensures x.ReadFails? ==> r == Failure(ReadFailed)
  {
    match x
    case WriteFails => Failure(WriteFailed)
    case ReadFails => Failure(ReadFailed)
    case Reply(Response(result, error)) =>
      if error.Some? then Failure(RemoteError(error.value.code, error.value.message))
      else Success(result)
  }

  /**
    `json.Unmarshal` of a result into a Go `bool`: None when it fails.
    A missing result fails; a JSON null succeeds and leaves `false`.
  */
  function DecodeBool(raw: Option<Json>): (r: Option<bool>)
    ensures r == Some(true) <==> raw == Some(JBool(true))
    ensures r.None? <==> raw.None? || !(raw.value.JBool? || raw.value.JNull?)
  {
    match raw
    case Some(JBool(b)) => Some(b)
    case Some(JNull) => Some(false)
    case _ => None
  }

  /**
    `json.Unmarshal` of a result into a Go `[]any`: None when it fails.
    A JSON null succeeds with an empty slice.
  */
  function DecodeList(raw: Option<Json>): (r: Option<seq<Json>>)
    ensures raw.Some? && raw.value.JArray? ==> r == Some(raw.value.items)
    ensures r.Some? && r.value != [] ==> raw == Some(JArray(r.value))
    ensures r.None? <==> raw.None? || !(raw.value.JArray? || raw.value.JNull?)
  {
    match raw
    case Some(JArray(items)) => Some(items)
    case Some(JNull) => Some([])
    case _ => None
  }

  const LoginMethod := "auth.login_with_api_key"

  function LoginParams(apiKey: string): Json {
    JArray([JString(apiKey)])
  }

  datatype LoginError =
    | LoginCallFailed(cause: CallError)
    | LoginUnreadable   // the result is not a boolean (containers/truenas_backup only)
    | LoginRefused      // the result is not `true`

  /**
    The verdict on the login exchange. Both programs accept exactly the
    result `true`; containers/truenas_backup reports an undecodable result
    separately, while containers/truenas_backup_to_s3 ignores the decoding
    error and fails because its flag stays false.
  */
  function LoginOutcome(v: Variant, x: Exchange): (r: Outcome<LoginError>)
    ensures r.Pass? <==> x == Reply(Response(Some(JBool(true)), None))
    ensures r == Fail(LoginUnreadable) <==>
      v.TrueNasBackup? && CallOutcome(x).Success? && DecodeBool(CallOutcome(x).value).None?
    ensures CallOutcome(x).Failure? ==> r == Fail(LoginCallFailed(CallOutcome(x).error))
  {
    match CallOutcome(x)
    case Failure(e) => Fail(LoginCallFailed(e))
    case Success(raw) =>
      match DecodeBool(raw)
      case None => if v.TrueNasBackup? then Fail(LoginUnreadable) else Fail(LoginRefused)
      case Some(ok) => if ok then Pass else Fail(LoginRefused)
  }

  class Session {
    /** The WebSocket URL the connection was dialled with. */
    const url: string
    /** The last correlation id handed out; 0 before the first call. */
    var nextId: int
    /** What the peer will do with the coming requests. */
    var script: seq<Exchange>
    /** Every request envelope handed to the connection, in order. */
    var requests: seq<Request>
    var closed: bool

    /** Ids run 1, 2, 3, ... over the requests, and the counter is the last one. */
    ghost predicate Valid()
      reads this
    {
      && nextId == |requests|
      && forall i :: 0 <= i < |requests| ==> requests[i].id == i + 1 && requests[i].jsonrpc == "2.0"
    }

    constructor (url: string, script: seq<Exchange>)
      ensures Valid() && !closed
      ensures this.url == url && this.script == script && requests == []
    {
      this.url := url;
      this.script := script;
      nextId := 0;
      requests := [];
      closed := false;
    }

    /**
      `call`: take the next id, write one envelope, read one response.
      The id is taken even when the write fails.
    */
    method Call(name: string, params: Json) returns (r: Result<Option<Json>, CallError>)
      requires Valid() && !closed
      modifies this
      ensures Valid() && !closed
      ensures requests == old(requests) + [Request("2.0", name, old(nextId) + 1, params)]
      ensures script == Rest(old(script))
      ensures r == CallOutcome(Next(old(script)))
    {
      nextId := nextId + 1;
      requests := requests + [Request("2.0", name, nextId, params)];
      var x := Next(script);
      script := Rest(script);
      match x {
        case WriteFails =>
          r := Failure(WriteFailed);
        case ReadFails =>
          r := Failure(ReadFailed);
        case Reply(response) =>
          if response.error.Some? {
            r := Failure(RemoteError(response.error.value.code, response.error.value.message));
          } else {
            r := Success(response.result);
          }
      }
    }

    /** `authenticate`: exactly one login call, accepted only on the result `true`. */
    method Authenticate(v: Variant, apiKey: string) returns (r: Outcome<LoginError>)
      requires Valid() && !closed
      modifies this
      ensures Valid() && !closed
      ensures requests == old(requests) + [Request("2.0", LoginMethod, old(nextId) + 1, LoginParams(apiKey))]
      ensures script == Rest(old(script))
      ensures r == LoginOutcome(v, Next(old(script)))
    {
      var result := Call(LoginMethod, LoginParams(apiKey));
      match result {
        case Failure(e) =>
          r := Fail(LoginCallFailed(e));
        case Success(raw) =>
          var ok := DecodeBool(raw);
          if ok.None? {
            r := if v.TrueNasBackup? then Fail(LoginUnreadable) else Fail(LoginRefused);
          } else if ok.value {
            r := Pass;
          } else {
            r := Fail(LoginRefused);
          }
      }
    }

    /** `Close`: release the connection; nothing else changes. */
    method Close()
      requires Valid()
      modifies this
      ensures Valid() && closed
      ensures requests == old(requests) && script == old(script)
    {
      closed := true;
    }
  }

  /** Successive calls on a fresh session carry the ids 1, 2 and 3. */
  method ThreeCalls(script: seq<Exchange>) returns (ids: seq<int>)
    ensures ids == [1, 2, 3]
  {
    var s := new Session("wss://nas/api/current", script);
    var _ := s.Call("a", JNull);
    var _ := s.Call("b", JNull);
    var _ := s.Call("c", JNull);
    ids := [s.requests[0].id, s.requests[1].id, s.requests[2].id];
  }
}
