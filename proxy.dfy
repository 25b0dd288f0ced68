/**
 * The proxy endpoint: a strictly ordered pipeline of early-returning checks
 * (feature flag, regexp compile, body marshal, allowlist, request build), then
 * one outbound HTTP exchange (send, read body, close, decode).  Each failure
 * maps to a gRPC code.  The regexp engine, protobuf JSON, and the HTTP client
 * are library code: they reach the model as the functions of `Libraries`.
 */
module Proxy {
  import opened Wrappers
  import opened Grpc
  import opened Json

  /** The RPC request; a nil body is `None`, a nil header map is the empty map. */
  datatype ProxyRequest = ProxyRequest(httpMethod: string, url: string, headers: map<string, string>, body: Option<Struct>)

  /** An outbound HTTP request as handed to the client. */
  datatype HttpRequest = HttpRequest(httpMethod: string, url: string, header: map<string, string>, body: Bytes)

  /** The response body stream, known only by a handle. */
  datatype BodyStream = BodyStream(handle: nat)

  datatype HttpResponse = HttpResponse(statusCode: int, body: BodyStream)

  /**
   * The library calls the handler makes, as functions of their inputs:
   * compiling and matching the allowlist expression, marshalling the request
   * body, `http.NewRequestWithContext` (which can only reject the method,
   * after an empty one has become GET, or the URL), `client.Do`, reading and
   * closing the response body, and decoding it.
   * Reading and closing see only the body stream: the status code is never
   * consulted.
   */
  datatype Libraries = Libraries(
    compileError: string -> Option<string>,
    matchString: (string, string) -> bool,
    marshalJson: Option<Struct> -> Fallible<Bytes>,
    newRequestError: (string, string) -> Option<string>,
    send: HttpRequest -> Fallible<HttpResponse>,
    readAll: BodyStream -> Fallible<Bytes>,
    close: BodyStream -> Option<string>,
    unmarshalJson: Bytes -> Fallible<Struct>)

  /** The steps of the pipeline, in the order the handler attempts them. */
  datatype Stage =
    | CompileRegexp | MarshalBody | CheckAllowlist | BuildRequest
    | SendRequest | ReadBody | CloseBody | DecodeBody

  const Pipeline: seq<Stage> :=
    [CompileRegexp, MarshalBody, CheckAllowlist, BuildRequest, SendRequest, ReadBody, CloseBody, DecodeBody]

  /** `http.NewRequestWithContext` sends an empty method as GET. */
  function RequestMethod(httpMethod: string): (m: string)
    ensures m != ""
    ensures httpMethod != "" ==> m == httpMethod
    ensures httpMethod == "" ==> m == "GET"
  {
    if httpMethod == "" then "GET" else httpMethod
  }

  /** The code a failure at each stage carries: only the allowlist blames the caller. */
  function FailureCode(s: Stage): Code {
    if s == CheckAllowlist then InvalidArgument else Internal
  }

  const DisabledMessage: string := "Proxy endpoint disabled. Enabled with --enable-proxy-endpoint"

  function CompileMessage(exp: string, err: string): string {
    "Unable to compile " + exp + " regexp: " + err
  }

  function MarshalMessage(err: string): string {
    "Unable to marshal downstream request body: " + err
  }

  function BlockedMessage(url: string, exp: string): string {
    "Unable to build request as the target URL " + url + " is blocked by the regexp " + exp
  }

  function BuildMessage(err: string): string {
    "Unable to build request: " + err
  }

  function ReachMessage(url: string, err: string): string {
    "Unable to reach " + url + ": " + err
  }

  function ReadMessage(err: string): string {
    "Error reading upstream response body: " + err
  }

  function CloseMessage(err: string): string {
    "Error closing upstream response: " + err
  }

  function DecodeMessage(err: string): string {
    "Error creating Struct from upstream response json: " + err
  }

  /** `s` occurs in `text`. */
  predicate Mentions(text: string, s: string) {
    exists i, j :: 0 <= i <= j <= |text| && text[i..j] == s
  }

  /** A blocked request is reported with both the rejected URL and the pattern. */
  lemma BlockedMessageNamesUrlAndPattern(url: string, exp: string)
    ensures Mentions(BlockedMessage(url, exp), url)
    ensures Mentions(BlockedMessage(url, exp), exp)
  {
    var prefix := "Unable to build request as the target URL ";
    var middle := " is blocked by the regexp ";
    var m := BlockedMessage(url, exp);
    assert m == prefix + url + middle + exp;
    assert m[|prefix|..|prefix| + |url|] == url;
    assert m[|prefix + url + middle|..|prefix + url + middle| + |exp|] == exp;
  }

  /**
   * One call of the handler: what it returns, the stages it attempted (the
   * last one is the one that failed, unless the call succeeded), and the
   * request it handed to the HTTP client, if it got that far.
   */
  datatype Call = Call(result: Result<Struct>, trace: seq<Stage>, sent: Option<HttpRequest>)

  function Fail(code: Code, message: string, trace: seq<Stage>, sent: Option<HttpRequest>): Call {
    Call(Failure(Status(code, message)), trace, sent)
  }

  /** The exchange with the upstream once the request is built. */
  function Exchange(req: HttpRequest, lib: Libraries): (c: Call)
    ensures c.sent == Some(req) && 5 <= |c.trace| && c.trace <= Pipeline
    ensures c.result.Failure? ==> c.result.error.code == Internal
    ensures |c.trace| > 5 <==> lib.send(req).Ok?
    ensures |c.trace| > 6 <==> |c.trace| > 5 && lib.readAll(lib.send(req).value.body).Ok?
    ensures |c.trace| > 7 <==> |c.trace| > 6 && lib.close(lib.send(req).value.body).None?
    ensures c.result.Success? <==> |c.trace| > 7 && lib.unmarshalJson(lib.readAll(lib.send(req).value.body).value).Ok?
    ensures c.result.Success? ==> c.result.value == lib.unmarshalJson(lib.readAll(lib.send(req).value.body).value).value
  {
    var prefix := Pipeline[..5];
    match lib.send(req)
    case Err(e) => Fail(Internal, ReachMessage(req.url, e), prefix, Some(req))
    case Ok(resp) =>
      match lib.readAll(resp.body)
      case Err(e) => Fail(Internal, ReadMessage(e), Pipeline[..6], Some(req))
      case Ok(body) =>
        match lib.close(resp.body)
        case Some(e) => Fail(Internal, CloseMessage(e), Pipeline[..7], Some(req))
        case None =>
          match lib.unmarshalJson(body)
          case Err(e) => Fail(Internal, DecodeMessage(e), Pipeline, Some(req))
          case Ok(response) => Call(Success(response), Pipeline, Some(req))
  }

  /**
   * Building the outbound request with method `httpMethod` and marshalled body
   * `requestBody`, then, if that succeeds, the exchange.
   */
  function Build(httpMethod: string, request: ProxyRequest, requestBody: Bytes, lib: Libraries): (c: Call)
    ensures 4 <= |c.trace| && c.trace <= Pipeline
    ensures c.result.Failure? ==> c.result.error.code == Internal
    ensures c.sent.Some? <==> lib.newRequestError(httpMethod, request.url).None?
    ensures c.sent.Some? <==> |c.trace| > 4
    ensures c.sent.Some? ==> c.sent.value == HttpRequest(httpMethod, request.url, request.headers, requestBody)
    ensures c.sent.Some? ==> c == Exchange(c.sent.value, lib)
  {
    match lib.newRequestError(httpMethod, request.url)
    case Some(e) => Fail(Internal, BuildMessage(e), Pipeline[..4], None)
    case None => Exchange(HttpRequest(httpMethod, request.url, request.headers, requestBody), lib)
  }

  /**
   * The behaviour of `Proxy` for flag `proxyEndpoint` and allowlist expression
   * `proxyAllowRegexp`, both read from configuration on this call.
   */
  function ProxyCall(proxyEndpoint: bool, proxyAllowRegexp: string, request: ProxyRequest, lib: Libraries): (c: Call)
    // disabled: nothing else is attempted
    ensures !proxyEndpoint ==> c == Call(Failure(Status(Unimplemented, DisabledMessage)), [], None)
    // the stages run in pipeline order, and a failure carries the code of the stage that failed
    ensures c.trace <= Pipeline && (c.trace == [] <==> !proxyEndpoint)
    ensures c.result.Failure? && c.trace != [] ==> c.result.error.code == FailureCode(c.trace[|c.trace| - 1])
    ensures c.result.Success? ==> c.trace == Pipeline
    // a stage runs exactly when every earlier stage passed
    ensures |c.trace| > 1 <==> proxyEndpoint && lib.compileError(proxyAllowRegexp).None?
    ensures |c.trace| > 2 <==> |c.trace| > 1 && lib.marshalJson(request.body).Ok?
    ensures |c.trace| > 3 <==> |c.trace| > 2 && lib.matchString(proxyAllowRegexp, request.url)
    ensures |c.trace| == 3 ==> c.result == Failure(Status(InvalidArgument, BlockedMessage(request.url, proxyAllowRegexp)))
    ensures |c.trace| > 4 <==> |c.trace| > 3 && lib.newRequestError(RequestMethod(request.httpMethod), request.url).None?
    // only a request that passed every gate is sent, and it is the caller's request
    ensures c.sent.Some? <==> |c.trace| > 4
    ensures c.sent.Some? ==> lib.matchString(proxyAllowRegexp, c.sent.value.url)
    ensures c.sent.Some? ==>
      && lib.marshalJson(request.body).Ok?
      && c.sent.value == HttpRequest(RequestMethod(request.httpMethod), request.url, request.headers, lib.marshalJson(request.body).value)
    // the upstream exchange
    ensures |c.trace| > 5 <==> c.sent.Some? && lib.send(c.sent.value).Ok?
    ensures |c.trace| > 6 <==> |c.trace| > 5 && lib.readAll(lib.send(c.sent.value).value.body).Ok?
    ensures |c.trace| > 7 <==> |c.trace| > 6 && lib.close(lib.send(c.sent.value).value.body).None?
    ensures c.result.Success? <==>
      |c.trace| > 7 && lib.unmarshalJson(lib.readAll(lib.send(c.sent.value).value.body).value).Ok?
    ensures c.result.Success? ==>
      c.result.value == lib.unmarshalJson(lib.readAll(lib.send(c.sent.value).value.body).value).value
  {
    if !proxyEndpoint then
      Fail(Unimplemented, DisabledMessage, [], None)
    else match lib.compileError(proxyAllowRegexp)
    case Some(e) => Fail(Internal, CompileMessage(proxyAllowRegexp, e), Pipeline[..1], None)
    case None =>
      match lib.marshalJson(request.body)
      case Err(e) => Fail(Internal, MarshalMessage(e), Pipeline[..2], None)
      case Ok(requestBody) =>
        if !lib.matchString(proxyAllowRegexp, request.url) then
          Fail(InvalidArgument, BlockedMessage(request.url, proxyAllowRegexp), Pipeline[..3], None)
        else Build(RequestMethod(request.httpMethod), request, requestBody, lib)
  }

  /** `Proxy`, step by step, copying the caller's headers onto the outbound request one by one. */
  method Proxy(proxyEndpoint: bool, proxyAllowRegexp: string, request: ProxyRequest, lib: Libraries)
    returns (result: Result<Struct>, trace: seq<Stage>, sent: Option<HttpRequest>)
    ensures Call(result, trace, sent) == ProxyCall(proxyEndpoint, proxyAllowRegexp, request, lib)
  {
    sent := None;
    if !proxyEndpoint {
      result, trace := Failure(Status(Unimplemented, DisabledMessage)), [];
      return;
    }

    var exp := proxyAllowRegexp;
    trace := Pipeline[..1];
    var compileErr := lib.compileError(exp);
    if compileErr.Some? {
      result := Failure(Status(Internal, CompileMessage(exp, compileErr.value)));
      return;
    }

    trace := Pipeline[..2];
    var requestBody := lib.marshalJson(request.body);
    if requestBody.Err? {
      result := Failure(Status(Internal, MarshalMessage(requestBody.message)));
      return;
    }

    trace := Pipeline[..3];
    if !lib.matchString(exp, request.url) {
      result := Failure(Status(InvalidArgument, BlockedMessage(request.url, exp)));
      return;
    }

    trace := Pipeline[..4];
    var buildErr := lib.newRequestError(RequestMethod(request.httpMethod), request.url);
    if buildErr.Some? {
      result := Failure(Status(Internal, BuildMessage(buildErr.value)));
      return;
    }
    var req := HttpRequest(RequestMethod(request.httpMethod), request.url, map[], requestBody.value);
    var keys := request.headers.Keys;
    while keys != {}
      invariant keys <= request.headers.Keys
      invariant req.header.Keys == request.headers.Keys - keys
      invariant forall k :: k in req.header ==> req.header[k] == request.headers[k]
      invariant req == HttpRequest(RequestMethod(request.httpMethod), request.url, req.header, requestBody.value)
      decreases keys
    {
      var key :| key in keys;
      req := req.(header := req.header[key := request.headers[key]]);
      keys := keys - {key};
    }
    assert req.header == request.headers;

    trace := Pipeline[..5];
    sent := Some(req);
    var resp := lib.send(req);
    if resp.Err? {
      result := Failure(Status(Internal, ReachMessage(request.url, resp.message)));
      return;
    }

    trace := Pipeline[..6];
    var body := lib.readAll(resp.value.body);
    if body.Err? {
      result := Failure(Status(Internal, ReadMessage(body.message)));
      return;
    }
    trace := Pipeline[..7];
    var closeErr := lib.close(resp.value.body);
    if closeErr.Some? {
      result := Failure(Status(Internal, CloseMessage(closeErr.value)));
      return;
    }

    trace := Pipeline;
    var response := lib.unmarshalJson(body.value);
    if response.Err? {
      result := Failure(Status(Internal, DecodeMessage(response.message)));
      return;
    }
    result := Success(response.value);
  }
}
