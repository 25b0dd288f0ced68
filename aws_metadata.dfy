/**
 * `AWSMetadata`: a proxy call to the cloud metadata service.  The base URL
 * comes from configuration; the caller chooses only the path, which replaces
 * the base URL's path (it is not appended to it).  The request then goes
 * through `Proxy` with method GET, no headers and no body, so the feature flag
 * and the allowlist apply to it like to any other.
 */
module AwsMetadata {
  import opened Wrappers
  import opened Grpc
  import opened Proxy

  /** The components of a parsed URL (`net/url.URL`). */
  datatype Url = Url(
    scheme: string, user: string, host: string,
    path: string, rawPath: string, forceQuery: bool, rawQuery: string,
    fragment: string, rawFragment: string)

  /** `url.Parse` and `(*url.URL).String`, library code. */
  datatype UrlLibrary = UrlLibrary(parse: string -> Fallible<Url>, format: Url -> string)

  datatype AwsMetadataRequest = AwsMetadataRequest(path: string)

  const EmptyPathMessage: string := "path must not be empty"

  function EndpointMessage(err: string): string {
    "s.Config.AWSMetadataEndpoint invalid: " + err
  }

  /** The proxy request for metadata path `path` under base URL `base`. */
  function MetadataProxyRequest(base: Url, path: string, urls: UrlLibrary): (r: ProxyRequest)
    ensures r.httpMethod == "GET" && r.headers == map[] && r.body == None
    ensures r.url == urls.format(base.(path := path))
  {
    var u := base.(path := path);
    ProxyRequest("GET", urls.format(u), map[], None)
  }

  /**
   * `AWSMetadata` with configuration `proxyEndpoint`, `proxyAllowRegexp` and
   * `awsMetadataEndpoint` read on this call.
   */
  function AwsMetadata(
    proxyEndpoint: bool, proxyAllowRegexp: string, awsMetadataEndpoint: string,
    request: AwsMetadataRequest, lib: Libraries, urls: UrlLibrary): (c: Call)
    // an empty path is the caller's error and nothing else is looked at
    ensures request.path == "" ==> c == Call(Failure(Status(InvalidArgument, EmptyPathMessage)), [], None)
    // an unparsable base URL is the server's error
    ensures request.path != "" && urls.parse(awsMetadataEndpoint).Err? ==>
      c == Call(Failure(Status(Internal, EndpointMessage(urls.parse(awsMetadataEndpoint).message))), [], None)
    // otherwise exactly the proxy call for GET on the base URL with its path replaced
    ensures request.path != "" && urls.parse(awsMetadataEndpoint).Ok? ==>
      c == ProxyCall(proxyEndpoint, proxyAllowRegexp,
                     MetadataProxyRequest(urls.parse(awsMetadataEndpoint).value, request.path, urls), lib)
    // what may leave the process: a GET with no headers, to an allowed URL built from the base
    ensures c.sent.Some? ==>
      && proxyEndpoint && request.path != "" && urls.parse(awsMetadataEndpoint).Ok?
      && c.sent.value.httpMethod == "GET" && c.sent.value.header == map[]
      && c.sent.value.url == urls.format(urls.parse(awsMetadataEndpoint).value.(path := request.path))
      && lib.matchString(proxyAllowRegexp, c.sent.value.url)
    // the feature flag still applies
    ensures !proxyEndpoint && request.path != "" && urls.parse(awsMetadataEndpoint).Ok? ==>
      c.result == Failure(Status(Unimplemented, DisabledMessage))
  {
    if request.path == "" then
      Call(Failure(Status(InvalidArgument, EmptyPathMessage)), [], None)
    else match urls.parse(awsMetadataEndpoint)
      case Err(e) => Call(Failure(Status(Internal, EndpointMessage(e))), [], None)
      case Ok(u) => ProxyCall(proxyEndpoint, proxyAllowRegexp, MetadataProxyRequest(u, request.path, urls), lib)
  }
}
