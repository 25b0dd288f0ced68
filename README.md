# go-infrabin handler core, modelled in Dafny

go-infrabin is a debug and chaos-testing gRPC server. This project models the
handlers of `pkg/infrabin/infrabin.go` that make real decisions:

- **Intermittent** is a failure simulator. The service object holds an `int32`
  counter. With threshold `n` (configuration `intermittentErrors`, read again
  on every call), a call below the threshold counts one more failure. It fails
  with `Unavailable` and the message `"<k> errors left"`. Otherwise it resets
  the counter to 0 and succeeds, returning `n`. This part is the class
  `Intermittent.InfrabinService`, whose method updates the counter field in
  place. The pure function `Intermittent.Step` specifies that method.
- **Proxy** forwards a caller's HTTP request under a regexp allowlist. It is a
  strict sequence of early returns: feature flag, regexp compile, body
  marshal, allowlist match, request build and header copy, send, read body,
  close body, decode. The method `Proxy.Proxy` follows that sequence and copies
  the headers in a loop. The function `Proxy.ProxyCall` is its specification.
  Both return the result, the stages attempted (a prefix of `Proxy.Pipeline`)
  and the request handed to the HTTP client, if any.
- **AWSMetadata** replaces the path of the configured base URL with the
  caller's path. It then delegates to Proxy with `GET`, no headers and no body.
- **Env** reports one environment variable. An empty value is `NotFound`.
- **Headers** merges the incoming gRPC metadata into the request's header map
  in place. Each value list is comma-joined.

Configuration values (`proxyEndpoint`, `proxyAllowRegexp`,
`awsMetadataEndpoint`, `intermittentErrors`) are parameters of the handlers.
Some code is library code: the regexp engine, protobuf JSON, the HTTP client,
URL parsing and formatting, `strings.ToLower` and the environment lookup. That
code is passed in as functions (`Proxy.Libraries`, `AwsMetadata.UrlLibrary`,
and the `getEnv` and `lower` parameters). The model therefore holds for every
behaviour of those libraries.

Some behaviour of `pkg/infrabin/infrabin.go` that the model keeps exactly:

- A URL the allowlist rejects gets `InvalidArgument` (lines 108-110). Every
  other Proxy failure gets `Internal`, except the disabled flag, which gets
  `Unimplemented`.
- The request body is marshalled (lines 102-105) before the allowlist is
  checked (line 108). A body that fails to marshal is therefore reported even
  for a URL the allowlist would reject.
- An empty request method is sent as `GET`. `http.NewRequestWithContext`
  (line 113) applies this default.
- AWSMetadata sets the base URL's path to the caller's path (line 155). With
  base `http://169.254.169.254/latest/meta-data` and path `/hostname`, the
  target path is `/hostname`.
- The countdown message (line 196) reports `maxErrs - counter + 1` after the
  counter was incremented. That is `n - c` for the counter `c` before the call.

Modules: `Wrappers` (Option, library results), `Grpc` (codes, status, handler
result), `Decimal` (Go's `%d`), `Json` (bytes, JSON values), `Intermittent`,
`IntermittentScenario`, `Proxy`, `AwsMetadata`, `Handlers`.

## Model

| member | source | states |
|---|---|---|
| `Intermittent.Step` | pkg/infrabin/infrabin.go:194-204 | Below the threshold the counter rises by exactly 1 and the call fails with `Unavailable`. From a counter `c >= 0` the reported count is `n - c`, which lies in `1..n`, so the `int32` arithmetic does not wrap. At or above the threshold (including `n <= 0`) the counter becomes 0 and the call succeeds, returning `n`. From `c >= 0` the new counter is in `0..max(0, n)`. |
| `Intermittent.Wrap32` | pkg/infrabin/infrabin.go:196 | Go `int32` wrap-around: in range it is the identity; otherwise it differs from the exact value by a multiple of 2^32. |
| `Intermittent.ToResult` | pkg/infrabin/infrabin.go:196-204 | A result is a failure exactly for a countdown outcome. A failure has code `Unavailable`, and its message ends in `" errors left"`; the text before that suffix parses back (`Decimal.ParseInt`) as the remaining count. A success outcome returns the threshold. |
| `Intermittent.InfrabinService.constructor` | pkg/infrabin/infrabin.go:28-32 | A fresh service has counter 0, Go's zero value, and satisfies the counter invariant. |
| `Intermittent.InfrabinService.Intermittent` | pkg/infrabin/infrabin.go:191-205 | The new counter and the returned value are those of `Step` on the old counter and this call's threshold. The invariant `counter >= 0` is kept whatever threshold is configured, and afterwards the counter is at most `max(0, n)`. |
| `Intermittent.ErrorsLeftMessageReadsBack` | pkg/infrabin/infrabin.go:196 | The countdown message ends in `" errors left"`, and what precedes the suffix parses back as the count. |
| `Intermittent.Calls` | pkg/infrabin/infrabin.go:191-205 | `Calls` is the `k`-fold iteration of `Step` with a fixed threshold, and it yields exactly `k` replies. |
| `Intermittent.CallsSplit` | pkg/infrabin/infrabin.go:191-205 | `a + b` calls are `a` calls followed by `b` calls from the counter the first `a` left. |
| `Intermittent.PrefixOfCountdown` | pkg/infrabin/infrabin.go:194-196 | From a fresh counter, `p <= n` calls leave the counter at `p`. |
| `Intermittent.FailuresCountDown` | pkg/infrabin/infrabin.go:194-196 | From counter `c` in `0..n`, the next `n - c` calls all fail, with counts `n - c, ..., 1`, and leave the counter at `n`. |
| `Intermittent.Cycle` | pkg/infrabin/infrabin.go:191-205 | From counter 0 with fixed `n >= 0`, the next `n + 1` calls are `n` failures with counts `n, ..., 1`, followed by one success reporting `n`. The counter is back at 0 afterwards. |
| `Intermittent.CounterAfter` | pkg/infrabin/infrabin.go:191-205 | After `j` calls from a fresh counter, the counter is `j mod (n + 1)`. |
| `Intermittent.NthReply` | pkg/infrabin/infrabin.go:191-205 | Call `j` (counting from 0) on a fresh counter fails with count `n - (j mod (n+1))` when `j mod (n+1) < n`, and otherwise succeeds with `n`. The pattern is periodic, and with `n = 0` every call succeeds. |
| `IntermittentScenario.ThresholdThree` | pkg/infrabin/infrabin.go:191-205 | A fresh service with threshold 3, called five times, answers `"3 errors left"`, `"2 errors left"`, `"1 errors left"`, success 3, then `"3 errors left"` again. |
| `Decimal.FormatNat` | pkg/infrabin/infrabin.go:196 | The rendering of a natural number is a non-empty string of digits with no leading zero. |
| `Decimal.FormatInt` | pkg/infrabin/infrabin.go:196 | `%d` output is non-empty and starts with `-` exactly for negative numbers. |
| `Decimal.DigitsValueOfFormatNat` | pkg/infrabin/infrabin.go:196 | The digits of `n` read back as `n`. |
| `Decimal.ParseFormatInt` | pkg/infrabin/infrabin.go:196 | Every `%d` rendering parses back to the integer it renders. |
| `Proxy.ProxyCall` | pkg/infrabin/infrabin.go:89-143 | With the flag off: `Unimplemented`, no stage attempted, nothing sent. The stages run in pipeline order, and each runs exactly when every earlier gate passed. A failure carries `InvalidArgument` at the allowlist and `Internal` at every other stage. A non-matching URL is rejected with the message naming the URL and the pattern. A request is sent only past the build step, only to an allowed URL, and it carries the caller's method (`GET` when empty), URL, full header map and marshalled body. Success happens only when all eight stages pass, and the result is exactly the decoded upstream body. |
| `Proxy.RequestMethod` | pkg/infrabin/infrabin.go:113 | The outbound method is never empty. A non-empty method is kept, and an empty one becomes `GET`. |
| `Proxy.Build` | pkg/infrabin/infrabin.go:112-120 | The request is built with the given method, the caller's URL and full header map, and the marshalled body. It is sent exactly when building succeeds, and then the rest of the call is the exchange. A build failure is `Internal` and nothing is sent. |
| `Proxy.Exchange` | pkg/infrabin/infrabin.go:121-142 | Once the request is built, every failure of send, read, close or decode is `Internal`. The call succeeds exactly when all four pass, with the decoded body as result. The response status is never consulted. |
| `Proxy.Proxy` | pkg/infrabin/infrabin.go:89-143 | The step-by-step handler returns exactly what `ProxyCall` specifies. In particular, its header loop copies every key of the request's header map onto the outbound request. |
| `Proxy.BlockedMessageNamesUrlAndPattern` | pkg/infrabin/infrabin.go:108-110 | The allowlist rejection message contains both the rejected URL and the pattern. |
| `AwsMetadata.MetadataProxyRequest` | pkg/infrabin/infrabin.go:155-156 | The delegated request is a `GET` with no headers and no body, to the base URL with its path replaced by the caller's. |
| `AwsMetadata.AwsMetadata` | pkg/infrabin/infrabin.go:145-157 | An empty path is `InvalidArgument`; nothing is attempted and nothing is sent. An unparsable base URL is `Internal`. Otherwise the result is exactly Proxy's on the metadata request, so the flag still yields `Unimplemented`. Anything sent is a header-less `GET` to an allowed URL, namely the base with its path replaced. |
| `Handlers.Env` | pkg/infrabin/infrabin.go:69-76 | `NotFound` (naming the variable) exactly when the looked-up value is empty; otherwise the one-entry map from the name to its value. |
| `Handlers.SplitJoin` | pkg/infrabin/infrabin.go:84 | Comma-joining a non-empty list of comma-free values is undone by splitting at commas. |
| `Handlers.Headers` | pkg/infrabin/infrabin.go:78-87 | A nil header map is replaced by an empty one. Afterwards the keys are the old keys plus the metadata keys. Each metadata key maps to the comma-join of the values `md.Get` returns for it. Every other pre-existing header is unchanged. The updated map is also the response. |

## Left out

- `Root`, `Delay`, `Any`, `AWSAssume` and `AWSGetCallerIdentity` are not part of this model. They read the hostname, sleep, echo the request, or wrap the AWS STS client (`internal/aws`, not part of this model).
- Configuration reading (viper) is left out: the values are handler parameters.
- The gRPC context and `metadata.FromIncomingContext` are left out: the incoming metadata is a parameter of `Headers`.
- Library behaviour is left out: the regexp semantics, protobuf JSON encoding, `net/http` (timeout, cancellation, transport) and `net/url` parsing and formatting are functions passed in.
- `Proxy.Proxy`, `Proxy.ProxyCall`: `req.Header.Set` canonicalises header keys (`content-type` becomes `Content-Type`). The model sets each key verbatim, so two caller keys that differ only in case are not merged.
- `Proxy.ProxyCall`: the URL reaches the HTTP library as a string; `net/http`'s own URL parsing is inside the `newRequestError` and `send` functions.
- Status messages that format a Go `error` with `%v` use the error's text, which the library functions supply. gRPC status encoding beyond the code and the message is left out.
- Handler responses are reduced to the payload each handler fills in: the Struct, the env map, the header map, or the threshold.
- `Intermittent.InfrabinService.Intermittent`: concurrent calls race on the counter in the source. The model covers single-threaded call sequences only.
- `Handlers.Headers`: Go maps are references. The model updates the request's map field by reassignment, so other aliases of the same map are not modelled.
- The URL record of `AwsMetadata` omits the `Opaque` and `OmitHost` fields of `net/url.URL`. Formatting is a library function, so the exact target string is not computed.
