/**
 * The two lookup handlers: `Env`, which reports one environment variable, and
 * `Headers`, which merges the incoming gRPC metadata into the request's header
 * map in place and echoes the result.
 */
module Handlers {
  import opened Wrappers
  import opened Grpc

  /**
   * `Env`; `getEnv` is the environment lookup with an empty default
   * (`helpers.GetEnv(name, "")`).  An empty value means "not set".
   */
  function Env(envVar: string, getEnv: string -> string): (r: Result<map<string, string>>)
    ensures r.Failure? <==> getEnv(envVar) == ""
    ensures r.Failure? ==> r.error == Status(NotFound, "No env var named " + envVar)
    ensures r.Success? ==> r.value.Keys == {envVar} && r.value[envVar] == getEnv(envVar) != ""
  {
    var value := getEnv(envVar);
    if value == "" then Failure(Status(NotFound, "No env var named " + envVar))
    else Success(map[envVar := value])
  }

  /** `strings.Join(elems, sep)`: the elements with `sep` between neighbours. */
  function Join(elems: seq<string>, sep: char): string
  {
    if |elems| == 0 then ""
    else if |elems| == 1 then elems[0]
    else elems[0] + [sep] + Join(elems[1..], sep)
  }

  /** The position of the first `c` in `s`. */
  function IndexOf(s: string, c: char): (i: nat)
    requires c in s
    ensures i < |s| && s[i] == c && c !in s[..i]
  {
    if s[0] == c then 0 else 1 + IndexOf(s[1..], c)
  }

  /** `strings.Split(s, sep)`: the pieces between occurrences of `sep`. */
  function Split(s: string, sep: char): (parts: seq<string>)
    ensures |parts| > 0
    decreases |s|
  {
    if sep !in s then [s]
    else
      var i := IndexOf(s, sep);
      [s[..i]] + Split(s[i + 1..], sep)
  }

  /** Joining values that do not contain the separator loses nothing: splitting gives them back. */
  lemma {:induction false} SplitJoin(elems: seq<string>, sep: char)
    requires |elems| > 0
    requires forall i :: 0 <= i < |elems| ==> sep !in elems[i]
    ensures Split(Join(elems, sep), sep) == elems
    decreases |elems|
  {
    if |elems| > 1 {
      var s := Join(elems, sep);
      var head := elems[0];
      assert s == head + [sep] + Join(elems[1..], sep);
      assert s[|head|] == sep;
      assert s[..|head|] == head;
      assert sep in s;
      var i := IndexOf(s, sep);
      assert i == |head|;
      assert s[i + 1..] == Join(elems[1..], sep);
      SplitJoin(elems[1..], sep);
    }
  }

  /** The request message, whose header map the handler updates in place. */
  class HeadersRequest {
    /** `None` is a nil map. */
    var headers: Option<map<string, string>>

    constructor (headers: Option<map<string, string>>)
      ensures this.headers == headers
    {
      this.headers := headers;
    }
  }

  /** A nil map reads as empty. */
  function OrEmpty(m: Option<map<string, string>>): map<string, string> {
    if m.Some? then m.value else map[]
  }

  /**
   * `metadata.MD.Get`: the values stored under the lower-cased key, none when
   * there are none.  `lower` is `strings.ToLower`.
   */
  function MdGet(md: map<string, seq<string>>, key: string, lower: string -> string): seq<string> {
    var k := lower(key);
    if k in md then md[k] else []
  }

  /**
   * `Headers`: every key of the incoming metadata `md` is set to the
   * comma-joined values `md.Get` returns for it; every other header the
   * caller sent is kept.  The map is also the response.
   */
  method Headers(request: HeadersRequest, md: map<string, seq<string>>, lower: string -> string)
    returns (response: map<string, string>)
    modifies request
    ensures request.headers == Some(response)
    ensures response.Keys == OrEmpty(old(request.headers)).Keys + md.Keys
    ensures forall key :: key in md ==> response[key] == Join(MdGet(md, key, lower), ',')
    ensures forall key :: key in OrEmpty(old(request.headers)) && key !in md ==>
      response[key] == OrEmpty(old(request.headers))[key]
  {
    if request.headers == None {
      request.headers := Some(map[]);
    }
    ghost var original := request.headers.value;
    var keys := md.Keys;
    while keys != {}
      invariant keys <= md.Keys
      invariant request.headers.Some?
      invariant request.headers.value.Keys == original.Keys + (md.Keys - keys)
      invariant forall key :: key in md && key !in keys ==>
        request.headers.value[key] == Join(MdGet(md, key, lower), ',')
      invariant forall key :: key in original && key !in md.Keys - keys ==>
        request.headers.value[key] == original[key]
      decreases keys
    {
      var key :| key in keys;
      request.headers := Some(request.headers.value[key := Join(MdGet(md, key, lower), ',')]);
      keys := keys - {key};
    }
    response := request.headers.value;
  }
}
