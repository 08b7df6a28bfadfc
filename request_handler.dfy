// The generic HTTP helper: URL joins and the branching of `handle_requests`
// around the HTTP call, whose response is an input here.

module RequestHandler {
  import opened Common

  /** `"/".join([base, extension])`. */
  function EndpointExtension(base: string, extension: string): (url: string)
  {
    Join([base, extension], "/")
  }

  /** `"?".join([base, extension])`. */
  function ApiModule(base: string, extension: string): (url: string)
  {
    Join([base, extension], "?")
  }

  /** The two joins put exactly one separator between the parts, even when
      the extension is empty. */
  lemma JoinsSpec(base: string, extension: string)
    ensures var url := EndpointExtension(base, extension);
      |url| == |base| + 1 + |extension| && url[..|base|] == base && url[|base|] == '/' && url[|base| + 1..] == extension
    ensures var url := ApiModule(base, extension);
      |url| == |base| + 1 + |extension| && url[..|base|] == base && url[|base|] == '?' && url[|base| + 1..] == extension
    ensures EndpointExtension(base, "") == base + "/"
  {
    assert [base, extension][1..] == [extension];
    assert Join([extension], "/") == extension && Join([extension], "?") == extension;
    assert EndpointExtension(base, extension) == base + "/" + extension;
    assert ApiModule(base, extension) == base + "?" + extension;
    assert [base, ""][1..] == [""];
    assert Join([""], "/") == "";
    assert EndpointExtension(base, "") == base + "/" + "";
    assert base + "/" + "" == base + "/";
  }

  // ---------------------------------------------------------------------------
  // handle_requests

  datatype Verb = Get | Post | Put | Delete

  /** Where the arguments go: the query string or the form body. */
  datatype ArgsAs = Params | Data

  /** The call made: its verb, the URL, where the arguments go, and the
      headers sent (none when absent). */
  datatype Call = Call(verb: Verb, url: string, args: map<string, string>, argsAs: ArgsAs, headers: map<string, string>)

  /** The response: its status, its `Content-Type` header if present, and
      its body. */
  datatype Response = Response(status: int, contentType: Option<string>, body: string)

  datatype Outcome =
    | Raw(response: Response)
    | Body(json: string)
    | Nothing
    | Raised(error: string)

  const ValueError: string := "ValueError"
  const UnhandledType: string := "unhandled response type"
  const KeyError: string := "KeyError"
  const JsonTypes: seq<string> := ["application/json", "charset=utf-8", "application/json; charset=utf-8"]

  /** A dictionary argument is truthy when non-empty. */
  predicate Truthy(headers: Option<map<string, string>>)
  {
    headers.Some? && |headers.value| > 0
  }

  /** The call `handle_requests` makes for a method name: GET and POST send
      the headers when given, PUT and DELETE never do; POST sends the
      arguments as form data, the others as query parameters; any other
      method name raises `ValueError` before any call. */
  function CallFor(url: string, verbName: string, args: map<string, string>, headers: Option<map<string, string>>): Result<Call, string>
  {
    var sent := if Truthy(headers) then headers.value else map[];
    if verbName == "get" then Ok(Call(Get, url, args, Params, sent))
    else if verbName == "post" then Ok(Call(Post, url, args, Data, sent))
    else if verbName == "put" then Ok(Call(Put, url, args, Params, map[]))
    else if verbName == "delete" then Ok(Call(Delete, url, args, Params, map[]))
    else Err(ValueError)
  }

  /** What `handle_requests` returns for the response: the response itself
      when raw; the parsed body for status 200 with a JSON content type; an
      exception for status 200 with another (or no) content type; and
      `None` for any other status. */
  function Answer(response: Response, rawResponse: bool): Outcome
  {
    if rawResponse then Raw(response)
    else if response.status != 200 then Nothing
    else if response.contentType.None? then Raised(KeyError)
    else if response.contentType.value in JsonTypes then Body(response.body)
    else Raised(UnhandledType)
  }

  /** The whole request: the method check, the call, then the answer. */
  function HandleRequests(url: string, verbName: string, args: map<string, string>, headers: Option<map<string, string>>,
                          rawResponse: bool, send: Call -> Response): Outcome
  {
    var call := CallFor(url, verbName, args, headers);
    if call.Err? then Raised(call.error) else Answer(send(call.value), rawResponse)
  }

  /** Exactly the four method names are accepted; the URL and arguments are
      passed through, and headers reach the server only on GET and POST,
      and only when non-empty. */
  lemma CallForSpec(url: string, verbName: string, args: map<string, string>, headers: Option<map<string, string>>)
    ensures CallFor(url, verbName, args, headers).Err? <==> verbName !in {"get", "post", "put", "delete"}
    ensures CallFor(url, verbName, args, headers).Err? ==> CallFor(url, verbName, args, headers).error == ValueError
    ensures CallFor(url, verbName, args, headers).Ok? ==>
      var call := CallFor(url, verbName, args, headers).value;
      call.url == url && call.args == args &&
      (call.argsAs == Data <==> verbName == "post") &&
      (call.headers != map[] <==> (verbName == "get" || verbName == "post") && Truthy(headers)) &&
      (call.headers != map[] ==> call.headers == headers.value)
  {
    if Truthy(headers) {
      var k :| k in headers.value;
      assert k in headers.value.Keys;
    }
  }

  /** The answer by case: raw responses come back untouched, a non-200
      status gives `None`, and a 200 gives the body exactly when its content
      type is one of the JSON types. */
  lemma AnswerSpec(response: Response, rawResponse: bool)
    ensures rawResponse ==> Answer(response, rawResponse) == Raw(response)
    ensures !rawResponse && response.status != 200 ==> Answer(response, rawResponse) == Nothing
    ensures !rawResponse && response.status == 200 ==>
      (Answer(response, rawResponse).Body? <==> response.contentType.Some? && response.contentType.value in JsonTypes) &&
      (Answer(response, rawResponse).Body? ==> Answer(response, rawResponse).json == response.body) &&
      (!Answer(response, rawResponse).Body? ==> Answer(response, rawResponse).Raised?)
  {
  }

  /** An unknown method never reaches the server. */
  lemma UnknownMethodSendsNothing(url: string, verbName: string, args: map<string, string>, headers: Option<map<string, string>>,
                                  rawResponse: bool, send: Call -> Response)
    requires verbName !in {"get", "post", "put", "delete"}
    ensures HandleRequests(url, verbName, args, headers, rawResponse, send) == Raised(ValueError)
  {
    CallForSpec(url, verbName, args, headers);
  }
}
