/**
 * The response decision of MockControllerBase: the check of a test case's
 * expected headers against the request, and the mapping of the service's
 * exceptions to NotFound and BadRequest.
 */
module MockControllerBase {
  import opened Wrappers
  import opened Text
  import opened Models
  import opened Platform

  /** The results the controllers answer with. */
  datatype ActionResult =
    | Ok(value: Json)
    | ObjectResult(value: Json)
    | BadRequest(message: string)
    | NotFound(message: string)

  /** The request's headers: name -> values, looked up case-insensitively. */
  type RequestHeaders = seq<(string, seq<string>)>

  /** An expected header: a name and, unless null, a value it must carry. */
  type ExpectedHeader = (string, Option<string>)

  predicate SameName(a: string, b: string) {
    Lower(a) == Lower(b)
  }

  /** `Request.Headers.ContainsKey(name)`. */
  predicate HasHeader(headers: RequestHeaders, name: string) {
    exists i :: 0 <= i < |headers| && SameName(headers[i].0, name)
  }

  /** `Request.Headers[name]`: the values of the first entry of that name, or none. */
  function HeaderValues(headers: RequestHeaders, name: string): (values: seq<string>)
    ensures !HasHeader(headers, name) ==> values == []
  {
    if |headers| == 0 then []
    else if SameName(headers[0].0, name) then headers[0].1
    else HeaderValues(headers[1..], name)
  }

  /** `Request.Headers.Keys`, in request order. */
  function HeaderNames(headers: RequestHeaders): (names: seq<string>)
    ensures |names| == |headers|
    ensures forall i :: 0 <= i < |headers| ==> names[i] == headers[i].0
  {
    seq(|headers|, i requires 0 <= i < |headers| => headers[i].0)
  }

  /** The request carries the header and, when a value is declared, that value among its values. */
  predicate HeaderSatisfied(expected: ExpectedHeader, headers: RequestHeaders) {
    HasHeader(headers, expected.0) && (expected.1.None? || expected.1.value in HeaderValues(headers, expected.0))
  }

  /** The BadRequest message for an expected header the request does not satisfy. */
  function HeaderFailure(expected: ExpectedHeader, headers: RequestHeaders): string {
    if !HasHeader(headers, expected.0)
    then "Expected header " + expected.0 + " not found in request [" + Join(",", HeaderNames(headers)) + "]"
    else "Expected header " + expected.0 + " with value " + expected.1.GetOr("") + " not found in request"
  }

  /**
   * The `foreach` over the expected headers: the message for the first one the
   * request does not satisfy, or None when it satisfies them all.
   */
  function CheckExpectedHeaders(expected: seq<ExpectedHeader>, headers: RequestHeaders): (r: Option<string>)
    ensures r.None? <==> forall i :: 0 <= i < |expected| ==> HeaderSatisfied(expected[i], headers)
    ensures r.Some? ==> exists k :: 0 <= k < |expected| && FirstFailure(expected, headers, k) && r.value == HeaderFailure(expected[k], headers)
  {
    if |expected| == 0 then None
    else if !HeaderSatisfied(expected[0], headers) then
      assert FirstFailure(expected, headers, 0);
      Some(HeaderFailure(expected[0], headers))
    else
      var r := CheckExpectedHeaders(expected[1..], headers);
      if r.Some? then
        var k :| 0 <= k < |expected| - 1 && FirstFailure(expected[1..], headers, k) && r.value == HeaderFailure(expected[1..][k], headers);
        assert FirstFailure(expected, headers, k + 1);
        r
      else r
  }

  /** `expected[k]` is the first expected header the request does not satisfy. */
  predicate FirstFailure(expected: seq<ExpectedHeader>, headers: RequestHeaders, k: nat)
    requires k < |expected|
  {
    !HeaderSatisfied(expected[k], headers) && forall j :: 0 <= j < k ==> HeaderSatisfied(expected[j], headers)
  }

  /** `new OkObjectResult(JsonConvert.DeserializeObject(value))`: a value that does not parse is a BadRequest. */
  function OkParsed(lib: Library, value: string): (r: ActionResult)
    ensures lib.parse(value).Success? ==> r == Ok(lib.parse(value).value)
    ensures lib.parse(value).Failure? ==> r == BadRequest(lib.parse(value).error)
  {
    match lib.parse(value)
    case Success(json) => Ok(json)
    case Failure(message) => BadRequest(message)
  }

  /** The catch clauses: FileNotFoundException is NotFound, every other exception BadRequest, each with its message. */
  function Caught(e: Exception): (r: ActionResult)
    ensures r.NotFound? <==> e.FileNotFound?
    ensures r.BadRequest? <==> !e.FileNotFound?
    ensures r.message == e.Message()
  {
    if e.FileNotFound? then NotFound(e.Message()) else BadRequest(e.Message())
  }

  /**
   * `GetExpectedResult`, given what `ReadFile` returned or threw: with no test
   * case or no expected headers the value is answered as is; otherwise the first
   * unsatisfied header is a BadRequest, and only then is the value parsed.
   */
  function GetExpectedResult(lib: Library, read: Result<(string, Option<TestCase>), Exception>, headers: RequestHeaders): (r: ActionResult)
    ensures read.Failure? ==> r == Caught(read.error)
    ensures r.NotFound? <==> read.Failure? && read.error.FileNotFound?
    ensures read.Success? && read.value.1.Some? && CheckExpectedHeaders(read.value.1.value.expectedHeaders, headers).Some? ==>
      r == BadRequest(CheckExpectedHeaders(read.value.1.value.expectedHeaders, headers).value)
    ensures r.Ok? <==>
      && read.Success?
      && lib.parse(read.value.0).Success?
      && (read.value.1.None? || forall i :: 0 <= i < |read.value.1.value.expectedHeaders| ==> HeaderSatisfied(read.value.1.value.expectedHeaders[i], headers))
    ensures r.Ok? ==> lib.parse(read.value.0) == Success(r.value)
    ensures
      && read.Success?
      && lib.parse(read.value.0).Failure?
      && (read.value.1.None? || CheckExpectedHeaders(read.value.1.value.expectedHeaders, headers).None?)
      ==> r == BadRequest(lib.parse(read.value.0).error)
    ensures !r.ObjectResult?
  {
    match read
    case Failure(e) => Caught(e)
    case Success((value, testCase)) =>
      if testCase.None? || |testCase.value.expectedHeaders| == 0 then OkParsed(lib, value)
      else
        match CheckExpectedHeaders(testCase.value.expectedHeaders, headers)
        case Some(message) => BadRequest(message)
        case None => OkParsed(lib, value)
  }

  /** An expectation hit (no test case) answers with exactly the payload it was set up with. */
  lemma ExpectationHitIsOk(lib: Library, expected: Json, headers: RequestHeaders)
    requires Lawful(lib)
    ensures GetExpectedResult(lib, Success((lib.serialize(expected), None)), headers) == Ok(expected)
  {
    assert lib.parse(lib.serialize(expected)) == Success(expected);
  }

  /** A header declared with a null value is satisfied by its mere presence, whatever the values. */
  lemma PresenceOnlyHeader(name: string, values: seq<string>, headers: RequestHeaders)
    ensures HeaderSatisfied((name, None), [(name, values)] + headers)
    ensures !HasHeader(headers, name) ==>
      CheckExpectedHeaders([(name, None)], headers) ==
        Some("Expected header " + name + " not found in request [" + Join(",", HeaderNames(headers)) + "]")
  {
    var h := [(name, values)] + headers;
    assert SameName(h[0].0, name);
  }

  /** Header names match whatever their case; values must match exactly. */
  lemma HeaderNamesIgnoreCase(name: string, value: string, headers: RequestHeaders)
    ensures HeaderSatisfied((name, Some(value)), [(Lower(name), [value])] + headers)
  {
    var h := [(Lower(name), [value])] + headers;
    LowerIdempotent(name);
    assert SameName(h[0].0, name);
    assert HeaderValues(h, name) == [value];
  }

  /** `GetGraphQlResult`'s reading of the body: a null body, an unreadable one, a null request or an empty query all throw. */
  function GraphQlRequestFromBody(lib: Library, body: Option<string>): (r: Result<GraphQlRequest, Exception>)
    ensures r.Success? ==> body.Some? && lib.parseGraphQl(body.value) == Success(Some(r.value))
    ensures r.Success? ==> r.value.query.Some? && r.value.query.value != ""
    ensures body.None? ==> r == Failure(ArgumentNull("value"))
    ensures body.Some? && lib.parseGraphQl(body.value).Success? && r.Failure? ==>
      r.error == InvalidOperation("Invalid GraphQLRequest:\n" + body.value)
    ensures && body.Some?
            && lib.parseGraphQl(body.value).Success?
            && lib.parseGraphQl(body.value).value.Some?
            && lib.parseGraphQl(body.value).value.value.query.Some?
            && lib.parseGraphQl(body.value).value.value.query.value != ""
            ==> r == Success(lib.parseGraphQl(body.value).value.value)
  {
    match body
    case None => Failure(ArgumentNull("value"))
    case Some(text) =>
      match lib.parseGraphQl(text)
      case Failure(message) => Failure(LibraryError(message))
      case Success(request) =>
        if request.None? || request.value.query.None? || request.value.query.value == ""
        then Failure(InvalidOperation("Invalid GraphQLRequest:\n" + text))
        else Success(request.value)
  }

  /**
   * `GetGraphQlResult`: read the request from the body, ask the service for it
   * (`readGraphQl` stands for `ReadGraphQlFile`), and answer with the parsed
   * text; every exception goes through the catch clauses.
   */
  function GetGraphQlResult(lib: Library, body: Option<string>, readGraphQl: GraphQlRequest -> Result<string, Exception>): (r: ActionResult)
    ensures GraphQlRequestFromBody(lib, body).Failure? ==> r == BadRequest(GraphQlRequestFromBody(lib, body).error.Message())
    ensures r.NotFound? <==>
      GraphQlRequestFromBody(lib, body).Success? &&
      readGraphQl(GraphQlRequestFromBody(lib, body).value).Failure? &&
      readGraphQl(GraphQlRequestFromBody(lib, body).value).error.FileNotFound?
    ensures r.ObjectResult? ==>
      && GraphQlRequestFromBody(lib, body).Success?
      && readGraphQl(GraphQlRequestFromBody(lib, body).value).Success?
      && lib.parse(readGraphQl(GraphQlRequestFromBody(lib, body).value).value) == Success(r.value)
    ensures && GraphQlRequestFromBody(lib, body).Success?
            && readGraphQl(GraphQlRequestFromBody(lib, body).value).Success?
            && lib.parse(readGraphQl(GraphQlRequestFromBody(lib, body).value).value).Success?
            ==> r == ObjectResult(lib.parse(readGraphQl(GraphQlRequestFromBody(lib, body).value).value).value)
    ensures && GraphQlRequestFromBody(lib, body).Success?
            && readGraphQl(GraphQlRequestFromBody(lib, body).value).Failure?
            ==> r == Caught(readGraphQl(GraphQlRequestFromBody(lib, body).value).error)
    ensures && GraphQlRequestFromBody(lib, body).Success?
            && readGraphQl(GraphQlRequestFromBody(lib, body).value).Success?
            && lib.parse(readGraphQl(GraphQlRequestFromBody(lib, body).value).value).Failure?
            ==> r == BadRequest(lib.parse(readGraphQl(GraphQlRequestFromBody(lib, body).value).value).error)
    ensures !r.Ok?
  {
    match GraphQlRequestFromBody(lib, body)
    case Failure(e) => Caught(e)
    case Success(request) =>
      match readGraphQl(request)
      case Failure(e) => Caught(e)
      case Success(text) =>
        match lib.parse(text)
        case Success(json) => ObjectResult(json)
        case Failure(message) => BadRequest(message)
  }
}
