/**
 * The records the services exchange with their callers, and the FluentValidation
 * rules that guard them (MockApiServer.Models).
 */
module Models {
  import opened Wrappers
  import opened Text

  /** A JSON value: the `dynamic` payload a test author posts as `ExpectedResult`. `Null` is C#'s null. */
  datatype Json =
    | Null
    | Bool(b: bool)
    | Number(n: int)
    | Str(s: string)
    | Array(items: seq<Json>)
    | Object(members: seq<(string, Json)>)

  /**
   * A test author's declaration of a fixture. The shown C# class declares only the
   * first five properties; the services also read the last four, so they are here.
   * `expectedHeaders` keeps the dictionary's enumeration order; a null value means
   * "the header must be present, with any value".
   */
  datatype TestCase = TestCase(
    httpMethod: Option<string>,
    requestPath: Option<string>,
    expectedResult: Json,
    queryString: Option<string>,
    isRazorFile: bool,
    saveAsTestCase: bool,
    isStaticContent: bool,
    staticContentExtension: Option<string>,
    expectedHeaders: seq<(string, Option<string>)>)

  datatype GraphQlTestCase = GraphQlTestCase(
    query: Option<string>,
    operationName: Option<string>,
    expectedResult: Json)

  /** The body of a GraphQL POST. */
  datatype GraphQlRequest = GraphQlRequest(
    query: Option<string>,
    variables: Option<string>,
    operationName: Option<string>)

  /** What a Razor template sees of the request. */
  datatype RazorModel = RazorModel(
    templateName: Option<string>,
    httpMethod: Option<string>,
    requestPath: Option<string>,
    queryString: Option<string>,
    requestBody: Option<string>)

  const EmptyRazorModel := RazorModel(None, None, None, None, None)

  /**
   * The older fixture record. The shown class lacks `QueryString`, which the older
   * service reads, so it is here.
   */
  datatype ExpectedTestResult = ExpectedTestResult(
    httpMethod: Option<string>,
    requestPath: Option<string>,
    expectedResult: Json,
    queryString: Option<string>)

  /** FluentValidation's `NotEmpty` on a string: not null, not empty, not only white space. */
  predicate NotEmpty(s: Option<string>) {
    s.Some? && !IsBlank(s.value)
  }

  /** FluentValidation's `NotNull`. */
  predicate NotNull(j: Json) {
    j != Null
  }

  /** The names of the properties whose rule fails, in rule order; a request is refused with 400 unless this is empty. */
  function ValidateTestCase(tc: TestCase): (failures: seq<string>)
    ensures "HttpMethod" in failures <==> !NotEmpty(tc.httpMethod)
    ensures "RequestPath" in failures <==> !NotEmpty(tc.requestPath)
    ensures "ExpectedResult" in failures <==> !NotNull(tc.expectedResult)
    ensures failures == [] <==> NotEmpty(tc.httpMethod) && NotEmpty(tc.requestPath) && NotNull(tc.expectedResult)
  {
    (if NotEmpty(tc.httpMethod) then [] else ["HttpMethod"]) +
    (if NotEmpty(tc.requestPath) then [] else ["RequestPath"]) +
    (if NotNull(tc.expectedResult) then [] else ["ExpectedResult"])
  }

  function ValidateGraphQlTestCase(gq: GraphQlTestCase): (failures: seq<string>)
    ensures "Query" in failures <==> !NotEmpty(gq.query)
    ensures "OperationName" in failures <==> !NotEmpty(gq.operationName)
    ensures "ExpectedResult" in failures <==> !NotNull(gq.expectedResult)
    ensures failures == [] <==> NotEmpty(gq.query) && NotEmpty(gq.operationName) && NotNull(gq.expectedResult)
  {
    (if NotEmpty(gq.query) then [] else ["Query"]) +
    (if NotEmpty(gq.operationName) then [] else ["OperationName"]) +
    (if NotNull(gq.expectedResult) then [] else ["ExpectedResult"])
  }

  function ValidateExpectedTestResult(r: ExpectedTestResult): (failures: seq<string>)
    ensures "HttpMethod" in failures <==> !NotEmpty(r.httpMethod)
    ensures "RequestPath" in failures <==> !NotEmpty(r.requestPath)
    ensures "ExpectedResult" in failures <==> !NotNull(r.expectedResult)
    ensures failures == [] <==> NotEmpty(r.httpMethod) && NotEmpty(r.requestPath) && NotNull(r.expectedResult)
  {
    (if NotEmpty(r.httpMethod) then [] else ["HttpMethod"]) +
    (if NotEmpty(r.requestPath) then [] else ["RequestPath"]) +
    (if NotNull(r.expectedResult) then [] else ["ExpectedResult"])
  }

  /** Query string, Razor flag and the rest never make a test case invalid: only the three rules do. */
  lemma OnlyThreeRulesConstrainTestCase(tc: TestCase, other: TestCase)
    requires other.httpMethod == tc.httpMethod && other.requestPath == tc.requestPath
    requires other.expectedResult == tc.expectedResult
    ensures ValidateTestCase(other) == ValidateTestCase(tc)
  {
  }

  /** The cases of the validation tests: a null method, a null path or a null result is refused; all three present is accepted. */
  lemma ExpectedTestResultCases(path: string, result: Json)
    requires !IsBlank(path) && result != Null
    ensures ValidateExpectedTestResult(ExpectedTestResult(None, Some(path), result, None)) == ["HttpMethod"]
    ensures ValidateExpectedTestResult(ExpectedTestResult(Some("POST"), None, result, None)) == ["RequestPath"]
    ensures ValidateExpectedTestResult(ExpectedTestResult(Some("POST"), Some(path), Null, None)) == ["ExpectedResult"]
    ensures ValidateExpectedTestResult(ExpectedTestResult(Some("GET"), Some(path), result, None)) == []
  {
    assert !IsWhiteSpace("POST"[0]);
    assert !IsWhiteSpace("GET"[0]);
  }
}
