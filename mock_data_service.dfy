/**
 * The newer MockDataService (src/MockApiServer/Services/MockDataService.cs): the
 * expectation registry, the fixture store over the data directory, and the read
 * path that consults the registry before the store.
 */
module MockData {
  import opened Wrappers
  import opened Text
  import opened Paths
  import opened Models
  import opened Platform
  import opened KeyCodec

  /** What `_expectations` holds for a key: the REST or GraphQL test case it was set up with. */
  datatype Expectation = RestExpectation(testCase: TestCase) | GraphQlExpectation(graphQlTestCase: GraphQlTestCase) {
    function ExpectedResult(): Json {
      match this
      case RestExpectation(tc) => tc.expectedResult
      case GraphQlExpectation(gq) => gq.expectedResult
    }
  }

  // ---------------------------------------------------------------------------
  // Keys of test cases
  // ---------------------------------------------------------------------------

  /** `_getFileNameFromUrl` on a test case's fields; a null method or path throws NullReferenceException. */
  function TestCaseKey(lib: Library, tc: TestCase): (r: Result<string, Exception>)
    ensures r.Failure? <==> tc.httpMethod.None? || tc.requestPath.None?
    ensures r.Failure? ==> r.error == NullReference
  {
    if tc.httpMethod.None? || tc.requestPath.None? then Failure(NullReference)
    else Success(FileNameFromUrl(lib.md5, tc.httpMethod.value, tc.requestPath.value, tc.queryString))
  }

  /**
   * `_getGraphQlFileName`: the query is minified first, so a null query throws
   * ArgumentNullException before a null operation name throws NullReferenceException.
   */
  function GraphQlKey(lib: Library, operationName: Option<string>, query: Option<string>): (r: Result<string, Exception>)
    ensures r.Success? <==> operationName.Some? && query.Some?
    ensures query.None? ==> r == Failure(ArgumentNull("input"))
    ensures query.Some? && operationName.None? ==> r == Failure(NullReference)
  {
    if query.None? then Failure(ArgumentNull("input"))
    else if operationName.None? then Failure(NullReference)
    else Success(GraphQlFileName(lib.md5, operationName.value, query.value))
  }

  /** The key without ".json": the stem every stored variant of the fixture shares. */
  function Stem(key: string): string {
    GetFileNameWithoutExtension(key)
  }

  /** For a method without '/', the key is its stem + ".json" and the stem holds no '/'. */
  lemma RestKeyStem(md5: string -> Digest, httpMethod: string, url: string, queryString: Option<string>)
    requires NoSlash(httpMethod)
    ensures var key := FileNameFromUrl(md5, httpMethod, url, queryString);
      key == Stem(key) + ".json" && NoSlash(Stem(key))
  {
    var key := FileNameFromUrl(md5, httpMethod, url, queryString);
    RestKeyShape(md5, httpMethod, url, queryString);
    var stem := key[..|key| - 5];
    assert key == stem + ".json";
    assert NoSlash(stem) by {
      forall i | 0 <= i < |stem| ensures stem[i] != '/' {
        if i < |httpMethod| {
          assert stem[i] == Lower(httpMethod)[i] == LowerChar(httpMethod[i]);
        } else {
          assert stem[i] == key[i];
        }
      }
    }
    FixedExtensionsArePlain();
    VariantNames(stem);
    StemOfName(stem, "json");
  }

  /** The extensions the service writes hold neither '.' nor '/'. */
  lemma FixedExtensionsArePlain()
    ensures PlainSegment("json") && PlainSegment("razor") && PlainSegment("testcase")
  {
  }

  /** The names the service gives the variants of a stem, as `stem + "." + ext`. */
  lemma VariantNames(stem: string)
    ensures stem + ".json" == stem + "." + "json"
    ensures stem + ".razor" == stem + "." + "razor"
    ensures stem + ".testcase" == stem + "." + "testcase"
    ensures "." + "json" == ".json" && "." + "razor" == ".razor" && "." + "testcase" == ".testcase"
  {
  }

  // ---------------------------------------------------------------------------
  // The data directory: file name -> content
  // ---------------------------------------------------------------------------

  /** The files `GetFiles(stem + ".*")` lists for a key. */
  function Matches(files: map<string, string>, key: string): set<string> {
    set name | name in files && MatchesAnyExtension(name, Stem(key))
  }

  lemma SingletonHasOneElement(s: set<string>)
    requires |s| == 1
    ensures forall x, y :: x in s && y in s ==> x == y
  {
    forall x, y | x in s && y in s ensures x == y {
      if x != y {
        assert |{x, y}| == 2;
        SubsetCardinality({x, y}, s);
      }
    }
  }

  function OnlyElement(s: set<string>): (x: string)
    requires |s| == 1
    ensures s == {x}
  {
    SingletonHasOneElement(s);
    var x :| x in s;
    x
  }

  /**
   * `_resolveFileNameFromRequest`: the one file sharing the key's stem. None is a
   * FileNotFoundException, several an InvalidOperationException naming them.
   */
  function ResolveFileName(lib: Library, files: map<string, string>, key: string): (r: Result<string, Exception>)
    ensures r.Success? <==> |Matches(files, key)| == 1
    ensures r.Success? ==> Matches(files, key) == {r.value} && r.value in files
    ensures |Matches(files, key)| == 0 ==> r == Failure(FileNotFound("Mock data not found: " + key, Some(key)))
    ensures |Matches(files, key)| > 1 ==>
      r == Failure(InvalidOperation("More than one result found: " + Join(",", lib.listingOrder(Matches(files, key)))))
  {
    var matches := Matches(files, key);
    if |matches| == 0 then Failure(FileNotFound("Mock data not found: " + key, Some(key)))
    else if |matches| > 1 then Failure(InvalidOperation("More than one result found: " + Join(",", lib.listingOrder(matches))))
    else Success(OnlyElement(matches))
  }

  /**
   * The several matches are all named in the message, when the directory lists
   * each of them once.
   */
  lemma AmbiguityNamesEveryMatch(lib: Library, files: map<string, string>, key: string, name: string)
    requires ListsEachOnce(lib.listingOrder(Matches(files, key)), Matches(files, key))
    requires |Matches(files, key)| > 1 && name in Matches(files, key)
    ensures ResolveFileName(lib, files, key).Failure?
    ensures Contains(ResolveFileName(lib, files, key).error.Message(), name)
  {
    var order := lib.listingOrder(Matches(files, key));
    var k :| 0 <= k < |order| && order[k] == name;
    JoinContainsItem(",", order, k);
    var joined := Join(",", order);
    var i: nat :| i <= |joined| && OccursAt(joined, name, i);
    OccursAfterPrefix("More than one result found: ", joined, name, i);
  }

  /**
   * The model `_razorResult` renders with: the caller's (or a fresh one) with its
   * template name set to the file's stem and its other properties left as they were.
   */
  function TemplateModel(filePath: string, razorModel: Option<RazorModel>): (model: RazorModel)
    ensures model.templateName == Some(GetFileNameWithoutExtension(filePath))
    ensures model.httpMethod == (if razorModel.Some? then razorModel.value.httpMethod else None)
    ensures model.requestPath == (if razorModel.Some? then razorModel.value.requestPath else None)
    ensures model.queryString == (if razorModel.Some? then razorModel.value.queryString else None)
    ensures model.requestBody == (if razorModel.Some? then razorModel.value.requestBody else None)
  {
    razorModel.GetOr(EmptyRazorModel).(templateName := Some(GetFileNameWithoutExtension(filePath)))
  }

  /** `_razorResult`: the template rendered under the file's stem as its key, with that model. */
  function RazorResult(lib: Library, filePath: string, razorModel: Option<RazorModel>, template: string): string {
    lib.render(GetFileNameWithoutExtension(filePath), template, TemplateModel(filePath, razorModel))
  }

  /**
   * `_getResponseAndTestCase`: parse the stored test case and answer with its
   * result, rendered when it is a template. It is called without the request's
   * Razor model, so the template sees a fresh one.
   */
  function ResponseAndTestCase(lib: Library, filePath: string, content: string): (r: Result<(string, Option<TestCase>), Exception>)
    ensures r.Success? ==> r.value.1.Some? && lib.parseTestCase(content) == Success(r.value.1)
    ensures r.Success? <==>
      lib.parseTestCase(content).Success? && lib.parseTestCase(content).value.Some? &&
      lib.parseTestCase(content).value.value.expectedResult != Null
    ensures lib.parseTestCase(content) == Success(None) ==> r == Failure(NullReference)
    ensures && lib.parseTestCase(content).Success?
            && lib.parseTestCase(content).value.Some?
            && lib.parseTestCase(content).value.value.expectedResult == Null
            ==> r == Failure(NullBinding)
  {
    match lib.parseTestCase(content)
    case Failure(message) => Failure(LibraryError(message))
    case Success(None) => Failure(NullReference)
    case Success(Some(tc)) =>
      if tc.expectedResult == Null then Failure(NullBinding)
      else if !tc.isRazorFile then Success((lib.text(tc.expectedResult), Some(tc)))
      else Success((RazorResult(lib, filePath, None, lib.text(tc.expectedResult)), Some(tc)))
  }

  /** `ReadFile` after resolution: dispatch on the extension of the resolved file. */
  function ReadResolved(lib: Library, files: map<string, string>, filePath: string, razorModel: Option<RazorModel>)
    : (r: Result<(string, Option<TestCase>), Exception>)
    requires filePath in files
    ensures GetExtension(filePath) == ".razor" ==> r == Success((RazorResult(lib, filePath, razorModel, files[filePath]), None))
    ensures GetExtension(filePath) != ".razor" && GetExtension(filePath) != ".testcase" ==> r == Success((files[filePath], None))
    ensures GetExtension(filePath) == ".testcase" ==> r == ResponseAndTestCase(lib, filePath, files[filePath])
    ensures r.Success? && r.value.1.Some? ==> GetExtension(filePath) == ".testcase"
  {
    var extension := GetExtension(filePath);
    if extension == ".razor" then Success((RazorResult(lib, filePath, razorModel, files[filePath]), None))
    else if extension == ".testcase" then ResponseAndTestCase(lib, filePath, files[filePath])
    else Success((files[filePath], None))
  }

  /** The store's answer for a key: resolve, then dispatch. */
  function ReadFixture(lib: Library, files: map<string, string>, key: string, razorModel: Option<RazorModel>)
    : (r: Result<(string, Option<TestCase>), Exception>)
    ensures r.Failure? && r.error.FileNotFound? <==> |Matches(files, key)| == 0
  {
    match ResolveFileName(lib, files, key)
    case Failure(e) => Failure(e)
    case Success(filePath) => ReadResolved(lib, files, filePath, razorModel)
  }

  /** A self-describing template is rendered without the request: the request's Razor model has no effect. */
  lemma TestCaseTemplateIgnoresRequest(lib: Library, files: map<string, string>, filePath: string, m1: Option<RazorModel>, m2: Option<RazorModel>)
    requires filePath in files && GetExtension(filePath) == ".testcase"
    ensures ReadResolved(lib, files, filePath, m1) == ReadResolved(lib, files, filePath, m2)
  {
  }

  // ---------------------------------------------------------------------------
  // WriteFile's choice of name and content
  // ---------------------------------------------------------------------------

  /**
   * The name static content was evidently meant to be stored under: the key with
   * its ".json" extension changed to the declared one.
   */
  function StaticFileName(fileName: string, extension: string): (r: string)
    ensures |fileName| > 0 ==> StartsWith(r, fileName[..ExtensionStart(fileName)]) && EndsWith(r, Dotted(extension))
  {
    ChangeExtension(fileName, extension)
  }

  /**
   * As written at MockDataService.cs:90, `Path.ChangeExtension(fileNameWithoutExtension, extension)`:
   * the stem cut once more at its own last '.', then the dotted extension.
   */
  function StaticFileNameAsWritten(fileName: string, extension: string): (r: string)
    ensures var stem := GetFileNameWithoutExtension(fileName);
      |stem| > 0 ==> StartsWith(r, stem[..ExtensionStart(stem)]) && EndsWith(r, Dotted(extension))
  {
    ChangeExtension(GetFileNameWithoutExtension(fileName), extension)
  }

  /** The branch of `WriteFile` that stores static content. */
  predicate WritesStatic(tc: TestCase) {
    !tc.saveAsTestCase && !tc.isRazorFile && tc.isStaticContent
  }

  /** The overload the dynamically bound `File.WriteAllTextAsync` call resolves to. */
  const WriteAllTextAsync := "System.IO.File.WriteAllTextAsync(string, string, System.Threading.CancellationToken)"

  /**
   * What `WriteFile` stores: the whole test case, the template text, or the
   * serialized result; the serialized forms read back through Newtonsoft. A
   * template is the payload itself, handed to `WriteAllTextAsync` without
   * conversion: a string is written as it is and null as an empty file, while a
   * number, a boolean, an object or an array has no conversion to string, so the
   * runtime binder throws and nothing is written.
   */
  function WriteContent(lib: Library, tc: TestCase): (r: Result<string, Exception>)
    ensures r.Failure? <==> !tc.saveAsTestCase && tc.isRazorFile && !tc.expectedResult.Str? && !tc.expectedResult.Null?
    ensures r.Failure? ==> r.error == InvalidArguments(WriteAllTextAsync)
    ensures tc.saveAsTestCase && Lawful(lib) ==> lib.parseTestCase(r.value) == Success(Some(tc))
    ensures !tc.saveAsTestCase && !tc.isRazorFile && Lawful(lib) ==> lib.parse(r.value) == Success(tc.expectedResult)
    ensures !tc.saveAsTestCase && tc.isRazorFile && tc.expectedResult.Str? ==> r.value == tc.expectedResult.s
    ensures !tc.saveAsTestCase && tc.isRazorFile && tc.expectedResult.Null? ==> r.value == ""
  {
    if tc.saveAsTestCase then Success(lib.serializeTestCase(tc))
    else if tc.isRazorFile then
      match tc.expectedResult
      case Str(s) => Success(s)
      case Null => Success("")
      case _ => Failure(InvalidArguments(WriteAllTextAsync))
    else Success(lib.serialize(tc.expectedResult))
  }

  /**
   * `WriteFile`'s target: ".testcase" over ".razor" over the static extension over
   * the ".json" key. A static test case with a null extension throws in `EndsWith`;
   * a template that is not a string throws when it is written.
   */
  function WriteTarget(lib: Library, tc: TestCase): (r: Result<(string, string), Exception>)
    ensures r.Success? ==> WriteContent(lib, tc) == Success(r.value.1)
    ensures r.Failure? <==>
      || TestCaseKey(lib, tc).Failure?
      || (WritesStatic(tc) && tc.staticContentExtension.None?)
      || WriteContent(lib, tc).Failure?
    ensures TestCaseKey(lib, tc).Success? && WriteContent(lib, tc).Failure? ==> r == Failure(InvalidArguments(WriteAllTextAsync))
    ensures r.Success? && tc.saveAsTestCase ==> r.value.0 == Stem(TestCaseKey(lib, tc).value) + ".testcase"
    ensures r.Success? && !tc.saveAsTestCase && tc.isRazorFile ==> r.value.0 == Stem(TestCaseKey(lib, tc).value) + ".razor"
    ensures r.Success? && WritesStatic(tc) ==>
      var key := TestCaseKey(lib, tc).value;
      var extension := tc.staticContentExtension.value;
      r.value.0 == if EndsWith(key, extension) then key else StaticFileNameAsWritten(key, extension)
    ensures r.Success? && !tc.saveAsTestCase && !tc.isRazorFile && !tc.isStaticContent ==> r.value.0 == TestCaseKey(lib, tc).value
  {
    match TestCaseKey(lib, tc)
    case Failure(e) => Failure(e)
    case Success(key) =>
      var name :=
        if tc.saveAsTestCase then Success(Stem(key) + ".testcase")
        else if tc.isRazorFile then Success(Stem(key) + ".razor")
        else if tc.isStaticContent then
          match tc.staticContentExtension
          case None => Failure(ArgumentNull("value"))
          case Some(extension) => Success(if EndsWith(key, extension) then key else StaticFileNameAsWritten(key, extension))
        else Success(key);
      match name
      case Failure(e) => Failure(e)
      case Success(name) =>
        match WriteContent(lib, tc)
        case Failure(e) => Failure(e)
        case Success(content) => Success((name, content))
  }

  /**
   * The stored name shares the key's stem, so the read of the same request can
   * find it; for static content only while the stem holds no '.' (see
   * `StaticFileNameAsWrittenIsLost` for what happens otherwise).
   */
  lemma {:induction false} WrittenNameMatchesKey(lib: Library, tc: TestCase)
    requires WriteTarget(lib, tc).Success? && NoSlash(tc.httpMethod.value)
    requires WritesStatic(tc) ==> PlainSegment(Stem(TestCaseKey(lib, tc).value))
    ensures MatchesAnyExtension(WriteTarget(lib, tc).value.0, Stem(TestCaseKey(lib, tc).value))
  {
    var key := TestCaseKey(lib, tc).value;
    RestKeyStem(lib.md5, tc.httpMethod.value, tc.requestPath.value, tc.queryString);
    var stem := Stem(key);
    var name := WriteTarget(lib, tc).value.0;
    if WritesStatic(tc) && !EndsWith(key, tc.staticContentExtension.value) {
      StaticFileNameAsWrittenIsFound(stem, tc.staticContentExtension.value);
    }
  }

  /** As written, a stem without '.' keeps all of itself and gains a '.', so `GetFiles(stem + ".*")` lists it. */
  lemma StaticFileNameAsWrittenIsFound(stem: string, extension: string)
    requires PlainSegment(stem)
    ensures MatchesAnyExtension(StaticFileNameAsWritten(stem + ".json", extension), stem)
  {
    assert NoSlash(stem);
    FixedExtensionsArePlain();
    VariantNames(stem);
    StemOfName(stem, "json");
    if |stem| > 0 {
      ChangeExtensionOfPlain(stem, extension);
      DottedVariantMatchesStem(stem, extension);
    }
  }

  /** The corrected static name keeps the stem and adds a '.', so `GetFiles(stem + ".*")` lists it. */
  lemma StaticFileNameIsFound(stem: string, extension: string)
    ensures MatchesAnyExtension(StaticFileName(stem + ".json", extension), stem)
  {
    FixedExtensionsArePlain();
    VariantNames(stem);
    ChangeExtensionAtLastDot(stem, "json", extension);
    DottedVariantMatchesStem(stem, extension);
  }

  /**
   * As written, a '.' inside the request path is taken for the extension: the key
   * `a.b.json` is stored as `a.ext`, and when `ext` is not `b` and no longer than
   * it, `GetFiles("a.b.*")` does not list that name.
   */
  lemma StaticFileNameAsWrittenIsLost(a: string, b: string, extension: string)
    requires NoSlash(a) && PlainSegment(b) && PlainSegment(extension)
    requires |extension| <= |b| && extension != b
    ensures StaticFileNameAsWritten(a + "." + b + ".json", extension) == a + "." + extension
    ensures !MatchesAnyExtension(a + "." + extension, Stem(a + "." + b + ".json"))
  {
    StemWithInnerDot(a, b);
    ChangeExtensionAtLastDot(a, b, extension);
    DottedPlain(extension);
    OtherTailIsNoVariant(a, extension, b);
  }

  /** `a.x` is neither `a.y` nor a variant of it, when x differs from y and is no longer. */
  lemma OtherTailIsNoVariant(a: string, x: string, y: string)
    requires x != y && |x| <= |y|
    ensures !MatchesAnyExtension(a + "." + x, a + "." + y)
  {
    var name, stem := a + "." + x, a + "." + y;
    assert name[|a| + 1..] == x && stem[|a| + 1..] == y;
    assert |name| < |stem + "."|;
  }

  /** The instance: static content for GET api/v1.2/items, extension "txt", is stored as "get_api_v1.txt". */
  lemma StaticFileNameAsWrittenExample()
    ensures StaticFileNameAsWritten("get_api_v1.2_items.json", "txt") == "get_api_v1.txt"
    ensures !MatchesAnyExtension("get_api_v1.txt", Stem("get_api_v1.2_items.json"))
  {
    var a, b := "get_api_v1", "2_items";
    assert NoSlash(a);
    assert PlainSegment(b);
    assert PlainSegment("txt");
    assert a + "." + b + ".json" == "get_api_v1.2_items.json";
    assert a + "." + "txt" == "get_api_v1.txt";
    StaticFileNameAsWrittenIsLost(a, b, "txt");
  }

  // ---------------------------------------------------------------------------
  // Write, then read or delete
  // ---------------------------------------------------------------------------

  /** When the written variant is the only one listed for the key, the read resolves to it. */
  lemma StoredVariantIsResolved(lib: Library, files: map<string, string>, key: string, name: string, content: string)
    requires MatchesAnyExtension(name, Stem(key))
    requires Matches(files, key) <= {name}
    ensures ResolveFileName(lib, files[name := content], key) == Success(name)
  {
    assert Matches(files[name := content], key) == {name};
  }

  /** When no other variant of the fixture is stored, the written file is the one the read resolves to. */
  lemma WrittenFixtureIsResolved(lib: Library, files: map<string, string>, tc: TestCase)
    requires WriteTarget(lib, tc).Success? && NoSlash(tc.httpMethod.value)
    requires WritesStatic(tc) ==> PlainSegment(Stem(TestCaseKey(lib, tc).value))
    requires Matches(files, TestCaseKey(lib, tc).value) <= {WriteTarget(lib, tc).value.0}
    ensures var (name, content) := WriteTarget(lib, tc).value;
      ResolveFileName(lib, files[name := content], TestCaseKey(lib, tc).value) == Success(name)
  {
    WrittenNameMatchesKey(lib, tc);
    StoredVariantIsResolved(lib, files, TestCaseKey(lib, tc).value, WriteTarget(lib, tc).value.0, WriteTarget(lib, tc).value.1);
  }

  /** Reading a key whose only stored variant is `stem.ext` dispatches on ".ext". */
  lemma ReadOfStoredVariant(lib: Library, files: map<string, string>, stem: string, ext: string, content: string, razorModel: Option<RazorModel>)
    requires NoSlash(stem) && PlainSegment(ext) && |ext| > 0
    requires Matches(files, stem + ".json") <= {stem + "." + ext}
    ensures var name := stem + "." + ext;
      && name in files[name := content]
      && GetExtension(name) == "." + ext
      && ReadFixture(lib, files[name := content], stem + ".json", razorModel) == ReadResolved(lib, files[name := content], name, razorModel)
  {
    var name := stem + "." + ext;
    FixedExtensionsArePlain();
    VariantNames(stem);
    StemOfName(stem, "json");
    StemOfName(stem, ext);
    VariantMatchesStem(stem, ext);
    StoredVariantIsResolved(lib, files, stem + ".json", name, content);
  }

  /** A plain fixture reads back as the serialized result, with no test case. */
  lemma WriteThenReadJson(lib: Library, files: map<string, string>, tc: TestCase, razorModel: Option<RazorModel>)
    requires !tc.saveAsTestCase && !tc.isRazorFile && !tc.isStaticContent
    requires tc.httpMethod.Some? && tc.requestPath.Some? && NoSlash(tc.httpMethod.value)
    requires Matches(files, TestCaseKey(lib, tc).value) <= {TestCaseKey(lib, tc).value}
    ensures var (name, content) := WriteTarget(lib, tc).value;
      ReadFixture(lib, files[name := content], TestCaseKey(lib, tc).value, razorModel) == Success((lib.serialize(tc.expectedResult), None))
  {
    var key := TestCaseKey(lib, tc).value;
    var content := lib.serialize(tc.expectedResult);
    assert WriteTarget(lib, tc).value == (key, content);
    var stem := Stem(key);
    assert NoSlash(stem) && key == stem + ".json" by {
      RestKeyStem(lib.md5, tc.httpMethod.value, tc.requestPath.value, tc.queryString);
    }
    var files' := files[key := content];
    assert ReadFixture(lib, files', key, razorModel) == ReadResolved(lib, files', key, razorModel) && GetExtension(key) == ".json" by {
      FixedExtensionsArePlain();
      VariantNames(stem);
      ReadOfStoredVariant(lib, files, stem, "json", content, razorModel);
    }
  }

  /** A template fixture reads back as its text rendered under the stem, with the request's model. */
  lemma WriteThenReadRazor(lib: Library, files: map<string, string>, tc: TestCase, razorModel: Option<RazorModel>)
    requires !tc.saveAsTestCase && tc.isRazorFile && tc.expectedResult.Str?
    requires tc.httpMethod.Some? && tc.requestPath.Some? && NoSlash(tc.httpMethod.value)
    requires Matches(files, TestCaseKey(lib, tc).value) <= {Stem(TestCaseKey(lib, tc).value) + ".razor"}
    ensures var (name, content) := WriteTarget(lib, tc).value;
      var stem := Stem(TestCaseKey(lib, tc).value);
      ReadFixture(lib, files[name := content], TestCaseKey(lib, tc).value, razorModel) ==
        Success((lib.render(stem, tc.expectedResult.s, razorModel.GetOr(EmptyRazorModel).(templateName := Some(stem))), None))
  {
    var key := TestCaseKey(lib, tc).value;
    var stem := Stem(key);
    var name, content := stem + ".razor", tc.expectedResult.s;
    assert WriteTarget(lib, tc).value == (name, content);
    assert NoSlash(stem) && key == stem + ".json" by {
      RestKeyStem(lib.md5, tc.httpMethod.value, tc.requestPath.value, tc.queryString);
    }
    assert GetFileNameWithoutExtension(name) == stem && GetExtension(name) == ".razor" by {
      FixedExtensionsArePlain();
      VariantNames(stem);
      StemOfName(stem, "razor");
    }
    assert ReadFixture(lib, files[name := content], key, razorModel) == Success((RazorResult(lib, name, razorModel, content), None)) by {
      FixedExtensionsArePlain();
      VariantNames(stem);
      ReadOfStoredVariant(lib, files, stem, "razor", content, razorModel);
    }
  }

  /**
   * A self-describing fixture reads back as its result's text (rendered with a
   * fresh model when it is a template) together with the test case itself.
   */
  lemma WriteThenReadTestCase(lib: Library, files: map<string, string>, tc: TestCase, razorModel: Option<RazorModel>)
    requires lib.parseTestCase(lib.serializeTestCase(tc)) == Success(Some(tc))
    requires tc.saveAsTestCase && tc.expectedResult != Null
    requires tc.httpMethod.Some? && tc.requestPath.Some? && NoSlash(tc.httpMethod.value)
    requires Matches(files, TestCaseKey(lib, tc).value) <= {Stem(TestCaseKey(lib, tc).value) + ".testcase"}
    ensures var (name, content) := WriteTarget(lib, tc).value;
      var stem := Stem(TestCaseKey(lib, tc).value);
      ReadFixture(lib, files[name := content], TestCaseKey(lib, tc).value, razorModel) ==
        if tc.isRazorFile
        then Success((lib.render(stem, lib.text(tc.expectedResult), EmptyRazorModel.(templateName := Some(stem))), Some(tc)))
        else Success((lib.text(tc.expectedResult), Some(tc)))
  {
    var key := TestCaseKey(lib, tc).value;
    var stem := Stem(key);
    var name, content := stem + ".testcase", lib.serializeTestCase(tc);
    assert WriteTarget(lib, tc) == Success((name, content));
    assert NoSlash(stem) && key == stem + ".json" by {
      RestKeyStem(lib.md5, tc.httpMethod.value, tc.requestPath.value, tc.queryString);
    }
    assert GetFileNameWithoutExtension(name) == stem && GetExtension(name) == ".testcase" by {
      FixedExtensionsArePlain();
      VariantNames(stem);
      StemOfName(stem, "testcase");
    }
    assert ReadFixture(lib, files[name := content], key, razorModel) == ResponseAndTestCase(lib, name, content) by {
      FixedExtensionsArePlain();
      VariantNames(stem);
      ReadOfStoredVariant(lib, files, stem, "testcase", content, razorModel);
    }
    StoredTestCaseAnswers(lib, name, tc);
  }

  /** A serialized test case, parsed back, answers with its own result and itself. */
  lemma StoredTestCaseAnswers(lib: Library, filePath: string, tc: TestCase)
    requires lib.parseTestCase(lib.serializeTestCase(tc)) == Success(Some(tc)) && tc.expectedResult != Null
    ensures ResponseAndTestCase(lib, filePath, lib.serializeTestCase(tc)) ==
      if tc.isRazorFile
      then Success((lib.render(GetFileNameWithoutExtension(filePath), lib.text(tc.expectedResult),
                               EmptyRazorModel.(templateName := Some(GetFileNameWithoutExtension(filePath)))), Some(tc)))
      else Success((lib.text(tc.expectedResult), Some(tc)))
  {
  }

  lemma SubsetCardinality(a: set<string>, b: set<string>)
    requires a <= b
    ensures |a| <= |b|
  {
    assert b == a + (b - a);
  }

  /** Two stored variants of one fixture make every read of it fail with InvalidOperationException. */
  lemma TwoVariantsAreAmbiguous(lib: Library, files: map<string, string>, key: string, a: string, b: string, razorModel: Option<RazorModel>)
    requires a in files && b in files && a != b
    requires MatchesAnyExtension(a, Stem(key)) && MatchesAnyExtension(b, Stem(key))
    ensures ReadFixture(lib, files, key, razorModel).Failure?
    ensures ReadFixture(lib, files, key, razorModel).error.InvalidOperation?
  {
    assert {a, b} <= Matches(files, key);
    assert |{a, b}| == 2;
    SubsetCardinality({a, b}, Matches(files, key));
  }

  /** Deleting the only variant of a fixture makes the next read a FileNotFoundException. */
  lemma DeleteThenReadFails(lib: Library, files: map<string, string>, key: string, razorModel: Option<RazorModel>)
    requires ResolveFileName(lib, files, key).Success?
    ensures var deleted := files - {ResolveFileName(lib, files, key).value};
      ReadFixture(lib, deleted, key, razorModel) == Failure(FileNotFound("Mock data not found: " + key, Some(key)))
  {
    var name := ResolveFileName(lib, files, key).value;
    assert Matches(files - {name}, key) == {};
  }

  // ---------------------------------------------------------------------------
  // The service
  // ---------------------------------------------------------------------------

  class MockDataService {
    /** MD5, Newtonsoft.Json, RazorLight and the directory listing. */
    const lib: Library
    /** The data directory: file name -> content. */
    var files: map<string, string>
    /** `_expectations`: key -> the test case set up for it. */
    var expectations: map<string, Expectation>
    /** `_expectationRead`: key -> reads since set-up. */
    var expectationRead: map<string, nat>

    /** The two dictionaries always hold the same keys. */
    ghost predicate Valid()
      reads this
    {
      expectations.Keys == expectationRead.Keys
    }

    /** `_validate` throws unless the working directory is named and exists: it is a precondition here. */
    constructor (lib: Library, workingDirectory: string, fileSystem: map<string, map<string, string>>)
      requires workingDirectory != "" && workingDirectory in fileSystem
      ensures Valid()
      ensures this.lib == lib && files == fileSystem[workingDirectory]
      ensures expectations == map[] && expectationRead == map[]
    {
      this.lib := lib;
      files := fileSystem[workingDirectory];
      expectations := map[];
      expectationRead := map[];
    }

    /** `_getExpectation`: on a registered key, count the read and answer with the serialized result. */
    method ReadExpectation(fileName: string) returns (r: Option<string>)
      requires Valid()
      modifies this`expectationRead
      ensures Valid()
      ensures fileName in expectations ==>
        && r == Some(lib.serialize(expectations[fileName].ExpectedResult()))
        && expectationRead == old(expectationRead)[fileName := old(expectationRead)[fileName] + 1]
      ensures fileName !in expectations ==> r == None && expectationRead == old(expectationRead)
    {
      if fileName !in expectations {
        return None;
      }
      expectationRead := expectationRead[fileName := expectationRead[fileName] + 1];
      r := Some(lib.serialize(expectations[fileName].ExpectedResult()));
    }

    /** `_setupExpectation`: insert with a zero count, or replace the test case and keep the count. */
    method RegisterExpectation(expectation: Expectation, fileName: string)
      requires Valid()
      modifies this`expectations, this`expectationRead
      ensures Valid()
      ensures expectations == old(expectations)[fileName := expectation]
      ensures fileName in old(expectations) ==> expectationRead == old(expectationRead)
      ensures fileName !in old(expectations) ==> expectationRead == old(expectationRead)[fileName := 0]
    {
      if fileName in expectations {
        expectations := expectations[fileName := expectation];
        return;
      }
      expectations := expectations[fileName := expectation];
      expectationRead := expectationRead[fileName := 0];
    }

    /** `_expect`: 0 for an unknown key; otherwise the count, and the key leaves both dictionaries. */
    method ConsumeExpectation(fileName: string) returns (actual: nat)
      requires Valid()
      modifies this`expectations, this`expectationRead
      ensures Valid()
      ensures fileName !in old(expectations) ==>
        actual == 0 && expectations == old(expectations) && expectationRead == old(expectationRead)
      ensures fileName in old(expectations) ==>
        && actual == old(expectationRead)[fileName]
        && expectations == old(expectations) - {fileName}
        && expectationRead == old(expectationRead) - {fileName}
    {
      if fileName !in expectations {
        return 0;
      }
      actual := expectationRead[fileName];
      expectations := expectations - {fileName};
      expectationRead := expectationRead - {fileName};
    }

    /**
     * `ReadFile`: a registered expectation answers first (and is counted); otherwise
     * the store answers, and nothing changes.
     */
    method ReadFile(httpMethod: string, url: string, queryString: Option<string>, razorModel: Option<RazorModel>)
      returns (r: Result<(string, Option<TestCase>), Exception>)
      requires Valid()
      modifies this`expectationRead
      ensures Valid()
      ensures var key := FileNameFromUrl(lib.md5, httpMethod, url, queryString);
        if key in expectations then
          && r == Success((lib.serialize(expectations[key].ExpectedResult()), None))
          && expectationRead == old(expectationRead)[key := old(expectationRead)[key] + 1]
        else
          r == ReadFixture(lib, files, key, razorModel) && expectationRead == old(expectationRead)
    {
      var fileName := FileNameFromUrl(lib.md5, httpMethod, url, queryString);
      var expectation := ReadExpectation(fileName);
      if expectation.Some? {
        return Success((expectation.value, None));
      }
      var resolved := ResolveFileName(lib, files, fileName);
      if resolved.Failure? {
        return Failure(resolved.error);
      }
      var filePath := resolved.value;
      var extension := GetExtension(filePath);
      if extension == ".razor" {
        return Success((RazorResult(lib, filePath, razorModel, files[filePath]), None));
      } else if extension == ".testcase" {
        return ResponseAndTestCase(lib, filePath, files[filePath]);
      }
      return Success((files[filePath], None));
    }

    /** `WriteFile(TestCase)`: store under the chosen name, overwriting whatever was there. */
    method WriteFile(testCase: TestCase) returns (r: Outcome<Exception>)
      modifies this`files
      ensures WriteTarget(lib, testCase).Success? ==>
        r == Pass && files == old(files)[WriteTarget(lib, testCase).value.0 := WriteTarget(lib, testCase).value.1]
      ensures WriteTarget(lib, testCase).Failure? ==>
        r == Fail(WriteTarget(lib, testCase).error) && files == old(files)
    {
      if testCase.httpMethod.None? || testCase.requestPath.None? {
        return Fail(NullReference);
      }
      var fileName := FileNameFromUrl(lib.md5, testCase.httpMethod.value, testCase.requestPath.value, testCase.queryString);
      var filePath := fileName;
      var fileNameWithoutExtension := GetFileNameWithoutExtension(fileName);
      if testCase.saveAsTestCase {
        filePath := fileNameWithoutExtension + ".testcase";
      } else if testCase.isRazorFile {
        filePath := fileNameWithoutExtension + ".razor";
      } else if testCase.isStaticContent {
        if testCase.staticContentExtension.None? {
          return Fail(ArgumentNull("value"));
        }
        if !EndsWith(fileName, testCase.staticContentExtension.value) {
          filePath := ChangeExtension(fileNameWithoutExtension, testCase.staticContentExtension.value);
        }
      }
      var content := WriteContent(lib, testCase);
      if content.Failure? {
        return Fail(content.error);
      }
      files := files[filePath := content.value];
      r := Pass;
    }

    /** `WriteFile(GraphQlTestCase)`: the serialized result under the GraphQL key. */
    method WriteGraphQlFile(testCase: GraphQlTestCase) returns (r: Outcome<Exception>)
      modifies this`files
      ensures GraphQlKey(lib, testCase.operationName, testCase.query).Success? ==>
        r == Pass &&
        files == old(files)[GraphQlKey(lib, testCase.operationName, testCase.query).value := lib.serialize(testCase.expectedResult)]
      ensures GraphQlKey(lib, testCase.operationName, testCase.query).Failure? ==>
        r == Fail(GraphQlKey(lib, testCase.operationName, testCase.query).error) && files == old(files)
    {
      var key := GraphQlKey(lib, testCase.operationName, testCase.query);
      if key.Failure? {
        return Fail(key.error);
      }
      files := files[key.value := lib.serialize(testCase.expectedResult)];
      r := Pass;
    }

    /** `GetPersistedFileNames`: every file of the data directory ("*.*"). */
    method GetPersistedFileNames() returns (names: set<string>)
      ensures names == files.Keys
    {
      names := files.Keys;
    }

    /** `DeleteFile(method, path, queryString)`: remove the one resolved variant; resolution errors propagate. */
    method DeleteFile(httpMethod: string, path: string, queryString: Option<string>) returns (r: Outcome<Exception>)
      modifies this`files
      ensures var resolved := ResolveFileName(lib, old(files), FileNameFromUrl(lib.md5, httpMethod, path, queryString));
        if resolved.Success? then r == Pass && files == old(files) - {resolved.value}
        else r == Fail(resolved.error) && files == old(files)
    {
      var resolved := ResolveFileName(lib, files, FileNameFromUrl(lib.md5, httpMethod, path, queryString));
      if resolved.Failure? {
        return Fail(resolved.error);
      }
      files := files - {resolved.value};
      r := Pass;
    }

    /** `DeleteFile(fileName)`: remove that exact file, or throw FileNotFoundException. */
    method DeleteFileNamed(fileName: string) returns (r: Outcome<Exception>)
      modifies this`files
      ensures fileName in old(files) ==> r == Pass && files == old(files) - {fileName}
      ensures fileName !in old(files) ==>
        r == Fail(FileNotFound("Invalid file: " + fileName, Some(fileName))) && files == old(files)
    {
      if fileName !in files {
        return Fail(FileNotFound("Invalid file: " + fileName, Some(fileName)));
      }
      files := files - {fileName};
      r := Pass;
    }

    /** `SetupExpectation(TestCase)`. */
    method SetupExpectation(testCase: TestCase) returns (r: Outcome<Exception>)
      requires Valid()
      modifies this`expectations, this`expectationRead
      ensures Valid()
      ensures TestCaseKey(lib, testCase).Failure? ==>
        r == Fail(NullReference) && expectations == old(expectations) && expectationRead == old(expectationRead)
      ensures TestCaseKey(lib, testCase).Success? ==>
        var key := TestCaseKey(lib, testCase).value;
        && r == Pass
        && expectations == old(expectations)[key := RestExpectation(testCase)]
        && expectationRead == if key in old(expectationRead) then old(expectationRead) else old(expectationRead)[key := 0]
    {
      var key := TestCaseKey(lib, testCase);
      if key.Failure? {
        return Fail(key.error);
      }
      RegisterExpectation(RestExpectation(testCase), key.value);
      r := Pass;
    }

    /** `SetupExpectation(GraphQlTestCase)`. */
    method SetupGraphQlExpectation(testCase: GraphQlTestCase) returns (r: Outcome<Exception>)
      requires Valid()
      modifies this`expectations, this`expectationRead
      ensures Valid()
      ensures GraphQlKey(lib, testCase.operationName, testCase.query).Failure? ==>
        r == Fail(GraphQlKey(lib, testCase.operationName, testCase.query).error) && expectations == old(expectations) && expectationRead == old(expectationRead)
      ensures GraphQlKey(lib, testCase.operationName, testCase.query).Success? ==>
        var key := GraphQlKey(lib, testCase.operationName, testCase.query).value;
        && r == Pass
        && expectations == old(expectations)[key := GraphQlExpectation(testCase)]
        && expectationRead == if key in old(expectationRead) then old(expectationRead) else old(expectationRead)[key := 0]
    {
      var key := GraphQlKey(lib, testCase.operationName, testCase.query);
      if key.Failure? {
        return Fail(key.error);
      }
      RegisterExpectation(GraphQlExpectation(testCase), key.value);
      r := Pass;
    }

    /** `Expect(method, count, path, queryString)`: `count` is not consulted; the caller compares. */
    method Expect(httpMethod: string, count: int, path: string, queryString: Option<string>) returns (actual: nat)
      requires Valid()
      modifies this`expectations, this`expectationRead
      ensures Valid()
      ensures var key := FileNameFromUrl(lib.md5, httpMethod, path, queryString);
        if key in old(expectations) then
          && actual == old(expectationRead)[key]
          && expectations == old(expectations) - {key}
          && expectationRead == old(expectationRead) - {key}
        else
          actual == 0 && expectations == old(expectations) && expectationRead == old(expectationRead)
    {
      actual := ConsumeExpectation(FileNameFromUrl(lib.md5, httpMethod, path, queryString));
    }

    /** `Expect(GraphQlTestCase, count)`. */
    method ExpectGraphQl(testCase: GraphQlTestCase, count: int) returns (r: Result<nat, Exception>)
      requires Valid()
      modifies this`expectations, this`expectationRead
      ensures Valid()
      ensures var key := GraphQlKey(lib, testCase.operationName, testCase.query);
        if key.Failure? then
          r == Failure(key.error) && expectations == old(expectations) && expectationRead == old(expectationRead)
        else if key.value in old(expectations) then
          && r == Success(old(expectationRead)[key.value])
          && expectations == old(expectations) - {key.value}
          && expectationRead == old(expectationRead) - {key.value}
        else
          r == Success(0) && expectations == old(expectations) && expectationRead == old(expectationRead)
    {
      var key := GraphQlKey(lib, testCase.operationName, testCase.query);
      if key.Failure? {
        return Failure(key.error);
      }
      var actual := ConsumeExpectation(key.value);
      r := Success(actual);
    }

    /** `GetExpectationKeys`. */
    method GetExpectationKeys() returns (keys: set<string>)
      ensures keys == expectations.Keys
    {
      keys := expectations.Keys;
    }

    /**
     * `ReadGraphQlFile`: a registered expectation answers first (and is counted);
     * otherwise the file with exactly the GraphQL key, with no wildcard lookup.
     */
    method ReadGraphQlFile(request: GraphQlRequest) returns (r: Result<string, Exception>)
      requires Valid()
      modifies this`expectationRead
      ensures Valid()
      ensures var key := GraphQlKey(lib, request.operationName, request.query);
        if key.Failure? then r == Failure(key.error) && expectationRead == old(expectationRead)
        else if key.value in expectations then
          && r == Success(lib.serialize(expectations[key.value].ExpectedResult()))
          && expectationRead == old(expectationRead)[key.value := old(expectationRead)[key.value] + 1]
        else
          && expectationRead == old(expectationRead)
          && r == if key.value in files then Success(files[key.value])
                  else Failure(FileNotFound("Could not find file '" + key.value + "'.", Some(key.value)))
    {
      var key := GraphQlKey(lib, request.operationName, request.query);
      if key.Failure? {
        return Failure(key.error);
      }
      var fileName := key.value;
      var expectation := ReadExpectation(fileName);
      if expectation.Some? {
        return Success(expectation.value);
      }
      if fileName !in files {
        return Failure(FileNotFound("Could not find file '" + fileName + "'.", Some(fileName)));
      }
      r := Success(files[fileName]);
    }
  }

  /**
   * The verification protocol: set up, read `n` times, verify. The verification
   * returns the reads since the key was first set up (`n` on a fresh key), a
   * second one right after returns 0, and the stored fixtures are not touched.
   */
  method ExpectationProtocol(service: MockDataService, testCase: TestCase, n: nat) returns (first: nat, second: nat)
    requires service.Valid()
    requires testCase.httpMethod.Some? && testCase.requestPath.Some?
    modifies service`expectations, service`expectationRead
    ensures service.Valid()
    ensures var key := TestCaseKey(service.lib, testCase).value;
      first == (if key in old(service.expectationRead) then old(service.expectationRead)[key] else 0) + n
    ensures second == 0
    ensures service.files == old(service.files)
  {
    var _ := service.SetupExpectation(testCase);
    var httpMethod, path := testCase.httpMethod.value, testCase.requestPath.value;
    var key := FileNameFromUrl(service.lib.md5, httpMethod, path, testCase.queryString);
    assert key == TestCaseKey(service.lib, testCase).value;
    ghost var start := service.expectationRead[key];
    var i := 0;
    while i < n
      invariant 0 <= i <= n
      invariant service.Valid()
      invariant key in service.expectations
      invariant service.expectationRead[key] == start + i
      invariant service.files == old(service.files)
    {
      var _ := service.ReadFile(httpMethod, path, testCase.queryString, None);
      i := i + 1;
    }
    first := service.Expect(httpMethod, n, path, testCase.queryString);
    second := service.Expect(httpMethod, n, path, testCase.queryString);
  }
}
