# MockApiServer in Dafny

A model of the core of MockApiServer, an HTTP server that answers API requests
from recorded fixtures. A test sets up a fixture or an expectation through the
set-up endpoints. The catch-all controller then answers any request from it.
The test can finally ask how many times an expectation was read.

The model covers:

- **The fixture key** (module `KeyCodec`). A request is stored under
  `method_path[_HASH].json`: the method lower-cased, the path with one leading
  '/' dropped, lower-cased and with '/' turned to '_', and the upper-case hex MD5
  of the query string when there is one. A GraphQL operation is stored under
  `operation_HASH.graphql`, hashed over the query with all white space removed.
- **The newer `MockDataService`** (module `MockData`). This is a class holding
  the data directory (file name → content), the expectation registry and the
  read counts. A read consults the registry first. Otherwise it looks up the
  fixture by its stem (`GetFiles(stem + ".*")`) and dispatches on the extension:
  `.razor` is rendered, `.testcase` is a whole stored test case, and anything
  else is returned as is. Writing picks `.testcase`, `.razor`, a static
  extension or `.json`. Deleting, the set-up of expectations and their
  verification are modelled as well.
- **The earlier `MockDataService`** (module `FileService`, from `FileService.cs`).
  It reads, writes and deletes only the exact `.json` key.
- **`MockControllerBase`**. It checks the expected headers against the request
  and maps the service's exceptions to NotFound or BadRequest. It also answers
  GraphQL requests.
- **`StringHelpers`** and the first-generation **`GenericController`**, which
  stores `method_path-with-dashes.json`.
- **The FluentValidation rules** of `TestCase`, `GraphQlTestCase` and
  `ExpectedTestResult` (module `Models`).

The .NET library behaviour the core relies on is written out in `Text` and
`Paths`:

- lower-casing;
- `string.Replace`;
- white space as `\s` matches it;
- `Path.GetExtension`, `GetFileNameWithoutExtension` and `ChangeExtension`;
- the Win32 wildcard `stem.*`, which matches `stem` itself and every
  `stem.<anything>`.

The pieces the core calls but does not implement are function values in the
`Platform.Library` record. These are MD5 over UTF-8, Newtonsoft.Json, `ToString`
of a payload, RazorLight and the listing order of a directory.
`Platform.Lawful` states that Newtonsoft.Json reads back what it wrote and that a
directory listing names each file once.

Five places where the model follows the code rather than its apparent intent:

- **Test case templates.** `MockDataService.cs:54` does not pass the request's
  Razor model on for a `.testcase` template. The template is therefore rendered
  with a fresh model (`MockData.TestCaseTemplateIgnoresRequest`).
- **Double slashes in `GenericController`.** `GenericController.cs:69` discards
  the result of `ReplaceDoubleSlashes`. A doubled slash therefore survives as
  `--` (`GenericController.DoubledSlashSurvives`).
- **The name of static content.** `MockDataService.cs:90` applies
  `ChangeExtension` to the stem rather than to the key, so a '.' inside the
  request path is taken for the extension. `WriteFile` stores under that name
  (`MockData.StaticFileNameAsWritten`); the consequence is under "## Findings".
- **Template payloads.** `MockDataService.cs:95-96` hands the `dynamic` payload
  of a template to `File.WriteAllTextAsync` unconverted. Only a string (or null,
  written as an empty file) binds; any other payload makes the runtime binder
  throw, and nothing is written (`MockData.WriteContent`).
- **The query string of `ExpectedTestResult`.** The class in
  `ExpectedTestResult.cs` has no `QueryString`, yet `FileService.cs:48` reads
  one. The datatype carries the field.

## Model

| member | source | states |
|---|---|---|
| KeyCodec.ByteHex | src/MockApiServer/Services/MockDataService.cs:205-206 | a byte as BitConverter writes it is two upper-case hex digits |
| KeyCodec.Hex | src/MockApiServer/Services/MockDataService.cs:205-207 | the hex form of a byte string is twice as long as it |
| KeyCodec.HexIsUpperHex | src/MockApiServer/Services/MockDataService.cs:205-207 | every character of the hex form is an upper-case hex digit |
| KeyCodec.ByteHexInjective | src/MockApiServer/Services/MockDataService.cs:205-206 | different bytes have different hex pairs |
| KeyCodec.HexInjective | src/MockApiServer/Services/MockDataService.cs:204-207 | different digests give different hex strings, so the hash segment identifies the digest |
| KeyCodec.DashesRemovedIsHex | src/MockApiServer/Services/MockDataService.cs:205-207 | `BitConverter.ToString(d).Replace("-", "")` is the plain hex form of d |
| KeyCodec.ByteHexHasNoDash | src/MockApiServer/Services/MockDataService.cs:205-207 | a byte's hex pair holds no '-' |
| KeyCodec.DashesDeletedIsHex | src/MockApiServer/Services/MockDataService.cs:205-207 | deleting every '-' from BitConverter's text gives the plain hex form |
| KeyCodec.DigestHex | src/MockApiServer/Services/MockDataService.cs:254-256 | the query hash is the hex form of the MD5 digest, 32 characters long |
| KeyCodec.RestKeyShape | src/MockApiServer/Services/MockDataService.cs:196-211 | the key starts with the lower-cased method and '_', ends with ".json", and holds no '/' after the method |
| KeyCodec.GraphQlFileName | src/MockApiServer/Services/MockDataService.cs:250-258 | the GraphQL key is the lower-cased operation, '_', the 32 hex digits of the MD5 of the minified query and ".graphql" |
| KeyCodec.QuestionMarkIgnored | src/MockApiServer/Services/MockDataService.cs:201-202 | one leading '?' on the query does not change the key |
| KeyCodec.EmptyQueryAddsNothing | src/MockApiServer/Services/MockDataService.cs:201-210 | a null, empty or lone "?" query adds no hash segment |
| KeyCodec.QueryAddsDigest | src/MockApiServer/Services/MockDataService.cs:204-210 | a non-empty query adds "_" and the hex MD5 of the query |
| KeyCodec.CaseAndLeadingSlashIgnored | src/MockApiServer/Services/MockDataService.cs:198-210 | one leading '/' and the letter case of method and path do not change the key |
| KeyCodec.DistinctDigestsDistinctKeys | src/MockApiServer/Services/MockDataService.cs:204-210 | queries whose digests differ give different keys for the same request |
| KeyCodec.Minify | src/MockApiServer/Services/MockDataService.cs:268-271 | the minified query holds no white space and is no longer than the query |
| KeyCodec.MinifyAppend | src/MockApiServer/Services/MockDataService.cs:268-271 | minifying distributes over concatenation |
| KeyCodec.MinifyBlank | src/MockApiServer/Services/MockDataService.cs:268-271 | white space minifies to nothing |
| KeyCodec.MinifyIdempotent | src/MockApiServer/Services/MockDataService.cs:268-271 | minifying twice is minifying once |
| KeyCodec.MinifyIgnoresBlank | src/MockApiServer/Services/MockDataService.cs:268-271 | white space inserted anywhere leaves the minified query unchanged |
| KeyCodec.GraphQlKeyIgnoresWhitespace | src/MockApiServer/Services/MockDataService.cs:250-258 | queries differing only in white space share one GraphQL key |
| KeyCodec.GraphQlKeyIsNeverRestKey | src/MockApiServer/Services/MockDataService.cs:250-258 | a GraphQL key (".graphql") never equals a REST key (".json") |
| Text.Lower | src/MockApiServer/Services/MockDataService.cs:210 | `ToLower` keeps the length and lower-cases each character |
| Text.LowerIdempotent | src/MockApiServer/Services/MockDataService.cs:210 | lower-casing twice is lower-casing once |
| Text.LowerAppend | src/MockApiServer/Services/MockDataService.cs:210 | lower-casing distributes over concatenation |
| Text.ReplaceChar | src/MockApiServer/Services/MockDataService.cs:210 | `Replace('/', '_')` keeps the length and maps exactly the matching characters |
| Text.ReplaceAllWithoutOccurrence | src/MockApiServer/Helpers/StringHelpers.cs:8 | `Replace` leaves a string without the pattern unchanged |
| Text.ReplaceAllShrinks | src/MockApiServer/Helpers/StringHelpers.cs:8 | `Replace` by something no longer never lengthens the string |
| Text.RemoveChar | src/MockApiServer/Services/MockDataService.cs:207 | deleting a character leaves none of it and never lengthens |
| Text.RemoveCharAppend | src/MockApiServer/Services/MockDataService.cs:207 | deleting a character distributes over concatenation |
| Text.ReplaceAllSingleChar | src/MockApiServer/Services/MockDataService.cs:207 | `Replace("-", "")` is deleting every '-' |
| Text.ReplaceAll | src/MockApiServer/Helpers/StringHelpers.cs:8 | a source starting with the pattern starts with the replacement; a same-length replacement keeps the length |
| Text.OccursAfterPrefix | src/MockApiServer/Services/MockDataService.cs:240 | an occurrence stays an occurrence, shifted, behind any prefix |
| Text.JoinContainsItem | src/MockApiServer/Services/MockDataService.cs:240 | every item of a list occurs in the list joined with a separator |
| Paths.DotBefore | src/MockApiServer/Services/MockDataService.cs:49 | the backward scan stops at the last '.' of the last segment, with neither '.' nor '/' after it; it reports none only when every earlier '.' has a '/' after it |
| Paths.ExtensionStart | src/MockApiServer/Services/MockDataService.cs:49 | the extension starts at a '.' followed by neither '.' nor '/', or there is none |
| Paths.DotBeforePlainTail | src/MockApiServer/Services/MockDataService.cs:49 | scanning back over characters that are neither '.' nor '/' does not change the answer |
| Paths.ExtensionStartOfSuffix | src/MockApiServer/Services/MockDataService.cs:82 | in `stem.ext` the extension starts at the last dot |
| Paths.SegmentStart | src/MockApiServer/Services/MockDataService.cs:219 | the file name starts at 0 or just after a '/', and holds none |
| Paths.StemOfName | src/MockApiServer/Services/MockDataService.cs:82 | `GetFileNameWithoutExtension(stem.ext)` is stem and `GetExtension` is ".ext" |
| Paths.NoSlashIsFileName | src/MockApiServer/Services/MockDataService.cs:219 | a name without '/' is its own file name |
| Paths.GetExtension | src/MockApiServer/Services/MockDataService.cs:49 | a non-empty extension is a '.' and at least one character, neither '.' nor '/', ending the path |
| Paths.GetFileName | src/MockApiServer/Services/MockDataService.cs:219 | the file name ends the path and holds no '/' |
| Paths.GetFileNameWithoutExtension | src/MockApiServer/Services/MockDataService.cs:219 | a prefix of the file name without '/'; what it leaves off is nothing or a '.' followed by neither '.' nor '/' |
| Paths.Dotted | src/MockApiServer/Services/MockDataService.cs:90 | the extension as appended starts with '.' |
| Paths.ChangeExtension | src/MockApiServer/Services/MockDataService.cs:90 | an empty path stays empty; otherwise the path up to its extension, then the dotted extension, and nothing else |
| Paths.ChangeExtensionAtLastDot | src/MockApiServer/Services/MockDataService.cs:90 | in `stem.tail` only ".tail" is replaced |
| Paths.ChangeExtensionOfPlain | src/MockApiServer/Services/MockDataService.cs:90 | a name without '.' keeps all of itself and gains the dotted extension |
| Paths.DottedPlain | src/MockApiServer/Services/MockDataService.cs:90 | an extension without '.' gets one in front |
| Paths.StemWithInnerDot | src/MockApiServer/Services/MockDataService.cs:82 | the stem of `a.b.json` is `a.b` |
| Paths.VariantMatchesStem | src/MockApiServer/Services/MockDataService.cs:236 | every `stem.ext` is listed by `stem.*` |
| Paths.DottedVariantMatchesStem | src/MockApiServer/Services/MockDataService.cs:236 | a stem with a changed extension is listed by `stem.*` |
| Models.ValidateTestCase | src/MockApiServer/Models/TestCase.cs:22-30 | each property is reported exactly when its rule fails; no report exactly when all three rules hold |
| Models.ValidateGraphQlTestCase | src/MockApiServer/Models/TestCase.cs:32-40 | the same for query, operation name and result |
| Models.ValidateExpectedTestResult | src/MockApiServer/Models/ExpectedTestResult.cs:12-20 | the same for method, path and result |
| Models.OnlyThreeRulesConstrainTestCase | src/MockApiServer/Models/TestCase.cs:24-29 | fields without a rule do not affect validation |
| Models.ExpectedTestResultCases | src/MockApiServer.Tests/TestSetupControllerTests.cs:69-129 | a missing method, path or result is refused with that property named; a complete one is accepted |
| StringHelpers.Remove | src/MockApiServer/Helpers/StringHelpers.cs:5-9 | without the prefix the source is unchanged; with it, the replacement followed by the rest with every occurrence replaced |
| StringHelpers.RemoveNeverLengthens | src/MockApiServer/Helpers/StringHelpers.cs:5-9 | with the default replacement the result is no longer than the source |
| StringHelpers.RemoveReplacesEveryOccurrence | src/MockApiServer/Helpers/StringHelpers.cs:7-8 | for every source starting with `original`, the prefix becomes the replacement and every later occurrence is replaced too |
| StringHelpers.RemoveInnerOccurrenceExample | src/MockApiServer/Helpers/StringHelpers.cs:7-8 | "/api/v1/api/x" without "/api/" is "v1x" |
| StringHelpers.RemoveNeedsPrefix | src/MockApiServer/Helpers/StringHelpers.cs:7-8 | a source that does not start with `original` is unchanged, whatever occurs in it later |
| StringHelpers.RemoveNeedsPrefixExample | src/MockApiServer/Helpers/StringHelpers.cs:7-8 | "a/api/" holds "/api/" but not as a prefix, and is unchanged |
| StringHelpers.RemoveTrailing | src/MockApiServer/Helpers/StringHelpers.cs:11-15 | a final `entity` is dropped and appending it restores the source; otherwise unchanged |
| StringHelpers.RemoveLeading | src/MockApiServer/Helpers/StringHelpers.cs:17-20 | a first `entity` is dropped and prefixing it restores the source; otherwise unchanged |
| StringHelpers.RemoveOnlyOne | src/MockApiServer/Helpers/StringHelpers.cs:11-20 | only one character is dropped at either end |
| StringHelpers.ReplaceDoubleSlashes | src/MockApiServer/Helpers/StringHelpers.cs:22-25 | the result is never longer |
| StringHelpers.ReplaceDoubleSlashesKeepsSingles | src/MockApiServer/Helpers/StringHelpers.cs:22-25 | a string without "//" is unchanged |
| StringHelpers.ReplaceDoubleSlashesIsOnePass | src/MockApiServer/Helpers/StringHelpers.cs:22-25 | a single pass: "///" becomes "//" |
| GenericController.GetResponseFile | src/Controllers/GenericController.cs:65-78 | no file exactly for "/"; otherwise a name starting with the lower-cased method and '_' and ending with ".json" |
| GenericController.NameFromPlainPath | src/Controllers/GenericController.cs:74-77 | outside "/api/", one leading and one trailing '/' are dropped and inner '/' become '-', keeping the path's case |
| GenericController.NameFromApiPath | src/Controllers/GenericController.cs:74-77 | under "/api/", the name is built from what follows the prefix |
| GenericController.NameFromRootedPath | src/Controllers/GenericController.cs:74-77 | a rooted path such as "/orders/7" outside "/api/" is answered from method_orders-7.json |
| GenericController.DoubledSlashSurvives | src/Controllers/GenericController.cs:69 | "/orders//7/" by POST is answered from "post_orders--7.json" |
| GenericController.GetResponseFromFile | src/Controllers/GenericController.cs:47-58 | home screen exactly for "/", NotFound exactly when the file service has nothing, otherwise its content |
| MockControllerBase.HeaderValues | src/MockApiServer/Controllers/MockControllerBase.cs:39 | an absent header has no values |
| MockControllerBase.HeaderNames | src/MockApiServer/Controllers/MockControllerBase.cs:32 | the request's header names, in order |
| MockControllerBase.CheckExpectedHeaders | src/MockApiServer/Controllers/MockControllerBase.cs:34-41 | no message exactly when every expected header is satisfied; otherwise the message of the first unsatisfied one |
| MockControllerBase.OkParsed | src/MockApiServer/Controllers/MockControllerBase.cs:30 | a value that parses is answered Ok with the parsed value; one that does not is a BadRequest with the parser's message |
| MockControllerBase.Caught | src/MockApiServer/Controllers/MockControllerBase.cs:45-54 | FileNotFoundException is NotFound and every other exception BadRequest, with its message |
| MockControllerBase.GetExpectedResult | src/MockApiServer/Controllers/MockControllerBase.cs:23-55 | Ok exactly when the read succeeds, the value parses and there is no test case or all expected headers hold; the first failing header is a BadRequest; a value that does not parse, past the headers, is a BadRequest with the parser's message; NotFound exactly for a missing fixture; never an ObjectResult |
| MockControllerBase.ExpectationHitIsOk | src/MockApiServer/Controllers/MockControllerBase.cs:29-30 | an expectation hit answers Ok with exactly the payload set up |
| MockControllerBase.PresenceOnlyHeader | src/MockApiServer/Controllers/MockControllerBase.cs:36-38 | a header with a null value needs only to be present; an absent one gives the "not found in request [names]" message |
| MockControllerBase.HeaderNamesIgnoreCase | src/MockApiServer/Controllers/MockControllerBase.cs:36-39 | header names match case-insensitively |
| MockControllerBase.GraphQlRequestFromBody | src/MockApiServer/Controllers/MockControllerBase.cs:60-62 | the request is read exactly from a body that parses to a request with a non-empty query, and is that request; a null body is ArgumentNullException; a null request or empty query is InvalidOperation "Invalid GraphQLRequest:" with the body |
| MockControllerBase.GetGraphQlResult | src/MockApiServer/Controllers/MockControllerBase.cs:56-76 | a bad body is a BadRequest with its message; a failed read goes through the catch clauses (NotFound exactly for a missing file); a read that parses is exactly the ObjectResult of the parsed value; one that does not is a BadRequest; never Ok |
| MockData.TestCaseKey | src/MockApiServer/Services/MockDataService.cs:79 | the key exists exactly when method and path are present; otherwise NullReferenceException |
| MockData.GraphQlKey | src/MockApiServer/Services/MockDataService.cs:250-258 | the key exists exactly when query and operation name are present; a null query throws ArgumentNullException first; a null operation name then throws NullReferenceException |
| MockData.RestKeyStem | src/MockApiServer/Services/MockDataService.cs:236 | the key is its stem + ".json", and the stem names a file in the directory |
| MockData.ResolveFileName | src/MockApiServer/Services/MockDataService.cs:230-242 | success exactly when one file shares the key's stem, and it is that file; none is FileNotFound "Mock data not found: key" naming the key; several are InvalidOperation "More than one result found: " and the names joined by ',' in listing order |
| MockData.AmbiguityNamesEveryMatch | src/MockApiServer/Services/MockDataService.cs:239-240 | when the directory lists each match once, the ambiguity message names every match |
| MockData.ResponseAndTestCase | src/MockApiServer/Services/MockDataService.cs:60-68 | a success carries the test case the stored text parses to, exactly when it parses to a test case with a result; the text "null" is NullReferenceException and a null result the runtime binder's error |
| MockData.ReadResolved | src/MockApiServer/Services/MockDataService.cs:49-57 | ".razor" is rendered with the request's model; other extensions except ".testcase" answer the content; ".testcase" answers through `_getResponseAndTestCase`; only ".testcase" yields a test case |
| MockData.ReadFixture | src/MockApiServer/Services/MockDataService.cs:47-57 | FileNotFound exactly when no file shares the key's stem |
| MockData.TemplateModel | src/MockApiServer/Services/MockDataService.cs:219-223 | the template sees the caller's model, or a fresh one, with its template name set to the file's stem and every other property unchanged |
| MockData.TestCaseTemplateIgnoresRequest | src/MockApiServer/Services/MockDataService.cs:53-54 | a ".testcase" answer does not depend on the request's Razor model |
| MockData.StaticFileName | src/MockApiServer/Services/MockDataService.cs:89-90 | the corrected static name keeps the key up to its extension and ends in the dotted extension |
| MockData.StaticFileNameAsWritten | src/MockApiServer/Services/MockDataService.cs:82-90 | as written, the stem cut at its own last '.' followed by the dotted extension |
| MockData.WriteContent | src/MockApiServer/Services/MockDataService.cs:93-101 | a stored test case parses back to itself and a stored result to the result; a template is the string payload itself (null an empty file), and any other payload fails with the runtime binder's "best overloaded method match for WriteAllTextAsync" error |
| MockData.WriteTarget | src/MockApiServer/Services/MockDataService.cs:77-103 | the name is stem.testcase, else stem.razor, else the key when it already ends in the static extension or else `ChangeExtension(stem, extension)` as written, else the key; the content is WriteContent; it fails exactly for a null method or path, a static test case without an extension, or a template payload that is not a string or null |
| MockData.WrittenNameMatchesKey | src/MockApiServer/Services/MockDataService.cs:83-91 | every name WriteFile chooses is listed by the read's `stem.*` lookup, for static content while the stem holds no '.' |
| MockData.StaticFileNameIsFound | src/MockApiServer/Services/MockDataService.cs:89-90 | the corrected static name, `ChangeExtension(key, extension)`, is always listed by the read's lookup |
| MockData.StaticFileNameAsWrittenIsFound | src/MockApiServer/Services/MockDataService.cs:82-90 | as written, a stem without '.' keeps all of itself, so the static name is listed by the read's lookup |
| MockData.OtherTailIsNoVariant | src/MockApiServer/Services/MockDataService.cs:236 | `a.x` is not listed by `a.y.*` when x differs from y and is no longer |
| MockData.StaticFileNameAsWrittenIsLost | src/MockApiServer/Services/MockDataService.cs:82-90 | as written, a '.' in the path makes the static name lose the rest of the stem, and the read never lists it |
| MockData.StaticFileNameAsWrittenExample | src/MockApiServer/Services/MockDataService.cs:82-90 | GET api/v1.2/items with extension "txt" is stored as "get_api_v1.txt" and is not found |
| MockData.StoredVariantIsResolved | src/MockApiServer/Services/MockDataService.cs:236-241 | a written variant that is the only one listed is the one resolved |
| MockData.WrittenFixtureIsResolved | src/MockApiServer/Services/MockDataService.cs:77-103 | after a write, with no other variant stored (and, for static content, a stem without '.'), the read resolves to the written file |
| MockData.ReadOfStoredVariant | src/MockApiServer/Services/MockDataService.cs:47-55 | a read of the only variant `stem.ext` dispatches on ".ext" |
| MockData.WriteThenReadJson | src/MockApiServer.Tests/TestSetupControllerTests.cs:132-168 | a plain fixture reads back as the serialized result |
| MockData.WriteThenReadRazor | src/MockApiServer/Services/MockDataService.cs:85-101 | a string template reads back as that string rendered under its stem with the request's model |
| MockData.WriteThenReadTestCase | src/MockApiServer/Services/MockDataService.cs:83-84 | a stored test case reads back as its result's text, rendered with a fresh model when a template, together with the test case |
| MockData.StoredTestCaseAnswers | src/MockApiServer/Services/MockDataService.cs:60-68 | a serialized test case with a result answers with the result's text (rendered with a fresh model when a template) and itself |
| MockData.TwoVariantsAreAmbiguous | src/MockApiServer/Services/MockDataService.cs:239-240 | two variants of one fixture make every read fail with InvalidOperationException |
| MockData.DeleteThenReadFails | src/MockApiServer/Services/MockDataService.cs:121-126 | after deleting the resolved file the read is FileNotFound |
| MockData.MockDataService.constructor | src/MockApiServer/Services/MockDataService.cs:28-37 | the service starts on the working directory's files with empty registries |
| MockData.MockDataService.ReadExpectation | src/MockApiServer/Services/MockDataService.cs:243-249 | a registered key is counted and answered with its serialized result; an unknown key changes nothing |
| MockData.MockDataService.RegisterExpectation | src/MockApiServer/Services/MockDataService.cs:272-282 | a new key starts at count 0; a known key has its test case replaced and keeps its count |
| MockData.MockDataService.ConsumeExpectation | src/MockApiServer/Services/MockDataService.cs:259-267 | an unknown key gives 0; a known key gives its count and leaves both registries |
| MockData.MockDataService.ReadFile | src/MockApiServer/Services/MockDataService.cs:39-58 | a registered expectation answers first and is counted; otherwise the store's answer, with nothing changed |
| MockData.MockDataService.WriteFile | src/MockApiServer/Services/MockDataService.cs:77-103 | the file WriteTarget names (the static name as line 90 computes it) gets its content, overwriting; a failure, including a template payload that is not a string, writes nothing |
| MockData.MockDataService.WriteGraphQlFile | src/MockApiServer/Services/MockDataService.cs:105-111 | the serialized result is stored under the GraphQL key |
| MockData.MockDataService.GetPersistedFileNames | src/MockApiServer/Services/MockDataService.cs:113-119 | every file of the directory is listed |
| MockData.MockDataService.DeleteFile | src/MockApiServer/Services/MockDataService.cs:121-126 | exactly the resolved file is removed; resolution errors change nothing |
| MockData.MockDataService.DeleteFileNamed | src/MockApiServer/Services/MockDataService.cs:128-135 | the named file is removed, or FileNotFound "Invalid file: name" |
| MockData.MockDataService.SetupExpectation | src/MockApiServer/Services/MockDataService.cs:137-141 | the test case is registered under its key |
| MockData.MockDataService.SetupGraphQlExpectation | src/MockApiServer/Services/MockDataService.cs:142-146 | the GraphQL test case is registered under its key; on a missing query or operation name it fails with the key's exception and nothing changes |
| MockData.MockDataService.Expect | src/MockApiServer/Services/MockDataService.cs:148-152 | the reads since set-up are returned and the expectation removed; the count argument is not consulted |
| MockData.MockDataService.ExpectGraphQl | src/MockApiServer/Services/MockDataService.cs:154-158 | the same for a GraphQL expectation |
| MockData.MockDataService.GetExpectationKeys | src/MockApiServer/Services/MockDataService.cs:160-163 | the registered keys |
| MockData.MockDataService.ReadGraphQlFile | src/MockApiServer/Services/MockDataService.cs:165-174 | a registered expectation answers first and is counted; otherwise the exact file, or FileNotFound |
| MockData.ExpectationProtocol | src/MockApiServer.Tests/ExpectAndVerifyTests.cs:28-84 | set up, n reads, verify: the verification returns n (plus any earlier count) and a second one 0; fixtures untouched |
| FileService.SameKeyAsCurrentService | src/MockApiServer/Services/FileService.cs:89-104 | the earlier service's key equals the newer one's |
| FileService.ReadResult | src/MockApiServer/Services/FileService.cs:31-38 | success exactly when the exact key is stored, with its content; otherwise FileNotFound naming the key |
| FileService.JsonFileNames | src/MockApiServer/Services/FileService.cs:52-58 | exactly the stored names ending in ".json" |
| FileService.LastWriteWins | src/MockApiServer/Services/FileService.cs:46-50 | a later write to a key overwrites an earlier one |
| FileService.WrittenKeyIsListed | src/MockApiServer/Services/FileService.cs:46-58 | every written key is listed |
| FileService.MockDataService.constructor | src/MockApiServer/Services/FileService.cs:23-29 | the service starts on the working directory's files |
| FileService.MockDataService.ReadFile | src/MockApiServer/Services/FileService.cs:31-38 | only the exact key is read; a miss is "Mock data not found: key" |
| FileService.MockDataService.WriteFile | src/MockApiServer/Services/FileService.cs:46-50 | the serialized result is stored under the key; a null method or path throws and changes nothing |
| FileService.MockDataService.GetPersistedFileNames | src/MockApiServer/Services/FileService.cs:52-58 | the ".json" files only |
| FileService.MockDataService.DeleteFile | src/MockApiServer/Services/FileService.cs:60-68 | exactly the key is removed, or FileNotFoundException with no name and nothing removed |
| FileService.WriteReadDelete | src/MockApiServer.Tests/TestSetupControllerTests.cs:132-175 | write, read back the serialization, delete; then read and delete both fail |

## Left out

- File I/O is a map from file name to content. Full paths (`Path.Combine` with the working directory) and the working directory's own location are not modelled, so messages carry only the file name.
- MD5, UTF-8 encoding, Newtonsoft.Json, `ToString` of a payload, RazorLight and the directory's listing order are function values, not implementations.
- String comparisons and lower-casing are ordinal and ASCII. Culture-sensitive `ToLower`, `StartsWith(string)` and `EndsWith(string)` are not modelled.
- Read counts are unbounded `nat`; the 32-bit overflow of `int` after 2^31 reads is not modelled.
- Asynchrony and concurrent requests are not modelled; every operation is atomic.
- MockData.RestKeyStem: a method containing '/' (which would put a directory into the key) is excluded by `NoSlash`.
- Wildcard characters ('*', '?') inside a key, which would widen `GetFiles`, are not modelled.
- MockData.MockDataService.constructor: `_validate`'s InvalidOperationException and DirectoryNotFoundException are a precondition rather than an error result.
- MockData.RazorResult: `_razorResult` sets `TemplateName` on the caller's own Razor model object; the model renders with an updated copy and does not capture that side effect.
- A null `ExpectedHeaders` dictionary is not modelled; the list is always present.
- `GetHomeScreen` of both services reads `index.html` from the web root; it is pure I/O.
- Routing, `Startup.cs`, the set-up controller's endpoints and its "Expected: n but executed: m" comparison are not part of this model; `ExpectationProtocol` states the count the comparison receives.
- src/Services/FileService.cs is not part of this model: it snapshots a directory and looks a name up, which is an I/O wrapper.
- RequestFormHelpers.cs is not part of this model: it is LINQ over ASP.NET form collections.
- MockData.MockDataService.GetPersistedFileNames: it returns the set of names, so the order in which the directory lists the files is not kept.
- FileService.MockDataService.GetPersistedFileNames: likewise a set, without the listing order.
- KeyCodec.FileNameFromUrl and FileService.LegacyFileName carry no contract of their own; `KeyCodec.RestKeyShape`, the query lemmas and `FileService.SameKeyAsCurrentService` state what they compute.
- MockData.WrittenNameMatchesKey: for static content it requires a stem without '.', because as written a '.' in the stem loses the file (see "## Findings").
- MockData.WrittenFixtureIsResolved: for static content it requires a stem without '.', for the same reason.
- MockData.WriteThenReadTestCase: it assumes only the one round trip it uses (`parseTestCase` of `serializeTestCase`), not the full `Lawful` record.

## Findings

| source | as written | input that shows it | evidently intended | confidence | as-written member | corrected member |
|---|---|---|---|---|---|---|
| src/MockApiServer/Services/MockDataService.cs:90 | static content is stored as `Path.ChangeExtension(fileNameWithoutExtension, extension)`, which cuts the stem at a '.' inside the request path | GET `api/v1.2/items`, static extension "txt": stored as `get_api_v1.txt`, while the read lists `get_api_v1.2_items.*` and reports "Mock data not found" | `Path.ChangeExtension(fileName, extension)`, i.e. `get_api_v1.2_items.txt`, which the read finds | high, not executed | MockData.StaticFileNameAsWrittenIsLost | MockData.StaticFileNameIsFound |
