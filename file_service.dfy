/**
 * The earlier MockDataService (src/MockApiServer/Services/FileService.cs): one
 * ".json" file per request, read and deleted by its exact name, with no
 * expectations, templates or static content.
 */
module FileService {
  import opened Wrappers
  import opened Text
  import opened Models
  import opened Platform
  import opened KeyCodec

  /**
   * `_getFileNameFromUrl` of the earlier service, step by step: drop one leading
   * '/', drop one leading '?' of a non-empty query, hash what is left unless it
   * is empty.
   */
  function LegacyFileName(md5: string -> Digest, httpMethod: string, url: string, queryString: Option<string>): string {
    var url := if StartsWith(url, "/") then url[1..] else url;
    var queryString :=
      if queryString.Some? && queryString.value != "" && StartsWith(queryString.value, "?")
      then Some(queryString.value[1..]) else queryString;
    var queryStringHash :=
      if queryString.Some? && queryString.value != ""
      then "_" + ReplaceAll(BitConverterString(md5(queryString.value)), "-", "")
      else "";
    Lower(httpMethod) + "_" + ReplaceChar(Lower(url), '/', '_') + queryStringHash + ".json"
  }

  /** Both generations of the service store a request under the same key. */
  lemma SameKeyAsCurrentService(md5: string -> Digest, httpMethod: string, url: string, queryString: Option<string>)
    ensures LegacyFileName(md5, httpMethod, url, queryString) == FileNameFromUrl(md5, httpMethod, url, queryString)
  {
    var q' :=
      if queryString.Some? && queryString.value != "" && StartsWith(queryString.value, "?")
      then Some(queryString.value[1..]) else queryString;
    SameQuerySegment(md5, queryString, q');
  }

  /** The earlier service's "_HASH" segment is the current one's. */
  lemma SameQuerySegment(md5: string -> Digest, queryString: Option<string>, q': Option<string>)
    requires q' == if queryString.Some? && queryString.value != "" && StartsWith(queryString.value, "?")
                   then Some(queryString.value[1..]) else queryString
    ensures (if q'.Some? && q'.value != "" then "_" + ReplaceAll(BitConverterString(md5(q'.value)), "-", "") else "")
            == QuerySegment(md5, queryString)
  {
    if q'.Some? && q'.value != "" {
      assert TrimmedQuery(queryString) == q';
      assert ReplaceAll(BitConverterString(md5(q'.value)), "-", "") == DigestHex(md5, q'.value);
    } else {
      assert TrimmedQuery(queryString).None?;
    }
  }

  /** `ReadFile` on a key: the exact file's text, or FileNotFoundException naming the key. */
  function ReadResult(files: map<string, string>, fileName: string): (r: Result<string, Exception>)
    ensures r.Success? <==> fileName in files
    ensures r.Success? ==> r.value == files[fileName]
    ensures r.Failure? ==> r.error.FileNotFound? && r.error.fileName == Some(fileName)
  {
    if fileName !in files then Failure(FileNotFound("Mock data not found: " + fileName, Some(fileName)))
    else Success(files[fileName])
  }

  /** `GetFiles("*.json")`: the names ending in ".json". */
  function JsonFileNames(files: map<string, string>): (names: set<string>)
    ensures names <= files.Keys
    ensures forall n :: n in names <==> n in files && EndsWith(n, ".json")
  {
    set n | n in files && EndsWith(n, ".json")
  }

  /** What a write stores, under the exact key: later writes overwrite earlier ones. */
  lemma LastWriteWins(files: map<string, string>, fileName: string, first: string, second: string)
    ensures ReadResult(files[fileName := first][fileName := second], fileName) == Success(second)
  {
    assert files[fileName := first][fileName := second] == files[fileName := second];
  }

  /** Every key the service writes is listed by `GetPersistedFileNames`. */
  lemma WrittenKeyIsListed(md5: string -> Digest, files: map<string, string>, httpMethod: string, url: string, queryString: Option<string>, content: string)
    ensures LegacyFileName(md5, httpMethod, url, queryString) in JsonFileNames(files[LegacyFileName(md5, httpMethod, url, queryString) := content])
  {
    SameKeyAsCurrentService(md5, httpMethod, url, queryString);
    RestKeyShape(md5, httpMethod, url, queryString);
  }

  class MockDataService {
    /** MD5 and Newtonsoft.Json. */
    const lib: Library
    /** The `mockData` directory: file name -> content. */
    var files: map<string, string>

    /** `_validate` throws unless the working directory is named and exists: it is a precondition here. */
    constructor (lib: Library, workingDirectory: string, fileSystem: map<string, map<string, string>>)
      requires workingDirectory != "" && workingDirectory in fileSystem
      ensures this.lib == lib && files == fileSystem[workingDirectory]
    {
      this.lib := lib;
      files := fileSystem[workingDirectory];
    }

    /** `ReadFile`: only the exact key is read; there is no wildcard lookup and no expectation. */
    method ReadFile(httpMethod: string, url: string, queryString: Option<string>) returns (r: Result<string, Exception>)
      ensures r == ReadResult(files, FileNameFromUrl(lib.md5, httpMethod, url, queryString))
      ensures r.Failure? ==> r.error.Message() == "Mock data not found: " + FileNameFromUrl(lib.md5, httpMethod, url, queryString)
    {
      var fileName := LegacyFileName(lib.md5, httpMethod, url, queryString);
      SameKeyAsCurrentService(lib.md5, httpMethod, url, queryString);
      if fileName !in files {
        return Failure(FileNotFound("Mock data not found: " + fileName, Some(fileName)));
      }
      r := Success(files[fileName]);
    }

    /** `WriteFile`: the serialized result under the key; a null method or path throws NullReferenceException. */
    method WriteFile(expectedResult: ExpectedTestResult) returns (r: Outcome<Exception>)
      modifies this`files
      ensures expectedResult.httpMethod.None? || expectedResult.requestPath.None? ==>
        r == Fail(NullReference) && files == old(files)
      ensures expectedResult.httpMethod.Some? && expectedResult.requestPath.Some? ==>
        var key := FileNameFromUrl(lib.md5, expectedResult.httpMethod.value, expectedResult.requestPath.value, expectedResult.queryString);
        r == Pass && files == old(files)[key := lib.serialize(expectedResult.expectedResult)]
    {
      if expectedResult.httpMethod.None? || expectedResult.requestPath.None? {
        return Fail(NullReference);
      }
      var httpMethod, url := expectedResult.httpMethod.value, expectedResult.requestPath.value;
      var fileName := LegacyFileName(lib.md5, httpMethod, url, expectedResult.queryString);
      SameKeyAsCurrentService(lib.md5, httpMethod, url, expectedResult.queryString);
      files := files[fileName := lib.serialize(expectedResult.expectedResult)];
      r := Pass;
    }

    /** `GetPersistedFileNames`: the ".json" files only. */
    method GetPersistedFileNames() returns (names: set<string>)
      ensures names == JsonFileNames(files)
    {
      names := set n | n in files && EndsWith(n, ".json");
    }

    /** `DeleteFile`: remove the exact key, or throw a FileNotFoundException with no file name. */
    method DeleteFile(httpMethod: string, path: string, queryString: Option<string>) returns (r: Outcome<Exception>)
      modifies this`files
      ensures var key := FileNameFromUrl(lib.md5, httpMethod, path, queryString);
        if key in old(files) then r == Pass && files == old(files) - {key}
        else r == Fail(FileNotFound("Unable to find the specified file.", None)) && files == old(files)
    {
      var filePath := LegacyFileName(lib.md5, httpMethod, path, queryString);
      SameKeyAsCurrentService(lib.md5, httpMethod, path, queryString);
      if filePath !in files {
        return Fail(FileNotFound("Unable to find the specified file.", None));
      }
      files := files - {filePath};
      r := Pass;
    }
  }

  /**
   * The set-up round trip: write a result, read it back as its serialization,
   * delete it, and the next read and the next delete both fail.
   */
  method WriteReadDelete(service: MockDataService, expected: ExpectedTestResult)
    returns (read: Result<string, Exception>, readAfterDelete: Result<string, Exception>, secondDelete: Outcome<Exception>)
    requires expected.httpMethod.Some? && expected.requestPath.Some?
    modifies service`files
    ensures read == Success(service.lib.serialize(expected.expectedResult))
    ensures readAfterDelete.Failure? && readAfterDelete.error.FileNotFound?
    ensures secondDelete == Fail(FileNotFound("Unable to find the specified file.", None))
    ensures var key := FileNameFromUrl(service.lib.md5, expected.httpMethod.value, expected.requestPath.value, expected.queryString);
      service.files == old(service.files) - {key}
  {
    var httpMethod, path := expected.httpMethod.value, expected.requestPath.value;
    var _ := service.WriteFile(expected);
    read := service.ReadFile(httpMethod, path, expected.queryString);
    var _ := service.DeleteFile(httpMethod, path, expected.queryString);
    readAfterDelete := service.ReadFile(httpMethod, path, expected.queryString);
    secondDelete := service.DeleteFile(httpMethod, path, expected.queryString);
  }
}
