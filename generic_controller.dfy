/**
 * The catch-all controller of the first generation (src/Controllers): a request is
 * answered from the JSON file `method_path-with-dashes.json`.
 */
module GenericController {
  import opened Wrappers
  import opened Text
  import opened Models
  import StringHelpers

  /**
   * `GetResponseFile`: the file that answers `httpMethod` on `path`, or None for "/".
   * The result of `ReplaceDoubleSlashes` is discarded in the source, so it has no
   * effect here either.
   */
  function GetResponseFile(httpMethod: string, path: string): (r: Option<string>)
    ensures r.None? <==> path == "/"
    ensures r.Some? ==> StartsWith(r.value, Lower(httpMethod) + "_") && EndsWith(r.value, ".json")
  {
    if path == "/" then None
    else
      var path1 := StringHelpers.Remove(path, "/api/");
      var path2 := StringHelpers.RemoveTrailing(StringHelpers.RemoveLeading(path1, '/'), '/');
      Some(Lower(httpMethod) + "_" + ReplaceChar(path2, '/', '-') + ".json")
  }

  /**
   * For a path that does not start with "/api/", the name is built from the path
   * with one leading and one trailing '/' dropped and each inner '/' as '-'; the
   * path keeps its letter case, only the httpMethod is lower-cased.
   */
  lemma NameFromPlainPath(httpMethod: string, inner: string)
    requires !StartsWith("/" + inner + "/", "/api/")
    ensures GetResponseFile(httpMethod, "/" + inner + "/") == Some(Lower(httpMethod) + "_" + ReplaceChar(inner, '/', '-') + ".json")
  {
    var p := "/" + inner + "/";
    assert p != "/";
    assert p[1..] == inner + "/";
    assert (inner + "/")[..|inner|] == inner;
  }

  /**
   * The ordinary request path "/" + inner, outside "/api/" and without a trailing
   * '/': the name is inner with each '/' as '-'.
   */
  lemma NameFromRootedPath(httpMethod: string, inner: string)
    requires inner != "" && !EndsWith(inner, "/")
    requires !StartsWith("/" + inner, "/api/")
    ensures GetResponseFile(httpMethod, "/" + inner) == Some(Lower(httpMethod) + "_" + ReplaceChar(inner, '/', '-') + ".json")
  {
    var p := "/" + inner;
    assert p != "/" by { assert |p| > 1; }
    assert p[1..] == inner;
    assert inner[|inner| - 1] != '/' by {
      assert inner[|inner| - 1..] != "/";
    }
  }

  /**
   * A path under "/api/" is named by what follows the prefix; that part keeps its
   * letter case, only the method is lower-cased.
   */
  lemma NameFromApiPath(httpMethod: string, rest: string)
    requires !Contains(rest, "/api/")
    requires !StartsWith(rest, "/") && !EndsWith(rest, "/")
    ensures GetResponseFile(httpMethod, "/api/" + rest) == Some(Lower(httpMethod) + "_" + ReplaceChar(rest, '/', '-') + ".json")
  {
    var p := "/api/" + rest;
    assert p[..5] == "/api/" && p[5..] == rest;
    assert p != "/";
    ReplaceAllWithoutOccurrence(rest, "/api/", "");
    assert StringHelpers.Remove(p, "/api/") == rest;
  }

  /** The discarded `ReplaceDoubleSlashes` lets a doubled slash through as "--". */
  lemma DoubledSlashSurvives()
    ensures GetResponseFile("POST", "/orders//7/") == Some("post_orders--7.json")
  {
    DoubledSlashPath();
    NameFromPlainPath("POST", "orders//7");
    PostLowered();
    DoubledSlashDashed();
  }

  /** The path of the example, outside "/api/". */
  lemma DoubledSlashPath()
    ensures "/" + "orders//7" + "/" == "/orders//7/"
    ensures !StartsWith("/" + "orders//7" + "/", "/api/")
    ensures "post" + "_" + "orders--7" + ".json" == "post_orders--7.json"
  {
    assert ("/" + "orders//7" + "/")[1] != "/api/"[1];
  }

  /** The example's method, lower-cased. */
  lemma PostLowered()
    ensures Lower("POST") == "post"
  {
    assert LowerChar('P') == 'p' && LowerChar('O') == 'o' && LowerChar('S') == 's' && LowerChar('T') == 't';
  }

  /** The example's inner path with each '/' as '-'. */
  lemma DoubledSlashDashed()
    ensures ReplaceChar("orders//7", '/', '-') == "orders--7"
  {
  }

  /** What the controller answers. */
  datatype GenericResult = HomeScreen | NotFound | Ok(response: Json)

  /**
   * `GetResponseFromFile`: the home screen for "/", otherwise the parsed content of
   * the file, or NotFound when the file service returns null for it. `readFile` is
   * the file service's answer per file name.
   */
  function GetResponseFromFile(httpMethod: string, path: string, readFile: string -> Option<Json>): (r: GenericResult)
    ensures r.HomeScreen? <==> path == "/"
    ensures r.NotFound? <==> path != "/" && readFile(GetResponseFile(httpMethod, path).value).None?
    ensures r.Ok? ==> r.response == readFile(GetResponseFile(httpMethod, path).value).value
  {
    match GetResponseFile(httpMethod, path)
    case None => HomeScreen
    case Some(file) =>
      match readFile(file)
      case None => NotFound
      case Some(response) => Ok(response)
  }
}
