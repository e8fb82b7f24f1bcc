/** The string extension methods of MockApiServer.Helpers.StringHelpers. */
module StringHelpers {
  import opened Text

  /**
   * `Remove(source, original, replace = "")`: when `source` starts with
   * `original`, EVERY occurrence of `original` is replaced, not only the prefix.
   * .NET's `Replace` throws on an empty `original`.
   */
  function Remove(source: string, original: string, replace: string := ""): (r: string)
    requires |original| > 0
    ensures !StartsWith(source, original) ==> r == source
    ensures StartsWith(source, original) ==> r == replace + ReplaceAll(source[|original|..], original, replace)
  {
    if StartsWith(source, original) then ReplaceAll(source, original, replace) else source
  }

  /** With the default empty replacement, `Remove` never lengthens the string. */
  lemma RemoveNeverLengthens(source: string, original: string)
    requires |original| > 0
    ensures |Remove(source, original)| <= |source|
  {
    ReplaceAllShrinks(source, original, "");
  }

  /**
   * Once the prefix matches, the rest of the string goes through the same
   * replacement: occurrences past the prefix are replaced too.
   */
  lemma RemoveReplacesEveryOccurrence(original: string, rest: string, replace: string)
    requires |original| > 0
    ensures Remove(original + rest, original, replace) == replace + ReplaceAll(rest, original, replace)
  {
    assert (original + rest)[..|original|] == original;
    assert (original + rest)[|original|..] == rest;
  }

  /** The instance: "/api/v1/api/x" loses both "/api/". */
  lemma RemoveInnerOccurrenceExample()
    ensures Remove("/api/v1/api/x", "/api/") == "v1x"
  {
    var pat := "/api/";
    assert "/api/x"[..5] == pat && "/api/x"[5..] == "x";
    assert ReplaceAll("/api/x", pat, "") == "x";
    assert "1/api/x"[..5][0] != pat[0] && "1/api/x"[1..] == "/api/x";
    assert ReplaceAll("1/api/x", pat, "") == "1x";
    assert "v1/api/x"[..5][0] != pat[0] && "v1/api/x"[1..] == "1/api/x";
    assert ReplaceAll("v1/api/x", pat, "") == "v1x";
    assert "/api/v1/api/x"[..5] == pat && "/api/v1/api/x"[5..] == "v1/api/x";
  }

  /** A source that does not start with `original` is left alone, whatever occurs in it later. */
  lemma RemoveNeedsPrefix(source: string, original: string, replace: string)
    requires |original| > 0 && !StartsWith(source, original)
    ensures Remove(source, original, replace) == source
  {
  }

  /** The instance: "a/api/" holds "/api/", but not as a prefix, and is unchanged. */
  lemma RemoveNeedsPrefixExample()
    ensures Remove("a/api/", "/api/") == "a/api/"
  {
    assert "a/api/"[..5][0] != "/api/"[0];
  }

  /** `RemoveTrailing`: one final `entity` dropped, if there is one. */
  function RemoveTrailing(source: string, entity: char): (r: string)
    ensures |source| > 0 && source[|source| - 1] == entity ==> r + [entity] == source
    ensures !(|source| > 0 && source[|source| - 1] == entity) ==> r == source
  {
    if |source| > 0 && source[|source| - 1] == entity then source[..|source| - 1] else source
  }

  /** `RemoveLeading`: one first `entity` dropped, if there is one. */
  function RemoveLeading(source: string, entity: char): (r: string)
    ensures |source| > 0 && source[0] == entity ==> [entity] + r == source
    ensures !(|source| > 0 && source[0] == entity) ==> r == source
  {
    if |source| > 0 && source[0] == entity then source[1..] else source
  }

  /** Only one character is removed: "//" loses exactly one slash at either end. */
  lemma RemoveOnlyOne(s: string)
    ensures RemoveTrailing(s + "//", '/') == s + "/"
    ensures RemoveLeading("//" + s, '/') == "/" + s
  {
    assert (s + "//")[..|s| + 1] == s + "/";
    assert ("//" + s)[1..] == "/" + s;
  }

  /** `ReplaceDoubleSlashes`: each non-overlapping "//", left to right, becomes "/". */
  function ReplaceDoubleSlashes(source: string): (r: string)
    ensures |r| <= |source|
  {
    ReplaceAllShrinks(source, "//", "/");
    ReplaceAll(source, "//", "/")
  }

  /** Strings without "//" are unchanged. */
  lemma ReplaceDoubleSlashesKeepsSingles(source: string)
    requires !Contains(source, "//")
    ensures ReplaceDoubleSlashes(source) == source
  {
    ReplaceAllWithoutOccurrence(source, "//", "/");
  }

  /** A single pass: "///" becomes "//", which a second pass turns into "/". */
  lemma ReplaceDoubleSlashesIsOnePass()
    ensures ReplaceDoubleSlashes("///") == "//"
    ensures ReplaceDoubleSlashes(ReplaceDoubleSlashes("///")) == "/"
  {
    assert "///"[..2] == "//" && "///"[2..] == "/";
    assert "//"[..2] == "//" && "//"[2..] == "";
  }
}
