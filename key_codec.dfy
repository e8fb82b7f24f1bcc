/**
 * The fixture key: the file name a request or a GraphQL operation is stored under
 * (`_getFileNameFromUrl`, `_getGraphQlFileName` and `_getMinifiedJsonString` of
 * MockDataService).
 */
module KeyCodec {
  import opened Wrappers
  import opened Text
  import opened Platform

  const HexDigits := "0123456789ABCDEF"

  predicate IsUpperHexDigit(c: char) {
    c in HexDigits
  }

  /** A byte as `BitConverter` writes it: two upper-case hex digits. */
  function ByteHex(b: byte): (r: string)
    ensures |r| == 2 && IsUpperHexDigit(r[0]) && IsUpperHexDigit(r[1])
  {
    [HexDigits[b as int / 16], HexDigits[b as int % 16]]
  }

  /** `BitConverter.ToString(bytes)`: the bytes in hex, separated by '-'. */
  function BitConverterString(bytes: seq<byte>): string {
    if |bytes| == 0 then ""
    else if |bytes| == 1 then ByteHex(bytes[0])
    else ByteHex(bytes[0]) + "-" + BitConverterString(bytes[1..])
  }

  /** The bytes in hex with no separator: the reference rendering. */
  function Hex(bytes: seq<byte>): (r: string)
    ensures |r| == 2 * |bytes|
  {
    if |bytes| == 0 then "" else ByteHex(bytes[0]) + Hex(bytes[1..])
  }

  lemma {:induction false} HexIsUpperHex(bytes: seq<byte>)
    ensures forall i :: 0 <= i < |Hex(bytes)| ==> IsUpperHexDigit(Hex(bytes)[i])
  {
    if |bytes| > 0 {
      HexIsUpperHex(bytes[1..]);
      var h := ByteHex(bytes[0]);
      forall i | 0 <= i < |Hex(bytes)| ensures IsUpperHexDigit(Hex(bytes)[i]) {
        if i >= 2 {
          assert Hex(bytes)[i] == Hex(bytes[1..])[i - 2];
        }
      }
    }
  }

  /** The value of an upper-case hex digit. */
  function DigitValue(c: char): int {
    if '0' <= c <= '9' then c as int - '0' as int else c as int - 'A' as int + 10
  }

  /** Reading a digit back gives its index in `HexDigits`, so the digits are distinct. */
  lemma DigitValueOfDigit(i: int)
    requires 0 <= i < 16
    ensures DigitValue(HexDigits[i]) == i
  {
  }

  lemma ByteHexInjective(a: byte, b: byte)
    requires ByteHex(a) == ByteHex(b)
    ensures a == b
  {
    var ha, la := a as int / 16, a as int % 16;
    var hb, lb := b as int / 16, b as int % 16;
    assert HexDigits[ha] == HexDigits[hb] && HexDigits[la] == HexDigits[lb];
    DigitValueOfDigit(ha);
    DigitValueOfDigit(hb);
    DigitValueOfDigit(la);
    DigitValueOfDigit(lb);
  }

  /** Distinct byte strings of the same length render as distinct hex. */
  lemma {:induction false} HexInjective(a: seq<byte>, b: seq<byte>)
    requires Hex(a) == Hex(b)
    ensures a == b
  {
    if |a| > 0 {
      assert |b| > 0;
      assert Hex(a)[..2] == ByteHex(a[0]) && Hex(b)[..2] == ByteHex(b[0]);
      ByteHexInjective(a[0], b[0]);
      assert Hex(a)[2..] == Hex(a[1..]) && Hex(b)[2..] == Hex(b[1..]);
      HexInjective(a[1..], b[1..]);
    }
  }

  /** Deleting the '-' separators from `BitConverter.ToString` leaves the plain hex. */
  lemma {:induction false} DashesRemovedIsHex(bytes: seq<byte>)
    ensures ReplaceAll(BitConverterString(bytes), "-", "") == Hex(bytes)
  {
    ReplaceAllSingleChar(BitConverterString(bytes), '-');
    DashesDeletedIsHex(bytes);
  }

  lemma {:induction false} ByteHexHasNoDash(b: byte)
    ensures RemoveChar(ByteHex(b), '-') == ByteHex(b)
  {
    var h := ByteHex(b);
    assert h[0] != '-' && h[1] != '-';
    assert h[1..][1..] == [];
    assert RemoveChar(h[1..], '-') == [h[1]] + RemoveChar(h[1..][1..], '-');
  }

  lemma {:induction false} DashesDeletedIsHex(bytes: seq<byte>)
    ensures RemoveChar(BitConverterString(bytes), '-') == Hex(bytes)
  {
    if |bytes| == 1 {
      ByteHexHasNoDash(bytes[0]);
      assert Hex(bytes[1..]) == "";
    } else if |bytes| > 1 {
      var h := ByteHex(bytes[0]);
      RemoveCharAppend(h + "-", BitConverterString(bytes[1..]), '-');
      RemoveCharAppend(h, "-", '-');
      ByteHexHasNoDash(bytes[0]);
      DashesDeletedIsHex(bytes[1..]);
    }
  }

  /** `BitConverter.ToString(md5(text)).Replace("-", "")`: 32 upper-case hex digits that determine the digest. */
  function DigestHex(md5: string -> Digest, text: string): (r: string)
    ensures r == Hex(md5(text)) && |r| == 32
  {
    DashesRemovedIsHex(md5(text));
    ReplaceAll(BitConverterString(md5(text)), "-", "")
  }

  /** The query string as hashed: one leading '?' dropped; None for null, empty or a lone "?". */
  function TrimmedQuery(queryString: Option<string>): Option<string> {
    match queryString
    case None => None
    case Some(q) =>
      var q' := if |q| > 0 && q[0] == '?' then q[1..] else q;
      if |q'| == 0 then None else Some(q')
  }

  /** The "_HASH" segment, empty when there is no query to hash. */
  function QuerySegment(md5: string -> Digest, queryString: Option<string>): string {
    match TrimmedQuery(queryString)
    case None => ""
    case Some(q) => "_" + DigestHex(md5, q)
  }

  /** The request path as it appears in the key: one leading '/' dropped, lower-cased, '/' turned to '_'. */
  function PathPart(url: string): string {
    var url' := if StartsWith(url, "/") then url[1..] else url;
    ReplaceChar(Lower(url'), '/', '_')
  }

  /** `_getFileNameFromUrl`: `method_path[_HASH].json`. */
  function FileNameFromUrl(md5: string -> Digest, httpMethod: string, url: string, queryString: Option<string>): string {
    Lower(httpMethod) + "_" + PathPart(url) + QuerySegment(md5, queryString) + ".json"
  }

  /** `_getMinifiedJsonString`: `Regex.Replace(s, @"\s+", "")`, every white-space character deleted. */
  function Minify(s: string): (r: string)
    ensures forall i :: 0 <= i < |r| ==> !IsWhiteSpace(r[i])
    ensures |r| <= |s|
  {
    if |s| == 0 then ""
    else if IsWhiteSpace(s[0]) then Minify(s[1..])
    else [s[0]] + Minify(s[1..])
  }

  /** `_getGraphQlFileName`: `operation_HASH.graphql`, the hash over the minified query. */
  function GraphQlFileName(md5: string -> Digest, operationName: string, query: string): (r: string)
    ensures StartsWith(r, Lower(operationName) + "_") && EndsWith(r, ".graphql")
    ensures |r| == |operationName| + 1 + 32 + 8
    ensures r[|operationName| + 1..|operationName| + 33] == Hex(md5(Minify(query)))
  {
    var head := Lower(operationName) + "_";
    var r := head + DigestHex(md5, Minify(query)) + ".graphql";
    assert r[..|head|] == head;
    assert r[|r| - 8..] == ".graphql";
    assert r[|head|..|head| + 32] == DigestHex(md5, Minify(query));
    r
  }

  // ---------------------------------------------------------------------------
  // Properties of the REST key
  // ---------------------------------------------------------------------------

  /**
   * The key is the lower-cased method, '_', the path with its separators turned to
   * '_', the optional hash segment and ".json"; outside the method it holds no '/',
   * so it names a file directly in the data directory.
   */
  lemma RestKeyShape(md5: string -> Digest, httpMethod: string, url: string, queryString: Option<string>)
    ensures var key := FileNameFromUrl(md5, httpMethod, url, queryString);
      && StartsWith(key, Lower(httpMethod) + "_")
      && EndsWith(key, ".json")
      && forall i :: |httpMethod| <= i < |key| ==> key[i] != '/'
  {
    var head, path, seg := Lower(httpMethod) + "_", PathPart(url), QuerySegment(md5, queryString);
    var key := head + path + seg + ".json";
    assert FileNameFromUrl(md5, httpMethod, url, queryString) == key;
    QuerySegmentHasNoSlash(md5, queryString);
    assert key[..|head|] == head;
    assert key[|key| - 5..] == ".json";
    forall i | |httpMethod| <= i < |key| ensures key[i] != '/' {
      if i == |httpMethod| {
        assert key[i] == '_';
      } else if i < |head| + |path| {
        assert key[i] == path[i - |head|];
      } else if i < |head| + |path| + |seg| {
        assert key[i] == seg[i - |head| - |path|];
      } else {
        assert key[i] == ".json"[i - |head| - |path| - |seg|];
      }
    }
  }

  /** The hash segment is '_' and hex digits: it holds no '/'. */
  lemma QuerySegmentHasNoSlash(md5: string -> Digest, queryString: Option<string>)
    ensures forall i :: 0 <= i < |QuerySegment(md5, queryString)| ==> QuerySegment(md5, queryString)[i] != '/'
  {
    if TrimmedQuery(queryString).Some? {
      var hex := Hex(md5(TrimmedQuery(queryString).value));
      HexIsUpperHex(md5(TrimmedQuery(queryString).value));
      assert QuerySegment(md5, queryString) == "_" + hex;
      forall i | 0 <= i < |"_" + hex| ensures ("_" + hex)[i] != '/' {
        if i > 0 { assert ("_" + hex)[i] == hex[i - 1]; }
      }
    }
  }

  /** A leading '?' on the query string does not change the key. */
  lemma QuestionMarkIgnored(md5: string -> Digest, httpMethod: string, url: string, q: string)
    requires !StartsWith(q, "?")
    ensures FileNameFromUrl(md5, httpMethod, url, Some("?" + q)) == FileNameFromUrl(md5, httpMethod, url, Some(q))
  {
    assert ("?" + q)[1..] == q;
  }

  /** A null, empty or lone "?" query adds no segment: the key is `method_path.json`. */
  lemma EmptyQueryAddsNothing(md5: string -> Digest, httpMethod: string, url: string)
    ensures FileNameFromUrl(md5, httpMethod, url, None) == Lower(httpMethod) + "_" + PathPart(url) + ".json"
    ensures FileNameFromUrl(md5, httpMethod, url, Some("")) == FileNameFromUrl(md5, httpMethod, url, None)
    ensures FileNameFromUrl(md5, httpMethod, url, Some("?")) == FileNameFromUrl(md5, httpMethod, url, None)
  {
  }

  /** A non-empty query adds "_" and the 32 upper-case hex digits of its MD5. */
  lemma QueryAddsDigest(md5: string -> Digest, httpMethod: string, url: string, q: string)
    requires q != "" && !StartsWith(q, "?")
    ensures FileNameFromUrl(md5, httpMethod, url, Some(q)) == Lower(httpMethod) + "_" + PathPart(url) + "_" + Hex(md5(q)) + ".json"
  {
    assert TrimmedQuery(Some(q)) == Some(q);
    assert QuerySegment(md5, Some(q)) == "_" + Hex(md5(q));
  }

  /** One leading '/' and the letter case of method and path do not matter; the query's case does. */
  lemma CaseAndLeadingSlashIgnored(md5: string -> Digest, httpMethod: string, url: string, queryString: Option<string>)
    requires !StartsWith(url, "/")
    ensures FileNameFromUrl(md5, httpMethod, "/" + url, queryString) == FileNameFromUrl(md5, httpMethod, url, queryString)
    ensures FileNameFromUrl(md5, Lower(httpMethod), Lower(url), queryString) == FileNameFromUrl(md5, httpMethod, url, queryString)
  {
    assert ("/" + url)[1..] == url;
    LowerIdempotent(httpMethod);
    LowerIdempotent(url);
  }

  /** Same method and path, queries with different digests: different keys. */
  lemma DistinctDigestsDistinctKeys(md5: string -> Digest, httpMethod: string, url: string, q1: string, q2: string)
    requires q1 != "" && !StartsWith(q1, "?") && q2 != "" && !StartsWith(q2, "?")
    requires md5(q1) != md5(q2)
    ensures FileNameFromUrl(md5, httpMethod, url, Some(q1)) != FileNameFromUrl(md5, httpMethod, url, Some(q2))
  {
    var prefix := Lower(httpMethod) + "_" + PathPart(url) + "_";
    QueryAddsDigest(md5, httpMethod, url, q1);
    QueryAddsDigest(md5, httpMethod, url, q2);
    if prefix + Hex(md5(q1)) + ".json" == prefix + Hex(md5(q2)) + ".json" {
      MiddleEqual(prefix, Hex(md5(q1)), Hex(md5(q2)), ".json");
      HexInjective(md5(q1), md5(q2));
    }
  }

  lemma MiddleEqual(prefix: string, a: string, b: string, suffix: string)
    requires |a| == |b| && prefix + a + suffix == prefix + b + suffix
    ensures a == b
  {
    assert a == (prefix + a + suffix)[|prefix|..|prefix| + |a|];
    assert b == (prefix + b + suffix)[|prefix|..|prefix| + |b|];
  }

  // ---------------------------------------------------------------------------
  // Properties of the GraphQL key
  // ---------------------------------------------------------------------------

  lemma {:induction false} MinifyAppend(a: string, b: string)
    ensures Minify(a + b) == Minify(a) + Minify(b)
  {
    if |a| > 0 {
      assert (a + b)[1..] == a[1..] + b;
      MinifyAppend(a[1..], b);
    } else {
      assert a + b == b;
    }
  }

  lemma {:induction false} MinifyBlank(w: string)
    requires IsBlank(w)
    ensures Minify(w) == ""
  {
    if |w| > 0 {
      MinifyBlank(w[1..]);
    }
  }

  lemma {:induction false} MinifyIdempotent(s: string)
    ensures Minify(Minify(s)) == Minify(s)
  {
    if |s| > 0 {
      MinifyIdempotent(s[1..]);
      if !IsWhiteSpace(s[0]) {
        MinifyAppend([s[0]], Minify(s[1..]));
        assert Minify([s[0]]) == [s[0]];
      }
    }
  }

  lemma MinifyIgnoresBlank(before: string, w: string, after: string)
    requires IsBlank(w)
    ensures Minify(before + w + after) == Minify(before + after)
  {
    MinifyAppend(before + w, after);
    MinifyAppend(before, w);
    MinifyBlank(w);
    MinifyAppend(before, after);
  }

  /** Inserting white space anywhere in a query leaves its GraphQL key unchanged. */
  lemma GraphQlKeyIgnoresWhitespace(md5: string -> Digest, operationName: string, before: string, w: string, after: string)
    requires IsBlank(w)
    ensures GraphQlFileName(md5, operationName, before + w + after) == GraphQlFileName(md5, operationName, before + after)
  {
    MinifyIgnoresBlank(before, w, after);
  }

  /** A GraphQL key ends in ".graphql", a REST key in ".json": the two never coincide. */
  lemma GraphQlKeyIsNeverRestKey(md5: string -> Digest, operationName: string, query: string,
                                 httpMethod: string, url: string, queryString: Option<string>)
    ensures GraphQlFileName(md5, operationName, query) != FileNameFromUrl(md5, httpMethod, url, queryString)
  {
    var g := GraphQlFileName(md5, operationName, query);
    var r := FileNameFromUrl(md5, httpMethod, url, queryString);
    assert g[|g| - 1] == 'l';
    assert r[|r| - 1] == 'n';
  }
}
