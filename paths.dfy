/**
 * The parts of .NET's `System.IO.Path` and `DirectoryInfo.GetFiles` the services
 * rely on, for Unix paths (the directory separator is '/').
 */
module Paths {
  import opened Text

  /**
   * Index of the '.' that starts the extension of the last path segment, found by
   * scanning `path[..i]` backwards; `|path|` when that segment has no '.'.
   */
  function DotBefore(path: string, i: nat): (k: nat)
    requires i <= |path|
    ensures k == |path| || (k < i && path[k] == '.')
    ensures k < i ==> forall j :: k < j < i ==> path[j] != '.' && path[j] != '/'
    ensures k == |path| ==> forall j :: 0 <= j < i && path[j] == '.' ==> exists m :: j < m < i && path[m] == '/'
    decreases i
  {
    if i == 0 then |path|
    else if path[i - 1] == '.' then i - 1
    else if path[i - 1] == '/' then |path|
    else DotBefore(path, i - 1)
  }

  function ExtensionStart(path: string): (k: nat)
    ensures k <= |path|
    ensures k < |path| ==> path[k] == '.' && forall j :: k < j < |path| ==> path[j] != '.' && path[j] != '/'
  {
    DotBefore(path, |path|)
  }

  /** Characters that end the backward scan: neither '.' nor '/' stops it in `tail`. */
  predicate PlainSegment(tail: string) {
    forall i :: 0 <= i < |tail| ==> tail[i] != '.' && tail[i] != '/'
  }

  /** Scanning back over a plain tail lands where scanning back from its start does. */
  lemma {:induction false} DotBeforePlainTail(path: string, i: nat, j: nat)
    requires i <= j <= |path|
    requires PlainSegment(path[i..j])
    ensures DotBefore(path, j) == DotBefore(path, i)
    decreases j - i
  {
    if i < j {
      assert path[j - 1] == path[i..j][j - 1 - i];
      assert path[i..j - 1] == path[i..j][..j - 1 - i];
      DotBeforePlainTail(path, i, j - 1);
    }
  }

  /** The extension of `stem + "." + ext`, for an `ext` without '.' or '/', starts at the dot. */
  lemma ExtensionStartOfSuffix(stem: string, ext: string)
    requires PlainSegment(ext)
    ensures ExtensionStart(stem + "." + ext) == |stem|
  {
    var path := stem + "." + ext;
    assert path[|stem| + 1..] == ext;
    DotBeforePlainTail(path, |stem| + 1, |path|);
  }

  /** A name with no directory part. */
  predicate NoSlash(s: string) {
    forall i :: 0 <= i < |s| ==> s[i] != '/'
  }

  /** `Path.GetExtension`: from the last '.' of the last segment, or "" when there is none or it ends the path. */
  function GetExtension(path: string): (r: string)
    ensures r != "" ==> |r| >= 2 && r[0] == '.' && EndsWith(path, r) && PlainSegment(r[1..])
  {
    var k := ExtensionStart(path);
    if k + 1 < |path| then path[k..] else ""
  }

  /** Index just past the last '/', or 0. */
  function SegmentStart(path: string): (k: nat)
    ensures k <= |path|
    ensures forall i :: k <= i < |path| ==> path[i] != '/'
    ensures k == 0 || path[k - 1] == '/'
  {
    if |path| == 0 then 0
    else if path[|path| - 1] == '/' then |path|
    else SegmentStart(path[..|path| - 1])
  }

  /** `Path.GetFileName`. */
  function GetFileName(path: string): (name: string)
    ensures NoSlash(name) && EndsWith(path, name)
  {
    path[SegmentStart(path)..]
  }

  /**
   * `Path.GetFileNameWithoutExtension`: the file name cut at its last '.'; what
   * is cut off is nothing, or a '.' followed by neither '.' nor '/'.
   */
  function GetFileNameWithoutExtension(path: string): (r: string)
    ensures NoSlash(r) && StartsWith(GetFileName(path), r)
    ensures var rest := GetFileName(path)[|r|..]; rest == "" || (rest[0] == '.' && PlainSegment(rest[1..]))
  {
    var name := GetFileName(path);
    var r := name[..ExtensionStart(name)];
    assert NoSlash(r) by {
      forall i | 0 <= i < |r| ensures r[i] != '/' { assert r[i] == name[i]; }
    }
    r
  }

  /** An extension as `ChangeExtension` appends it: with a leading '.'. */
  function Dotted(extension: string): (r: string)
    ensures |r| > 0 && r[0] == '.'
  {
    if StartsWith(extension, ".") then extension else "." + extension
  }

  /**
   * `Path.ChangeExtension(path, extension)` for a non-null extension: the path up
   * to its extension, then the extension with a '.' put in front when it lacks one.
   */
  function ChangeExtension(path: string, extension: string): (r: string)
    ensures |path| == 0 ==> r == ""
    ensures |path| > 0 ==> StartsWith(r, path[..ExtensionStart(path)]) && EndsWith(r, Dotted(extension))
    ensures |path| > 0 ==> |r| == ExtensionStart(path) + |Dotted(extension)|
  {
    if |path| == 0 then ""
    else
      var r := path[..ExtensionStart(path)] + Dotted(extension);
      assert r[..ExtensionStart(path)] == path[..ExtensionStart(path)];
      assert r[|r| - |Dotted(extension)|..] == Dotted(extension);
      r
  }

  /** A ".json" name whose stem itself holds a '.' keeps that '.' in its stem. */
  lemma StemWithInnerDot(a: string, b: string)
    requires NoSlash(a) && PlainSegment(b)
    ensures GetFileNameWithoutExtension(a + "." + b + ".json") == a + "." + b
  {
    var stem := a + "." + b;
    assert NoSlash(stem) by {
      forall i | 0 <= i < |stem| ensures stem[i] != '/' {
        if i > |a| { assert stem[i] == b[i - |a| - 1]; }
      }
    }
    assert PlainSegment("json");
    assert stem + ".json" == stem + "." + "json";
    StemOfName(stem, "json");
  }

  /** In `stem.tail`, with a plain tail, the new extension replaces ".tail" and keeps all of the stem. */
  lemma ChangeExtensionAtLastDot(stem: string, tail: string, extension: string)
    requires PlainSegment(tail)
    ensures ChangeExtension(stem + "." + tail, extension) == stem + Dotted(extension)
  {
    ExtensionStartOfSuffix(stem, tail);
    assert (stem + "." + tail)[..|stem|] == stem;
  }

  /** An extension without '.' gets one put in front. */
  lemma DottedPlain(extension: string)
    requires PlainSegment(extension)
    ensures Dotted(extension) == "." + extension
  {
    if |extension| > 0 {
      assert extension[0] != '.';
    }
  }

  /** A path with no '.' and no '/' has no extension: the new one is appended to all of it. */
  lemma ChangeExtensionOfPlain(path: string, extension: string)
    requires |path| > 0 && PlainSegment(path)
    ensures ChangeExtension(path, extension) == path + Dotted(extension)
  {
    DotBeforePlainTail(path, 0, |path|);
  }

  /**
   * A file name matched by `GetFiles(stem + ".*")`. .NET enumerates with Win32
   * wildcard rules, under which ".*" at the end also matches nothing at all, so
   * the name is `stem` itself or `stem` followed by a '.'.
   */
  predicate MatchesAnyExtension(name: string, stem: string) {
    name == stem || StartsWith(name, stem + ".")
  }

  /** Every `stem.ext` is listed by `GetFiles(stem + ".*")`. */
  lemma VariantMatchesStem(stem: string, ext: string)
    ensures MatchesAnyExtension(stem + "." + ext, stem)
  {
    assert (stem + "." + ext)[..|stem| + 1] == stem + ".";
  }

  /** A stem with a changed extension, which always starts with '.', is listed by `GetFiles(stem + ".*")`. */
  lemma DottedVariantMatchesStem(stem: string, extension: string)
    ensures MatchesAnyExtension(stem + Dotted(extension), stem)
  {
    var name := stem + Dotted(extension);
    assert name[..|stem| + 1] == stem + ".";
  }

  /** For a name without '/', ending in "." + an extension without '.', the stem is what precedes it. */
  lemma {:induction false} StemOfName(stem: string, ext: string)
    requires PlainSegment(ext) && NoSlash(stem)
    ensures GetFileNameWithoutExtension(stem + "." + ext) == stem
    ensures GetExtension(stem + "." + ext) == if |ext| == 0 then "" else "." + ext
  {
    var path := stem + "." + ext;
    assert NoSlash(path) by {
      forall i | 0 <= i < |path| ensures path[i] != '/' {
        if i > |stem| { assert path[i] == ext[i - |stem| - 1]; }
      }
    }
    NoSlashIsFileName(path);
    ExtensionStartOfSuffix(stem, ext);
  }

  lemma {:induction false} NoSlashIsFileName(path: string)
    requires NoSlash(path)
    ensures GetFileName(path) == path
    decreases |path|
  {
    if |path| > 0 {
      NoSlashIsFileName(path[..|path| - 1]);
    }
  }
}
