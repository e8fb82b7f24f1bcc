/**
 * The .NET string operations the services use, on `string` = `seq<char>`.
 * Comparisons are ordinal; `ToLower` is restricted to ASCII letters.
 */
module Text {

  /** `char.ToLower` on ASCII letters; every other character is left as is. */
  function LowerChar(c: char): char {
    if 'A' <= c <= 'Z' then (c as int + 32) as char else c
  }

  /** `string.ToLower()`, character by character. */
  function Lower(s: string): (r: string)
    ensures |r| == |s|
    ensures forall i :: 0 <= i < |s| ==> r[i] == LowerChar(s[i])
  {
    seq(|s|, i requires 0 <= i < |s| => LowerChar(s[i]))
  }

  lemma LowerIdempotent(s: string)
    ensures Lower(Lower(s)) == Lower(s)
  {
  }

  lemma LowerAppend(a: string, b: string)
    ensures Lower(a + b) == Lower(a) + Lower(b)
  {
  }

  /**
   * `char.IsWhiteSpace`, which is also the character class `\s` of .NET regular
   * expressions: U+0009..U+000D, U+0085 and the Unicode separators (Zs, Zl, Zp).
   */
  predicate IsWhiteSpace(c: char) {
    ('\U{9}' <= c <= '\U{D}') || c == '\U{20}' || c == '\U{85}' || c == '\U{A0}' ||
    c == '\U{1680}' || ('\U{2000}' <= c <= '\U{200A}') || c == '\U{2028}' || c == '\U{2029}' ||
    c == '\U{202F}' || c == '\U{205F}' || c == '\U{3000}'
  }

  /** `string.IsNullOrWhiteSpace` on a non-null string. */
  predicate IsBlank(s: string) {
    forall i :: 0 <= i < |s| ==> IsWhiteSpace(s[i])
  }

  predicate StartsWith(s: string, prefix: string) {
    |prefix| <= |s| && s[..|prefix|] == prefix
  }

  predicate EndsWith(s: string, suffix: string) {
    |suffix| <= |s| && s[|s| - |suffix|..] == suffix
  }

  /** `string.Replace(char, char)`: every `from` becomes `to`. */
  function ReplaceChar(s: string, from: char, to: char): (r: string)
    ensures |r| == |s|
    ensures forall i :: 0 <= i < |s| ==> r[i] == if s[i] == from then to else s[i]
  {
    seq(|s|, i requires 0 <= i < |s| => if s[i] == from then to else s[i])
  }

  /** `pattern` occurs in `s` at index `i`. */
  predicate OccursAt(s: string, pattern: string, i: nat) {
    i + |pattern| <= |s| && s[i..i + |pattern|] == pattern
  }

  predicate Contains(s: string, pattern: string) {
    exists i: nat | i <= |s| :: OccursAt(s, pattern, i)
  }

  /**
   * `string.Replace(string, string)`: scans left to right and rewrites each
   * non-overlapping occurrence of `pattern`. .NET throws on an empty pattern.
   */
  function ReplaceAll(s: string, pattern: string, replacement: string): (r: string)
    requires |pattern| > 0
    ensures StartsWith(s, pattern) ==> StartsWith(r, replacement)
    ensures |replacement| == |pattern| ==> |r| == |s|
    decreases |s|
  {
    if |s| < |pattern| then s
    else if s[..|pattern|] == pattern then replacement + ReplaceAll(s[|pattern|..], pattern, replacement)
    else [s[0]] + ReplaceAll(s[1..], pattern, replacement)
  }

  /** Where `pattern` does not occur, `ReplaceAll` changes nothing. */
  lemma {:induction false} ReplaceAllWithoutOccurrence(s: string, pattern: string, replacement: string)
    requires |pattern| > 0
    requires !Contains(s, pattern)
    ensures ReplaceAll(s, pattern, replacement) == s
    decreases |s|
  {
    if |s| >= |pattern| {
      assert !OccursAt(s, pattern, 0);
      forall i: nat | i <= |s[1..]| ensures !OccursAt(s[1..], pattern, i) {
        assert !OccursAt(s, pattern, i + 1);
        if i + |pattern| <= |s[1..]| {
          assert s[1..][i..i + |pattern|] == s[i + 1..i + 1 + |pattern|];
        }
      }
      ReplaceAllWithoutOccurrence(s[1..], pattern, replacement);
    }
  }

  /** Replacing by something no longer than the pattern never lengthens the string. */
  lemma {:induction false} ReplaceAllShrinks(s: string, pattern: string, replacement: string)
    requires |pattern| > 0 && |replacement| <= |pattern|
    ensures |ReplaceAll(s, pattern, replacement)| <= |s|
    decreases |s|
  {
    if |s| >= |pattern| {
      if s[..|pattern|] == pattern {
        ReplaceAllShrinks(s[|pattern|..], pattern, replacement);
      } else {
        ReplaceAllShrinks(s[1..], pattern, replacement);
      }
    }
  }

  /** `s` with every `c` deleted. */
  function RemoveChar(s: string, c: char): (r: string)
    ensures forall i :: 0 <= i < |r| ==> r[i] != c
    ensures |r| <= |s|
  {
    if |s| == 0 then []
    else if s[0] == c then RemoveChar(s[1..], c)
    else [s[0]] + RemoveChar(s[1..], c)
  }

  lemma {:induction false} RemoveCharAppend(a: string, b: string, c: char)
    ensures RemoveChar(a + b, c) == RemoveChar(a, c) + RemoveChar(b, c)
  {
    if |a| > 0 {
      assert (a + b)[1..] == a[1..] + b;
      RemoveCharAppend(a[1..], b, c);
    } else {
      assert a + b == b;
    }
  }

  /** Replacing a one-character pattern by nothing deletes that character. */
  lemma {:induction false} ReplaceAllSingleChar(s: string, c: char)
    ensures ReplaceAll(s, [c], "") == RemoveChar(s, c)
  {
    if |s| > 0 {
      ReplaceAllSingleChar(s[1..], c);
    }
  }

  /** `string.Join(separator, items)`. */
  function Join(separator: string, items: seq<string>): string {
    if |items| == 0 then ""
    else if |items| == 1 then items[0]
    else items[0] + separator + Join(separator, items[1..])
  }

  /** An occurrence in `s` is an occurrence, shifted, in `prefix + s`. */
  lemma OccursAfterPrefix(prefix: string, s: string, pattern: string, i: nat)
    requires OccursAt(s, pattern, i)
    ensures OccursAt(prefix + s, pattern, |prefix| + i)
    ensures Contains(prefix + s, pattern)
  {
    assert (prefix + s)[|prefix| + i..|prefix| + i + |pattern|] == s[i..i + |pattern|];
    var j: nat := |prefix| + i;
    assert j <= |prefix + s| && OccursAt(prefix + s, pattern, j);
  }

  /** Every item appears in the joined string. */
  lemma {:induction false} JoinContainsItem(separator: string, items: seq<string>, k: nat)
    requires k < |items|
    ensures Contains(Join(separator, items), items[k])
    decreases |items|
  {
    var joined := Join(separator, items);
    if k == 0 {
      assert joined[..|items[0]|] == items[0];
      assert OccursAt(joined, items[0], 0);
    } else {
      JoinContainsItem(separator, items[1..], k - 1);
      var rest := Join(separator, items[1..]);
      var i: nat :| i <= |rest| && OccursAt(rest, items[k], i);
      OccursAfterPrefix(items[0] + separator, rest, items[k], i);
    }
  }
}
