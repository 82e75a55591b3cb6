/** The .NET string operations the view logic relies on, over `string` (= `seq<char>`).
    Comparisons are ordinal; culture-sensitive casing is passed in as a per-character map. */
module Strings {
  import opened Wrappers

  /** `char.IsWhiteSpace`: the Unicode space, line and paragraph separators plus the
      control characters U+0009..U+000D and U+0085. */
  predicate IsWhiteSpace(c: char) {
    var n := c as int;
    || n == 0x20 || n == 0xA0 || n == 0x1680
    || (0x2000 <= n <= 0x200A) || n == 0x202F || n == 0x205F || n == 0x3000
    || n == 0x2028 || n == 0x2029
    || (0x09 <= n <= 0x0D) || n == 0x85
  }

  /** `string.IsNullOrEmpty`. */
  predicate IsNullOrEmpty(s: Option<string>) {
    s.None? || |s.value| == 0
  }

  /** `string.IsNullOrWhiteSpace`. */
  predicate IsNullOrWhiteSpace(s: Option<string>) {
    s.None? || forall i :: 0 <= i < |s.value| ==> IsWhiteSpace(s.value[i])
  }

  /** `s.StartsWith(prefix)` (ordinal). */
  predicate StartsWith(s: string, prefix: string) {
    |prefix| <= |s| && s[..|prefix|] == prefix
  }

  /** `s.EndsWith(suffix)` (ordinal). */
  predicate EndsWith(s: string, suffix: string) {
    |suffix| <= |s| && s[|s| - |suffix|..] == suffix
  }

  /** `t` occurs in `s` at position `i`. */
  predicate OccursAt(s: string, t: string, i: int) {
    0 <= i && i + |t| <= |s| && s[i..i + |t|] == t
  }

  /** `s.IndexOf(t)` (ordinal): the first position where `t` occurs, or -1. */
  function IndexOf(s: string, t: string): (r: int)
    ensures -1 <= r <= |s|
    ensures r >= 0 ==> OccursAt(s, t, r)
    ensures forall i :: 0 <= i < r || (r == -1 && 0 <= i <= |s|) ==> !OccursAt(s, t, i)
    decreases |s|
  {
    if StartsWith(s, t) then 0
    else if |s| == 0 then -1
    else
      var k := IndexOf(s[1..], t);
      assert forall i :: 1 <= i <= |s| ==> (OccursAt(s, t, i) <==> OccursAt(s[1..], t, i - 1));
      if k < 0 then -1 else k + 1
  }

  /** `s.Contains(t)`. */
  predicate Contains(s: string, t: string) {
    IndexOf(s, t) >= 0
  }

  /** `s.LastIndexOf(c)`: the last position holding `c`, or -1. */
  function LastIndexOf(s: string, c: char): (r: int)
    ensures -1 <= r < |s|
    ensures r >= 0 ==> s[r] == c
    ensures forall i :: r < i < |s| ==> s[i] != c
    decreases |s|
  {
    if |s| == 0 then -1
    else if s[|s| - 1] == c then |s| - 1
    else LastIndexOf(s[..|s| - 1], c)
  }

  /** Applies a per-character case mapping (`ToLower` / `ToUpper`); the length never changes. */
  function MapChars(s: string, f: char -> char): (r: string)
    ensures |r| == |s|
    ensures forall i :: 0 <= i < |s| ==> r[i] == f(s[i])
  {
    seq(|s|, i requires 0 <= i < |s| => f(s[i]))
  }

  /** Drops the leading characters that satisfy `p` (`TrimStart`). */
  function TrimStart(s: string, p: char -> bool): (r: string)
    ensures |r| <= |s| && r == s[|s| - |r|..]
    ensures forall i :: 0 <= i < |s| - |r| ==> p(s[i])
    ensures |r| > 0 ==> !p(r[0])
    decreases |s|
  {
    if |s| > 0 && p(s[0]) then TrimStart(s[1..], p) else s
  }

  /** Drops the trailing characters that satisfy `p` (`TrimEnd`). */
  function TrimEnd(s: string, p: char -> bool): (r: string)
    ensures |r| <= |s| && r == s[..|r|]
    ensures forall i :: |r| <= i < |s| ==> p(s[i])
    ensures |r| > 0 ==> !p(r[|r| - 1])
    decreases |s|
  {
    if |s| > 0 && p(s[|s| - 1]) then TrimEnd(s[..|s| - 1], p) else s
  }

  /** Drops the characters satisfying `p` from both ends: `Trim()` with `p` the white-space
      test, `Trim(':')` with `p` the test for ':'. */
  function TrimBoth(s: string, p: char -> bool): (r: string)
    ensures |r| <= |s|
    ensures exists k ::
              && OccursAt(s, r, k)
              && (forall i :: 0 <= i < k ==> p(s[i]))
              && (forall i :: k + |r| <= i < |s| ==> p(s[i]))
    ensures |r| > 0 ==> !p(r[0]) && !p(r[|r| - 1])
  {
    var t := TrimStart(s, p);
    var r := TrimEnd(t, p);
    TrimmedPieceOccurs(s, t, r, p);
    r
  }

  /** The piece left after trimming the suffix `t` of `s` sits at `|s| - |t|`, followed only
      by characters satisfying `p`. */
  lemma TrimmedPieceOccurs(s: string, t: string, r: string, p: char -> bool)
    requires |t| <= |s| && t == s[|s| - |t|..]
    requires |r| <= |t| && r == t[..|r|]
    requires forall i :: |r| <= i < |t| ==> p(t[i])
    ensures OccursAt(s, r, |s| - |t|)
    ensures forall i :: |s| - |t| + |r| <= i < |s| ==> p(s[i])
  {
    var k := |s| - |t|;
    forall i | k + |r| <= i < |s| ensures p(s[i]) {
      assert s[i] == t[i - k];
    }
  }

  /** `s.Trim()`: white space removed from both ends. */
  function Trim(s: string): string {
    TrimBoth(s, IsWhiteSpace)
  }

  /** Trimming the end of `b + w`, where every character of `w` satisfies `p` and `b` does
      not end with one, gives back `b`. */
  lemma {:induction false} TrimEndSuffix(b: string, w: string, p: char -> bool)
    requires forall i :: 0 <= i < |w| ==> p(w[i])
    requires |b| > 0 ==> !p(b[|b| - 1])
    ensures TrimEnd(b + w, p) == b
    decreases |w|
  {
    var s := b + w;
    if |w| == 0 {
      assert s == b;
    } else {
      assert s[|s| - 1] == w[|w| - 1];
      assert s[..|s| - 1] == b + w[..|w| - 1];
      TrimEndSuffix(b, w[..|w| - 1], p);
    }
  }

  /** `(b + w).Trim()` is `b` when `w` is white space and `b` has none at either end. */
  lemma TrimTrailingWhiteSpace(b: string, w: string)
    requires forall i :: 0 <= i < |w| ==> IsWhiteSpace(w[i])
    requires |b| > 0 ==> !IsWhiteSpace(b[0]) && !IsWhiteSpace(b[|b| - 1])
    ensures Trim(b + w) == b
  {
    var s := b + w;
    if |b| > 0 {
      assert s[0] == b[0];
      assert TrimStart(s, IsWhiteSpace) == s;
    } else {
      assert s == w;
      var t := TrimStart(s, IsWhiteSpace);
      assert t == [];
    }
    TrimEndSuffix(b, w, IsWhiteSpace);
  }

  /** A pattern that ends with a non-white-space character and does not occur in `b` does not
      occur in `b` followed by white space either. */
  lemma IndexOfBeforeWhiteSpace(b: string, w: string, pattern: string)
    requires |pattern| > 0 && !IsWhiteSpace(pattern[|pattern| - 1])
    requires forall i :: 0 <= i < |w| ==> IsWhiteSpace(w[i])
    requires IndexOf(b, pattern) == -1
    ensures IndexOf(b + w, pattern) == -1
  {
    var s := b + w;
    forall i | 0 <= i <= |s| ensures !OccursAt(s, pattern, i) {
      if i + |pattern| <= |b| {
        OccursInPrefix(b, w, pattern, i);
      } else if i + |pattern| <= |s| {
        var j := i + |pattern| - 1;
        assert s[j] == w[j - |b|];
        assert s[i..i + |pattern|][|pattern| - 1] == s[j];
      }
    }
  }

  /** An occurrence that ends inside `b` is an occurrence in `b` alone. */
  lemma OccursInPrefix(b: string, w: string, t: string, i: int)
    requires 0 <= i && i + |t| <= |b|
    ensures OccursAt(b + w, t, i) <==> OccursAt(b, t, i)
  {
    assert (b + w)[i..i + |t|] == b[i..i + |t|];
  }

  /** Removing a prefix pattern that occurs nowhere else, then trimming, recovers the text
      between the pattern and the trailing white space. */
  lemma StripPatternAndTrim(pattern: string, b: string, w: string)
    requires |pattern| > 0 && !IsWhiteSpace(pattern[|pattern| - 1])
    requires IndexOf(b, pattern) == -1
    requires |b| > 0 ==> !IsWhiteSpace(b[0]) && !IsWhiteSpace(b[|b| - 1])
    requires forall i :: 0 <= i < |w| ==> IsWhiteSpace(w[i])
    ensures Trim(RemoveAll(pattern + (b + w), pattern)) == b
  {
    RemoveAllPrefix(b + w, pattern);
    IndexOfBeforeWhiteSpace(b, w, pattern);
    RemoveAllAbsent(b + w, pattern);
    TrimTrailingWhiteSpace(b, w);
  }

  /** `s.Trim(c)`: every leading and trailing `c` removed. */
  function TrimChar(s: string, c: char): string {
    TrimBoth(s, x => x == c)
  }

  /** `s.Split(c)`: the maximal pieces of `s` between occurrences of `c`. */
  function Split(s: string, c: char): (r: seq<string>)
    ensures |r| >= 1
    ensures forall k :: 0 <= k < |r| ==> c !in r[k]
    decreases |s|
  {
    var i := IndexOf(s, [c]);
    if i < 0 then
      assert forall j :: 0 <= j < |s| ==> s[j] != c by {
        forall j | 0 <= j < |s| ensures s[j] != c {
          assert !OccursAt(s, [c], j);
        }
      }
      [s]
    else
      assert OccursAt(s, [c], i);
      assert forall j :: 0 <= j < i ==> s[j] != c by {
        forall j | 0 <= j < i ensures s[j] != c {
          assert !OccursAt(s, [c], j);
        }
      }
      [s[..i]] + Split(s[i + 1..], c)
  }

  /** `string.Join(c, pieces)`, the inverse of `Split`. */
  function Join(pieces: seq<string>, c: char): string
    requires |pieces| >= 1
    decreases |pieces|
  {
    if |pieces| == 1 then pieces[0] else pieces[0] + [c] + Join(pieces[1..], c)
  }

  /** Splitting on `c` loses nothing: joining the pieces with `c` gives back the text. */
  lemma {:induction false} SplitJoin(s: string, c: char)
    ensures Join(Split(s, c), c) == s
    decreases |s|
  {
    var i := IndexOf(s, [c]);
    if i >= 0 {
      assert OccursAt(s, [c], i);
      SplitJoin(s[i + 1..], c);
      assert s == s[..i] + [c] + s[i + 1..];
    }
  }

  /** `s.Replace(pattern, "")`: every occurrence of `pattern`, scanning left to right
      without overlap, is removed. `Replace` throws for an empty pattern. */
  function RemoveAll(s: string, pattern: string): (r: string)
    requires |pattern| > 0
    ensures |r| <= |s|
    decreases |s|
  {
    if |s| == 0 then []
    else if StartsWith(s, pattern) then RemoveAll(s[|pattern|..], pattern)
    else [s[0]] + RemoveAll(s[1..], pattern)
  }

  /** Text in which the pattern does not occur is left unchanged by `RemoveAll`. */
  lemma {:induction false} RemoveAllAbsent(s: string, pattern: string)
    requires |pattern| > 0
    requires IndexOf(s, pattern) == -1
    ensures RemoveAll(s, pattern) == s
    decreases |s|
  {
    if |s| > 0 {
      assert !OccursAt(s, pattern, 0);
      assert forall i :: 0 <= i <= |s| - 1 ==> (OccursAt(s, pattern, i + 1) <==> OccursAt(s[1..], pattern, i));
      RemoveAllAbsent(s[1..], pattern);
      assert s == [s[0]] + s[1..];
    }
  }

  /** Every occurrence of the pattern at the front is consumed by `RemoveAll`. */
  lemma RemoveAllPrefix(s: string, pattern: string)
    requires |pattern| > 0
    ensures RemoveAll(pattern + s, pattern) == RemoveAll(s, pattern)
  {
    assert StartsWith(pattern + s, pattern);
    assert (pattern + s)[|pattern|..] == s;
  }
}
