/**
 * The string operations the app applies to file paths: POSIX `extname` and `basename`,
 * lower-casing, and the first-occurrence `replace` of a string by a string.
 */
module Paths {
  import opened Wrappers

  /** The index of the last occurrence of `c` in `s`, if any. */
  function LastIndexOf(s: string, c: char): (r: Option<nat>)
    ensures r.Some? ==> r.value < |s| && s[r.value] == c && forall j :: r.value < j < |s| ==> s[j] != c
    ensures r.None? ==> forall j :: 0 <= j < |s| ==> s[j] != c
  {
    if s == [] then None
    else if s[|s| - 1] == c then Some(|s| - 1)
    else LastIndexOf(s[..|s| - 1], c)
  }

  /** The path without its trailing `/` characters. */
  function TrimTrailingSlashes(s: string): (r: string)
    ensures |r| <= |s| && r == s[..|r|]
    ensures r == [] || r[|r| - 1] != '/'
    ensures forall j :: |r| <= j < |s| ==> s[j] == '/'
  {
    if s != [] && s[|s| - 1] == '/' then TrimTrailingSlashes(s[..|s| - 1]) else s
  }

  /** The index where the last segment of `t` starts: just after its last `/`, or 0. */
  function SegmentStart(t: string): (k: nat)
    ensures k <= |t| && forall j :: k <= j < |t| ==> t[j] != '/'
    ensures k > 0 ==> t[k - 1] == '/'
  {
    match LastIndexOf(t, '/')
    case None => 0
    case Some(i) => i + 1
  }

  /**
   * The last segment of a path: what follows the last `/` once trailing slashes are gone. It is
   * the whole trimmed path, or it is preceded by a `/`.
   */
  function Basename(s: string): (r: string)
    ensures forall j :: 0 <= j < |r| ==> r[j] != '/'
    ensures |r| <= |TrimTrailingSlashes(s)|
    ensures r == TrimTrailingSlashes(s)[|TrimTrailingSlashes(s)| - |r|..]
    ensures var t := TrimTrailingSlashes(s); |r| == |t| || t[|t| - |r| - 1] == '/'
  {
    var t := TrimTrailingSlashes(s);
    t[SegmentStart(t)..]
  }

  /**
   * Where POSIX `extname` starts, as an index into the path without trailing slashes: the last `.`
   * of the last segment, unless the segment has none, that `.` opens the segment (`.json`), or the
   * segment is `..`.
   */
  function ExtStart(s: string): (r: Option<nat>)
    ensures var t := TrimTrailingSlashes(s);
      r.Some? ==> (SegmentStart(t) < r.value < |t| && t[r.value] == '.'
        && forall j :: r.value < j < |t| ==> t[j] != '.')
    ensures var t := TrimTrailingSlashes(s);
      r.Some? ==> t[SegmentStart(t)..] != ".."
    ensures var t := TrimTrailingSlashes(s); var k := SegmentStart(t);
      r.None? ==> (t[k..] == ".." || forall j :: k < j < |t| ==> t[j] != '.')
  {
    var t := TrimTrailingSlashes(s);
    var k := SegmentStart(t);
    if t[k..] == ".." then None
    else match LastIndexOf(t, '.')
      case None => None
      case Some(d) => if d <= k then None else Some(d)
  }

  /** POSIX `extname`: from the last `.` of the last segment to its end, or empty. */
  function ExtName(s: string): (r: string)
    ensures r == [] <==> ExtStart(s).None?
    ensures r == [] || (r[0] == '.' && forall j :: 0 < j < |r| ==> r[j] != '.')
    ensures forall j :: 0 <= j < |r| ==> r[j] != '/'
    ensures |r| < |Basename(s)| || r == []
    ensures |r| <= |TrimTrailingSlashes(s)| && r == TrimTrailingSlashes(s)[|TrimTrailingSlashes(s)| - |r|..]
  {
    var t := TrimTrailingSlashes(s);
    match ExtStart(s)
    case None => ""
    case Some(d) =>
      var b := Basename(s);
      assert b == t[SegmentStart(t)..];
      assert t[d..] == b[|b| - (|t| - d)..];
      t[d..]
  }

  /** `LastIndexOf` is the index holding `c` with no `c` after it. */
  lemma LastIndexOfIs(s: string, c: char, i: nat)
    requires i < |s| && s[i] == c && forall j :: i < j < |s| ==> s[j] != c
    ensures LastIndexOf(s, c) == Some(i)
  {
  }

  /** ASCII lower-casing of one character. */
  function ToLowerChar(c: char): char {
    if 'A' <= c <= 'Z' then (c as int + 32) as char else c
  }

  function ToLower(s: string): (r: string)
    ensures |r| == |s|
    ensures forall j :: 0 <= j < |s| ==> r[j] == ToLowerChar(s[j])
  {
    if s == [] then [] else [ToLowerChar(s[0])] + ToLower(s[1..])
  }

  /** Whether `p` occurs in `s` at index `i`. */
  predicate OccursAt(s: string, p: string, i: nat) {
    i + |p| <= |s| && s[i..i + |p|] == p
  }

  /** The index of the first occurrence of `p` in `s` at or after `from`, if any. */
  function IndexOfFrom(s: string, p: string, from: nat): (r: Option<nat>)
    ensures r.Some? ==>
      from <= r.value && OccursAt(s, p, r.value)
      && forall j: nat :: from <= j < r.value ==> !OccursAt(s, p, j)
    ensures r.None? ==> forall j: nat :: from <= j ==> !OccursAt(s, p, j)
    decreases |s| - from
  {
    if from + |p| > |s| then None
    else if OccursAt(s, p, from) then Some(from)
    else IndexOfFrom(s, p, from + 1)
  }

  /** The index of the first occurrence of `p` in `s`, if any. */
  function IndexOf(s: string, p: string): (r: Option<nat>)
    ensures r.Some? ==> OccursAt(s, p, r.value) && forall j: nat :: j < r.value ==> !OccursAt(s, p, j)
    ensures r.None? ==> forall j: nat :: !OccursAt(s, p, j)
  {
    IndexOfFrom(s, p, 0)
  }

  /** `s.replace(p, q)` with a string pattern: only the first occurrence of `p` is replaced. */
  function ReplaceFirst(s: string, p: string, q: string): string {
    match IndexOf(s, p)
    case None => s
    case Some(i) => s[..i] + q + s[i + |p|..]
  }
}
