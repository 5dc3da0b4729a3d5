/** Workspace-relative paths: strings whose segments are separated by '/'. */
module Paths {

  type Path = string

  /** A normalised relative path: non-empty, no empty segment, no leading or trailing slash. */
  predicate WellFormed(p: Path) {
    && p != ""
    && p[0] != '/'
    && p[|p| - 1] != '/'
    && forall i :: 0 < i < |p| && p[i] == '/' ==> p[i - 1] != '/'
  }

  /** `p.startsWith(d + "/")`: p lies strictly beneath d. */
  predicate Under(d: Path, p: Path) {
    |d| < |p| && p[|d|] == '/' && p[..|d|] == d
  }

  /** Like Under, but the workspace root "" contains every path. */
  predicate Beneath(d: Path, p: Path) {
    d == "" || Under(d, p)
  }

  /** p is x itself or lies beneath it. */
  predicate Within(x: Path, p: Path) {
    x == p || Under(x, p)
  }

  /** The entries `readdir(dir)` can list. */
  predicate IsChild(dir: Path, p: Path) {
    if dir == "" then p != "" && '/' !in p
    else Under(dir, p) && '/' !in p[|dir| + 1..]
  }

  lemma UnderIsStartsWith(d: Path, p: Path)
    ensures Under(d, p) <==> d + "/" <= p
  {
  }

  lemma UnderTransitive(a: Path, b: Path, c: Path)
    requires Under(a, b) && Under(b, c)
    ensures Under(a, c)
  {
  }

  /** The directories above one path form a chain. */
  lemma UnderLinear(a: Path, b: Path, p: Path)
    requires Under(a, p) && (b == p || Under(b, p))
    ensures a == b || Under(a, b) || Under(b, a)
  {
  }

  /** The first step from dir towards a path beneath it. */
  function StepTowards(dir: Path, p: Path): (x: Path)
    requires Beneath(dir, p) && WellFormed(p)
    ensures IsChild(dir, x) && Within(x, p) && WellFormed(x) && Beneath(dir, x)
  {
    var from := if dir == "" then 0 else |dir| + 1;
    var n := SegmentEnd(p, from);
    SegmentIsChild(dir, p, from, n);
    p[..n]
  }

  /** Index of the first '/' at or after i, or the length. */
  function SegmentEnd(p: Path, i: nat): (n: nat)
    requires i <= |p|
    ensures i <= n <= |p|
    ensures forall k :: i <= k < n ==> p[k] != '/'
    ensures n < |p| ==> p[n] == '/'
    decreases |p| - i
  {
    if i == |p| || p[i] == '/' then i else SegmentEnd(p, i + 1)
  }

  lemma SegmentIsChild(dir: Path, p: Path, from: nat, n: nat)
    requires Beneath(dir, p) && WellFormed(p)
    requires from == if dir == "" then 0 else |dir| + 1
    requires from <= n <= |p|
    requires forall k :: from <= k < n ==> p[k] != '/'
    requires n < |p| ==> p[n] == '/'
    ensures IsChild(dir, p[..n]) && Within(p[..n], p) && WellFormed(p[..n]) && Beneath(dir, p[..n])
  {
  }

  // ---- Segments: the `split("/")` loops ----

  /** JavaScript's `s.split("/")`. */
  function Split(s: string): (parts: seq<string>)
    ensures |parts| >= 1
    decreases |s|
  {
    var n := SegmentEnd(s, 0);
    if n == |s| then [s] else [s[..n]] + Split(s[n + 1..])
  }

  /** `s.replace(/^\//, "")`. */
  function StripLeadingSlash(s: string): string {
    if s != "" && s[0] == '/' then s[1..] else s
  }

  function DropSlashes(s: string): (r: string)
    ensures r != "" ==> r[0] != '/'
    decreases |s|
  {
    if s != "" && s[0] == '/' then DropSlashes(s[1..]) else s
  }

  lemma DropSlashesWellFormed(p: Path)
    requires WellFormed(p)
    ensures DropSlashes(p) == p && StripLeadingSlash(p) == p
  {
  }

  /** The directories the segment loop names for a path: its cumulative prefixes. */
  function Chain(current: string, parts: seq<string>): (dirs: seq<Path>)
    ensures |dirs| == |parts|
    decreases |parts|
  {
    if parts == [] then []
    else
      var next := if current != "" then current + "/" + parts[0] else parts[0];
      [next] + Chain(next, parts[1..])
  }
}
