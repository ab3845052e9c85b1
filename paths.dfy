/**
 * The two `path` operations the slice uses, on POSIX paths: `extname` (the
 * extension of the last path segment) and `join` (taken here as plain
 * concatenation with a `/` separator).
 */
module Paths {
  import opened Wrappers
  import opened Strings

  /** The index of the last `c` in `s`, if any. */
  function LastIndexOf(s: string, c: char): (r: Option<nat>)
    ensures r.Some? ==> r.value < |s| && s[r.value] == c
    ensures r.Some? ==> forall j :: r.value < j < |s| ==> s[j] != c
    ensures r.None? ==> c !in s
  {
    if |s| == 0 then None
    else if s[|s| - 1] == c then Some(|s| - 1)
    else LastIndexOf(s[..|s| - 1], c)
  }

  /** `p` without the `/` characters that end it. */
  function TrimTrailingSlashes(p: string): (r: string)
    ensures |r| <= |p| && r == p[..|r|]
    ensures r == [] || r[|r| - 1] != '/'
    ensures forall j :: |r| <= j < |p| ==> p[j] == '/'
  {
    if |p| > 0 && p[|p| - 1] == '/' then TrimTrailingSlashes(p[..|p| - 1]) else p
  }

  /** The last segment of `p`, trailing separators ignored. */
  function LastSegment(p: string): (r: string)
    ensures '/' !in r
    ensures EndsWith(TrimTrailingSlashes(p), r)
    ensures var q := TrimTrailingSlashes(p); |r| == |q| || q[|q| - |r| - 1] == '/'
  {
    var q := TrimTrailingSlashes(p);
    match LastIndexOf(q, '/')
    case None => q
    case Some(i) => q[i + 1..]
  }

  /**
   * Node's POSIX `path.extname`: from the last `.` of the last segment to its
   * end, or "" when that segment has no `.`, starts with its only dots, or is
   * `..`.
   */
  function ExtName(p: string): (r: string)
    ensures r == [] || (r[0] == '.' && '.' !in r[1..])
    ensures '/' !in r
    ensures EndsWith(LastSegment(p), r) && EndsWith(TrimTrailingSlashes(p), r)
  {
    var base := LastSegment(p);
    match LastIndexOf(base, '.')
    case None => ""
    case Some(d) =>
      if d == 0 || base == ".." then ""
      else
        ExtensionOfSegment(TrimTrailingSlashes(p), base, d);
        base[d..]
  }

  /**
   * When the extension is empty: the last segment has at most one character,
   * has no `.` after its first character, or is `..`.
   */
  lemma ExtNameEmpty(p: string)
    ensures var base := LastSegment(p);
      ExtName(p) == [] <==> |base| <= 1 || '.' !in base[1..] || base == ".."
  {
    var base := LastSegment(p);
    match LastIndexOf(base, '.')
    case None =>
    case Some(d) =>
      if d != 0 {
        assert base[1..][d - 1] == '.';
      }
  }

  lemma ExtensionOfSegment(q: string, base: string, d: nat)
    requires EndsWith(q, base) && '/' !in base
    requires d < |base| && base[d] == '.' && forall j :: d < j < |base| ==> base[j] != '.'
    ensures base[d..][0] == '.' && '.' !in base[d..][1..] && '/' !in base[d..]
    ensures EndsWith(q, base[d..]) && EndsWith(base, base[d..])
  {
    assert q[|q| - |base[d..]|..] == q[|q| - |base|..][d..];
    assert base[|base| - |base[d..]|..] == base[d..];
  }

  /**
   * `path.join(a, b)`, read as `a`, a separator and `b` (normalisation of
   * `.`, `..` and doubled separators is not modelled).
   */
  function Join(a: string, b: string): (r: string)
    ensures StartsWith(r, a) && EndsWith(r, b) && |r| == |a| + 1 + |b|
    ensures r[|a|] == '/'
  {
    a + "/" + b
  }
}
