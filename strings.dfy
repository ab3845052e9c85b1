/**
 * The JavaScript string operations the slice relies on: ASCII case mapping
 * (`toLowerCase`, `toUpperCase`), global single-character replacement
 * (`replace(/x/g, y)`), unanchored tests of literal regular expressions
 * (`/a|b/.test(s)`) and the decimal rendering of a non-negative integer
 * (a template literal over `Date.now()`).
 */
module Strings {

  predicate IsLower(c: char) { 'a' <= c <= 'z' }
  predicate IsUpper(c: char) { 'A' <= c <= 'Z' }

  function LowerChar(c: char): char { if IsUpper(c) then (c as int + 32) as char else c }
  function UpperChar(c: char): char { if IsLower(c) then (c as int - 32) as char else c }

  /** `s.toLowerCase()` on the ASCII letters; every other character is kept. */
  function ToLower(s: string): (r: string)
    ensures |r| == |s|
    ensures forall i :: 0 <= i < |r| ==> !IsUpper(r[i])
    ensures forall i :: 0 <= i < |s| && !IsUpper(s[i]) ==> r[i] == s[i]
    ensures forall i :: 0 <= i < |s| && IsUpper(s[i]) ==> r[i] as int == s[i] as int + 32
  {
    seq(|s|, i requires 0 <= i < |s| => LowerChar(s[i]))
  }

  /** `s.toUpperCase()` on the ASCII letters; every other character is kept. */
  function ToUpper(s: string): (r: string)
    ensures |r| == |s|
    ensures forall i :: 0 <= i < |r| ==> !IsLower(r[i])
    ensures forall i :: 0 <= i < |s| && !IsLower(s[i]) ==> r[i] == s[i]
    ensures forall i :: 0 <= i < |s| && IsLower(s[i]) ==> r[i] as int == s[i] as int - 32
  {
    seq(|s|, i requires 0 <= i < |s| => UpperChar(s[i]))
  }

  /**
   * `s.replace(/t/g, u)` for a single character `t`: every occurrence of `t`
   * becomes `u`, nothing else moves.
   */
  function ReplaceAll(s: string, target: char, replacement: char): (r: string)
    ensures |r| == |s|
    ensures forall i :: 0 <= i < |s| && s[i] != target ==> r[i] == s[i]
    ensures forall i :: 0 <= i < |s| && s[i] == target ==> r[i] == replacement
    ensures target != replacement ==> target !in r
  {
    if s == [] then []
    else [if s[0] == target then replacement else s[0]] + ReplaceAll(s[1..], target, replacement)
  }

  predicate StartsWith(s: string, prefix: string) { |prefix| <= |s| && s[..|prefix|] == prefix }
  predicate EndsWith(s: string, suffix: string) { |suffix| <= |s| && s[|s| - |suffix|..] == suffix }

  /** `p` occurs in `s` starting at index `i`. */
  predicate OccursAt(s: string, p: string, i: nat) { i + |p| <= |s| && s[i..i + |p|] == p }

  /**
   * What the unanchored regular expression made of the literal `p` tests:
   * try a match at every starting position, left to right.
   */
  predicate Contains(s: string, p: string)
    decreases |s|
  {
    StartsWith(s, p) || (|s| > 0 && Contains(s[1..], p))
  }

  /** A successful scan yields an index where `p` occurs. */
  lemma {:induction false} ContainsHasOccurrence(s: string, p: string)
    requires Contains(s, p)
    ensures exists i: nat :: OccursAt(s, p, i)
    decreases |s|
  {
    if StartsWith(s, p) {
      assert OccursAt(s, p, 0);
    } else {
      ContainsHasOccurrence(s[1..], p);
      var i: nat :| OccursAt(s[1..], p, i);
      assert s[1..][i..i + |p|] == s[i + 1..i + 1 + |p|];
      assert OccursAt(s, p, i + 1);
    }
  }

  /** An occurrence at any index is found by the scan. */
  lemma {:induction false} OccurrenceIsContained(s: string, p: string, i: nat)
    requires OccursAt(s, p, i)
    ensures Contains(s, p)
    decreases i
  {
    if i == 0 {
      assert s[..|p|] == s[0..0 + |p|];
    } else {
      assert s[1..][i - 1..i - 1 + |p|] == s[i..i + |p|];
      OccurrenceIsContained(s[1..], p, i - 1);
    }
  }

  /** The scanning test agrees with "there is an index where `p` occurs". */
  lemma ContainsIffOccurs(s: string, p: string)
    ensures Contains(s, p) <==> exists i: nat :: OccursAt(s, p, i)
  {
    if Contains(s, p) {
      ContainsHasOccurrence(s, p);
    }
    forall i: nat | OccursAt(s, p, i) ensures Contains(s, p) {
      OccurrenceIsContained(s, p, i);
    }
  }

  /** An occurrence of `q` containing `p` is an occurrence of `p`. */
  lemma ContainsTransitive(s: string, q: string, p: string)
    requires Contains(s, q) && Contains(q, p)
    ensures Contains(s, p)
  {
    ContainsHasOccurrence(s, q);
    ContainsHasOccurrence(q, p);
    var i: nat :| OccursAt(s, q, i);
    var j: nat :| OccursAt(q, p, j);
    forall k | 0 <= k < |p| ensures s[i + j + k] == p[k] {
      assert s[i..i + |q|][j + k] == s[i + j + k];
      assert q[j..j + |p|][k] == q[j + k];
    }
    assert s[i + j..i + j + |p|] == p;
    OccurrenceIsContained(s, p, i + j);
  }

  /** The test of a regular expression `a|b|…` made of literal alternatives. */
  predicate ContainsAny(s: string, alternatives: seq<string>)
  {
    exists k :: 0 <= k < |alternatives| && Contains(s, alternatives[k])
  }

  /** Some alternative occurs at some index: the reference reading of `ContainsAny`. */
  ghost predicate OccursAny(s: string, alternatives: seq<string>)
  {
    exists k: nat, i: nat :: k < |alternatives| && OccursAt(s, alternatives[k], i)
  }

  lemma ContainsAnyIffOccursAny(s: string, alternatives: seq<string>)
    ensures ContainsAny(s, alternatives) <==> OccursAny(s, alternatives)
  {
    forall k | 0 <= k < |alternatives| {
      ContainsIffOccurs(s, alternatives[k]);
    }
  }

  function DigitChar(d: nat): (c: char)
    requires d < 10
    ensures '0' <= c <= '9' && c as int - '0' as int == d
  {
    ('0' as int + d) as char
  }

  /** The decimal digits of `n`, most significant first, without leading zeros. */
  function Decimal(n: nat): (r: string)
    ensures 1 <= |r|
    ensures (|r| == 1) == (n < 10)
    ensures |r| == 1 || r[0] != '0'
    ensures forall i :: 0 <= i < |r| ==> '0' <= r[i] <= '9'
  {
    if n < 10 then [DigitChar(n)] else Decimal(n / 10) + [DigitChar(n % 10)]
  }

  /** The number a string of decimal digits denotes, most significant digit first. */
  function DecimalValue(s: string): nat
    requires forall i :: 0 <= i < |s| ==> '0' <= s[i] <= '9'
  {
    if s == [] then 0 else DecimalValue(s[..|s| - 1]) * 10 + (s[|s| - 1] as int - '0' as int)
  }

  /** Reading the rendering back gives the number: `Decimal` writes the digits of `n`. */
  lemma {:induction false} DecimalRoundTrip(n: nat)
    ensures DecimalValue(Decimal(n)) == n
  {
    var d := Decimal(n);
    if n < 10 {
      assert d[..0] == [];
    } else {
      assert d[..|d| - 1] == Decimal(n / 10);
      DecimalRoundTrip(n / 10);
    }
  }

  /** Different numbers have different decimal renderings. */
  lemma DecimalInjective(m: nat, n: nat)
    requires Decimal(m) == Decimal(n)
    ensures m == n
  {
    DecimalRoundTrip(m);
    DecimalRoundTrip(n);
  }
}
