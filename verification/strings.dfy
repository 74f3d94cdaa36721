/**
 * The few functions of Go's `strings` package that the scraper relies on:
 * `Index`, `HasPrefix`, `ToUpper` (ASCII letters) and `TrimSpace`.
 */
module Strings {

  /** `sub` occurs in `s` starting at offset `i`. */
  predicate OccursAt(s: string, sub: string, i: int) {
    0 <= i && i + |sub| <= |s| && s[i..i + |sub|] == sub
  }

  /** Moving one character into `s` moves every occurrence one offset to the right. */
  lemma OccursShift(s: string, sub: string, j: nat)
    requires |s| > 0
    ensures OccursAt(s, sub, j + 1) <==> OccursAt(s[1..], sub, j)
  {
    if j + 1 + |sub| <= |s| {
      var a, b := s[j + 1..j + 1 + |sub|], s[1..][j..j + |sub|];
      assert forall k :: 0 <= k < |sub| ==> a[k] == s[j + 1 + k] == b[k];
      assert a == b;
    }
  }

  /** `strings.Index`: the first offset at which `sub` occurs in `s`, or -1. */
  function Index(s: string, sub: string): (r: int)
    ensures r == -1 || OccursAt(s, sub, r)
    ensures r == -1 <==> forall j :: !OccursAt(s, sub, j)
    ensures forall j :: 0 <= j < r ==> !OccursAt(s, sub, j)
    decreases |s|
  {
    if |s| < |sub| then -1
    else if s[..|sub|] == sub then 0
    else
      var k := Index(s[1..], sub);
      IndexStep(s, sub, k);
      if k < 0 then -1 else k + 1
  }

  /** The recursive step of `Index`: occurrences in `s` past offset 0 are those of `s[1..]`, shifted. */
  lemma IndexStep(s: string, sub: string, k: int)
    requires |sub| <= |s| && s[..|sub|] != sub
    requires k == -1 || OccursAt(s[1..], sub, k)
    requires k == -1 <==> forall j :: !OccursAt(s[1..], sub, j)
    requires forall j :: 0 <= j < k ==> !OccursAt(s[1..], sub, j)
    ensures k >= 0 ==> OccursAt(s, sub, k + 1) && forall j :: 0 <= j < k + 1 ==> !OccursAt(s, sub, j)
    ensures k < 0 ==> forall j :: !OccursAt(s, sub, j)
  {
    assert !OccursAt(s, sub, 0);
    forall j | 0 < j
      ensures OccursAt(s, sub, j) <==> OccursAt(s[1..], sub, j - 1)
    {
      OccursShift(s, sub, j - 1);
    }
  }

  /** `strings.Contains`, i.e. `strings.Index(s, sub) > -1`. */
  predicate Contains(s: string, sub: string) {
    Index(s, sub) > -1
  }

  /** Any occurrence of `sub` in `s` makes `Contains` hold. */
  lemma ContainsAt(s: string, sub: string, i: int)
    requires OccursAt(s, sub, i)
    ensures Contains(s, sub)
  {
  }

  /** A string contains each of its middle parts. */
  lemma {:induction false} ContainsInfix(pre: string, mid: string, post: string)
    ensures Contains(pre + mid + post, mid)
  {
    var s := pre + mid + post;
    assert s[|pre|..|pre| + |mid|] == mid;
    ContainsAt(s, mid, |pre|);
  }

  /** `strings.HasPrefix`. */
  predicate HasPrefix(s: string, prefix: string) {
    |prefix| <= |s| && s[..|prefix|] == prefix
  }

  /** `unicode.ToUpper` restricted to ASCII: a lower-case ASCII letter becomes upper case. */
  function UpperChar(c: char): char {
    if 'a' <= c <= 'z' then (c as int - 32) as char else c
  }

  /** `strings.ToUpper` for the ASCII letters; every other character is kept. */
  function ToUpper(s: string): (r: string)
    ensures |r| == |s|
    ensures forall i :: 0 <= i < |s| ==> r[i] == UpperChar(s[i])
    ensures forall i :: 0 <= i < |r| ==> !('a' <= r[i] <= 'z')
  {
    if s == [] then [] else [UpperChar(s[0])] + ToUpper(s[1..])
  }

  /** `unicode.IsSpace`: the Unicode White_Space characters Go's `TrimSpace` removes. */
  predicate IsSpace(c: char) {
    var n := c as int;
    n == 0x09 || n == 0x0A || n == 0x0B || n == 0x0C || n == 0x0D || n == 0x20
    || n == 0x85 || n == 0xA0 || n == 0x1680 || (0x2000 <= n <= 0x200A)
    || n == 0x2028 || n == 0x2029 || n == 0x202F || n == 0x205F || n == 0x3000
  }

  /** Drops the leading white space of `s`. */
  function TrimLeft(s: string): (r: string)
    ensures |r| <= |s| && r == s[|s| - |r|..]
    ensures r != [] ==> !IsSpace(r[0])
    ensures forall i :: 0 <= i < |s| - |r| ==> IsSpace(s[i])
  {
    if s != [] && IsSpace(s[0]) then TrimLeft(s[1..]) else s
  }

  /** Drops the trailing white space of `s`. */
  function TrimRight(s: string): (r: string)
    ensures |r| <= |s| && r == s[..|r|]
    ensures r != [] ==> !IsSpace(r[|r| - 1])
    ensures forall i :: |r| <= i < |s| ==> IsSpace(s[i])
  {
    if s != [] && IsSpace(s[|s| - 1]) then TrimRight(s[..|s| - 1]) else s
  }

  /** `strings.TrimSpace`. */
  function TrimSpace(s: string): string {
    TrimRight(TrimLeft(s))
  }
}
