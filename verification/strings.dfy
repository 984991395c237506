/** String operations of Python's `str` that the adapters use, over `seq<char>`. */
module Strings {
  import opened Seqs

  predicate StartsWith(s: string, prefix: string) {
    |prefix| <= |s| && s[..|prefix|] == prefix
  }

  predicate EndsWith(s: string, suffix: string) {
    |suffix| <= |s| && s[|s| - |suffix|..] == suffix
  }

  /** Python's substring test `sub in s`. */
  predicate Contains(s: string, sub: string)
    decreases |s|
  {
    StartsWith(s, sub) || (|s| > 0 && Contains(s[1..], sub))
  }

  /** Length of the longest suffix of `s` whose characters all satisfy `p`. */
  function SuffixRun(s: string, p: char -> bool): (k: nat)
    ensures k <= |s|
    ensures forall i :: |s| - k <= i < |s| ==> p(s[i])
    ensures k < |s| ==> !p(s[|s| - k - 1])
  {
    if |s| == 0 || !p(s[|s| - 1]) then 0 else 1 + SuffixRun(s[..|s| - 1], p)
  }

  /** A run of `p`-characters that ends the string and is not preceded by one is the longest such suffix. */
  lemma SuffixRunExact(s: string, p: char -> bool, k: nat)
    requires k <= |s|
    requires forall i :: |s| - k <= i < |s| ==> p(s[i])
    requires k < |s| ==> !p(s[|s| - k - 1])
    ensures SuffixRun(s, p) == k
  {
  }

  /** A concatenation starts with its first part and ends like its second. */
  lemma ConcatEnds(a: string, b: string, suffix: string)
    requires EndsWith(b, suffix)
    ensures StartsWith(a + b, a) && EndsWith(a + b, suffix)
  {
    assert (a + b)[..|a|] == a;
    assert (a + b)[|a + b| - |suffix|..] == b[|b| - |suffix|..];
  }

  /** Python's `s.rstrip(c)` for a single character `c`. */
  function RStrip(s: string, c: char): (r: string)
    ensures StartsWith(s, r)
    ensures |r| == 0 || r[|r| - 1] != c
    ensures forall i :: |r| <= i < |s| ==> s[i] == c
  {
    if |s| > 0 && s[|s| - 1] == c then RStrip(s[..|s| - 1], c) else s
  }

  /** Python's `sep.join(parts)`. */
  function Join(sep: string, parts: seq<string>): string {
    if |parts| == 0 then ""
    else if |parts| == 1 then parts[0]
    else parts[0] + sep + Join(sep, parts[1..])
  }
}
