/** Character and C-string helpers shared by the scorers: the ASCII behaviour
    of `tolower`/`isalnum` in the C locale, the case-insensitive comparisons
    the scorers borrow from the string library, and the `strncpy` copy into a
    fixed-capacity field. */
module Text {

  /** `tolower` in the C locale: only 'A'..'Z' change. */
  function Lower(c: char): (r: char)
    ensures 'A' <= c <= 'Z' ==> 'a' <= r <= 'z' && r as int == c as int + 32
    ensures !('A' <= c <= 'Z') ==> r == c
  {
    if 'A' <= c <= 'Z' then (c as int + 32) as char else c
  }

  /** `isalnum` in the C locale. */
  predicate IsAlnum(c: char)
  {
    ('a' <= c <= 'z') || ('A' <= c <= 'Z') || ('0' <= c <= '9')
  }

  function LowerAll(s: string): (r: string)
    ensures |r| == |s|
    ensures forall i :: 0 <= i < |s| ==> r[i] == Lower(s[i])
  {
    seq(|s|, i requires 0 <= i < |s| => Lower(s[i]))
  }

  /** Case-insensitive equality (`fossil_io_cstring_iequals`, and
      `fossil_io_cstring_case_compare(..) == 0`). */
  predicate EqualsCI(a: string, b: string)
  {
    |a| == |b| && forall i :: 0 <= i < |a| ==> Lower(a[i]) == Lower(b[i])
  }

  /** `p` is a prefix of `s` (`fossil_io_cstring_starts_with(p, s)`). */
  predicate IsPrefix(p: string, s: string)
  {
    |p| <= |s| && p == s[..|p|]
  }

  /** `p` is a case-insensitive prefix of `s`
      (`fossil_io_cstring_case_starts_with(p, s)`). */
  predicate IsPrefixCI(p: string, s: string)
  {
    |p| <= |s| && EqualsCI(p, s[..|p|])
  }

  /** `x` is a case-insensitive suffix of `s`
      (`fossil_io_cstring_case_ends_with(s, x)`). */
  predicate IsSuffixCI(x: string, s: string)
  {
    |x| <= |s| && EqualsCI(x, s[|s| - |x|..])
  }

  /** Every string is a prefix and a suffix of itself, in either case mode. */
  lemma AffixesOfSelf(s: string)
    ensures IsPrefix(s, s) && IsPrefixCI(s, s) && IsSuffixCI(s, s) && EqualsCI(s, s)
  {
    assert s[..|s|] == s;
    assert s[|s| - |s|..] == s;
  }

  /** `strncpy(dst, src, cap - 1); dst[cap - 1] = 0`: the field keeps at most
      `cap - 1` characters of `s`, from its start. */
  function Truncate(s: string, cap: nat): (r: string)
    requires cap >= 1
    ensures |r| <= cap - 1
    ensures |r| <= |s| && r == s[..|r|]
    ensures |s| < cap ==> r == s
    ensures |s| >= cap ==> |r| == cap - 1
  {
    if |s| < cap then s else s[..cap - 1]
  }
}
