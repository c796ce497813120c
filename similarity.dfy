/** The combined similarity score of two strings, and the boosted score the
    path and token recovery scanners rank candidates by. Scores are reals:
    the C code computes them in single-precision `float`, whose rounding is
    not modelled. */
module Similarity {
  import opened Wrappers
  import opened Text
  import EditDistance
  import TokenOverlap

  const PREFIX_BONUS: real := 0.10
  const SUFFIX_BONUS: real := 0.07

  /** The two clamping steps at the end of the similarity function. */
  function Clamp(x: real): (r: real)
    ensures 0.0 <= r <= 1.0
    ensures 0.0 <= x <= 1.0 ==> r == x
    ensures x > 1.0 ==> r == 1.0
    ensures x < 0.0 ==> r == 0.0
  {
    if x > 1.0 then 1.0 else if x < 0.0 then 0.0 else x
  }

  /** The bonus for `a` being a case-insensitive prefix of `b`. */
  function PrefixBonus(a: string, b: string): real
  {
    if IsPrefixCI(a, b) then PREFIX_BONUS else 0.0
  }

  /** The bonus for `a` being a case-insensitive suffix of `b`, guarded by
      the length test the C code writes out. */
  function SuffixBonus(a: string, b: string): real
  {
    if |a| <= |b| && IsSuffixCI(a, b) then SUFFIX_BONUS else 0.0
  }

  /** A count out of a positive total, as a fraction in 0..1. */
  function Ratio(d: nat, m: nat): (r: real)
    requires d <= m && m > 0
    ensures 0.0 <= r <= 1.0
    ensures d == 0 ==> r == 0.0
    ensures d == m ==> r == 1.0
  {
    var q := d as real / m as real;
    assert q * m as real == d as real;
    q
  }

  /** The edit-distance term `1 - dist / max_len`. */
  function DistanceTerm(a: string, b: string): (r: real)
    requires a != [] || b != []
    ensures 0.0 <= r <= 1.0
    ensures EqualsCI(a, b) ==> r == 1.0
  {
    var maxLen := if |a| > |b| then |a| else |b|;
    if EqualsCI(a, b) then EditDistance.DistanceToSelf(a, b); 1.0 - Ratio(EditDistance.Distance(a, b), maxLen)
    else 1.0 - Ratio(EditDistance.Distance(a, b), maxLen)
  }

  /** The score before clamping: the distance term, half the Jaccard
      percentage as a fraction, and the two affix bonuses. */
  function RawScore(a: string, b: string): (r: real)
    requires a != [] || b != []
    ensures DistanceTerm(a, b) <= r <= DistanceTerm(a, b) + 0.5 + PREFIX_BONUS + SUFFIX_BONUS
  {
    DistanceTerm(a, b) + TokenOverlap.Jaccard(a, b) as real / 200.0 + PrefixBonus(a, b) + SuffixBonus(a, b)
  }

  /** `fossil_it_magic_similarity`: 0 when either string is NULL, 1 when both
      are empty, otherwise the raw score clamped into 0..1. */
  function Similarity(a: Option<string>, b: Option<string>): (r: real)
    ensures 0.0 <= r <= 1.0
    ensures a.None? || b.None? ==> r == 0.0
    ensures a == Some([]) && b == Some([]) ==> r == 1.0
    ensures a.Some? && b.Some? && (a.value != [] || b.value != []) ==>
              r == Clamp(RawScore(a.value, b.value))
  {
    if a.None? || b.None? then 0.0
    else if a.value == [] && b.value == [] then 1.0
    else Clamp(RawScore(a.value, b.value))
  }

  /** The score is never below the edit-distance term alone, and the affix
      bonuses only raise it. */
  lemma SimilarityAtLeastDistanceTerm(a: string, b: string)
    requires a != [] || b != []
    ensures Similarity(Some(a), Some(b)) >= DistanceTerm(a, b)
    ensures IsPrefixCI(a, b) ==> Similarity(Some(a), Some(b)) >= Clamp(DistanceTerm(a, b) + PREFIX_BONUS)
  {
  }

  /** A string is fully similar to itself, and to any string equal to it up
      to letter case. */
  lemma SimilaritySelf(a: string, b: string)
    requires EqualsCI(a, b)
    ensures Similarity(Some(a), Some(b)) == 1.0
  {
    if a != [] {
      assert DistanceTerm(a, b) == 1.0;
    }
  }

  /** Through the table's zero column, a non-empty string is fully similar
      to the empty string. */
  lemma SimilarityToEmpty(a: string)
    requires a != []
    ensures Similarity(Some(a), Some([])) == 1.0
  {
    assert EditDistance.Distance(a, []) == 0;
    assert DistanceTerm(a, []) == 1.0;
  }

  /** The other way round the empty string scores only its two affix
      bonuses, so the similarity is not symmetric. */
  lemma SimilarityFromEmpty(b: string)
    requires b != []
    ensures Similarity(Some([]), Some(b)) == PREFIX_BONUS + SUFFIX_BONUS
  {
    assert EditDistance.Distance([], b) == |b|;
    assert DistanceTerm([], b) == 0.0;
    assert TokenOverlap.Tokens([]) == [];
    assert TokenOverlap.Jaccard([], b) == 0;
    assert b[..0] == [] && b[|b| - 0..] == [];
  }

  /** The score the path and token scanners rank by: the clamped similarity
      plus the two affix bonuses a second time, unclamped. */
  function BoostedScore(a: string, b: string): (r: real)
    ensures 0.0 <= r <= 1.0 + PREFIX_BONUS + SUFFIX_BONUS
    ensures Similarity(Some(a), Some(b)) <= r
  {
    Similarity(Some(a), Some(b)) + PrefixBonus(a, b) + SuffixBonus(a, b)
  }

  /** The boosted score as the scanners add it up: the similarity, then each
      bonus that applies. */
  method ComputeBoostedScore(a: string, b: string) returns (score: real)
    ensures score == BoostedScore(a, b)
  {
    score := Similarity(Some(a), Some(b));
    if IsPrefixCI(a, b) {
      score := score + PREFIX_BONUS;
    }
    if |a| <= |b| && IsSuffixCI(a, b) {
      score := score + SUFFIX_BONUS;
    }
  }

  /** A string ranks itself at 1.17, above the 0..1 range the header
      documents for similarity scores and confidences. */
  lemma BoostedScoreSelf(a: string)
    ensures BoostedScore(a, a) == 1.0 + PREFIX_BONUS + SUFFIX_BONUS
    ensures BoostedScore(a, a) > 1.0
  {
    AffixesOfSelf(a);
    SimilaritySelf(a, a);
  }
}
