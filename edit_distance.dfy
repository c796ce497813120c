/** The case-insensitive restricted Damerau-Levenshtein distance of the
    similarity utilities, as the dynamic program fills its table, and the
    distance that table was meant to compute. The table recurrences work on
    the lower-cased strings, which is what comparing `tolower` of each pair of
    characters amounts to. */
module EditDistance {
  import opened Wrappers
  import opened Text

  /** The sentinel returned for a NULL argument. */
  const INT_MAX: int := 2147483647

  function Min(x: int, y: int): int
  {
    if x < y then x else y
  }

  function Max(x: int, y: int): int
  {
    if x < y then y else x
  }

  /** Substitution cost of `a[i-1]` against `b[j-1]`. */
  function Cost(a: string, b: string, i: nat, j: nat): nat
    requires 1 <= i <= |a| && 1 <= j <= |b|
  {
    if a[i - 1] == b[j - 1] then 0 else 1
  }

  /** The last two characters of the prefixes are swapped. */
  predicate Transposed(a: string, b: string, i: nat, j: nat)
    requires i <= |a| && j <= |b|
  {
    i > 1 && j > 1 && a[i - 1] == b[j - 2] && a[i - 2] == b[j - 1]
  }

  /** One cell from its deletion, insertion and substitution neighbours and,
      when the last characters are swapped, the transposition neighbour
      (which the C code charges `cost`, not 1). */
  function Combine(del: nat, ins: nat, sub: nat, transposed: bool, trans: nat): (r: nat)
    ensures r <= del && r <= ins && r <= sub && (transposed ==> r <= trans)
  {
    var best := Min(Min(del, ins), sub);
    if transposed then Min(best, trans) else best
  }

  /** A bound below every candidate is below the minimum. */
  lemma CombineAtLeast(x: int, del: nat, ins: nat, sub: nat, transposed: bool, trans: nat)
    requires x <= del && x <= ins && x <= sub && (transposed ==> x <= trans)
    ensures x <= Combine(del, ins, sub, transposed, trans)
  {
  }

  /** Cell DP(i, j) of the table exactly as the C code fills it. Row 0 holds
      `j`; column 0 is never written and keeps the zero `calloc` put there, so
      dropping leading characters of `a` is free. Every cell is bounded by the
      insertions it needs (`j - i`) and by `j`. */
  function Cell(a: string, b: string, i: nat, j: nat): (r: nat)
    requires i <= |a| && j <= |b|
    ensures r <= j
    ensures j <= r + i
    decreases i + j
  {
    if i == 0 then j
    else if j == 0 then 0
    else
      var cost := Cost(a, b, i, j);
      var trans := if Transposed(a, b, i, j) then Cell(a, b, i - 2, j - 2) + cost else 0;
      CombineAtLeast(j - i, Cell(a, b, i - 1, j) + 1, Cell(a, b, i, j - 1) + 1, Cell(a, b, i - 1, j - 1) + cost,
                     Transposed(a, b, i, j), trans);
      Combine(Cell(a, b, i - 1, j) + 1, Cell(a, b, i, j - 1) + 1, Cell(a, b, i - 1, j - 1) + cost,
              Transposed(a, b, i, j), trans)
  }

  /** The value of `fossil_it_magic_levenshtein_distance` for two non-NULL
      strings. It charges only for the characters of `b` it must produce:
      `|b| - |a| <= r <= |b|`, so from the empty string it is `|b|` and to the
      empty string it is 0. */
  function Distance(a: string, b: string): (r: nat)
    ensures |b| - |a| <= r <= |b|
    ensures a == [] ==> r == |b|
    ensures b == [] ==> r == 0
  {
    Cell(LowerAll(a), LowerAll(b), |a|, |b|)
  }

  /** One cell `dp[i][j]` from its neighbours. The C code lowers each
      character as it compares it; here `la` and `lb` are the strings lowered
      once beforehand, which compares the same pairs. */
  method FillCell(dp: array2<int>, la: string, lb: string, i: nat, j: nat) returns (v: int)
    requires 1 <= i <= |la| && 1 <= j <= |lb| && i < dp.Length0 && j < dp.Length1
    requires dp[i - 1, j] == Cell(la, lb, i - 1, j)
    requires dp[i, j - 1] == Cell(la, lb, i, j - 1)
    requires dp[i - 1, j - 1] == Cell(la, lb, i - 1, j - 1)
    requires i > 1 && j > 1 ==> dp[i - 2, j - 2] == Cell(la, lb, i - 2, j - 2)
    ensures v == Cell(la, lb, i, j)
  {
    var cost := if la[i - 1] == lb[j - 1] then 0 else 1;
    var del := dp[i - 1, j] + 1;
    var ins := dp[i, j - 1] + 1;
    var sub := dp[i - 1, j - 1] + cost;
    v := if del < ins then del else ins;
    v := if v < sub then v else sub;
    if i > 1 && j > 1 && la[i - 1] == lb[j - 2] && la[i - 2] == lb[j - 1] {
      v := if v < dp[i - 2, j - 2] + cost then v else dp[i - 2, j - 2] + cost;
    }
  }

  /** Row `i` of the table, left to right, from the rows above it. */
  method FillRow(dp: array2<int>, la: string, lb: string, i: nat)
    requires 1 <= i <= |la| && dp.Length0 == |la| + 2 && dp.Length1 == |lb| + 2
    requires forall r, c {:trigger dp[r, c]} :: 0 <= r < i && 0 <= c <= |lb| ==> dp[r, c] == Cell(la, lb, r, c)
    requires dp[i, 0] == 0
    modifies dp
    ensures forall c {:trigger dp[i, c]} :: 0 <= c <= |lb| ==> dp[i, c] == Cell(la, lb, i, c)
    ensures forall r, c {:trigger dp[r, c]} :: 0 <= r < dp.Length0 && 0 <= c < dp.Length1 && r != i ==> dp[r, c] == old(dp[r, c])
  {
    for j := 1 to |lb| + 1
      invariant forall c {:trigger dp[i, c]} :: 0 <= c < j ==> dp[i, c] == Cell(la, lb, i, c)
      invariant forall r, c {:trigger dp[r, c]} :: 0 <= r < dp.Length0 && 0 <= c < dp.Length1 && r != i ==> dp[r, c] == old(dp[r, c])
    {
      var v := FillCell(dp, la, lb, i, j);
      dp[i, j] := v;
    }
  }

  /** The C function over a `(len1 + 2) x (len2 + 2)` zero-filled table; only
      row 0 and the cells with `i, j >= 1` are ever written. */
  method LevenshteinDistance(s1: Option<string>, s2: Option<string>) returns (r: int)
    ensures s1.None? || s2.None? ==> r == INT_MAX
    ensures s1.Some? && s2.Some? ==> r == Distance(s1.value, s2.value)
  {
    if s1.None? || s2.None? {
      return INT_MAX;
    }
    var la, lb := LowerAll(s1.value), LowerAll(s2.value);
    var len1, len2 := |la|, |lb|;
    var dp := new int[len1 + 2, len2 + 2]((_, _) => 0);
    for j := 0 to len2 + 1
      invariant forall c :: 0 <= c < j ==> dp[0, c] == c
      invariant forall r :: 0 < r < len1 + 2 ==> dp[r, 0] == 0
    {
      dp[0, j] := j;
    }
    for i := 1 to len1 + 1
      invariant forall r, c {:trigger dp[r, c]} :: 0 <= r < i && 0 <= c <= len2 ==> dp[r, c] == Cell(la, lb, r, c)
      invariant forall r :: i <= r < len1 + 2 ==> dp[r, 0] == 0
    {
      FillRow(dp, la, lb, i);
    }
    r := dp[len1, len2];
  }

  /** The diagonal of the table of a string against itself stays 0. */
  lemma {:induction false} CellDiagonalZero(s: string, i: nat)
    requires i <= |s|
    ensures Cell(s, s, i, i) == 0
  {
    if i > 0 {
      CellDiagonalZero(s, i - 1);
    }
  }

  /** Strings equal up to case are at distance 0. */
  lemma DistanceToSelf(a: string, b: string)
    requires EqualsCI(a, b)
    ensures Distance(a, b) == 0
  {
    assert LowerAll(a) == LowerAll(b);
    CellDiagonalZero(LowerAll(a), |a|);
  }

  /** Row `d + k`, column `k` is 0 when `b` is the tail of `a` from `d`: the
      first `d` characters are dropped for free. */
  lemma {:induction false} CellTailZero(a: string, b: string, d: nat, k: nat)
    requires d + |b| == |a| && a[d..] == b && k <= |b|
    ensures Cell(a, b, d + k, k) == 0
  {
    if k > 0 {
      CellTailZero(a, b, d, k - 1);
      assert a[d + k - 1] == a[d..][k - 1];
    }
  }

  /** The table charges nothing for deleting a leading part `p` of `s1`:
      "xb" is at distance 0 from "b" and "a" from "", although one deletion is
      needed in each case, while the minimum edit count is at least `|p|`. */
  lemma LevenshteinNotMinimal(p: string, b: string)
    ensures Distance(p + b, b) == 0
    ensures OsaDistance(p + b, b) >= |p|
  {
    var la, lb := LowerAll(p + b), LowerAll(b);
    assert la[|p|..] == lb;
    CellTailZero(la, lb, |p|, |b|);
  }

  /** The distance is not symmetric: "a" to "" costs 0, "" to "a" costs 1. */
  lemma DistanceNotSymmetric()
    ensures Distance("a", "") == 0 && Distance("", "a") == 1
  {
  }

  // ---------------------------------------------------------------------
  // The evidently intended distance: column 0 initialised to i.

  /** The restricted Damerau-Levenshtein (optimal string alignment) table with
      both borders initialised. It is at least the length difference. */
  function OsaCell(a: string, b: string, i: nat, j: nat): (r: nat)
    requires i <= |a| && j <= |b|
    ensures j <= r + i && i <= r + j
    decreases i + j
  {
    if i == 0 then j
    else if j == 0 then i
    else
      var cost := Cost(a, b, i, j);
      var trans := if Transposed(a, b, i, j) then OsaCell(a, b, i - 2, j - 2) + cost else 0;
      CombineAtLeast(j - i, OsaCell(a, b, i - 1, j) + 1, OsaCell(a, b, i, j - 1) + 1, OsaCell(a, b, i - 1, j - 1) + cost,
                     Transposed(a, b, i, j), trans);
      CombineAtLeast(i - j, OsaCell(a, b, i - 1, j) + 1, OsaCell(a, b, i, j - 1) + 1, OsaCell(a, b, i - 1, j - 1) + cost,
                     Transposed(a, b, i, j), trans);
      Combine(OsaCell(a, b, i - 1, j) + 1, OsaCell(a, b, i, j - 1) + 1, OsaCell(a, b, i - 1, j - 1) + cost,
              Transposed(a, b, i, j), trans)
  }

  /** The corrected distance: the full length against the empty string, and
      at least the length difference either way. */
  function OsaDistance(a: string, b: string): (r: nat)
    ensures a == [] ==> r == |b|
    ensures b == [] ==> r == |a|
    ensures |a| - |b| <= r && |b| - |a| <= r
  {
    OsaCell(LowerAll(a), LowerAll(b), |a|, |b|)
  }

  lemma {:induction false} OsaCellDiagonalZero(s: string, i: nat)
    requires i <= |s|
    ensures OsaCell(s, s, i, i) == 0
  {
    if i > 0 {
      OsaCellDiagonalZero(s, i - 1);
    }
  }

  /** Strings equal up to case are at corrected distance 0. */
  lemma OsaDistanceToSelf(a: string, b: string)
    requires EqualsCI(a, b)
    ensures OsaDistance(a, b) == 0
  {
    assert LowerAll(a) == LowerAll(b);
    OsaCellDiagonalZero(LowerAll(a), |a|);
  }
}
