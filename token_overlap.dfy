/** The token-based Jaccard index of the similarity utilities: each string is
    cut into lower-cased alphanumeric tokens of at most 31 characters (a
    longer run continues as a further token), at most 32 tokens are kept, the
    two token lists are matched greedily, and the overlap is returned as an
    integer percentage. */
module TokenOverlap {
  import opened Wrappers
  import opened Text

  /** Rows of `char tokens[32][32]`. */
  const MAX_TOKENS: nat := 32
  /** Characters a token row holds before its terminator. */
  const TOKEN_CHARS: nat := 31

  /** A token as the tokeniser stores it: 1 to 31 characters, each
      alphanumeric and not an upper-case letter. */
  predicate IsToken(t: string)
  {
    1 <= |t| <= TOKEN_CHARS && forall i :: 0 <= i < |t| ==> IsAlnum(t[i]) && !('A' <= t[i] <= 'Z')
  }

  /** Where the skip loop stops from `p`: the next alphanumeric, or the end. */
  function SkipTo(s: string, p: nat): (q: nat)
    requires p <= |s|
    ensures p <= q <= |s|
    ensures forall i :: p <= i < q ==> !IsAlnum(s[i])
    ensures q < |s| ==> IsAlnum(s[q])
    decreases |s| - p
  {
    if p == |s| || IsAlnum(s[p]) then p else SkipTo(s, p + 1)
  }

  /** Where the copy loop stops from `p`: the end of the alphanumeric run,
      or `limit` characters on. */
  function RunEnd(s: string, p: nat, limit: nat): (q: nat)
    requires p <= |s|
    ensures p <= q <= |s| && q - p <= limit
    ensures forall i :: p <= i < q ==> IsAlnum(s[i])
    ensures q - p < limit && q < |s| ==> !IsAlnum(s[q])
    decreases limit
  {
    if limit == 0 || p == |s| || !IsAlnum(s[p]) then p else RunEnd(s, p + 1, limit - 1)
  }

  /** Every token the scanning loop produces from position `p` when the number
      of tokens is not limited: skip separators, then take up to 31
      alphanumerics, lowered. */
  function TokensFrom(s: string, p: nat): seq<string>
    requires p <= |s|
    decreases |s| - p
  {
    var q := SkipTo(s, p);
    if q == |s| then []
    else
      var e := RunEnd(s, q, TOKEN_CHARS);
      [LowerAll(s[q..e])] + TokensFrom(s, e)
  }

  /** The first `n` elements of `xs` (all of them when there are fewer). */
  function Take<T>(xs: seq<T>, n: nat): (r: seq<T>)
    ensures |r| <= n && |r| <= |xs| && r == xs[..|r|]
    ensures |xs| <= n ==> r == xs
    ensures |xs| > n ==> |r| == n
  {
    if |xs| <= n then xs else xs[..n]
  }

  /** The tokens kept for `s`: the first 32 of them. */
  function Tokens(s: string): (ts: seq<string>)
    ensures |ts| <= MAX_TOKENS
  {
    Take(TokensFrom(s, 0), MAX_TOKENS)
  }

  /** The lowered form of a run of 1 to 31 alphanumerics is a token. */
  lemma LoweredRunIsToken(s: string, q: nat, e: nat)
    requires q < e <= |s| && e - q <= TOKEN_CHARS
    requires forall i :: q <= i < e ==> IsAlnum(s[i])
    ensures IsToken(LowerAll(s[q..e]))
  {
    var t := LowerAll(s[q..e]);
    forall i | 0 <= i < |t|
      ensures IsAlnum(t[i]) && !('A' <= t[i] <= 'Z')
    {
      assert s[q..e][i] == s[q + i];
    }
  }

  /** Every token is a lower-cased alphanumeric piece of 1 to 31 characters. */
  lemma {:induction false} TokensFromAreTokens(s: string, p: nat)
    requires p <= |s|
    ensures forall k :: 0 <= k < |TokensFrom(s, p)| ==> IsToken(TokensFrom(s, p)[k])
    decreases |s| - p
  {
    var q := SkipTo(s, p);
    if q < |s| {
      var e := RunEnd(s, q, TOKEN_CHARS);
      LoweredRunIsToken(s, q, e);
      TokensFromAreTokens(s, e);
    }
  }

  /** At most 32 tokens are kept, each of them well formed. */
  lemma TokensAreTokens(s: string)
    ensures |Tokens(s)| <= MAX_TOKENS
    ensures forall k :: 0 <= k < |Tokens(s)| ==> IsToken(Tokens(s)[k])
  {
    TokensFromAreTokens(s, 0);
  }

  lemma TakeCons<T>(x: T, xs: seq<T>, n: nat)
    requires n >= 1
    ensures Take([x] + xs, n) == [x] + Take(xs, n - 1)
  {
    if |xs| > n - 1 {
      assert ([x] + xs)[..n] == [x] + xs[..n - 1];
    }
  }

  /** The loop skipping separators. */
  method SkipSeparators(s: string, p: nat) returns (q: nat)
    requires p <= |s|
    ensures q == SkipTo(s, p)
  {
    q := p;
    while q < |s| && !IsAlnum(s[q])
      invariant p <= q <= |s|
      invariant SkipTo(s, p) == SkipTo(s, q)
    {
      q := q + 1;
    }
  }

  /** Lowering a slice one character longer appends that character lowered. */
  lemma LowerSliceExtend(s: string, p: nat, q: nat)
    requires p <= q < |s|
    ensures LowerAll(s[p..q + 1]) == LowerAll(s[p..q]) + [Lower(s[q])]
  {
    assert s[p..q + 1] == s[p..q] + [s[q]];
  }

  /** The loop copying one token: up to 31 alphanumerics from `p`, lowered. */
  method ReadRun(s: string, p: nat) returns (token: string, q: nat)
    requires p <= |s|
    ensures q == RunEnd(s, p, TOKEN_CHARS)
    ensures token == LowerAll(s[p..q])
  {
    q := p;
    token := [];
    var i := 0;
    while q < |s| && IsAlnum(s[q]) && i < TOKEN_CHARS
      invariant p <= q <= |s| && i == q - p <= TOKEN_CHARS
      invariant RunEnd(s, p, TOKEN_CHARS) == RunEnd(s, q, TOKEN_CHARS - i)
      invariant token == LowerAll(s[p..q])
    {
      LowerSliceExtend(s, p, q);
      token := token + [Lower(s[q])];
      i := i + 1;
      q := q + 1;
    }
  }

  /** Storing the next element moves it from the pending part, of which
      `room` more are kept, to the filled rows. */
  lemma TakeStep<T>(rows: seq<T>, x: T, rest: seq<T>, room: nat)
    requires room >= 1
    ensures rows + Take([x] + rest, room) == (rows + [x]) + Take(rest, room - 1)
  {
    TakeCons(x, rest, room);
    assert rows + ([x] + Take(rest, room - 1)) == (rows + [x]) + Take(rest, room - 1);
  }

  /** One round of the scanning loop: skip separators, then copy a run. An
      empty token means the text ended before another alphanumeric. */
  method NextToken(s: string, p: nat) returns (token: string, q: nat)
    requires p <= |s|
    ensures q <= |s|
    ensures |token| > 0 ==> p < q && TokensFrom(s, p) == [token] + TokensFrom(s, q)
    ensures |token| == 0 ==> q == |s| && TokensFrom(s, p) == []
  {
    var start := SkipSeparators(s, p);
    token, q := ReadRun(s, start);
  }

  /** Writes row `n` of a buffer whose rows before `n` are filled. */
  method StoreRow<T>(buf: array<T>, n: nat, x: T)
    requires n < buf.Length
    modifies buf
    ensures buf[..n + 1] == old(buf[..n]) + [x]
    ensures buf[n + 1..] == old(buf[n + 1..])
  {
    buf[n] := x;
  }

  /** The tokenising loop of `fossil_it_magic_jaccard_index`, writing the rows
      of a 32-row buffer; the filled rows are exactly the tokens kept. */
  method Tokenize(s: string) returns (tokens: array<string>, count: nat)
    ensures tokens.Length == MAX_TOKENS && count <= MAX_TOKENS
    ensures tokens[..count] == Tokens(s)
  {
    tokens := new string[MAX_TOKENS](_ => "");
    count := 0;
    var p := 0;
    while p < |s| && count < MAX_TOKENS
      invariant p <= |s| && count <= MAX_TOKENS
      invariant Tokens(s) == tokens[..count] + Take(TokensFrom(s, p), MAX_TOKENS - count)
      decreases |s| - p
    {
      var token, q := NextToken(s, p);
      count := KeepToken(tokens, count, token, TokensFrom(s, q), Tokens(s));
      p := q;
    }
  }

  /** The end of one round of the tokenising loop: a non-empty token is
      stored in row `count`, which moves it from the pending tokens to the
      filled rows. */
  method KeepToken(tokens: array<string>, count: nat, token: string, ghost rest: seq<string>,
                   ghost target: seq<string>) returns (next: nat)
    requires count < tokens.Length == MAX_TOKENS
    requires target == tokens[..count] + Take(if |token| > 0 then [token] + rest else rest, MAX_TOKENS - count)
    modifies tokens
    ensures next == if |token| > 0 then count + 1 else count
    ensures target == tokens[..next] + Take(rest, MAX_TOKENS - next)
  {
    next := count;
    if |token| > 0 {
      TakeStep(tokens[..count], token, rest, MAX_TOKENS - count);
      StoreRow(tokens, count, token);
      next := count + 1;
    }
  }

  // ---------------------------------------------------------------------
  // Greedy matching.

  /** The greedy matching of the C loop on values: each token of `t1` takes
      one equal token still left in `pool`, if there is one. */
  function GreedyMatch<T>(t1: seq<T>, pool: multiset<T>): (m: nat)
    ensures m <= |t1| && m <= |pool|
  {
    if t1 == [] then 0
    else if t1[0] in pool then 1 + GreedyMatch(t1[1..], pool - multiset{t1[0]})
    else GreedyMatch(t1[1..], pool)
  }

  /** Intersecting with a pool that holds `x` pairs `x` off first. */
  lemma IntersectTaking<T>(x: T, m: multiset<T>, pool: multiset<T>)
    requires x in pool
    ensures (multiset{x} + m) * pool == multiset{x} + m * (pool - multiset{x})
  {
    forall y
      ensures ((multiset{x} + m) * pool)[y] == (multiset{x} + m * (pool - multiset{x}))[y]
    {
    }
  }

  /** Intersecting with a pool that lacks `x` ignores `x`. */
  lemma IntersectSkipping<T>(x: T, m: multiset<T>, pool: multiset<T>)
    requires x !in pool
    ensures (multiset{x} + m) * pool == m * pool
  {
    forall y
      ensures ((multiset{x} + m) * pool)[y] == (m * pool)[y]
    {
    }
  }

  /** Greedy matching never misses a pair: it finds as many pairs as the two
      multisets of tokens have in common. */
  lemma {:induction false} GreedyMatchIsIntersection<T>(t1: seq<T>, pool: multiset<T>)
    ensures GreedyMatch(t1, pool) == |multiset(t1) * pool|
  {
    if t1 != [] {
      var x, rest := t1[0], t1[1..];
      assert multiset(t1) == multiset{x} + multiset(rest) by {
        assert t1 == [x] + rest;
      }
      if x in pool {
        GreedyMatchIsIntersection(rest, pool - multiset{x});
        IntersectTaking(x, multiset(rest), pool);
      } else {
        GreedyMatchIsIntersection(rest, pool);
        IntersectSkipping(x, multiset(rest), pool);
      }
    }
  }

  /** The tokens of `t` whose `used` flag is still clear. */
  function Unused<T>(t: seq<T>, used: seq<bool>): (u: multiset<T>)
    requires |used| == |t|
    ensures |u| <= |t|
  {
    if t == [] then multiset{}
    else
      var n := |t| - 1;
      Unused(t[..n], used[..n]) + (if used[n] then multiset{} else multiset{t[n]})
  }

  lemma {:induction false} UnusedNoneUsed<T>(t: seq<T>, used: seq<bool>)
    requires |used| == |t| && forall j :: 0 <= j < |used| ==> !used[j]
    ensures Unused(t, used) == multiset(t)
  {
    if t != [] {
      var n := |t| - 1;
      UnusedNoneUsed(t[..n], used[..n]);
      assert t == t[..n] + [t[n]];
    }
  }

  /** A token whose flag is clear is in the pool. */
  lemma {:induction false} UnusedHas<T>(t: seq<T>, used: seq<bool>, j: nat)
    requires |used| == |t| && j < |t| && !used[j]
    ensures t[j] in Unused(t, used)
  {
    var n := |t| - 1;
    if j < n {
      UnusedHas(t[..n], used[..n], j);
    }
  }

  /** A token no clear flag points at is not in the pool. */
  lemma {:induction false} UnusedLacks<T>(t: seq<T>, used: seq<bool>, x: T)
    requires |used| == |t| && forall k :: 0 <= k < |t| ==> used[k] || t[k] != x
    ensures x !in Unused(t, used)
  {
    if t != [] {
      var n := |t| - 1;
      UnusedLacks(t[..n], used[..n], x);
    }
  }

  /** Setting one clear flag removes exactly that token from the pool. */
  lemma {:induction false} UnusedMark<T>(t: seq<T>, used: seq<bool>, j: nat)
    requires |used| == |t| && j < |t| && !used[j]
    ensures Unused(t, used[j := true]) == Unused(t, used) - multiset{t[j]}
    decreases |t|, 1
  {
    var n := |t| - 1;
    if j == n {
      assert used[j := true][..n] == used[..n];
    } else {
      UnusedMarkFront(t, used, j);
    }
  }

  /** The case of `UnusedMark` where the flag set is not the last one. */
  lemma {:induction false} UnusedMarkFront<T>(t: seq<T>, used: seq<bool>, j: nat)
    requires |used| == |t| && j < |t| - 1 && !used[j]
    ensures Unused(t, used[j := true]) == Unused(t, used) - multiset{t[j]}
    decreases |t|, 0
  {
    var n := |t| - 1;
    var marked := used[j := true];
    var last := if used[n] then multiset{} else multiset{t[n]};
    var front := Unused(t[..n], used[..n]);
    assert marked[..n] == used[..n][j := true];
    assert Unused(t, marked) == Unused(t[..n], marked[..n]) + last;
    UnusedMark(t[..n], used[..n], j);
    UnusedHas(t[..n], used[..n], j);
    assert t[..n][j] == t[j];
    MultisetShift(front, last, t[j]);
  }

  /** Taking out an element of `a` before or after adding `b` is the same. */
  lemma MultisetShift<T>(a: multiset<T>, b: multiset<T>, x: T)
    requires x in a
    ensures (a - multiset{x}) + b == (a + b) - multiset{x}
  {
  }

  lemma GreedyMatchStep<T>(t1: seq<T>, pool: multiset<T>)
    requires t1 != []
    ensures t1[0] in pool ==> GreedyMatch(t1, pool) == 1 + GreedyMatch(t1[1..], pool - multiset{t1[0]})
    ensures t1[0] !in pool ==> GreedyMatch(t1, pool) == GreedyMatch(t1[1..], pool)
  {
  }

  /** The inner loop of the matching: the first slot whose flag is clear and
      whose token equals `x`, or `count2` when there is none. */
  method FindUnused<T(==)>(t2: array<T>, count2: nat, used: array<bool>, x: T) returns (j: nat)
    requires count2 <= t2.Length && count2 <= used.Length
    ensures j <= count2
    ensures j < count2 ==> !used[j] && t2[j] == x
    ensures forall k :: 0 <= k < j ==> used[k] || t2[k] != x
  {
    j := 0;
    while j < count2
      invariant j <= count2
      invariant forall k :: 0 <= k < j ==> used[k] || t2[k] != x
    {
      if !used[j] && t2[j] == x {
        return;
      }
      j := j + 1;
    }
  }

  /** One round of the outer matching loop: the first clear slot holding `x`
      is marked used, and the pool of clear slots loses one `x` exactly when
      it had one. */
  method MatchOne(x: string, t2: array<string>, count2: nat, used: array<bool>) returns (hit: bool)
    requires count2 <= t2.Length && count2 <= used.Length
    modifies used
    ensures hit == (x in Unused(t2[..count2], old(used[..count2])))
    ensures Unused(t2[..count2], used[..count2])
            == Unused(t2[..count2], old(used[..count2])) - (if hit then multiset{x} else multiset{})
  {
    ghost var before := used[..count2];
    var j := FindUnused(t2, count2, used, x);
    if j < count2 {
      UnusedHas(t2[..count2], before, j);
      UnusedMark(t2[..count2], before, j);
      used[j] := true;
      assert used[..count2] == before[j := true];
      hit := true;
    } else {
      UnusedLacks(t2[..count2], before, x);
      hit := false;
    }
  }

  /** One round of the matching loop keeps the running count plus the greedy
      matching of the remaining tokens against the clear slots unchanged. */
  lemma MatchRound<T>(s1: seq<T>, i: nat, s2: seq<T>, before: seq<bool>, after: seq<bool>, hit: bool, m: nat)
    requires i < |s1| && |before| == |s2| && |after| == |s2|
    requires hit == (s1[i] in Unused(s2, before))
    requires Unused(s2, after) == Unused(s2, before) - (if hit then multiset{s1[i]} else multiset{})
    ensures (if hit then m + 1 else m) + GreedyMatch(s1[i + 1..], Unused(s2, after))
            == m + GreedyMatch(s1[i..], Unused(s2, before))
  {
    var pool := Unused(s2, before);
    assert s1[i..][0] == s1[i] && s1[i..][1..] == s1[i + 1..];
    GreedyMatchStep(s1[i..], pool);
    if !hit {
      assert pool - multiset{} == pool;
    }
  }

  /** The matching loop with its `used[]` flags over the filled rows: it
      counts the pairs greedy matching finds. */
  method MatchCount(t1: array<string>, count1: nat, t2: array<string>, count2: nat) returns (m: nat)
    requires count1 <= t1.Length && count2 <= t2.Length && count2 <= MAX_TOKENS
    ensures m == GreedyMatch(t1[..count1], multiset(t2[..count2]))
  {
    ghost var s1, s2 := t1[..count1], t2[..count2];
    var used := new bool[MAX_TOKENS](_ => false);
    UnusedNoneUsed(s2, used[..count2]);
    m := 0;
    for i := 0 to count1
      invariant m + GreedyMatch(s1[i..], Unused(s2, used[..count2])) == GreedyMatch(s1, multiset(s2))
    {
      ghost var before := used[..count2];
      var hit := MatchOne(t1[i], t2, count2, used);
      assert t2[..count2] == s2 && t1[i] == s1[i];
      MatchRound(s1, i, s2, before, used[..count2], hit, m);
      if hit {
        m := m + 1;
      }
    }
  }

  // ---------------------------------------------------------------------
  // The index.

  /** Division of naturals rounded down, as C's `/` behaves on non-negative
      operands, by repeated subtraction. */
  function Quotient(x: nat, d: nat): nat
    requires d > 0
    decreases x
  {
    if x < d then 0 else 1 + Quotient(x - d, d)
  }

  lemma {:induction false} QuotientBounds(x: nat, d: nat)
    requires d > 0
    ensures Quotient(x, d) * d <= x < Quotient(x, d) * d + d
    decreases x
  {
    if x >= d {
      QuotientBounds(x - d, d);
      var q := Quotient(x - d, d);
      assert (q + 1) * d == q * d + d;
    }
  }

  lemma ScaleMonotone(a: int, b: int, d: nat)
    requires a <= b
    ensures a * d <= b * d
  {
    assert b * d - a * d == (b - a) * d;
  }

  /** `Quotient` is integer division. */
  lemma QuotientIsDivision(x: nat, d: nat)
    requires d > 0
    ensures Quotient(x, d) == x / d
  {
    QuotientBounds(x, d);
    var q, r := Quotient(x, d), x / d;
    assert r * d <= x < r * d + d;
    if r < q {
      assert (r + 1) * d == r * d + d;
      ScaleMonotone(r + 1, q, d);
    } else if q < r {
      assert (q + 1) * d == q * d + d;
      ScaleMonotone(q + 1, r, d);
    }
  }

  lemma {:induction false} QuotientAtMost(x: nat, d: nat, k: nat)
    requires d > 0 && x <= k * d
    ensures Quotient(x, d) <= k
    decreases x
  {
    if x >= d {
      assert k != 0;
      assert (k - 1) * d == k * d - d;
      QuotientAtMost(x - d, d, k - 1);
    }
  }

  lemma {:induction false} QuotientOfMultiple(k: nat, d: nat)
    requires d > 0
    ensures Quotient(k * d, d) == k
    decreases k
  {
    if k > 0 {
      assert k * d - d == (k - 1) * d;
      QuotientOfMultiple(k - 1, d);
    }
  }

  /** `total ? (100 * match / total) : 0`: a percentage rounded down, which
      stays in 0..100, is 0 for no matches and 100 when everything matches. */
  function Percent(m: nat, total: nat): (r: int)
    requires m <= total
    ensures 0 <= r <= 100
    ensures m == 0 ==> r == 0
    ensures 0 < m == total ==> r == 100
  {
    if total != 0 then
      QuotientAtMost(100 * m, total, 100);
      if m == total then QuotientOfMultiple(100, total); Quotient(100 * m, total)
      else Quotient(100 * m, total)
    else 0
  }

  /** The percentage for two token lists: matched pairs over the size of the
      union (both lists less the matched pairs), and 0 when there are no
      tokens at all. It is 0 when either side has no tokens. */
  function JaccardOf(t1: seq<string>, t2: seq<string>): (r: int)
    ensures 0 <= r <= 100
    ensures t1 == [] || t2 == [] ==> r == 0
  {
    var m := GreedyMatch(t1, multiset(t2));
    Percent(m, |t1| + |t2| - m)
  }

  lemma JaccardOfMatch(t1: seq<string>, t2: seq<string>, m: nat, total: int)
    requires m == GreedyMatch(t1, multiset(t2)) && total == |t1| + |t2| - m
    ensures 0 <= m <= total
    ensures JaccardOf(t1, t2) == Percent(m, total)
  {
  }

  /** `fossil_it_magic_jaccard_index` on two non-NULL strings. */
  function Jaccard(a: string, b: string): (r: int)
    ensures 0 <= r <= 100
  {
    JaccardOf(Tokens(a), Tokens(b))
  }

  lemma JaccardOfTokens(a: string, b: string, t1: seq<string>, t2: seq<string>)
    requires t1 == Tokens(a) && t2 == Tokens(b)
    ensures Jaccard(a, b) == JaccardOf(t1, t2)
  {
  }

  /** The C function: 0 for a NULL argument, else the index of the two token
      lists its buffers hold. */
  method JaccardIndex(s1: Option<string>, s2: Option<string>) returns (r: int)
    ensures s1.None? || s2.None? ==> r == 0
    ensures s1.Some? && s2.Some? ==> r == Jaccard(s1.value, s2.value)
  {
    if s1.None? || s2.None? {
      return 0;
    }
    var tokens1, count1 := Tokenize(s1.value);
    var tokens2, count2 := Tokenize(s2.value);
    var matched := MatchCount(tokens1, count1, tokens2, count2);
    ghost var t1, t2 := tokens1[..count1], tokens2[..count2];
    assert |t1| == count1 && |multiset(t2)| == |t2| == count2;
    assert matched == GreedyMatch(t1, multiset(t2));
    var total := count1 + count2 - matched;
    JaccardOfMatch(t1, t2, matched, total);
    r := Percent(matched, total);
    JaccardOfTokens(s1.value, s2.value, t1, t2);
  }

  lemma IntersectCommutes<T>(a: multiset<T>, b: multiset<T>)
    ensures a * b == b * a
  {
    forall y
      ensures (a * b)[y] == (b * a)[y]
    {
    }
  }

  lemma IntersectSelf<T>(a: multiset<T>)
    ensures a * a == a
  {
    forall y
      ensures (a * a)[y] == a[y]
    {
    }
  }

  /** Greedy matching finds the same number of pairs in either direction. */
  lemma GreedyMatchSymmetric(t1: seq<string>, t2: seq<string>)
    ensures GreedyMatch(t1, multiset(t2)) == GreedyMatch(t2, multiset(t1))
  {
    GreedyMatchIsIntersection(t1, multiset(t2));
    GreedyMatchIsIntersection(t2, multiset(t1));
    IntersectCommutes(multiset(t1), multiset(t2));
  }

  lemma JaccardOfSymmetric(t1: seq<string>, t2: seq<string>)
    ensures JaccardOf(t1, t2) == JaccardOf(t2, t1)
  {
    GreedyMatchSymmetric(t1, t2);
    var m := GreedyMatch(t1, multiset(t2));
    assert |t1| + |t2| - m == |t2| + |t1| - m;
  }

  /** The index does not depend on the order of its arguments. */
  lemma JaccardSymmetric(a: string, b: string)
    ensures Jaccard(a, b) == Jaccard(b, a)
  {
    JaccardOfSymmetric(Tokens(a), Tokens(b));
  }

  /** Token lists with the same tokens, in any order, overlap fully. */
  lemma JaccardOfSameTokens(t1: seq<string>, t2: seq<string>)
    requires multiset(t1) == multiset(t2) && t1 != []
    ensures JaccardOf(t1, t2) == 100
  {
    GreedyMatchIsIntersection(t1, multiset(t2));
    IntersectSelf(multiset(t1));
    assert |t1| == |multiset(t1)| == |multiset(t2)| == |t2|;
  }

  /** A string with at least one token scores 100 against itself. */
  lemma JaccardSelf(a: string)
    requires Tokens(a) != []
    ensures Jaccard(a, a) == 100
  {
    JaccardOfSameTokens(Tokens(a), Tokens(a));
  }

  /** An alphanumeric run of 32 to 62 characters is not dropped: it becomes a
      31-character token followed by a token holding the rest. */
  lemma LongRunSplits(s: string)
    requires TOKEN_CHARS < |s| <= 2 * TOKEN_CHARS
    requires forall i :: 0 <= i < |s| ==> IsAlnum(s[i])
    ensures Tokens(s) == [LowerAll(s[..TOKEN_CHARS]), LowerAll(s[TOKEN_CHARS..])]
  {
    var n := TOKEN_CHARS;
    assert SkipTo(s, 0) == 0 && RunEnd(s, 0, n) == n;
    assert SkipTo(s, n) == n && RunEnd(s, n, n) == |s|;
    assert TokensFrom(s, |s|) == [];
    assert TokensFrom(s, n) == [LowerAll(s[n..|s|])];
    assert TokensFrom(s, 0) == [LowerAll(s[0..n])] + [LowerAll(s[n..|s|])];
    assert s[0..n] == s[..n] && s[n..|s|] == s[n..];
  }
}
