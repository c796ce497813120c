/** Token auto-recovery: every candidate is scored against a mistyped token,
    the best and second-best scores are tracked with strict comparisons, and
    the best is applied when it scores above 0.80. */
module AutoRecovery {
  import opened Text
  import opened MagicTypes
  import Similarity

  /** A best score above this is applied. */
  const APPLY_THRESHOLD: real := 0.80

  /** The four tracking variables; an index of -1 means none yet. */
  datatype Leaders = Leaders(bestScore: real, bestIdx: int, secondScore: real, secondIdx: int)

  const NoLeaders: Leaders := Leaders(0.0, -1, 0.0, -1)

  /** One iteration: a score above the best demotes the best to second; a
      score above only the second replaces the second. */
  function Observe(l: Leaders, i: nat, score: real): Leaders
  {
    if score > l.bestScore then Leaders(score, i, l.bestScore, l.bestIdx)
    else if score > l.secondScore then Leaders(l.bestScore, l.bestIdx, score, i)
    else l
  }

  /** The tracking variables after the loop has seen `scores`. */
  function Lead(scores: seq<real>): Leaders
    decreases |scores|
  {
    if scores == [] then NoLeaders
    else
      var k := |scores| - 1;
      Observe(Lead(scores[..k]), k, scores[k])
  }

  /** What the tracking variables mean. The best is the first index with the
      highest score, provided that score is positive. The second is an index
      other than the best with the highest score among the others, provided
      that score is positive. A missing one has score 0. */
  predicate Tracks(scores: seq<real>, l: Leaders)
  {
    l.secondScore <= l.bestScore &&
    (l.bestIdx == -1 ==> l.bestScore == 0.0 && l.secondIdx == -1 && l.secondScore == 0.0 &&
                         forall k :: 0 <= k < |scores| ==> scores[k] <= 0.0) &&
    (l.bestIdx != -1 ==> 0 <= l.bestIdx < |scores| && scores[l.bestIdx] == l.bestScore && l.bestScore > 0.0 &&
                         (forall k :: 0 <= k < |scores| ==> scores[k] <= l.bestScore) &&
                         (forall k :: 0 <= k < l.bestIdx ==> scores[k] < l.bestScore)) &&
    (l.secondIdx == -1 ==> l.secondScore == 0.0 &&
                           forall k :: 0 <= k < |scores| && k != l.bestIdx ==> scores[k] <= 0.0) &&
    (l.secondIdx != -1 ==> 0 <= l.secondIdx < |scores| && l.secondIdx != l.bestIdx && l.bestIdx != -1 &&
                           scores[l.secondIdx] == l.secondScore && l.secondScore > 0.0 &&
                           forall k :: 0 <= k < |scores| && k != l.bestIdx ==> scores[k] <= l.secondScore)
  }

  /** The loop keeps `Tracks`. */
  lemma {:induction false} LeadTracks(scores: seq<real>)
    ensures Tracks(scores, Lead(scores))
    decreases |scores|
  {
    if scores != [] {
      var k := |scores| - 1;
      var front := scores[..k];
      LeadTracks(front);
      assert forall j :: 0 <= j < k ==> front[j] == scores[j];
    }
  }

  /** Two equal scores: the first stays best and the later one becomes the
      second. */
  lemma LaterEqualScoreIsSecond(x: real)
    requires x > 0.0
    ensures Lead([x, x]) == Leaders(x, 0, x, 1)
  {
    assert [x, x][..1] == [x];
    assert [x][..0] == [];
    assert Lead([x]) == Leaders(x, 0, 0.0, -1);
  }

  /** The scores of the first `n` candidates. */
  function ScoresOf(token: string, cands: seq<string>): (scores: seq<real>)
    ensures |scores| == |cands|
    ensures forall k :: 0 <= k < |cands| ==> scores[k] == Similarity.BoostedScore(token, cands[k])
  {
    seq(|cands|, k requires 0 <= k < |cands| => Similarity.BoostedScore(token, cands[k]))
  }

  /** A token field: `strncpy` into 256 characters, cut to 255. */
  function TokenField(s: string): (r: string)
    ensures |r| < TOKEN_FIELD_CAPACITY && |r| <= |s| && r == s[..|r|]
  {
    Truncate(s, TOKEN_FIELD_CAPACITY)
  }

  /** The number of candidates the loop reads. */
  function Seen(n: int): nat
  {
    if n < 0 then 0 else n
  }

  /** The result record `fossil_it_magic_autorecovery_token` fills for the
      first `n` candidates. */
  function Recover(token: string, cands: seq<string>, n: int): (r: Recovery)
    requires n <= |cands|
    ensures r.originalToken == TokenField(token)
    ensures r.recoveredToken == r.firstBestToken && r.confidence == r.firstBestConfidence
    ensures r.applied <==> r.firstBestConfidence > APPLY_THRESHOLD
    ensures r.secondBestConfidence <= r.firstBestConfidence
    ensures |r.firstBestToken| < TOKEN_FIELD_CAPACITY && |r.secondBestToken| < TOKEN_FIELD_CAPACITY
  {
    var l := Lead(ScoresOf(token, cands[..Seen(n)]));
    LeadTracks(ScoresOf(token, cands[..Seen(n)]));
    if l.bestIdx >= 0 then
      var first := TokenField(cands[l.bestIdx]);
      var second := if l.secondIdx >= 0 then TokenField(cands[l.secondIdx]) else "";
      Recovery(TokenField(token), first, l.bestScore, l.bestScore > APPLY_THRESHOLD,
               first, l.bestScore, second, l.secondScore)
    else
      Recovery(TokenField(token), "", 0.0, false, "", 0.0, "", 0.0)
  }

  /** With no positive score every field but the original token is empty or
      zero, and nothing is applied. */
  lemma NothingScoredLeavesEmpty(token: string, cands: seq<string>, n: int)
    requires n <= |cands|
    requires forall k :: 0 <= k < Seen(n) ==> Similarity.BoostedScore(token, cands[k]) <= 0.0
    ensures Recover(token, cands, n) == Recovery(TokenField(token), "", 0.0, false, "", 0.0, "", 0.0)
  {
    var front := cands[..Seen(n)];
    var scores := ScoresOf(token, front);
    forall k | 0 <= k < |scores|
      ensures scores[k] <= 0.0
    {
      assert front[k] == cands[k];
    }
    LeadTracks(scores);
  }

  /** The first best is a candidate with the highest score, the first such
      one, and that score is positive. */
  lemma FirstBestIsFirstMaximum(token: string, cands: seq<string>, n: int)
    requires n <= |cands|
    ensures var r := Recover(token, cands, n);
            forall k :: 0 <= k < Seen(n) ==> Similarity.BoostedScore(token, cands[k]) <= r.firstBestConfidence
    ensures var r := Recover(token, cands, n);
            r.firstBestConfidence > 0.0 ==>
              exists b :: 0 <= b < Seen(n) && r.firstBestToken == TokenField(cands[b]) &&
                Similarity.BoostedScore(token, cands[b]) == r.firstBestConfidence &&
                forall k :: 0 <= k < b ==> Similarity.BoostedScore(token, cands[k]) < r.firstBestConfidence
  {
    var front := cands[..Seen(n)];
    var scores := ScoresOf(token, front);
    LeadTracks(scores);
    var l := Lead(scores);
    forall k | 0 <= k < Seen(n)
      ensures Similarity.BoostedScore(token, cands[k]) == scores[k]
    {
      assert front[k] == cands[k];
    }
    if l.bestIdx >= 0 {
      assert front[l.bestIdx] == cands[l.bestIdx];
    }
  }

  /** The second best scores at least every candidate other than the first
      best, and is a different candidate from it. */
  lemma SecondBestIsRunnerUp(token: string, cands: seq<string>, n: int)
    requires n <= |cands|
    ensures var l := Lead(ScoresOf(token, cands[..Seen(n)]));
            var r := Recover(token, cands, n);
            (l.secondIdx != -1 ==> 0 <= l.secondIdx < Seen(n) && 0 <= l.bestIdx < Seen(n) &&
                                   l.secondIdx != l.bestIdx && r.secondBestToken == TokenField(cands[l.secondIdx])) &&
            forall k :: 0 <= k < Seen(n) && k != l.bestIdx ==>
              Similarity.BoostedScore(token, cands[k]) <= r.secondBestConfidence
  {
    var front := cands[..Seen(n)];
    var scores := ScoresOf(token, front);
    LeadTracks(scores);
    forall k | 0 <= k < Seen(n)
      ensures Similarity.BoostedScore(token, cands[k]) == scores[k]
    {
      assert front[k] == cands[k];
    }
  }

  /** A candidate equal to the token up to letter case scores 1.17, so the
      best is applied with a confidence above the documented 0..1 range. */
  lemma CaseVariantIsApplied(token: string, cands: seq<string>, n: int, k: nat)
    requires n <= |cands| && k < n && EqualsCI(token, cands[k])
    ensures Recover(token, cands, n).applied
    ensures Recover(token, cands, n).confidence == 1.0 + Similarity.PREFIX_BONUS + Similarity.SUFFIX_BONUS
  {
    var front := cands[..Seen(n)];
    var scores := ScoresOf(token, front);
    LeadTracks(scores);
    assert front[k] == cands[k];
    var c := cands[k];
    Similarity.SimilaritySelf(token, c);
    assert c[..|token|] == c;
    assert c[|c| - |token|..] == c;
    assert scores[k] == 1.0 + Similarity.PREFIX_BONUS + Similarity.SUFFIX_BONUS;
  }

  // ---------------------------------------------------------------------
  // The loop.

  /** The scoring loop: the tracking variables after the first `n`
      candidates. */
  method TrackLeaders(token: string, cands: seq<string>, n: int)
    returns (bestScore: real, bestIdx: int, secondScore: real, secondIdx: int)
    requires n <= |cands|
    ensures Leaders(bestScore, bestIdx, secondScore, secondIdx) == Lead(ScoresOf(token, cands[..Seen(n)]))
  {
    bestScore, bestIdx, secondScore, secondIdx := 0.0, -1, 0.0, -1;
    ghost var scores := ScoresOf(token, cands[..Seen(n)]);
    var i := 0;
    while i < n
      invariant 0 <= i <= Seen(n)
      invariant Leaders(bestScore, bestIdx, secondScore, secondIdx) == Lead(scores[..i])
    {
      var score := Similarity.ComputeBoostedScore(token, cands[i]);
      assert scores[i] == score;
      assert scores[..i + 1][..i] == scores[..i];
      if score > bestScore {
        secondScore, secondIdx := bestScore, bestIdx;
        bestScore, bestIdx := score, i;
      } else if score > secondScore {
        secondScore, secondIdx := score, i;
      }
      i := i + 1;
    }
    assert scores[..Seen(n)] == scores;
  }

  /** `fossil_it_magic_autorecovery_token`: the out record it fills. */
  method AutoRecoverToken(token: string, cands: seq<string>, n: int) returns (out: Recovery)
    requires n <= |cands|
    ensures out == Recover(token, cands, n)
  {
    var bestScore, bestIdx, secondScore, secondIdx := TrackLeaders(token, cands, n);
    LeadTracks(ScoresOf(token, cands[..Seen(n)]));
    var original := TokenField(token);
    if bestIdx >= 0 {
      var first := TokenField(cands[bestIdx]);
      var second := "";
      var secondConfidence := 0.0;
      if secondIdx >= 0 {
        second := TokenField(cands[secondIdx]);
        secondConfidence := secondScore;
      }
      out := Recovery(original, first, bestScore, bestScore > APPLY_THRESHOLD, first, bestScore, second, secondConfidence);
    } else {
      out := Recovery(original, "", 0.0, false, "", 0.0, "", 0.0);
    }
  }
}
