/** The command suggester: every non-NULL command is scored against the
    input, a running best is kept by score, then by lower edit distance, then
    by the prefix flag (an exact match always takes over), and the best is
    returned when its score reaches 0.7. The reasoning trace is written for
    the best candidate whether or not it is returned. */
module CommandSuggest {
  import opened Wrappers
  import opened Text
  import opened MagicTypes
  import EditDistance
  import TokenOverlap
  import Similarity

  const PREFIX_BOOST: real := 0.15
  const SUFFIX_BOOST: real := 0.10
  const CASE_BOOST: real := 0.05
  const EXACT_BOOST: real := 0.20
  /** A best score at or above this is returned. */
  const ACCEPT: real := 0.7

  /** What the loop computes for one command. */
  datatype Candidate = Candidate(
    score: real,
    distance: int,
    jaccard: int,
    prefix: bool,
    suffix: bool,
    caseInsensitive: bool,
    exact: bool)

  /** The running best: the index of `best_match` (None while it is NULL) and
      the `best_*` variables. */
  datatype Best = Best(
    index: Option<nat>,
    score: real,
    distance: int,
    jaccard: int,
    prefix: bool,
    suffix: bool,
    caseInsensitive: bool)

  /** The values the `best_*` variables start from. */
  const Initial: Best := Best(None, 0.0, EditDistance.INT_MAX, 0, false, false, false)

  /** The score of one command: its similarity to the input, boosted for a
      case-sensitive prefix, a case-insensitive suffix, case-insensitive
      equality, exact equality and token overlap, clamped into 0..1. */
  function Assess(input: string, cmd: string): (c: Candidate)
    ensures 0.0 <= c.score <= 1.0
    ensures 0 <= c.distance <= |cmd|
    ensures 0 <= c.jaccard <= 100
    ensures c.exact <==> input == cmd
  {
    var distance := EditDistance.Distance(input, cmd);
    var jaccard := TokenOverlap.Jaccard(input, cmd);
    var prefix := IsPrefix(input, cmd);
    var suffix := |input| <= |cmd| && IsSuffixCI(input, cmd);
    var caseInsensitive := EqualsCI(input, cmd);
    var exact := input == cmd;
    var score := Similarity.Similarity(Some(input), Some(cmd))
      + (if prefix then PREFIX_BOOST else 0.0)
      + (if suffix then SUFFIX_BOOST else 0.0)
      + (if caseInsensitive then CASE_BOOST else 0.0)
      + (if exact then EXACT_BOOST else 0.0)
      + jaccard as real / 200.0;
    Candidate(Similarity.Clamp(score), distance, jaccard, prefix, suffix, caseInsensitive, exact)
  }

  /** The input itself scores the top key: score 1, distance 0, prefix. */
  lemma ExactIsTop(input: string)
    ensures Assess(input, input).score == 1.0
    ensures Assess(input, input).distance == 0
    ensures Assess(input, input).prefix
  {
    AffixesOfSelf(input);
    EditDistance.DistanceToSelf(input, input);
    Similarity.SimilaritySelf(input, input);
  }

  /** The ranking key (score, then lower distance, then prefix) of the first
      triple is strictly above that of the second. */
  predicate Above(s1: real, d1: int, p1: bool, s2: real, d2: int, p2: bool)
  {
    s1 > s2 || (s1 == s2 && d1 < d2) || (s1 == s2 && d1 == d2 && p1 && !p2)
  }

  predicate CandidateAbove(c: Candidate, b: Best)
  {
    Above(c.score, c.distance, c.prefix, b.score, b.distance, b.prefix)
  }

  predicate BestAbove(b: Best, c: Candidate)
  {
    Above(b.score, b.distance, b.prefix, c.score, c.distance, c.prefix)
  }

  /** The test that makes a command the new best. */
  predicate Replaces(c: Candidate, b: Best)
  {
    c.exact || CandidateAbove(c, b)
  }

  /** `b` holds the values of command `i`. */
  predicate Records(b: Best, i: nat, c: Candidate)
  {
    b == Best(Some(i), c.score, c.distance, c.jaccard, c.prefix, c.suffix, c.caseInsensitive)
  }

  /** One iteration of the loop, at index `i`, on the candidate computed for
      command `i` (None for a NULL command). */
  function Step(b: Best, i: nat, c: Option<Candidate>): (r: Best)
    ensures c.None? ==> r == b
    ensures c.Some? && Replaces(c.value, b) ==> Records(r, i, c.value)
    ensures c.Some? && !Replaces(c.value, b) ==> r == b
  {
    if c.None? then b
    else if Replaces(c.value, b) then
      Best(Some(i), c.value.score, c.value.distance, c.value.jaccard, c.value.prefix, c.value.suffix,
           c.value.caseInsensitive)
    else b
  }

  /** The running best after the loop has seen the candidates `cs`: either
      still the initial values, or the values of one of the candidates. */
  function Select(cs: seq<Option<Candidate>>): (b: Best)
    ensures b.index.None? ==> b == Initial
    ensures b.index.Some? ==> b.index.value < |cs| && cs[b.index.value].Some? &&
                              Records(b, b.index.value, cs[b.index.value].value)
    decreases |cs|
  {
    if cs == [] then Initial
    else
      var k := |cs| - 1;
      Step(Select(cs[..k]), k, cs[k])
  }

  /** The candidate of each command; NULL commands are skipped. */
  function Assessed(input: string, cmds: seq<Option<string>>): (cs: seq<Option<Candidate>>)
    ensures |cs| == |cmds|
  {
    seq(|cmds|, k requires 0 <= k < |cmds| =>
      if cmds[k].Some? then Some(Assess(input, cmds[k].value)) else None)
  }

  /** The running best after the loop has seen `cmds`. */
  function Scan(input: string, cmds: seq<Option<string>>): (b: Best)
    ensures b.index.None? ==> b == Initial
    ensures b.index.Some? ==> b.index.value < |cmds| && cmds[b.index.value].Some? &&
                              Records(b, b.index.value, Assess(input, cmds[b.index.value].value))
  {
    Select(Assessed(input, cmds))
  }

  /** What the caller gets back: the returned pointer and the trace written
      into `out_reason` (None when it is NULL or left untouched). */
  datatype Outcome = Outcome(result: Option<string>, trace: Option<ReasonTrace>)

  /** The explanation chosen for the best candidate. */
  function ReasonText(score: real, prefix: bool, caseInsensitive: bool): string
  {
    if score >= 0.95 then "Exact or strong semantic match"
    else if score >= 0.85 then "Strong semantic and token match"
    else if score >= ACCEPT then "Close semantic match"
    else if prefix then "Prefix match"
    else if caseInsensitive then "Case-insensitive match"
    else "Low confidence match"
  }

  /** The three explanations given only to a returned suggestion. */
  predicate AcceptedReason(reason: string)
  {
    reason == "Exact or strong semantic match" || reason == "Strong semantic and token match" ||
    reason == "Close semantic match"
  }

  /** The explanation tells whether the suggestion was returned. */
  lemma ReasonShowsAcceptance(score: real, prefix: bool, caseInsensitive: bool)
    ensures AcceptedReason(ReasonText(score, prefix, caseInsensitive)) <==> score >= ACCEPT
  {
    var r := ReasonText(score, prefix, caseInsensitive);
    if score < ACCEPT {
      assert r == "Prefix match" || r == "Case-insensitive match" || r == "Low confidence match";
    }
  }

  /** The trace of the best candidate `b`, which is command `cmd`. */
  function TraceOf(input: string, cmd: string, b: Best): ReasonTrace
  {
    ReasonTrace(input, cmd, b.distance, b.score, b.jaccard, b.prefix, b.suffix, b.caseInsensitive,
                ReasonText(b.score, b.prefix, b.caseInsensitive))
  }

  /** `fossil_it_magic_suggest_command` over the first `n` entries of
      `commands`; `wantReason` says whether `out_reason` is non-NULL. */
  function Suggest(input: Option<string>, commands: Option<seq<Option<string>>>, n: int, wantReason: bool): (o: Outcome)
    requires commands.Some? ==> n <= |commands.value|
    ensures input.None? || commands.None? || n <= 0 ==> o == Outcome(None, None)
    ensures o.trace.Some? ==> wantReason
  {
    if input.None? || commands.None? || n <= 0 then Outcome(None, None)
    else
      var cmds := commands.value[..n];
      var b := Scan(input.value, cmds);
      if b.index.None? then Outcome(None, None)
      else
        var cmd := cmds[b.index.value].value;
        Outcome(if b.score >= ACCEPT then Some(cmd) else None,
                if wantReason then Some(TraceOf(input.value, cmd, b)) else None)
  }

  // ---------------------------------------------------------------------
  // Properties of the selection.

  /** A returned suggestion is one of the first `n` commands, and it scored
      at least 0.7 (so a score of exactly 0.7 is accepted). */
  lemma ResultIsAcceptedCommand(input: string, commands: seq<Option<string>>, n: int, wantReason: bool)
    requires n <= |commands|
    ensures Suggest(Some(input), Some(commands), n, wantReason).result.Some? ==>
              exists k :: 0 <= k < n && commands[k] == Suggest(Some(input), Some(commands), n, wantReason).result &&
                          Assess(input, commands[k].value).score >= ACCEPT
    ensures n > 0 && Scan(input, commands[..n]).index.Some? ==>
              (Suggest(Some(input), Some(commands), n, wantReason).result.Some? <==>
               Scan(input, commands[..n]).score >= ACCEPT)
  {
    var o := Suggest(Some(input), Some(commands), n, wantReason);
    if o.result.Some? {
      var k := Scan(input, commands[..n]).index.value;
      assert commands[..n][k] == commands[k];
    }
  }

  /** With the trace wanted, the explanation says whether a suggestion was
      returned. */
  lemma TraceReasonMatchesResult(input: string, commands: seq<Option<string>>, n: int)
    requires n <= |commands|
    ensures Suggest(Some(input), Some(commands), n, true).trace.Some? ==>
              (AcceptedReason(Suggest(Some(input), Some(commands), n, true).trace.value.reason) <==>
               Suggest(Some(input), Some(commands), n, true).result.Some?)
  {
    if n > 0 {
      var b := Scan(input, commands[..n]);
      ReasonShowsAcceptance(b.score, b.prefix, b.caseInsensitive);
    }
  }

  /** The facts about a candidate list the selection rules rely on: scores
      in 0..1, distances in 0..INT_MAX-1, and an exact match with the top key. */
  predicate WellScored(cs: seq<Option<Candidate>>)
  {
    forall k :: 0 <= k < |cs| && cs[k].Some? ==>
      0.0 <= cs[k].value.score <= 1.0 && 0 <= cs[k].value.distance < EditDistance.INT_MAX &&
      (cs[k].value.exact ==> cs[k].value.score == 1.0 && cs[k].value.distance == 0 && cs[k].value.prefix)
  }

  lemma WellScoredFront(cs: seq<Option<Candidate>>, k: nat)
    requires WellScored(cs) && k <= |cs|
    ensures WellScored(cs[..k])
  {
    forall j | 0 <= j < k && cs[..k][j].Some?
      ensures cs[..k][j] == cs[j]
    {
    }
  }

  /** Once some candidate has been seen the running best is set. */
  lemma {:induction false} SelectFindsCandidate(cs: seq<Option<Candidate>>)
    requires WellScored(cs)
    ensures Select(cs).index.Some? <==> exists k :: 0 <= k < |cs| && cs[k].Some?
    decreases |cs|
  {
    if cs != [] {
      var k := |cs| - 1;
      var front := cs[..k];
      WellScoredFront(cs, k);
      SelectFindsCandidate(front);
      if exists j :: 0 <= j < |front| && front[j].Some? {
        var j :| 0 <= j < |front| && front[j].Some?;
        assert cs[j] == front[j];
      }
      if cs[k].None? {
        if exists j :: 0 <= j < |cs| && cs[j].Some? {
          var j :| 0 <= j < |cs| && cs[j].Some?;
          assert j < k && front[j] == cs[j];
        }
      }
    }
  }

  /** The key of `b` is at least that of `c`. */
  predicate AtLeast(b: Best, c: Candidate)
  {
    !CandidateAbove(c, b)
  }

  /** The running best never has a lower key than any candidate seen so far. */
  lemma {:induction false} SelectIsMaximal(cs: seq<Option<Candidate>>)
    requires WellScored(cs)
    ensures forall k :: 0 <= k < |cs| && cs[k].Some? ==> AtLeast(Select(cs), cs[k].value)
    decreases |cs|
  {
    if cs != [] {
      var k := |cs| - 1;
      var front := cs[..k];
      var before := Select(front);
      var after := Select(cs);
      WellScoredFront(cs, k);
      SelectIsMaximal(front);
      forall j | 0 <= j < k && cs[j].Some?
        ensures AtLeast(after, cs[j].value)
      {
        assert front[j] == cs[j];
        assert AtLeast(before, cs[j].value);
      }
    }
  }

  /** Without an exact match the best is the first candidate with the highest
      key: every earlier candidate has a strictly lower key. */
  lemma {:induction false} SelectIsFirstMaximal(cs: seq<Option<Candidate>>)
    requires WellScored(cs)
    requires forall k :: 0 <= k < |cs| && cs[k].Some? ==> !cs[k].value.exact
    ensures Select(cs).index.Some? ==>
              forall k :: 0 <= k < Select(cs).index.value && cs[k].Some? ==> BestAbove(Select(cs), cs[k].value)
    decreases |cs|
  {
    if cs != [] {
      var k := |cs| - 1;
      var front := cs[..k];
      var before := Select(front);
      var after := Select(cs);
      assert forall j :: 0 <= j < |front| ==> front[j] == cs[j];
      WellScoredFront(cs, k);
      SelectIsFirstMaximal(front);
      if after != before {
        SelectIsMaximal(front);
        forall j | 0 <= j < k && cs[j].Some?
          ensures BestAbove(after, cs[j].value)
        {
          assert front[j] == cs[j];
          assert AtLeast(before, cs[j].value);
        }
      }
    }
  }

  /** With an exact match the best is the last exact match. */
  lemma {:induction false} SelectPicksLastExact(cs: seq<Option<Candidate>>, e: nat)
    requires WellScored(cs)
    requires e < |cs| && cs[e].Some? && cs[e].value.exact
    requires forall k :: e < k < |cs| && cs[k].Some? ==> !cs[k].value.exact
    ensures Select(cs).index == Some(e)
    decreases |cs|
  {
    var k := |cs| - 1;
    var front := cs[..k];
    if e < k {
      assert front[e] == cs[e];
      WellScoredFront(cs, k);
      SelectPicksLastExact(front, e);
    }
  }

  /** The commands' lengths fit the `int` the distance is returned in, so no
      command ties the initial `best_distance` of INT_MAX. */
  predicate LengthsFit(cmds: seq<Option<string>>)
  {
    forall k :: 0 <= k < |cmds| && cmds[k].Some? ==> |cmds[k].value| < EditDistance.INT_MAX
  }

  lemma AssessedWellScored(input: string, cmds: seq<Option<string>>)
    requires LengthsFit(cmds)
    ensures WellScored(Assessed(input, cmds))
  {
    var cs := Assessed(input, cmds);
    forall k | 0 <= k < |cs| && cs[k].Some? && cs[k].value.exact
      ensures cs[k].value.score == 1.0 && cs[k].value.distance == 0 && cs[k].value.prefix
    {
      ExactIsTop(input);
    }
  }

  /** The trace is written whenever some non-NULL command exists and the
      caller asked for it, even when no suggestion is returned. */
  lemma TraceWrittenIffCandidate(input: string, commands: seq<Option<string>>, n: int)
    requires 0 < n <= |commands| && LengthsFit(commands[..n])
    ensures Suggest(Some(input), Some(commands), n, true).trace.Some? <==>
              exists k :: 0 <= k < n && commands[k].Some?
  {
    var cmds := commands[..n];
    var cs := Assessed(input, cmds);
    AssessedWellScored(input, cmds);
    SelectFindsCandidate(cs);
    if exists k :: 0 <= k < n && commands[k].Some? {
      var k :| 0 <= k < n && commands[k].Some?;
      assert cmds[k] == commands[k] && cs[k].Some?;
    }
    if exists k :: 0 <= k < |cs| && cs[k].Some? {
      var k :| 0 <= k < |cs| && cs[k].Some?;
      assert cmds[k] == commands[k];
    }
  }

  /** Whatever is in the list, no non-NULL command outranks the best. */
  lemma ScanIsMaximal(input: string, cmds: seq<Option<string>>)
    requires LengthsFit(cmds)
    ensures forall k :: 0 <= k < |cmds| && cmds[k].Some? ==> AtLeast(Scan(input, cmds), Assess(input, cmds[k].value))
  {
    var cs := Assessed(input, cmds);
    AssessedWellScored(input, cmds);
    SelectIsMaximal(cs);
    forall k | 0 <= k < |cmds| && cmds[k].Some?
      ensures AtLeast(Scan(input, cmds), Assess(input, cmds[k].value))
    {
      assert cs[k] == Some(Assess(input, cmds[k].value));
    }
  }

  /** Without the input itself in the list, the best is the first command
      with the highest (score, lower distance, prefix) key. */
  lemma ScanIsFirstMaximal(input: string, cmds: seq<Option<string>>)
    requires LengthsFit(cmds)
    requires forall k :: 0 <= k < |cmds| ==> cmds[k] != Some(input)
    ensures Scan(input, cmds).index.Some? ==>
              forall k :: 0 <= k < Scan(input, cmds).index.value && cmds[k].Some? ==>
                BestAbove(Scan(input, cmds), Assess(input, cmds[k].value))
  {
    var cs := Assessed(input, cmds);
    AssessedWellScored(input, cmds);
    forall k | 0 <= k < |cs| && cs[k].Some?
      ensures !cs[k].value.exact
    {
      assert cmds[k] != Some(input);
    }
    SelectIsFirstMaximal(cs);
    var b := Scan(input, cmds);
    if b.index.Some? {
      forall k | 0 <= k < b.index.value && cmds[k].Some?
        ensures BestAbove(b, Assess(input, cmds[k].value))
      {
        assert cs[k] == Some(Assess(input, cmds[k].value));
      }
    }
  }

  /** When the input itself is in the list the best is its last occurrence. */
  lemma ScanPicksLastExact(input: string, cmds: seq<Option<string>>, e: nat)
    requires LengthsFit(cmds)
    requires e < |cmds| && cmds[e] == Some(input)
    requires forall k :: e < k < |cmds| ==> cmds[k] != Some(input)
    ensures Scan(input, cmds).index == Some(e)
  {
    var cs := Assessed(input, cmds);
    AssessedWellScored(input, cmds);
    SelectPicksLastExact(cs, e);
  }

  // ---------------------------------------------------------------------
  // The loop.

  /** The scores the loop body computes for one command, through the
      distance and token-overlap routines. */
  method AssessCommand(input: string, cmd: string) returns (c: Candidate)
    ensures c == Assess(input, cmd)
  {
    var distance := EditDistance.LevenshteinDistance(Some(input), Some(cmd));
    var jaccard := TokenOverlap.JaccardIndex(Some(input), Some(cmd));
    var prefix := IsPrefix(input, cmd);
    var suffix := |input| <= |cmd| && IsSuffixCI(input, cmd);
    var caseInsensitive := EqualsCI(input, cmd);
    var exact := input == cmd;
    var score := Similarity.Similarity(Some(input), Some(cmd));
    if prefix { score := score + PREFIX_BOOST; }
    if suffix { score := score + SUFFIX_BOOST; }
    if caseInsensitive { score := score + CASE_BOOST; }
    if exact { score := score + EXACT_BOOST; }
    score := score + jaccard as real / 200.0;
    if score > 1.0 { score := 1.0; }
    if score < 0.0 { score := 0.0; }
    c := Candidate(score, distance, jaccard, prefix, suffix, caseInsensitive, exact);
  }

  /** The C function. */
  method SuggestCommand(input: Option<string>, commands: Option<seq<Option<string>>>, n: int, wantReason: bool)
    returns (result: Option<string>, trace: Option<ReasonTrace>)
    requires commands.Some? ==> n <= |commands.value|
    ensures Outcome(result, trace) == Suggest(input, commands, n, wantReason)
  {
    if input.None? || commands.None? || n <= 0 {
      return None, None;
    }
    var cmds := commands.value[..n];
    ghost var cs := Assessed(input.value, cmds);
    var best := Initial;
    for i := 0 to n
      invariant best == Select(cs[..i])
    {
      assert cs[..i + 1][..i] == cs[..i];
      if cmds[i].Some? {
        var c := AssessCommand(input.value, cmds[i].value);
        if c.exact || CandidateAbove(c, best) {
          best := Best(Some(i), c.score, c.distance, c.jaccard, c.prefix, c.suffix, c.caseInsensitive);
        }
      }
    }
    assert cs[..n] == cs;
    if best.index.None? {
      return None, None;
    }
    var cmd := cmds[best.index.value].value;
    trace := if wantReason then Some(TraceOf(input.value, cmd, best)) else None;
    result := if best.score >= ACCEPT then Some(cmd) else None;
  }
}
