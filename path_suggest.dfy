/** Path auto-correction: the entries of a directory are scored against a
    mistyped path, those scoring at least 0.18 are collected (at most 32),
    ranked by an exchange sort and copied into a suggestion set. The
    directory listing and the `stat` outcome of each joined path are inputs:
    None stands for a directory that cannot be opened. */
module PathSuggest {
  import opened Wrappers
  import opened Text
  import opened MagicTypes
  import Similarity
  import TokenOverlap

  /** Rows of the candidate buffer. */
  const MAX_CANDIDATES: nat := 32
  /** The lowest boosted score a candidate is kept with. */
  const MIN_SCORE: real := 0.18
  /** The capacity of a candidate's joined path, terminator included (the
      Linux value of `PATH_MAX`). */
  const PATH_MAX: nat := 4096

  /** One directory entry as `readdir` returns it, with whether `stat`
      succeeds on the joined path. */
  datatype Entry = Entry(name: string, statOk: bool)

  /** A row of the candidate buffer. */
  datatype Candidate = Candidate(name: string, score: real, found: bool)

  /** `"%s/%s"` of the directory and the entry name. */
  function JoinPath(baseDir: string, name: string): (r: string)
    ensures |r| == |baseDir| + 1 + |name|
  {
    baseDir + "/" + name
  }

  /** The candidate an entry yields, or None when the loop skips it: the
      `.` and `..` entries, a boosted score below 0.18, and a joined path
      that `snprintf` would truncate. */
  function Consider(badPath: string, baseDir: string, e: Entry): (c: Option<Candidate>)
  {
    if e.name == "." || e.name == ".." then None
    else
      var score := Similarity.BoostedScore(badPath, e.name);
      if score < MIN_SCORE then None
      else if |baseDir| + 1 + |e.name| >= PATH_MAX then None
      else Some(Candidate(JoinPath(baseDir, e.name), score, e.statOk))
  }

  /** The candidates of the entries from index `p` on, with no cap. */
  function AcceptedFrom(badPath: string, baseDir: string, entries: seq<Entry>, p: nat): (cs: seq<Candidate>)
    requires p <= |entries|
    ensures |cs| <= |entries| - p
    ensures forall k :: 0 <= k < |cs| ==> MIN_SCORE <= cs[k].score && |cs[k].name| < PATH_MAX
    decreases |entries| - p
  {
    if p == |entries| then []
    else
      match Consider(badPath, baseDir, entries[p])
      case Some(c) => [c] + AcceptedFrom(badPath, baseDir, entries, p + 1)
      case None => AcceptedFrom(badPath, baseDir, entries, p + 1)
  }

  /** What the scanning loop leaves in `candidates[0..idx)`: the first 32
      accepted entries, in directory order. */
  function Collected(badPath: string, baseDir: string, entries: seq<Entry>): (cs: seq<Candidate>)
    ensures |cs| <= MAX_CANDIDATES
  {
    TokenOverlap.Take(AcceptedFrom(badPath, baseDir, entries, 0), MAX_CANDIDATES)
  }

  /** Every collected candidate scored at least 0.18 and has a path that
      fits its buffer, and `idx` counts accepted entries, not scanned ones. */
  lemma CollectedProperties(badPath: string, baseDir: string, entries: seq<Entry>)
    ensures forall k :: 0 <= k < |Collected(badPath, baseDir, entries)| ==>
              MIN_SCORE <= Collected(badPath, baseDir, entries)[k].score &&
              |Collected(badPath, baseDir, entries)[k].name| < PATH_MAX
    ensures |Collected(badPath, baseDir, entries)| ==
              if |AcceptedFrom(badPath, baseDir, entries, 0)| < MAX_CANDIDATES
              then |AcceptedFrom(badPath, baseDir, entries, 0)| else MAX_CANDIDATES
  {
    var all := AcceptedFrom(badPath, baseDir, entries, 0);
    var cs := Collected(badPath, baseDir, entries);
    forall k | 0 <= k < |cs|
      ensures MIN_SCORE <= cs[k].score && |cs[k].name| < PATH_MAX
    {
      assert cs[k] == all[k];
    }
  }

  /** The boosted score of an entry equal to the mistyped path up to letter
      case: it clears the 0.18 floor. */
  lemma CaseVariantScoresTop(badPath: string, name: string)
    requires EqualsCI(badPath, name)
    ensures Similarity.BoostedScore(badPath, name) == 1.0 + Similarity.PREFIX_BONUS + Similarity.SUFFIX_BONUS
  {
    Similarity.SimilaritySelf(badPath, name);
    assert name[..|badPath|] == name;
    assert name[|name| - |badPath|..] == name;
  }

  /** Every entry equal to the mistyped path up to letter case, other than
      `.` and `..`, whose joined path fits, is accepted. */
  lemma {:induction false} CaseVariantsAccepted(badPath: string, baseDir: string, entries: seq<Entry>, p: nat)
    requires p <= |entries|
    requires forall k :: 0 <= k < |entries| ==>
               EqualsCI(badPath, entries[k].name) && entries[k].name != "." && entries[k].name != ".." &&
               |baseDir| + 1 + |entries[k].name| < PATH_MAX
    ensures |AcceptedFrom(badPath, baseDir, entries, p)| == |entries| - p
    decreases |entries| - p
  {
    if p < |entries| {
      CaseVariantScoresTop(badPath, entries[p].name);
      CaseVariantsAccepted(badPath, baseDir, entries, p + 1);
    }
  }

  // ---------------------------------------------------------------------
  // The scanning loop.

  /** One entry of the scanning loop. */
  method ConsiderEntry(badPath: string, baseDir: string, e: Entry) returns (c: Option<Candidate>)
    ensures c == Consider(badPath, baseDir, e)
  {
    if e.name == "." || e.name == ".." {
      return None;
    }
    var score := Similarity.ComputeBoostedScore(badPath, e.name);
    if score < MIN_SCORE {
      return None;
    }
    var needed := |baseDir| + 1 + |e.name|;
    if needed >= PATH_MAX {
      return None;
    }
    c := Some(Candidate(JoinPath(baseDir, e.name), score, e.statOk));
  }

  /** The candidates from `p` on: the one entry `p` yields, if any, then
      the rest. */
  lemma AcceptedStep(badPath: string, baseDir: string, entries: seq<Entry>, p: nat)
    requires p < |entries|
    ensures var c := Consider(badPath, baseDir, entries[p]);
            var rest := AcceptedFrom(badPath, baseDir, entries, p + 1);
            AcceptedFrom(badPath, baseDir, entries, p) == if c.Some? then [c.value] + rest else rest
  {
  }

  /** The `while ((ent = readdir(d)) && idx < 32)` loop filling the 32-row
      buffer: its first `idx` rows are the collected candidates. */
  method ScanDirectory(badPath: string, baseDir: string, entries: seq<Entry>)
    returns (candidates: array<Candidate>, idx: nat)
    ensures fresh(candidates)
    ensures candidates.Length == MAX_CANDIDATES && idx <= MAX_CANDIDATES
    ensures candidates[..idx] == Collected(badPath, baseDir, entries)
  {
    candidates := new Candidate[MAX_CANDIDATES](_ => Candidate("", 0.0, false));
    idx := 0;
    var pos := 0;
    ghost var target := Collected(badPath, baseDir, entries);
    while pos < |entries| && idx < MAX_CANDIDATES
      invariant pos <= |entries| && idx <= MAX_CANDIDATES
      invariant target == candidates[..idx] + TokenOverlap.Take(AcceptedFrom(badPath, baseDir, entries, pos), MAX_CANDIDATES - idx)
      decreases |entries| - pos
    {
      var c := ConsiderEntry(badPath, baseDir, entries[pos]);
      AcceptedStep(badPath, baseDir, entries, pos);
      idx := Keep(candidates, idx, c, AcceptedFrom(badPath, baseDir, entries, pos + 1), target);
      pos := pos + 1;
    }
    if idx < MAX_CANDIDATES {
      assert AcceptedFrom(badPath, baseDir, entries, pos) == [];
    }
  }

  /** The body of the scanning loop after scoring: an accepted candidate is
      stored in row `idx`, which moves it from the pending part of the
      collection to the filled rows. */
  method Keep(candidates: array<Candidate>, idx: nat, c: Option<Candidate>, ghost rest: seq<Candidate>,
              ghost target: seq<Candidate>) returns (next: nat)
    requires idx < candidates.Length == MAX_CANDIDATES
    requires target == candidates[..idx] +
               TokenOverlap.Take(if c.Some? then [c.value] + rest else rest, MAX_CANDIDATES - idx)
    modifies candidates
    ensures next == if c.Some? then idx + 1 else idx
    ensures target == candidates[..next] + TokenOverlap.Take(rest, MAX_CANDIDATES - next)
  {
    next := idx;
    if c.Some? {
      TokenOverlap.TakeStep(candidates[..idx], c.value, rest, MAX_CANDIDATES - idx);
      TokenOverlap.StoreRow(candidates, idx, c.value);
      next := idx + 1;
    }
  }

  // ---------------------------------------------------------------------
  // The exchange sort.

  /** The scores never increase along `s`. */
  predicate NonIncreasing(s: seq<Candidate>)
  {
    forall a, b :: 0 <= a < b < |s| ==> s[a].score >= s[b].score
  }

  /** The rows swapped through the temporary buffer. */
  function Swap<T>(s: seq<T>, i: nat, j: nat): (r: seq<T>)
    requires i < |s| && j < |s|
    ensures |r| == |s|
  {
    s[i := s[j]][j := s[i]]
  }

  lemma SwapPermutes<T>(s: seq<T>, i: nat, j: nat)
    requires i < |s| && j < |s|
    ensures multiset(Swap(s, i, j)) == multiset(s)
  {
  }

  /** The inner loop for row `i`, from column `j`: whenever row `j` scores
      strictly higher than row `i` the two are swapped. */
  function Pass(s: seq<Candidate>, i: nat, j: nat): (r: seq<Candidate>)
    requires i < j <= |s|
    ensures |r| == |s|
    decreases |s| - j
  {
    if j == |s| then s
    else if s[j].score > s[i].score then Pass(Swap(s, i, j), i, j + 1)
    else Pass(s, i, j + 1)
  }

  /** The outer loop from row `i` on. */
  function ExchangeSorted(s: seq<Candidate>, i: nat): (r: seq<Candidate>)
    ensures |r| == |s|
    decreases |s| - i
  {
    if i + 1 >= |s| then s else ExchangeSorted(Pass(s, i, i + 1), i + 1)
  }

  /** The inner loop permutes the rows. */
  lemma {:induction false} PassPermutes(s: seq<Candidate>, i: nat, j: nat)
    requires i < j <= |s|
    ensures multiset(Pass(s, i, j)) == multiset(s)
    decreases |s| - j
  {
    if j < |s| {
      if s[j].score > s[i].score {
        SwapPermutes(s, i, j);
        PassPermutes(Swap(s, i, j), i, j + 1);
      } else {
        PassPermutes(s, i, j + 1);
      }
    }
  }

  /** The inner loop for row `i` leaves the rows before `i` alone. */
  lemma {:induction false} PassKeepsFront(s: seq<Candidate>, i: nat, j: nat)
    requires i < j <= |s|
    ensures forall k :: 0 <= k < i ==> Pass(s, i, j)[k] == s[k]
    decreases |s| - j
  {
    if j < |s| {
      if s[j].score > s[i].score {
        PassKeepsFront(Swap(s, i, j), i, j + 1);
      } else {
        PassKeepsFront(s, i, j + 1);
      }
    }
  }

  /** The outer loop permutes the rows. */
  lemma {:induction false} ExchangeSortPermutes(s: seq<Candidate>, i: nat)
    ensures multiset(ExchangeSorted(s, i)) == multiset(s)
    decreases |s| - i
  {
    if i + 1 < |s| {
      PassPermutes(s, i, i + 1);
      ExchangeSortPermutes(Pass(s, i, i + 1), i + 1);
    }
  }

  /** After the inner loop row `i` holds a highest score of rows `i..`. */
  lemma {:induction false} PassRaisesMaximum(s: seq<Candidate>, i: nat, j: nat)
    requires i < j <= |s|
    requires forall k :: i < k < j ==> s[k].score <= s[i].score
    ensures forall k :: i < k < |s| ==> Pass(s, i, j)[k].score <= Pass(s, i, j)[i].score
    decreases |s| - j
  {
    if j < |s| {
      if s[j].score > s[i].score {
        PassRaisesMaximum(Swap(s, i, j), i, j + 1);
      } else {
        PassRaisesMaximum(s, i, j + 1);
      }
    }
  }

  /** The rows from `i` on hold the same candidates before and after the
      inner loop, since the rows before `i` stay put. */
  lemma SuffixPermuted(s: seq<Candidate>, r: seq<Candidate>, i: nat)
    requires |r| == |s| && i <= |s| && multiset(r) == multiset(s)
    requires forall k :: 0 <= k < i ==> r[k] == s[k]
    ensures multiset(r[i..]) == multiset(s[i..])
  {
    assert r[..i] == s[..i];
    assert r == r[..i] + r[i..];
    assert s == s[..i] + s[i..];
    assert multiset(r) == multiset(r[..i]) + multiset(r[i..]);
    assert multiset(s) == multiset(s[..i]) + multiset(s[i..]);
    forall x
      ensures multiset(r[i..])[x] == multiset(s[i..])[x]
    {
      assert multiset(r)[x] == multiset(r[..i])[x] + multiset(r[i..])[x];
      assert multiset(s)[x] == multiset(s[..i])[x] + multiset(s[i..])[x];
    }
  }

  /** A row before `i` that scores at least every row from `i` on still does
      after those rows are permuted. */
  lemma FrontDominates(s: seq<Candidate>, t: seq<Candidate>, i: nat, a: nat, b: nat)
    requires |t| == |s| && a < i <= b < |s| && t[a] == s[a]
    requires multiset(t[i..]) == multiset(s[i..])
    requires forall m :: i <= m < |s| ==> s[a].score >= s[m].score
    ensures t[a].score >= t[b].score
  {
    assert t[b] == t[i..][b - i];
    assert t[b] in multiset(s[i..]);
    var x :| 0 <= x < |s[i..]| && s[i..][x] == t[b];
    assert s[i + x] == t[b];
  }

  /** The outer loop sorts: given rows before `i` sorted and each at least
      every later row, the result is non-increasing. */
  lemma {:induction false} ExchangeSortSorts(s: seq<Candidate>, i: nat)
    requires i <= |s|
    requires forall a, b :: 0 <= a < b < |s| && a < i ==> s[a].score >= s[b].score
    ensures NonIncreasing(ExchangeSorted(s, i))
    decreases |s| - i
  {
    if i + 1 < |s| {
      var t := Pass(s, i, i + 1);
      PassPermutes(s, i, i + 1);
      PassKeepsFront(s, i, i + 1);
      PassRaisesMaximum(s, i, i + 1);
      SuffixPermuted(s, t, i);
      forall a, b | 0 <= a < b < |t| && a < i + 1
        ensures t[a].score >= t[b].score
      {
        if a < i && i <= b {
          FrontDominates(s, t, i, a, b);
        }
      }
      ExchangeSortSorts(t, i + 1);
    }
  }

  /** The ranked candidates are a permutation of the collected ones with
      non-increasing scores. */
  lemma ExchangeSortCorrect(s: seq<Candidate>)
    ensures multiset(ExchangeSorted(s, 0)) == multiset(s)
    ensures NonIncreasing(ExchangeSorted(s, 0))
  {
    ExchangeSortPermutes(s, 0);
    ExchangeSortSorts(s, 0);
  }

  /** The sort is not stable: of two candidates with equal scores the later
      one ends up first here. */
  lemma ExchangeSortIsNotStable()
    ensures var a, b, c := Candidate("a", 0.5, true), Candidate("b", 0.5, true), Candidate("c", 0.9, true);
            ExchangeSorted([a, b, c], 0) == [c, b, a]
  {
    var a, b, c := Candidate("a", 0.5, true), Candidate("b", 0.5, true), Candidate("c", 0.9, true);
    var s := [a, b, c];
    assert Pass(s, 0, 3) == s;
    assert Pass(s, 0, 2) == Pass([c, b, a], 0, 3);
    assert Pass(s, 0, 1) == Pass(s, 0, 2);
    var t := [c, b, a];
    assert Pass(t, 1, 3) == t;
    assert Pass(t, 1, 2) == t;
    assert ExchangeSorted(t, 2) == t;
    assert ExchangeSorted(t, 1) == t;
  }

  /** The nested exchange-sort loops over the first `n` rows of the buffer. */
  method ExchangeSort(a: array<Candidate>, n: nat)
    requires n <= a.Length
    modifies a
    ensures a[..n] == ExchangeSorted(old(a[..n]), 0)
    ensures a[n..] == old(a[n..])
  {
    var i := 0;
    while i + 1 < n
      invariant i <= n || n == 0
      invariant ExchangeSorted(a[..n], i) == ExchangeSorted(old(a[..n]), 0)
      invariant a[n..] == old(a[n..])
      decreases n - i
    {
      var j := i + 1;
      while j < n
        invariant i < j <= n
        invariant ExchangeSorted(Pass(a[..n], i, j), i + 1) == ExchangeSorted(old(a[..n]), 0)
        invariant a[n..] == old(a[n..])
        decreases n - j
      {
        if a[j].score > a[i].score {
          ghost var before := a[..n];
          a[i], a[j] := a[j], a[i];
          assert a[..n] == Swap(before, i, j);
        }
        j := j + 1;
      }
      i := i + 1;
    }
  }

  // ---------------------------------------------------------------------
  // Copying into the suggestion set.

  /** The slot a candidate is copied into: the path cut to 511 characters. */
  function ToSuggestion(c: Candidate): (s: Suggestion)
    ensures |s.candidatePath| < PATH_FIELD_CAPACITY
    ensures s.similarityScore == c.score && s.pathExists == c.found
  {
    Suggestion(Truncate(c.name, PATH_FIELD_CAPACITY), c.score, c.found)
  }

  /** The copy loop as written: one slot per collected candidate, so `count`
      is `idx` and may run past the 16 slots of the list. */
  function CopyAsWritten(cs: seq<Candidate>): (list: seq<Suggestion>)
    ensures |list| == |cs|
  {
    seq(|cs|, k requires 0 <= k < |cs| => ToSuggestion(cs[k]))
  }

  /** The as-written copy writes past the 16 slots of the set whenever more
      than 16 entries are accepted, which enough case variants of the
      mistyped name cause. */
  lemma AsWrittenCopyOverflows(badPath: string, baseDir: string, entries: seq<Entry>)
    requires SUGGESTION_SLOTS < |entries| <= MAX_CANDIDATES
    requires forall k :: 0 <= k < |entries| ==>
               EqualsCI(badPath, entries[k].name) && entries[k].name != "." && entries[k].name != ".." &&
               |baseDir| + 1 + |entries[k].name| < PATH_MAX
    ensures |CopyAsWritten(ExchangeSorted(Collected(badPath, baseDir, entries), 0))| > SUGGESTION_SLOTS
  {
    CaseVariantsAccepted(badPath, baseDir, entries, 0);
  }

  /** The copy kept within the 16 slots: the first 16 ranked candidates. */
  function Listed(cs: seq<Candidate>): (list: seq<Suggestion>)
    ensures |list| <= SUGGESTION_SLOTS
    ensures |list| == if |cs| < SUGGESTION_SLOTS then |cs| else SUGGESTION_SLOTS
    ensures forall k :: 0 <= k < |list| ==> list[k] == ToSuggestion(cs[k])
  {
    CopyAsWritten(TokenOverlap.Take(cs, SUGGESTION_SLOTS))
  }

  /** The suggestions for a mistyped path: none when the directory cannot be
      opened, otherwise the best-ranked collected candidates. */
  function Suggestions(badPath: string, baseDir: string, dir: Option<seq<Entry>>): (list: seq<Suggestion>)
    ensures dir.None? ==> list == []
    ensures |list| <= SUGGESTION_SLOTS
  {
    if dir.None? then [] else Listed(ExchangeSorted(Collected(badPath, baseDir, dir.value), 0))
  }

  /** The suggestions are ranked by score, each scored at least 0.18, and no
      collected candidate left out scored higher than one kept. */
  lemma SuggestionsRanked(badPath: string, baseDir: string, entries: seq<Entry>)
    ensures var list := Suggestions(badPath, baseDir, Some(entries));
            forall a, b :: 0 <= a < b < |list| ==> list[a].similarityScore >= list[b].similarityScore
    ensures var list := Suggestions(badPath, baseDir, Some(entries));
            forall k :: 0 <= k < |list| ==> MIN_SCORE <= list[k].similarityScore
    ensures var list := Suggestions(badPath, baseDir, Some(entries));
            var ranked := ExchangeSorted(Collected(badPath, baseDir, entries), 0);
            forall k, m :: 0 <= k < |list| <= m < |ranked| ==> list[k].similarityScore >= ranked[m].score
  {
    var cs := Collected(badPath, baseDir, entries);
    var ranked := ExchangeSorted(cs, 0);
    var list := Suggestions(badPath, baseDir, Some(entries));
    ExchangeSortCorrect(cs);
    CollectedProperties(badPath, baseDir, entries);
    forall k | 0 <= k < |list|
      ensures MIN_SCORE <= list[k].similarityScore
    {
      assert list[k].similarityScore == ranked[k].score;
      assert ranked[k] in multiset(cs);
    }
  }

  /** The corrected copy loop: at most 16 slots are written. */
  method CopyOut(out: SuggestionSet, candidates: array<Candidate>, idx: nat)
    requires out.Valid() && idx <= candidates.Length
    modifies out, out.list
    ensures out.Valid() && out.list == old(out.list)
    ensures out.Entries() == Listed(candidates[..idx])
  {
    out.count := 0;
    var i := 0;
    while i < idx && out.count < SUGGESTION_SLOTS
      invariant out.Valid() && out.list == old(out.list)
      invariant out.count == i <= idx
      invariant out.list[..i] == Listed(candidates[..i])
      decreases idx - i
    {
      out.list[out.count] := ToSuggestion(candidates[i]);
      out.count := out.count + 1;
      i := i + 1;
      assert out.list[..i] == Listed(candidates[..i]);
    }
    assert Listed(candidates[..idx]) == Listed(candidates[..i]);
  }

  /** `fossil_it_magic_path_suggest`, with the copy kept within the set. */
  method Suggest(out: SuggestionSet, badPath: string, baseDir: string, dir: Option<seq<Entry>>)
    requires out.Valid()
    modifies out, out.list
    ensures out.Valid() && out.list == old(out.list)
    ensures out.Entries() == Suggestions(badPath, baseDir, dir)
  {
    out.count := 0;
    if dir.None? {
      return;
    }
    var candidates, idx := ScanDirectory(badPath, baseDir, dir.value);
    ExchangeSort(candidates, idx);
    CopyOut(out, candidates, idx);
  }
}
