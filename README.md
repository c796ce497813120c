# The "magic" fuzzy-matching and danger-scoring helpers, in Dafny

This project models the helpers of the squid command-line toolkit that decide
what a user probably meant and how risky a filesystem operation looks
(`code/logic/magic.c`, with the types and capacities of
`code/logic/fossil/code/magic.h`):

- **edit distance** (`fossil_it_magic_levenshtein_distance`): a case-insensitive
  restricted Damerau-Levenshtein table, modelled cell by cell exactly as the C
  code fills it, including the column 0 the code never initialises;
- **token overlap** (`fossil_it_magic_jaccard_index`): alphanumeric runs,
  lower-cased, cut every 31 characters, at most 32 per string, matched greedily
  with a `used[]` array, reported as an integer percentage;
- **similarity** (`fossil_it_magic_similarity`): the distance term, half the
  overlap, two affix bonuses and a clamp into 0..1;
- **command suggestion** (`fossil_it_magic_suggest_command`): a running best by
  score, then lower distance, then the prefix flag (an exact match always takes
  over), the reasoning trace, and the 0.7 acceptance threshold;
- **path suggestion** (`fossil_it_magic_path_suggest`): the scan of a directory
  listing into a 32-row candidate buffer, the in-place exchange sort, and the copy
  into the 16-slot suggestion set;
- **token auto-recovery** (`fossil_it_magic_autorecovery_token`): best and
  second best with strict `>`, the 0.80 auto-apply gate and the 256-character
  token fields;
- **danger analysis and report** (`fossil_it_magic_danger_analyze`,
  `fossil_it_magic_danger_report`, with `fossil_it_magic_is_code_file`): risk
  flags, their weighted sum, the thresholds to a danger level, and the summary
  over at most eight paths with its warning and block flags.

The filesystem, the clock and the directory walks are inputs: a directory
listing is a sequence of `Entry` values (name, and whether `stat` of the joined
path succeeds); what `stat`, `time()`, `opendir`/`readdir` and the
`contains_git` / `contains_secret` / `directory_size` helpers report about one
path is an `Danger.Observation` record. Scores are `real`.

Modules, one per file: `Wrappers` (Option), `Text` (the C-locale character and
string predicates), `MagicTypes` (the header's records and capacities),
`EditDistance`, `TokenOverlap`, `Similarity`, `CommandSuggest`, `PathSuggest`,
`AutoRecovery` and `Danger`. Loops of the C code are methods with invariants,
each proved equal to a function on values; the properties are proved about
those functions.

## Model

| member | source | states |
|---|---|---|
| Text.Lower | code/logic/magic.c:212 | `tolower` changes exactly 'A'..'Z', each to its lower-case letter |
| Text.LowerAll | code/logic/magic.c:211-212 | lowering a string keeps its length and lowers each character |
| Text.AffixesOfSelf | code/logic/magic.c:292-296 | every string is a prefix and a suffix of itself, case-sensitive or not, and equals itself ignoring case |
| Text.Truncate | code/logic/magic.c:487-488 | a `strncpy` into a field of `cap` characters keeps a prefix of at most `cap - 1` characters: the whole string when it fits, exactly `cap - 1` otherwise |
| MagicTypes.SuggestionSet.Entries | code/logic/fossil/code/magic.h:50-53 | the valid entries of the set are exactly `count` of its 16 slots |
| MagicTypes.SuggestionSet.constructor | code/logic/fossil/code/magic.h:50-53 | a fresh set has 16 slots and a count of 0 |
| MagicTypes.Rank | code/logic/fossil/code/magic.h:88-94 | the enum values run from NONE = 0 to CRITICAL = 4 |
| MagicTypes.RankIsTotalOrder | code/logic/fossil/code/magic.h:88-94 | distinct levels have distinct values, so comparing values totally orders the levels |
| MagicTypes.MaxLevel | code/logic/magic.c:649-650 | the running maximum is one of the two levels and at least both |
| EditDistance.Combine | code/logic/magic.c:259-269 | a cell is at most its deletion, insertion and substitution candidates, and at most the transposition candidate when the characters are swapped |
| EditDistance.CombineAtLeast | code/logic/magic.c:259-269 | a bound below every candidate is below the cell |
| EditDistance.Cell | code/logic/magic.c:254-270 | cell (i, j) of the table lies between j - i and j (row 0 holds j, column 0 stays 0) |
| EditDistance.Distance | code/logic/magic.c:274 | the distance lies between \|b\| - \|a\| and \|b\|; the empty first string costs \|b\|; the empty second string costs 0 |
| EditDistance.FillCell | code/logic/magic.c:258-270 | the cell the loop body stores equals the table's cell |
| EditDistance.FillRow | code/logic/magic.c:257-271 | the inner loop fills row i with the table's cells and changes no other row |
| EditDistance.LevenshteinDistance | code/logic/magic.c:246-278 | NULL gives INT_MAX; otherwise the table, filled in place, yields `Distance` of the two strings |
| EditDistance.CellDiagonalZero | code/logic/magic.c:256-272 | the diagonal of a string's table against itself is 0 |
| EditDistance.DistanceToSelf | code/logic/magic.c:246-278 | strings equal up to case are at distance 0 |
| EditDistance.CellTailZero | code/logic/magic.c:254-270 | when `b` is the tail of `a`, the cells along the shifted diagonal are 0 |
| EditDistance.LevenshteinNotMinimal | code/logic/fossil/code/magic.h:162-169 | deleting any leading part `p` costs nothing (`Distance(p + b, b) == 0`), although at least \|p\| edits are needed |
| EditDistance.DistanceNotSymmetric | code/logic/magic.c:254 | "a" to "" costs 0 while "" to "a" costs 1 |
| EditDistance.OsaCell | code/logic/fossil/code/magic.h:162-169 | the corrected table's cell (i, j) is at least \|i - j\| |
| EditDistance.OsaDistance | code/logic/fossil/code/magic.h:162-169 | the corrected distance charges the full length against an empty string and at least the length difference |
| EditDistance.OsaCellDiagonalZero | code/logic/fossil/code/magic.h:162-169 | the corrected table's diagonal for a string against itself is 0 |
| EditDistance.OsaDistanceToSelf | code/logic/fossil/code/magic.h:162-169 | strings equal up to case are at corrected distance 0 |
| TokenOverlap.SkipTo | code/logic/magic.c:209 | the separator loop stops at the first alphanumeric at or after `p`, or at the end, skipping only separators |
| TokenOverlap.RunEnd | code/logic/magic.c:211-212 | the copy loop takes at most the limit of alphanumerics and stops early only at a separator or the end |
| TokenOverlap.Take | code/logic/magic.c:208 | the first `n` tokens: all of them when there are at most `n`, else exactly `n` |
| TokenOverlap.Tokens | code/logic/magic.c:207-217 | at most 32 tokens are kept |
| TokenOverlap.LoweredRunIsToken | code/logic/magic.c:211-215 | a lowered run of 1 to 31 alphanumerics is a well-formed token |
| TokenOverlap.TokensFromAreTokens | code/logic/magic.c:208-217 | every token the scan produces is 1 to 31 lower-case alphanumerics |
| TokenOverlap.TokensAreTokens | code/logic/fossil/code/magic.h:152-158 | the kept tokens are at most 32 well-formed tokens |
| TokenOverlap.TakeCons | code/logic/magic.c:208 | keeping `n` tokens of a list keeps its head and `n - 1` of the rest |
| TokenOverlap.TakeStep | code/logic/magic.c:213-215 | storing the next row moves it from the pending part into the filled rows, with one row less of room (also the candidate rows of code/logic/magic.c:426-433) |
| TokenOverlap.SkipSeparators | code/logic/magic.c:209 | the skip loop stops where `SkipTo` says |
| TokenOverlap.ReadRun | code/logic/magic.c:210-212 | the copy loop stops where `RunEnd` says with the run lowered |
| TokenOverlap.NextToken | code/logic/magic.c:209-216 | one round of the scan yields the next token of the token list, or none exactly at the end of the string |
| TokenOverlap.StoreRow | code/logic/magic.c:213-215 | storing a row appends it to the filled rows |
| TokenOverlap.KeepToken | code/logic/magic.c:213-216 | a non-empty token is stored in the next row and the count advances; an empty one changes nothing |
| TokenOverlap.Tokenize | code/logic/magic.c:207-217 | the buffer's first `count` rows are exactly `Tokens(s)` |
| TokenOverlap.GreedyMatch | code/logic/magic.c:230-240 | the match count is at most the number of tokens on either side |
| TokenOverlap.IntersectTaking | code/logic/magic.c:234-237 | taking a token present in the pool pairs it off first |
| TokenOverlap.IntersectSkipping | code/logic/magic.c:233-239 | a token absent from the pool adds no pair |
| TokenOverlap.GreedyMatchIsIntersection | code/logic/magic.c:230-240 | the greedy count equals the size of the multiset intersection of the two token lists |
| TokenOverlap.Unused | code/logic/magic.c:231 | the tokens still unused are at most all tokens |
| TokenOverlap.UnusedNoneUsed | code/logic/magic.c:231 | with no flag set every token is unused |
| TokenOverlap.UnusedHas | code/logic/magic.c:234 | a token whose flag is clear is available |
| TokenOverlap.UnusedLacks | code/logic/magic.c:233-239 | a token no clear flag points at is not available |
| TokenOverlap.UnusedMark | code/logic/magic.c:236 | setting a clear flag removes exactly that token from the available ones |
| TokenOverlap.UnusedMarkFront | code/logic/magic.c:236 | the same, for a flag before the last |
| TokenOverlap.GreedyMatchStep | code/logic/magic.c:232-240 | one outer round adds one match exactly when the token is still available, and removes it |
| TokenOverlap.FindUnused | code/logic/magic.c:233-234 | the inner loop stops at the first clear slot holding the token, or at the end when there is none |
| TokenOverlap.MatchOne | code/logic/magic.c:233-239 | a round matches exactly when the token is available and then takes just that token |
| TokenOverlap.MatchRound | code/logic/magic.c:232-240 | the running count plus the greedy count of the rest is kept by each round |
| TokenOverlap.MatchCount | code/logic/magic.c:230-240 | the matching loop counts `GreedyMatch` of the first list against the second |
| TokenOverlap.QuotientBounds | code/logic/magic.c:242 | the integer division rounds down |
| TokenOverlap.QuotientIsDivision | code/logic/magic.c:242 | C's `/` on non-negative operands is Dafny's `/` |
| TokenOverlap.QuotientAtMost | code/logic/magic.c:242 | a dividend at most k times the divisor gives at most k |
| TokenOverlap.QuotientOfMultiple | code/logic/magic.c:242 | an exact multiple divides exactly |
| TokenOverlap.Percent | code/logic/magic.c:241-242 | the percentage lies in 0..100, is 0 without matches and 100 when everything matches |
| TokenOverlap.JaccardOf | code/logic/fossil/code/magic.h:141 | the index lies in 0..100 and is 0 when either side has no token |
| TokenOverlap.JaccardOfMatch | code/logic/magic.c:241-242 | the index is the percentage of matches over the union size, and the matches never exceed the union |
| TokenOverlap.Jaccard | code/logic/fossil/code/magic.h:152-158 | the index of two strings lies in 0..100 |
| TokenOverlap.JaccardOfTokens | code/logic/magic.c:201-243 | the index of two strings is the index of their kept tokens |
| TokenOverlap.JaccardIndex | code/logic/magic.c:201-243 | NULL gives 0; otherwise tokenising both strings and matching them in place gives `Jaccard` |
| TokenOverlap.IntersectCommutes | code/logic/magic.c:230-240 | multiset intersection commutes |
| TokenOverlap.IntersectSelf | code/logic/magic.c:230-240 | a multiset intersected with itself is itself |
| TokenOverlap.GreedyMatchSymmetric | code/logic/magic.c:230-240 | greedy matching finds as many pairs in either direction |
| TokenOverlap.JaccardOfSymmetric | code/logic/fossil/code/magic.h:152-158 | the index of token lists does not depend on argument order |
| TokenOverlap.JaccardSymmetric | code/logic/fossil/code/magic.h:152-158 | the index of strings does not depend on argument order |
| TokenOverlap.JaccardOfSameTokens | code/logic/fossil/code/magic.h:152-158 | token lists with the same tokens in any order score 100 |
| TokenOverlap.JaccardSelf | code/logic/magic.c:201-243 | a string with a token scores 100 against itself |
| TokenOverlap.LongRunSplits | code/logic/magic.c:211 | a run of 32 to 62 alphanumerics becomes two tokens, its first 31 characters and the rest, lowered |
| Similarity.Clamp | code/logic/magic.c:298-299 | the result lies in 0..1, keeps values already there and sends overshoot to the nearer end |
| Similarity.Ratio | code/logic/magic.c:287 | `dist / max_len` lies in 0..1, 0 for no edits and 1 for all |
| Similarity.DistanceTerm | code/logic/magic.c:285-287 | `1 - dist / max_len` lies in 0..1 and is 1 for strings equal up to case |
| Similarity.RawScore | code/logic/magic.c:285-296 | the unclamped score is at least the distance term and at most it plus 0.5 and both bonuses |
| Similarity.Similarity | code/logic/magic.c:280-301 | NULL gives 0, two empty strings give 1, otherwise the clamped raw score, always in 0..1 |
| Similarity.SimilarityAtLeastDistanceTerm | code/logic/fossil/code/magic.h:172-179 | the score is at least the distance term, and a prefix adds its bonus before the clamp |
| Similarity.SimilaritySelf | code/logic/magic.c:280-301 | strings equal up to case score 1 |
| Similarity.SimilarityToEmpty | code/logic/magic.c:285-287 | a non-empty string scores 1 against the empty string, through the zero column of the table |
| Similarity.SimilarityFromEmpty | code/logic/magic.c:285-296 | the empty string against a non-empty one scores just the two affix bonuses, 0.17 |
| Similarity.BoostedScore | code/logic/magic.c:411-417 | the scanners' score is the similarity plus at most both bonuses: in 0..1.17 and never below the similarity |
| Similarity.ComputeBoostedScore | code/logic/magic.c:469-474 | the scanning code's sum equals `BoostedScore` |
| Similarity.BoostedScoreSelf | code/logic/fossil/code/magic.h:73 | a string scores 1.17 against itself, outside the documented 0..1 range |
| CommandSuggest.Assess | code/logic/magic.c:327-345 | a command's score lies in 0..1, its distance in 0..\|cmd\|, its overlap in 0..100, and it is exact iff it equals the input |
| CommandSuggest.ExactIsTop | code/logic/magic.c:336-345 | the input scored against itself gets score 1, distance 0 and the prefix flag |
| CommandSuggest.Step | code/logic/magic.c:325-359 | a NULL command or one that does not replace the best leaves the best alone; one that replaces it is recorded with its index |
| CommandSuggest.Select | code/logic/magic.c:315-359 | the loop's best is either the initial state or a recorded non-NULL command of the list |
| CommandSuggest.Assessed | code/logic/magic.c:324-345 | one assessment per command |
| CommandSuggest.Scan | code/logic/magic.c:324-359 | the best over a command list is the initial state or a non-NULL command with its assessment |
| CommandSuggest.ReasonShowsAcceptance | code/logic/magic.c:373-378 | the reason text is one of the three accepting texts exactly when the best score is at least 0.7 |
| CommandSuggest.Suggest | code/logic/magic.c:307-382 | NULL input, NULL list or a non-positive count gives NULL and no trace; a trace is written only when one is requested |
| CommandSuggest.ResultIsAcceptedCommand | code/logic/magic.c:362-381 | a result is one of the first n commands and scores at least 0.7; with a best, a result is returned exactly when its score reaches 0.7 |
| CommandSuggest.TraceReasonMatchesResult | code/logic/magic.c:364-381 | the trace's reason is an accepting text exactly when a result is returned |
| CommandSuggest.WellScoredFront | code/logic/magic.c:324 | a prefix of a well-scored list is well scored |
| CommandSuggest.SelectFindsCandidate | code/logic/magic.c:347-359 | a best exists exactly when some command is non-NULL |
| CommandSuggest.SelectIsMaximal | code/logic/magic.c:347-359 | the best is at least every command in the order score, then lower distance, then prefix flag |
| CommandSuggest.SelectIsFirstMaximal | code/logic/magic.c:347-359 | without an exact match every command before the best is strictly below it: the first of the ties wins |
| CommandSuggest.SelectPicksLastExact | code/logic/magic.c:347 | the last exact match is the best, whatever follows it |
| CommandSuggest.AssessedWellScored | code/logic/magic.c:315-345 | every assessment's distance is below the initial INT_MAX and its score in 0..1 |
| CommandSuggest.TraceWrittenIffCandidate | code/logic/magic.c:362-364 | a requested trace is written exactly when the list holds a non-NULL command, even when the result is NULL |
| CommandSuggest.ScanIsMaximal | code/logic/magic.c:324-359 | the best over the commands is at least each command's assessment |
| CommandSuggest.ScanIsFirstMaximal | code/logic/magic.c:324-359 | with no command equal to the input, every command before the best is strictly below it |
| CommandSuggest.ScanPicksLastExact | code/logic/magic.c:347 | the last command equal to the input is the best |
| CommandSuggest.AssessCommand | code/logic/magic.c:327-345 | the loop body computes `Assess` |
| CommandSuggest.SuggestCommand | code/logic/magic.c:307-382 | the C function returns the result and trace `Suggest` describes |
| PathSuggest.AcceptedFrom | code/logic/magic.c:408-434 | the accepted candidates are never more than the entries, each scoring at least 0.18 with a path that fits |
| PathSuggest.Collected | code/logic/magic.c:408 | at most 32 candidates are collected |
| PathSuggest.CollectedProperties | code/logic/magic.c:408-434 | the collected candidates score at least 0.18, fit the path buffer, and are the first min(accepted, 32) accepted ones: `idx` counts accepted entries |
| PathSuggest.CaseVariantScoresTop | code/logic/magic.c:411-417 | an entry equal to the bad path up to case scores 1.17 |
| PathSuggest.CaseVariantsAccepted | code/logic/magic.c:409-425 | every case variant that fits is accepted |
| PathSuggest.ConsiderEntry | code/logic/magic.c:409-428 | the loop body's verdict on one entry equals `Consider` |
| PathSuggest.AcceptedStep | code/logic/magic.c:408-434 | the accepted list from entry p is that entry's candidate, if any, followed by the rest |
| PathSuggest.ScanDirectory | code/logic/magic.c:397-435 | the 32-row buffer's first `idx` rows are exactly `Collected` |
| PathSuggest.Keep | code/logic/magic.c:426-433 | an accepted candidate is stored in row `idx` and `idx` advances; a skipped one changes nothing |
| PathSuggest.Swap | code/logic/magic.c:439-443 | the swap keeps the length |
| PathSuggest.SwapPermutes | code/logic/magic.c:439-443 | the swap permutes the rows |
| PathSuggest.Pass | code/logic/magic.c:438-445 | the inner loop keeps the length |
| PathSuggest.ExchangeSorted | code/logic/magic.c:437-446 | the outer loop keeps the length |
| PathSuggest.PassPermutes | code/logic/magic.c:438-445 | the inner loop permutes the rows |
| PathSuggest.PassKeepsFront | code/logic/magic.c:438-445 | the inner loop for row i leaves the rows before i alone |
| PathSuggest.ExchangeSortPermutes | code/logic/magic.c:437-446 | the sort permutes the rows |
| PathSuggest.PassRaisesMaximum | code/logic/magic.c:438-445 | after the inner loop row i holds a highest score of rows i.. |
| PathSuggest.SuffixPermuted | code/logic/magic.c:437-446 | rows after an untouched front are a permutation of the old ones |
| PathSuggest.FrontDominates | code/logic/magic.c:437-446 | a front row at least every later row stays at least each of them after they are permuted |
| PathSuggest.ExchangeSortSorts | code/logic/magic.c:437-446 | the sort leaves scores non-increasing |
| PathSuggest.ExchangeSortCorrect | code/logic/magic.c:437-446 | the sort yields a permutation with non-increasing scores |
| PathSuggest.ExchangeSortIsNotStable | code/logic/magic.c:437-446 | [a 0.5, b 0.5, c 0.9] sorts to [c, b, a]: equal scores change order |
| PathSuggest.ExchangeSort | code/logic/magic.c:437-446 | sorting the first n rows in place yields `ExchangeSorted` of them and leaves the other rows alone |
| PathSuggest.ToSuggestion | code/logic/magic.c:449-452 | a slot keeps the path cut below 512 characters, the score and the exists flag |
| PathSuggest.CopyAsWritten | code/logic/magic.c:448-454 | the copy as written writes one slot per collected candidate |
| PathSuggest.AsWrittenCopyOverflows | code/logic/magic.c:448-454 | with more than 16 acceptable entries the copy as written fills more than the 16 slots |
| PathSuggest.Listed | code/logic/fossil/code/magic.h:214-216 | the capped copy lists the first min(n, 16) ranked candidates, each as its slot |
| PathSuggest.Suggestions | code/logic/fossil/code/magic.h:214-216 | a directory that cannot be opened gives no suggestion (the `count = 0` and early return of code/logic/magic.c:393-395); never more than 16, the documented cap |
| PathSuggest.SuggestionsRanked | code/logic/fossil/code/magic.h:214-216 | the suggestions are ranked by non-increasing score, each at least 0.18, and none left out scores above a listed one |
| PathSuggest.CopyOut | code/logic/magic.c:448-454 | the capped copy loop writes exactly `Listed` into the set |
| PathSuggest.Suggest | code/logic/magic.c:388-455 | the set ends up holding exactly `Suggestions` |
| AutoRecovery.LeadTracks | code/logic/magic.c:468-485 | the tracking variables hold the first maximal positive score and its index, and a second best that is at least every other score and at a different index |
| AutoRecovery.LaterEqualScoreIsSecond | code/logic/magic.c:476-484 | of two equal positive scores the first stays best and the later one becomes second |
| AutoRecovery.ScoresOf | code/logic/magic.c:469-474 | each candidate is scored by `BoostedScore` |
| AutoRecovery.TokenField | code/logic/fossil/code/magic.h:71-78 | a token field keeps a prefix of at most 255 characters |
| AutoRecovery.Recover | code/logic/magic.c:487-519 | the original token is truncated, the recovered token and confidence are the first best, applied iff the best exceeds 0.80, and the second best never exceeds the best |
| AutoRecovery.NothingScoredLeavesEmpty | code/logic/magic.c:513-519 | with no positive score every field but the original token is empty or zero |
| AutoRecovery.FirstBestIsFirstMaximum | code/logic/magic.c:476-498 | the first best scores at least every candidate and, when positive, is the first candidate with that score |
| AutoRecovery.SecondBestIsRunnerUp | code/logic/magic.c:476-509 | the second best is a different candidate scoring at least every candidate other than the first best |
| AutoRecovery.CaseVariantIsApplied | code/logic/magic.c:500 | a case variant among the candidates makes the recovery auto-applied at confidence 1.17 |
| AutoRecovery.TrackLeaders | code/logic/magic.c:462-485 | the loop's four variables equal `Lead` of the scores |
| AutoRecovery.AutoRecoverToken | code/logic/magic.c:457-520 | the out record equals `Recover` |
| Danger.LastIndexOf | code/logic/magic.c:44 | `strrchr` finds the last occurrence, or reports that there is none |
| Danger.LastIndexOfIs | code/logic/magic.c:44 | a last occurrence is what `strrchr` finds |
| Danger.Extension | code/logic/magic.c:44-45 | an extension starts at a '.' and holds no other '.' |
| Danger.NoDotIsNotCode | code/logic/magic.c:45 | a path without a '.' is never a code file |
| Danger.MakefileNeedsADot | code/logic/magic.c:45 | "Makefile" is not a code file, "./Makefile" is |
| Danger.ExtensionCaseIgnored | code/logic/magic.c:112-114 | extensions compare ignoring case: "main.C" is a code file |
| Danger.BareTableNamesNeverMatch | code/logic/magic.c:106 | the table's entries "BUILD" and "WORKSPACE" can never equal an extension |
| Danger.Weight | code/logic/magic.c:615-623 | the weighted sum is at most 18 |
| Danger.LevelOfMonotone | code/logic/magic.c:625-634 | a higher sum never gives a lower level, and only a sum below 1 is NONE |
| Danger.WeightIgnoresWritableAndDirectory | code/logic/magic.c:615-623 | neither the writable flag nor the directory flag weighs in |
| Danger.Flags | code/logic/magic.c:531-613 | the flags keep the truncated path and level NONE, never set the version-control flag, take directory and writable from `stat`, give directories no extension flag and files no secrets or suspicious files |
| Danger.Scored | code/logic/magic.c:615-634 | the level is the threshold of the item's own weighted sum and nothing else changes |
| Danger.Analyze | code/logic/magic.c:526-635 | a failed `stat` gives the cleared item; otherwise the level matches the weighted sum, with the flag exclusions of `Flags` |
| Danger.LevelIgnoresOwnerWritable | code/logic/magic.c:539-545 | the owner-writable bit never changes the level |
| Danger.StatFailureIsSafe | code/logic/magic.c:534-537 | a failed `stat` gives level NONE and weight 0 |
| Danger.ScanListing | code/logic/magic.c:591-613 | the listing loop finds a suspicious file exactly when one is listed |
| Danger.AnalyzeDanger | code/logic/magic.c:526-635 | the analysis method's item equals `Analyze` |
| Danger.WeightOf | code/logic/magic.c:615-623 | the accumulating sum equals `Weight` |
| Danger.LevelFor | code/logic/magic.c:625-634 | the threshold chain yields `LevelOf` |
| Danger.Points | code/logic/magic.c:651-657 | a level adds at most 8 points, and at most 1 up to LOW |
| Danger.MaxLevelOf | code/logic/fossil/code/magic.h:123 | the overall level is at least every item's level and is NONE or one of them |
| Danger.LowLevelsAddLittle | code/logic/magic.c:651-657 | levels up to LOW add at most one point each |
| Danger.ItemCount | code/logic/magic.c:646 | the item count is `path_count` clamped into 0..8 |
| Danger.Levels | code/logic/magic.c:649-657 | the levels of the items, in order |
| Danger.Summary | code/logic/magic.c:660-662 | the summary keeps the items and their count, with the highest level as the overall level |
| Danger.Analyses | code/logic/magic.c:647 | the k-th item is the analysis of the k-th path |
| Danger.AnalysesStep | code/logic/magic.c:646-648 | one more path appends its analysis |
| Danger.SummaryStep | code/logic/magic.c:649-657 | one more item folds its level into the maximum and its points into the total |
| Danger.Report | code/logic/magic.c:637-665 | the report holds the analyses of the first min(max(path_count, 0), 8) paths and is their summary |
| Danger.WarningIffMedium | code/logic/magic.c:661 | with at most 8 items a warning is required exactly when the overall level is at least MEDIUM |
| Danger.BlockImpliesWarning | code/logic/magic.c:661-662 | a recommended block always comes with a warning |
| Danger.BlockWithoutCritical | code/logic/magic.c:662 | four HIGH items recommend a block though none is CRITICAL |
| Danger.DangerReportOf | code/logic/magic.c:637-665 | the report loop fills exactly `Report` |

## Left out

- Floating point: scores are `real`; the C code computes in `float`, so results at the 0.18, 0.7 and 0.80 boundaries may differ from the exact values stated here.
- Filesystem and clock: `opendir`/`readdir`, `stat`, `time()`, `fossil_it_magic_contains_git`, `fossil_it_magic_contains_secret` and `fossil_it_magic_directory_size` (code/logic/magic.c:129-194) are not modelled; their outcomes are inputs (`PathSuggest.Entry`, `Danger.Observation`).
- Danger.Observation: `isSymlink` is an input although the code takes it from `stat`, which follows links; the Windows branches (`_access`, no world-writable bit, no symlink or recent-modification test) are not modelled.
- PathSuggest.PATH_MAX is taken as 4096; `snprintf` truncation is the length check of `Consider`.
- The `fossil_io_cstring_*` predicates are not part of this model; they get ASCII definitions in `Text`: `starts_with(x, y)` and `case_starts_with(x, y)` read as "x is a prefix of y" (as the prefix-match field of the reason record describes it), `case_ends_with(y, x)` as "x is a suffix of y", `compare`/`equals` as equality and `case_compare`/`iequals` as equality after `tolower`. The library's signatures are not part of this model. Under the other reading, string first (`case_starts_with(a, b)` as "a starts with b"), the prefix bonus would go to candidates that are prefixes of the input rather than extensions of it, and the empty string against a non-empty one would score 0.07 instead of 0.17 (`Similarity.SimilarityFromEmpty`); the suffix reading would be unchanged.
- `isalnum`/`tolower` are the C-locale ASCII versions.
- Strings: a Dafny `char` stands for one C byte in 1..255 and a string holds no NUL. On such strings the model's lengths, distances, 31-character token cuts and `Truncate` cut points are the C's byte counts; a non-ASCII character encoded in several bytes, or an embedded NUL that ends a C string, is outside this correspondence.
- The `calloc` failure of the distance table (INT_MAX) is not modelled; a successful allocation is assumed.
- Pointers: the borrowed `input`/`suggested` pointers of the reason record are copies of the strings; results are values rather than pointers into the caller's array, so aliasing and lifetime are not captured.
- NULL elements: only the NULL checks the code makes are modelled (`Option`); a NULL candidate in auto-recovery or path suggestion would crash the C code and cannot be expressed.
- `fossil_ti_path_ai_report_t` (code/logic/fossil/code/magic.h:58-61) is not part of this model: no function fills it.
- The report's summary reason: the header documents one, but the code writes none and the struct has no such field.
- CommandSuggest.AssessedWellScored: needs every command shorter than INT_MAX characters (`LengthsFit`), the bound that makes the initial distance of INT_MAX lose to every real one.
- AutoRecovery.Recover: requires `n <= |cands|`, the array length the C leaves to its caller; a shorter C array would be read out of bounds.
- Danger.Report: requires at least `ItemCount(pathCount)` paths (and observations), the array length the C leaves to its caller.
- CommandSuggest.Suggest: `n` commands are read from a list of at least `n`; a shorter C array would be read out of bounds.
- AutoRecovery.SecondBestIsRunnerUp: does not state which of several candidates tied for second place is kept.
- EditDistance.OsaDistance: proved to be exact on the empty string and lower-bounded by the length difference, not proved to be the minimum edit count nor related cell by cell to `Distance`.
- PathSuggest.Suggest, PathSuggest.Suggestions, PathSuggest.Listed: model the copy capped at the 16 slots (see Findings); the as-written copy is `PathSuggest.CopyAsWritten`.

## Findings

| source | as written | input that shows it | evidently intended | confidence | as-written member | corrected member |
|---|---|---|---|---|---|---|
| code/logic/magic.c:254 | only row 0 of the table is initialised, so column 0 stays 0 and deleting leading characters of `s1` is free | `s1 = "ab"`, `s2 = "b"` gives 0 (any `p + b` against `b` gives 0) | column 0 holds `i`, so `p + b` against `b` costs \|p\| and the empty string costs the full length both ways | high (not executed) | EditDistance.LevenshteinNotMinimal | EditDistance.OsaDistance |
| code/logic/magic.c:448-454 | the copy loop writes one slot per collected candidate, up to 32, into a list of 16 | 17 entries equal to the bad path up to case, each short enough to join | at most 16 suggestions, as documented at code/logic/fossil/code/magic.h:214-216 | high (not executed) | PathSuggest.AsWrittenCopyOverflows | PathSuggest.CopyOut |

Where the documentation and the code differ and the code is not clearly wrong, the model follows the code:

- code/logic/fossil/code/magic.h:191 says a command is returned when its score "exceeds" 0.7; code/logic/magic.c:381 accepts exactly 0.7 (`CommandSuggest.ResultIsAcceptedCommand`).
- code/logic/fossil/code/magic.h:43 and 73 document scores in 0..1; the unclamped bonuses reach 1.17 (`Similarity.BoostedScoreSelf`).
- The exchange sort is not stable (`PathSuggest.ExchangeSortIsNotStable`).
- The table entries "BUILD" and "WORKSPACE" among the extensions can never match (`Danger.BareTableNamesNeverMatch`); those names are found through the special-name list only when the path has a '.' somewhere.
- The `contains_vcs` flag is never set; a directory's code flag is the `.git` test.
