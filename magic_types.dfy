/** The result types and capacities declared in the public header: suggestion
    sets, auto-recovery results, danger items and reports, and the reasoning
    trace. Text fields are `string`s bounded by their C array capacity minus
    the terminator. */
module MagicTypes {

  const PATH_FIELD_CAPACITY: nat := 512   // candidate_path[512], target_path[512]
  const TOKEN_FIELD_CAPACITY: nat := 256  // the four token fields of the recovery result
  const SUGGESTION_SLOTS: nat := 16       // list[16] of a suggestion set
  const REPORT_SLOTS: nat := 8            // items[8] of a danger report

  /** A scored path suggestion. */
  datatype Suggestion = Suggestion(candidatePath: string, similarityScore: real, pathExists: bool)

  /** A ranked list of suggestions for one bad path: a fixed block of 16 slots
      of which the first `count` are valid. */
  class SuggestionSet {
    var list: array<Suggestion>
    var count: int

    ghost predicate Valid()
      reads this
    {
      list.Length == SUGGESTION_SLOTS && 0 <= count <= SUGGESTION_SLOTS
    }

    /** The valid entries. */
    function Entries(): (s: seq<Suggestion>)
      reads this, list
      requires Valid()
      ensures |s| == count
    {
      list[..count]
    }

    constructor ()
      ensures Valid() && fresh(list) && count == 0
    {
      list := new Suggestion[SUGGESTION_SLOTS](_ => Suggestion("", 0.0, false));
      count := 0;
    }
  }

  /** Outcome of recovering one token from a candidate list. */
  datatype Recovery = Recovery(
    originalToken: string,
    recoveredToken: string,
    confidence: real,
    applied: bool,
    firstBestToken: string,
    firstBestConfidence: real,
    secondBestToken: string,
    secondBestConfidence: real)

  /** The diagnostic trace of the command suggester. `input` and `suggested`
      are the caller's own strings (the C struct borrows them). */
  datatype ReasonTrace = ReasonTrace(
    input: string,
    suggested: string,
    editDistance: int,
    confidenceScore: real,
    jaccardIndex: int,
    prefixMatch: bool,
    suffixMatch: bool,
    caseInsensitive: bool,
    reason: string)

  /** Danger levels; `Safe` is FOSSIL_TI_DANGER_NONE. */
  datatype DangerLevel = Safe | Low | Medium | High | Critical

  /** The enum's integer value; C compares levels through it. */
  function Rank(l: DangerLevel): (r: nat)
    ensures r <= 4
    ensures l == Safe <==> r == 0
    ensures l == Critical <==> r == 4
  {
    match l
    case Safe => 0
    case Low => 1
    case Medium => 2
    case High => 3
    case Critical => 4
  }

  /** The enum values are distinct integers, so comparing them is a total order
      on the levels. */
  lemma RankIsTotalOrder(a: DangerLevel, b: DangerLevel)
    ensures Rank(a) == Rank(b) <==> a == b
    ensures Rank(a) < Rank(b) || Rank(a) == Rank(b) || Rank(b) < Rank(a)
  {
  }

  /** The larger of two levels (`if (l > maxLevel) maxLevel = l`). */
  function MaxLevel(a: DangerLevel, b: DangerLevel): (r: DangerLevel)
    ensures Rank(r) >= Rank(a) && Rank(r) >= Rank(b)
    ensures r == a || r == b
  {
    if Rank(b) > Rank(a) then b else a
  }

  /** Analysis of one path. */
  datatype DangerItem = DangerItem(
    targetPath: string,
    level: DangerLevel,
    isDirectory: bool,
    containsCode: bool,
    containsVcs: bool,
    containsSecrets: bool,
    largeSize: bool,
    writable: bool,
    worldWritable: bool,
    isSymlink: bool,
    suspiciousExtension: bool,
    recentlyModified: bool,
    containsSuspiciousFiles: bool)

  /** Combined analysis of up to eight paths; `items` holds the `item_count`
      valid slots. */
  datatype DangerReport = DangerReport(
    items: seq<DangerItem>,
    itemCount: int,
    overallLevel: DangerLevel,
    blockRecommended: bool,
    warningRequired: bool)
}
