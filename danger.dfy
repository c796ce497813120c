/** Danger detection for a path about to be touched: an analysis of one path
    from what `stat`, the directory walkers and the clock report about it,
    and a report combining up to eight such analyses. The filesystem and the
    clock are inputs: an `Observation` record per path. */
module Danger {
  import opened Wrappers
  import opened Text
  import opened MagicTypes

  /** Code extensions: C and C++, Python, the JVM and .NET languages, Go and Rust. */
  const C_FAMILY_EXTENSIONS: seq<string> :=
    [".c", ".h", ".cpp", ".hpp", ".cc", ".cxx", ".hxx", ".hh", ".py", ".pyw", ".ipynb", ".pyc",
     ".pyo", ".pyd", ".java", ".class", ".jar", ".jad", ".jmod", ".cs", ".vb", ".fs", ".go",
     ".mod", ".sum", ".rs", ".rlib", ".toml"]

  /** Code extensions: JavaScript, TypeScript, PHP and Ruby. */
  const WEB_EXTENSIONS: seq<string> :=
    [".js", ".jsx", ".mjs", ".cjs", ".ts", ".tsx", ".php", ".phtml", ".php3", ".php4", ".php5",
     ".phps", ".rb", ".erb", ".rake", ".gemspec"]

  /** Code extensions: Perl, Swift, Kotlin, Scala, the shells, batch files and Lua. */
  const SCRIPT_EXTENSIONS: seq<string> :=
    [".pl", ".pm", ".pod", ".t", ".swift", ".kt", ".kts", ".scala", ".sc", ".sh", ".bash", ".zsh",
     ".csh", ".tcsh", ".ksh", ".bat", ".cmd", ".ps1", ".psm1", ".lua"]

  /** Code extensions: SQL, markup, style sheets, data formats and Dart. */
  const DATA_EXTENSIONS: seq<string> :=
    [".sql", ".sqlite", ".db", ".html", ".htm", ".xhtml", ".css", ".scss", ".less", ".xml", ".xsd",
     ".xslt", ".json", ".yaml", ".yml", ".dart"]

  /** Code extensions: Groovy, R, Objective-C, assembly, hardware description and the ML family. */
  const SCIENTIFIC_EXTENSIONS: seq<string> :=
    [".groovy", ".gradle", ".r", ".R", ".Rmd", ".m", ".mm", ".asm", ".s", ".S", ".v", ".vh", ".sv",
     ".vhd", ".vhdl", ".coffee", ".clj", ".cljs", ".cljc", ".edn", ".hs", ".lhs", ".ghc", ".ml",
     ".mli", ".ocaml", ".ada", ".adb", ".ads"]

  /** Code extensions: Fortran, Prolog, TeX, Lisp, Pascal and other languages. */
  const OTHER_LANGUAGE_EXTENSIONS: seq<string> :=
    [".for", ".f90", ".f95", ".f03", ".f08", ".f", ".f77", ".pro", ".pl", ".tcl", ".tex", ".sty",
     ".cls", ".nim", ".cr", ".ex", ".exs", ".elm", ".erl", ".hrl", ".lisp", ".el", ".scm", ".cl",
     ".lsp", ".pas", ".pp", ".p", ".d", ".vala", ".vbs", ".awk", ".ps", ".raku", ".pl6", ".pm6"]

  /** Code extensions: build, configuration and project files, with two bare names. */
  const BUILD_EXTENSIONS: seq<string> :=
    [".sol", ".cmake", ".build", ".options", ".dockerfile", ".ini", ".conf", ".cfg", ".toml",
     ".tsx", ".sln", ".vcxproj", ".csproj", ".xcodeproj", ".xcworkspace", ".bazel", ".bzl",
     "BUILD", "WORKSPACE", ".ninja", ".gitignore", ".gitattributes", ".editorconfig", ".env"]

  /** Extensions (and two bare names) compared, ignoring case, with the text
      from the last '.' of a path, in the order of the C table. */
  const CODE_EXTENSIONS: seq<string> :=
    C_FAMILY_EXTENSIONS + WEB_EXTENSIONS + SCRIPT_EXTENSIONS + DATA_EXTENSIONS +
    SCIENTIFIC_EXTENSIONS + OTHER_LANGUAGE_EXTENSIONS + BUILD_EXTENSIONS

  /** File names compared exactly with the text after the last '/'. */
  const SPECIAL_NAMES: seq<string> :=
    ["Makefile", "CMakeLists.txt", "Dockerfile", "BUILD", "WORKSPACE", "SConstruct", "Rakefile", "Gemfile"]

  /** Extensions of executables and scripts. */
  const DANGER_EXTENSIONS: seq<string> :=
    [".exe", ".dll", ".bin", ".sh", ".bat", ".cmd", ".scr", ".pif", ".com", ".js", ".vbs"]

  /** Sizes above 10 MiB are large. */
  const LARGE_SIZE: int := 10 * 1024 * 1024
  /** A modification within the last day is recent. */
  const RECENT_SECONDS: int := 24 * 3600

  /** `strrchr(s, c)`: the index of the last `c` in `s`, if any. */
  function LastIndexOf(s: string, c: char): (r: Option<nat>)
    ensures r.Some? ==> r.value < |s| && s[r.value] == c && forall k :: r.value < k < |s| ==> s[k] != c
    ensures r.None? ==> forall k :: 0 <= k < |s| ==> s[k] != c
    decreases |s|
  {
    if s == [] then None
    else if s[|s| - 1] == c then Some(|s| - 1)
    else LastIndexOf(s[..|s| - 1], c)
  }

  /** An occurrence of `c` with no `c` after it is the last one. */
  lemma LastIndexOfIs(s: string, c: char, i: nat)
    requires i < |s| && s[i] == c && forall k :: i < k < |s| ==> s[k] != c
    ensures LastIndexOf(s, c) == Some(i)
  {
  }

  /** The text from the last '.' of `path` on, if it has a '.'. */
  function Extension(path: string): (ext: Option<string>)
    ensures ext.Some? ==> |ext.value| >= 1 && ext.value[0] == '.'
    ensures ext.Some? ==> forall k :: 1 <= k < |ext.value| ==> ext.value[k] != '.'
  {
    match LastIndexOf(path, '.')
    case None => None
    case Some(i) => Some(path[i..])
  }

  /** The text after the last '/' of `path`, or all of it. */
  function BaseName(path: string): string
  {
    match LastIndexOf(path, '/')
    case None => path
    case Some(i) => path[i + 1..]
  }

  /** `x` equals some entry of `table`, ignoring case. */
  predicate InTableCI(x: string, table: seq<string>)
  {
    exists k :: 0 <= k < |table| && EqualsCI(x, table[k])
  }

  /** `fossil_it_magic_is_code_file`: a path with a '.' whose extension is a
      code extension, or whose base name is a build file name. */
  predicate IsCodeFile(path: string)
  {
    Extension(path).Some? &&
    (InTableCI(Extension(path).value, CODE_EXTENSIONS) || BaseName(path) in SPECIAL_NAMES)
  }

  /** The path has an executable or script extension. */
  predicate HasDangerExtension(path: string)
  {
    Extension(path).Some? && InTableCI(Extension(path).value, DANGER_EXTENSIONS)
  }

  /** A path without any '.' is never a code file, whatever its base name. */
  lemma NoDotIsNotCode(path: string)
    requires forall k :: 0 <= k < |path| ==> path[k] != '.'
    ensures !IsCodeFile(path)
  {
  }

  /** So a bare "Makefile" is not code, while "./Makefile" is. */
  lemma MakefileNeedsADot()
    ensures !IsCodeFile("Makefile")
    ensures IsCodeFile("./Makefile")
  {
    NoDotIsNotCode("Makefile");
    var path := "./Makefile";
    LastIndexOfIs(path, '.', 0);
    LastIndexOfIs(path, '/', 1);
    assert path[2..] == "Makefile";
    assert SPECIAL_NAMES[0] == "Makefile";
  }

  /** Extensions match ignoring case: "main.C" is code. */
  lemma ExtensionCaseIgnored()
    ensures IsCodeFile("main.C")
  {
    var path := "main.C";
    LastIndexOfIs(path, '.', 4);
    assert path[4..] == ".C";
    assert C_FAMILY_EXTENSIONS[0] == ".c";
    assert CODE_EXTENSIONS[0] == ".c";
    assert Lower('C') == 'c' && Lower('.') == '.';
    assert EqualsCI(".C", CODE_EXTENSIONS[0]);
  }

  /** The "BUILD" and "WORKSPACE" entries of the extension table can never
      match, as an extension starts with '.'. */
  lemma BareTableNamesNeverMatch(path: string)
    requires Extension(path).Some?
    ensures !EqualsCI(Extension(path).value, "BUILD")
    ensures !EqualsCI(Extension(path).value, "WORKSPACE")
  {
    var ext := Extension(path).value;
    assert Lower(ext[0]) == '.';
  }

  /** What the platform reports about one path (POSIX branches). */
  datatype Observation = Observation(
    statOk: bool,          // stat(path) succeeded
    isDirectory: bool,     // S_ISDIR
    ownerWritable: bool,   // S_IWUSR
    worldWritable: bool,   // S_IWOTH
    isSymlink: bool,       // S_ISLNK of the mode stat returned
    fileSize: int,         // st_size
    mtime: int,            // st_mtime
    now: int,              // time(NULL), -1 on failure
    hasGit: bool,          // fossil_it_magic_contains_git(path)
    hasSecret: bool,       // fossil_it_magic_contains_secret(path)
    treeSize: int,         // fossil_it_magic_directory_size(path)
    listing: Option<seq<string>>)  // readdir names; None when opendir fails

  /** Some entry of a directory listing, other than `.` and `..`, has an
      executable or script extension. */
  predicate SuspiciousIn(names: seq<string>)
  {
    exists k :: 0 <= k < |names| && names[k] != "." && names[k] != ".." && HasDangerExtension(names[k])
  }

  /** The weighted sum of the risk flags. */
  function Weight(item: DangerItem): (s: nat)
    ensures s <= 18
  {
    (if item.containsCode then 3 else 0) + (if item.containsSecrets then 5 else 0) +
    (if item.largeSize then 2 else 0) + (if item.worldWritable then 2 else 0) +
    (if item.isSymlink then 1 else 0) + (if item.suspiciousExtension then 2 else 0) +
    (if item.recentlyModified then 1 else 0) + (if item.containsSuspiciousFiles then 2 else 0)
  }

  /** The thresholds from the weighted sum to a level. */
  function LevelOf(score: int): DangerLevel
  {
    if score >= 8 then Critical
    else if score >= 5 then High
    else if score >= 3 then Medium
    else if score >= 1 then Low
    else Safe
  }

  /** A higher sum never gives a lower level, and only a zero sum is safe. */
  lemma LevelOfMonotone(a: int, b: int)
    requires a <= b
    ensures Rank(LevelOf(a)) <= Rank(LevelOf(b))
    ensures LevelOf(a) == Safe <==> a < 1
  {
  }

  /** Neither the writable flag nor the directory flag weighs in. */
  lemma WeightIgnoresWritableAndDirectory(item: DangerItem, writable: bool, isDirectory: bool)
    ensures Weight(item.(writable := writable, isDirectory := isDirectory)) == Weight(item)
  {
  }

  /** The all-clear item for `path`, as the memset leaves it. */
  function Cleared(path: string): DangerItem
  {
    DangerItem(Truncate(path, PATH_FIELD_CAPACITY), Safe, false, false, false, false, false, false,
               false, false, false, false, false)
  }

  /** The flags a successful `stat` yields, before scoring. Directories
      take their code flag from a `.git` inside, their secrets flag and their
      suspicious-files flag from walking them, and their size from the tree;
      files take the code flag from their name and the extension flag. The
      version-control flag is never set. */
  function Flags(path: string, obs: Observation): (f: DangerItem)
    ensures f.targetPath == Truncate(path, PATH_FIELD_CAPACITY) && f.level == Safe && !f.containsVcs
    ensures f.isDirectory == obs.isDirectory && f.writable == obs.ownerWritable
    ensures f.isDirectory ==> !f.suspiciousExtension
    ensures !f.isDirectory ==> !f.containsSecrets && !f.containsSuspiciousFiles
  {
    var dir := obs.isDirectory;
    var size := if dir then obs.treeSize else obs.fileSize;
    DangerItem(
      Truncate(path, PATH_FIELD_CAPACITY), Safe, dir,
      if dir then obs.hasGit else IsCodeFile(path),
      false,
      dir && obs.hasSecret,
      size > LARGE_SIZE,
      obs.ownerWritable,
      obs.worldWritable,
      obs.isSymlink,
      !dir && HasDangerExtension(path),
      obs.now != -1 && obs.now - obs.mtime < RECENT_SECONDS,
      dir && obs.listing.Some? && SuspiciousIn(obs.listing.value))
  }

  /** The flags with the level their weighted sum reaches; nothing else
      changes. */
  function Scored(f: DangerItem): (item: DangerItem)
    ensures item.level == LevelOf(Weight(item))
    ensures item == f.(level := item.level)
  {
    f.(level := LevelOf(Weight(f)))
  }

  /** `fossil_it_magic_danger_analyze` on one path. */
  function Analyze(path: string, obs: Observation): (item: DangerItem)
    ensures item.targetPath == Truncate(path, PATH_FIELD_CAPACITY)
    ensures !obs.statOk ==> item == Cleared(path)
    ensures item.level == LevelOf(Weight(item))
    ensures !item.containsVcs
    ensures item.isDirectory ==> !item.suspiciousExtension
    ensures !item.isDirectory ==> !item.containsSecrets && !item.containsSuspiciousFiles
  {
    if !obs.statOk then Cleared(path) else Scored(Flags(path, obs))
  }

  /** Whether the owner may write the path has no bearing on its level. */
  lemma LevelIgnoresOwnerWritable(path: string, obs: Observation, w: bool)
    ensures Analyze(path, obs.(ownerWritable := w)).level == Analyze(path, obs).level
  {
    if obs.statOk {
      var f := Flags(path, obs);
      assert Flags(path, obs.(ownerWritable := w)) == f.(writable := w);
      WeightIgnoresWritableAndDirectory(f, w, f.isDirectory);
    }
  }

  /** An unreadable path is safe with every flag clear. */
  lemma StatFailureIsSafe(path: string, obs: Observation)
    requires !obs.statOk
    ensures Analyze(path, obs).level == Safe
    ensures Weight(Analyze(path, obs)) == 0
  {
  }

  // ---------------------------------------------------------------------
  // The analysis as the C code writes it.

  /** The directory scan for executables and scripts, which stops at the
      first one. */
  method ScanListing(names: seq<string>) returns (found: bool)
    ensures found == SuspiciousIn(names)
  {
    found := false;
    var i := 0;
    while i < |names|
      invariant 0 <= i <= |names|
      invariant !found
      invariant forall k :: 0 <= k < i ==> !(names[k] != "." && names[k] != ".." && HasDangerExtension(names[k]))
    {
      if names[i] != "." && names[i] != ".." && HasDangerExtension(names[i]) {
        found := true;
        return;
      }
      i := i + 1;
    }
  }

  /** Fills the item field by field and adds up the weights. */
  method AnalyzeDanger(path: string, obs: Observation) returns (item: DangerItem)
    ensures item == Analyze(path, obs)
  {
    item := Cleared(path);
    if !obs.statOk {
      return;
    }
    var dir := obs.isDirectory;
    var code := if dir then obs.hasGit else IsCodeFile(path);
    var secrets := dir && obs.hasSecret;
    var size := if dir then obs.treeSize else obs.fileSize;
    var extension := !dir && HasDangerExtension(path);
    var recent := obs.now != -1 && obs.now - obs.mtime < RECENT_SECONDS;
    var suspicious := false;
    if dir && obs.listing.Some? {
      suspicious := ScanListing(obs.listing.value);
    }
    item := DangerItem(item.targetPath, Safe, dir, code, false, secrets, size > LARGE_SIZE,
                       obs.ownerWritable, obs.worldWritable, obs.isSymlink, extension, recent, suspicious);
    assert item == Flags(path, obs);
    var score := WeightOf(item);
    var level := LevelFor(score);
    item := item.(level := level);
  }

  /** Adds up the weights of the flags that are set. */
  method WeightOf(item: DangerItem) returns (score: int)
    ensures score == Weight(item)
  {
    score := 0;
    if item.containsCode { score := score + 3; }
    if item.containsSecrets { score := score + 5; }
    if item.largeSize { score := score + 2; }
    if item.worldWritable { score := score + 2; }
    if item.isSymlink { score := score + 1; }
    if item.suspiciousExtension { score := score + 2; }
    if item.recentlyModified { score := score + 1; }
    if item.containsSuspiciousFiles { score := score + 2; }
  }

  /** The thresholds as the chain of comparisons applies them. */
  method LevelFor(score: int) returns (level: DangerLevel)
    ensures level == LevelOf(score)
  {
    level := Safe;
    if score >= 8 {
      level := Critical;
    } else if score >= 5 {
      level := High;
    } else if score >= 3 {
      level := Medium;
    } else if score >= 1 {
      level := Low;
    }
  }

  // ---------------------------------------------------------------------
  // The report.

  /** The points a level adds to the report's total. */
  function Points(l: DangerLevel): (p: nat)
    ensures Rank(l) <= 1 ==> p <= 1
    ensures p <= 8
  {
    match l
    case Critical => 8
    case High => 5
    case Medium => 3
    case Low => 1
    case Safe => 0
  }

  /** The highest of the levels, Safe for none. */
  function MaxLevelOf(levels: seq<DangerLevel>): (r: DangerLevel)
    ensures forall k :: 0 <= k < |levels| ==> Rank(levels[k]) <= Rank(r)
    ensures r == Safe || r in levels
    decreases |levels|
  {
    if levels == [] then Safe
    else MaxLevel(MaxLevelOf(levels[..|levels| - 1]), levels[|levels| - 1])
  }

  /** The sum of the points of the levels. */
  function TotalPoints(levels: seq<DangerLevel>): (t: nat)
    decreases |levels|
  {
    if levels == [] then 0
    else TotalPoints(levels[..|levels| - 1]) + Points(levels[|levels| - 1])
  }

  /** Levels up to Low add at most one point each. */
  lemma {:induction false} LowLevelsAddLittle(levels: seq<DangerLevel>)
    requires forall k :: 0 <= k < |levels| ==> Rank(levels[k]) <= 1
    ensures TotalPoints(levels) <= |levels|
    decreases |levels|
  {
    if levels != [] {
      LowLevelsAddLittle(levels[..|levels| - 1]);
    }
  }

  /** The number of items: `path_count` clamped into 0..8. */
  function ItemCount(pathCount: int): (n: nat)
    ensures n <= REPORT_SLOTS
    ensures 0 <= pathCount <= REPORT_SLOTS ==> n == pathCount
    ensures pathCount < 0 ==> n == 0
    ensures pathCount > REPORT_SLOTS ==> n == REPORT_SLOTS
  {
    if pathCount < 0 then 0 else if pathCount > REPORT_SLOTS then REPORT_SLOTS else pathCount
  }

  function Levels(items: seq<DangerItem>): (ls: seq<DangerLevel>)
    ensures |ls| == |items| && forall k :: 0 <= k < |items| ==> ls[k] == items[k].level
  {
    seq(|items|, k requires 0 <= k < |items| => items[k].level)
  }

  /** The report over `items`: the highest level, a warning at Medium
      or from 10 points, a block at Critical or from 16 points. */
  function Summary(items: seq<DangerItem>): (r: DangerReport)
    ensures r.items == items && r.itemCount == |items|
    ensures r.overallLevel == MaxLevelOf(Levels(items))
  {
    var levels := Levels(items);
    var overall := MaxLevelOf(levels);
    var total := TotalPoints(levels);
    DangerReport(items, |items|, overall, Rank(overall) >= Rank(Critical) || total >= 16,
                 Rank(overall) >= Rank(Medium) || total >= 10)
  }

  /** The analyses of the first `n` paths. */
  function Analyses(paths: seq<string>, obs: seq<Observation>, n: nat): (items: seq<DangerItem>)
    requires n <= |paths| && n <= |obs|
    ensures |items| == n && forall k :: 0 <= k < n ==> items[k] == Analyze(paths[k], obs[k])
  {
    seq(n, k requires 0 <= k < n => Analyze(paths[k], obs[k]))
  }

  /** One more analysis extends the list by its item. */
  lemma AnalysesStep(paths: seq<string>, obs: seq<Observation>, n: nat)
    requires n < |paths| && n < |obs|
    ensures Analyses(paths, obs, n + 1) == Analyses(paths, obs, n) + [Analyze(paths[n], obs[n])]
  {
  }

  /** One more item folds its level into the highest level and its points
      into the total. */
  lemma SummaryStep(items: seq<DangerItem>, item: DangerItem)
    ensures MaxLevelOf(Levels(items + [item])) == MaxLevel(MaxLevelOf(Levels(items)), item.level)
    ensures TotalPoints(Levels(items + [item])) == TotalPoints(Levels(items)) + Points(item.level)
  {
    assert Levels(items + [item])[..|items|] == Levels(items);
  }

  /** `fossil_it_magic_danger_report`. */
  function Report(paths: seq<string>, obs: seq<Observation>, pathCount: int): (r: DangerReport)
    requires ItemCount(pathCount) <= |paths| && ItemCount(pathCount) <= |obs|
    ensures r.itemCount == ItemCount(pathCount) && |r.items| == r.itemCount
    ensures forall k :: 0 <= k < r.itemCount ==> r.items[k] == Analyze(paths[k], obs[k])
    ensures r == Summary(r.items)
  {
    Summary(Analyses(paths, obs, ItemCount(pathCount)))
  }

  /** With at most eight items the point total adds nothing to the warning:
      a warning is required exactly when some item is at least Medium. */
  lemma WarningIffMedium(items: seq<DangerItem>)
    requires |items| <= REPORT_SLOTS
    ensures Summary(items).warningRequired <==> Rank(Summary(items).overallLevel) >= Rank(Medium)
  {
    var levels := Levels(items);
    if Rank(MaxLevelOf(levels)) < Rank(Medium) {
      LowLevelsAddLittle(levels);
    }
  }

  /** A recommended block always comes with a warning. */
  lemma BlockImpliesWarning(items: seq<DangerItem>)
    requires |items| <= REPORT_SLOTS
    ensures Summary(items).blockRecommended ==> Summary(items).warningRequired
  {
    var levels := Levels(items);
    if Rank(MaxLevelOf(levels)) < Rank(Medium) {
      LowLevelsAddLittle(levels);
    }
  }

  /** Four High items recommend a block although none is Critical. */
  lemma BlockWithoutCritical(item: DangerItem)
    requires item.level == High
    ensures Summary([item, item, item, item]).overallLevel == High
    ensures Summary([item, item, item, item]).blockRecommended
  {
    var levels := Levels([item, item, item, item]);
    assert levels == [High, High, High, High];
    assert levels[..3] == [High, High, High];
    assert levels[..3][..2] == [High, High];
    assert levels[..3][..2][..1] == [High];
    assert [High][..0] == [];
    assert TotalPoints([High]) == 5;
    assert TotalPoints([High, High]) == 10;
    assert TotalPoints([High, High, High]) == 15;
    assert TotalPoints(levels) == 20;
  }

  /** Fills the report slot by slot, as the loop over at most eight paths
      does. */
  method DangerReportOf(paths: seq<string>, obs: seq<Observation>, pathCount: int) returns (report: DangerReport)
    requires ItemCount(pathCount) <= |paths| && ItemCount(pathCount) <= |obs|
    ensures report == Report(paths, obs, pathCount)
  {
    var items: seq<DangerItem> := [];
    var maxLevel := Safe;
    var total := 0;
    var i := 0;
    while i < pathCount && i < REPORT_SLOTS
      invariant 0 <= i <= ItemCount(pathCount)
      invariant items == Analyses(paths, obs, i)
      invariant maxLevel == MaxLevelOf(Levels(items)) && total == TotalPoints(Levels(items))
    {
      var item := AnalyzeDanger(paths[i], obs[i]);
      AnalysesStep(paths, obs, i);
      SummaryStep(items, item);
      items := items + [item];
      if Rank(item.level) > Rank(maxLevel) {
        maxLevel := item.level;
      }
      total := total + Points(item.level);
      i := i + 1;
    }
    assert i == ItemCount(pathCount);
    assert Report(paths, obs, pathCount) == Summary(items);
    report := DangerReport(items, i, maxLevel, Rank(maxLevel) >= Rank(Critical) || total >= 16,
                           Rank(maxLevel) >= Rank(Medium) || total >= 10);
  }
}
