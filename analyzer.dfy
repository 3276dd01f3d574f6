/**
 * ProjectAnalyzer (shiplock_analyzer.py): `.bundleignore` patterns, the exclusion test, the
 * project scan with its counts, the `multi_stage` rule of `detect_docker`, the default
 * configuration and the `validate` rule table. `fnmatch` is a parameter; file contents and
 * existence are inputs.
 */
module Analyzer {
  import opened Wrappers
  import opened Strings
  import opened JsonValues

  /** `fnmatch.fnmatch(name, pattern)`. */
  type Matcher = (string, string) -> bool

  /** The parts of the configuration the analyzer reads. */
  datatype Config = Config(name: string, version: string, exclude: seq<string>)

  const DefaultExcludes: seq<string> :=
    ["*.py", "*.js", "*.ts", "*.go", "*.java", "src/", "tests/", ".git/", "__pycache__/", "node_modules/"]
  const DefaultIncludes: seq<string> := ["docker-compose.yml", "Dockerfile", ".env.example"]

  /** `_default_config` for a project directory named `dirName`, as the parsed YAML it stands for. */
  function DefaultConfigDocument(dirName: string): (doc: map<string, Json>)
    ensures doc.Keys == {"project", "build", "exclude", "include"}
    ensures doc["project"] == JObj(map["name" := JStr(dirName), "version" := JStr("1.0.0")])
    ensures doc["exclude"] == JArr(seq(|DefaultExcludes|, i requires 0 <= i < |DefaultExcludes| => JStr(DefaultExcludes[i])))
  {
    map[
      "project" := JObj(map["name" := JStr(dirName), "version" := JStr("1.0.0")]),
      "build" := JObj(map["strip_source" := JBool(true), "multi_stage" := JBool(true), "compress" := JBool(true)]),
      "exclude" := JArr(seq(|DefaultExcludes|, i requires 0 <= i < |DefaultExcludes| => JStr(DefaultExcludes[i]))),
      "include" := JArr(seq(|DefaultIncludes|, i requires 0 <= i < |DefaultIncludes| => JStr(DefaultIncludes[i])))]
  }

  /** The same defaults as the analyzer's typed configuration. */
  function DefaultConfig(dirName: string): (c: Config)
    ensures c.name == dirName && c.version == "1.0.0" && c.exclude == DefaultExcludes
  {
    Config(dirName, "1.0.0", DefaultExcludes)
  }

  /**
   * The typed configuration of a loaded document, read as `scan_project` reads
   * `config['project']['name']` and `['version']` and `_load_ignore_patterns` reads
   * `config.get('exclude', [])`. None stands for a document on which those reads raise
   * (a missing key, a value that is not a mapping) or give values other than strings.
   */
  function ConfigOf(doc: map<string, Json>): (r: Option<Config>)
    ensures r.Some? ==> "project" in doc && doc["project"].JObj?
  {
    if "project" in doc && doc["project"].JObj? then
      var project := doc["project"].obj;
      var exclude := Get(doc, "exclude", JArr([]));
      if "name" in project && project["name"].JStr? && "version" in project && project["version"].JStr?
         && exclude.JArr? && StringsOf(exclude.items).Some?
      then Some(Config(project["name"].str, project["version"].str, StringsOf(exclude.items).value))
      else None
    else None
  }

  /** The texts of a list whose items are all strings. */
  function StringsOf(items: seq<Json>): (r: Option<seq<string>>)
    ensures r.Some? ==> |r.value| == |items| && forall i :: 0 <= i < |items| ==> items[i] == JStr(r.value[i])
  {
    if |items| == 0 then Some([])
    else if items[0].JStr? && StringsOf(items[1..]).Some? then Some([items[0].str] + StringsOf(items[1..]).value)
    else None
  }

  lemma {:induction false} StringsOfTexts(xs: seq<string>)
    ensures StringsOf(seq(|xs|, i requires 0 <= i < |xs| => JStr(xs[i]))) == Some(xs)
  {
    var items := seq(|xs|, i requires 0 <= i < |xs| => JStr(xs[i]));
    if |xs| > 0 {
      StringsOfTexts(xs[1..]);
      assert items[1..] == seq(|xs[1..]|, i requires 0 <= i < |xs[1..]| => JStr(xs[1..][i]));
      assert [xs[0]] + xs[1..] == xs;
    }
  }

  /**
   * Without `.shiplock/config.yaml`, the analyzer runs on the default document: the project is
   * named after its directory at version 1.0.0, and with no `.bundleignore` the patterns are
   * exactly the default excludes.
   */
  lemma DefaultConfigLoads(dirName: string)
    ensures ConfigOf(DefaultConfigDocument(dirName)) == Some(DefaultConfig(dirName))
    ensures IgnorePatterns(None, DefaultConfig(dirName).exclude) == set p | p in DefaultExcludes
  {
    StringsOfTexts(DefaultExcludes);
  }

  /** The default exclude list names no C or C++ pattern, though `.cpp` and `.c` count as source suffixes. */
  lemma DefaultExcludesMissCSources()
    ensures "*.cpp" !in DefaultExcludes && "*.c" !in DefaultExcludes
    ensures ".cpp" in SourceSuffixes && ".c" in SourceSuffixes
  {
  }

  // ---- .bundleignore ----

  /** A line that yields a pattern: non-empty after stripping and not a `#` comment. */
  predicate IsPatternLine(line: string) {
    Strip(line) != "" && !StartsWith(Strip(line), "#")
  }

  /** The stripped pattern lines of a sequence of lines. */
  function LinePatterns(lines: seq<string>): set<string> {
    set line | line in lines && IsPatternLine(line) :: Strip(line)
  }

  lemma LinePatternsStep(lines: seq<string>, i: nat)
    requires i < |lines|
    ensures IsPatternLine(lines[i]) ==> LinePatterns(lines[..i + 1]) == LinePatterns(lines[..i]) + {Strip(lines[i])}
    ensures !IsPatternLine(lines[i]) ==> LinePatterns(lines[..i + 1]) == LinePatterns(lines[..i])
  {
    assert forall l :: l in lines[..i + 1] <==> l in lines[..i] || l == lines[i] by {
      assert lines[..i + 1] == lines[..i] + [lines[i]];
    }
  }

  /** The patterns `_load_ignore_patterns` yields: the `.bundleignore` lines (absent: none) and the excludes. */
  function IgnorePatterns(ignoreFile: Option<string>, exclude: seq<string>): set<string> {
    (if ignoreFile.Some? then LinePatterns(Split(ignoreFile.value, '\n')) else {}) + set p | p in exclude
  }

  /** A pattern is loaded exactly when it is configured or is the stripped text of a pattern line. */
  lemma IgnorePatternsMembers(ignoreFile: Option<string>, exclude: seq<string>)
    ensures forall p :: p in IgnorePatterns(ignoreFile, exclude) <==>
      (p in exclude || (ignoreFile.Some? && exists line :: line in Split(ignoreFile.value, '\n') && IsPatternLine(line) && Strip(line) == p))
  {
  }

  /**
   * `_load_ignore_patterns`: the stripped pattern lines of `.bundleignore` (absent: none)
   * together with the configured excludes.
   */
  method LoadIgnorePatterns(ignoreFile: Option<string>, exclude: seq<string>) returns (patterns: set<string>)
    ensures patterns == IgnorePatterns(ignoreFile, exclude)
    ensures forall p :: p in patterns <==>
      (p in exclude || (ignoreFile.Some? && exists line :: line in Split(ignoreFile.value, '\n') && IsPatternLine(line) && Strip(line) == p))
  {
    patterns := {};
    if ignoreFile.Some? {
      var lines := Split(ignoreFile.value, '\n');
      for i := 0 to |lines|
        invariant patterns == LinePatterns(lines[..i])
      {
        var line := Strip(lines[i]);
        LinePatternsStep(lines, i);
        if line != "" && !StartsWith(line, "#") {
          patterns := patterns + {line};
        }
      }
      assert lines[..|lines|] == lines;
    }
    patterns := patterns + set p | p in exclude;
    IgnorePatternsMembers(ignoreFile, exclude);
  }

  // ---- exclusion and scanning ----

  /** A file found by the walk: the directories from the project root down, and its name. */
  datatype FileEntry = FileEntry(dirs: seq<string>, name: string)

  /** `str(file_path.relative_to(project_path))` on a POSIX system. */
  function RelativePath(f: FileEntry): string {
    Join(f.dirs + [f.name], '/')
  }

  /** Some pattern matches the relative path or the base name. */
  predicate Excluded(f: FileEntry, patterns: set<string>, fnmatch: Matcher) {
    exists p :: p in patterns && (fnmatch(RelativePath(f), p) || fnmatch(f.name, p))
  }

  /** `_should_exclude`: tries the patterns one by one, in set order, until one matches. */
  method ShouldExclude(f: FileEntry, patterns: set<string>, fnmatch: Matcher) returns (excluded: bool)
    ensures excluded <==> Excluded(f, patterns, fnmatch)
  {
    var pathStr := RelativePath(f);
    var remaining := patterns;
    while remaining != {}
      invariant remaining <= patterns
      invariant forall p :: p in patterns - remaining ==> !fnmatch(pathStr, p) && !fnmatch(f.name, p)
      decreases |remaining|
    {
      var pattern :| pattern in remaining;
      if fnmatch(pathStr, pattern) {
        return true;
      }
      if fnmatch(f.name, pattern) {
        return true;
      }
      remaining := remaining - {pattern};
    }
    return false;
  }

  /** The walk prunes directories whose name starts with `.`: a file is visited iff none of its directories does. */
  predicate Visible(f: FileEntry) {
    forall i :: 0 <= i < |f.dirs| ==> !StartsWith(f.dirs[i], ".")
  }

  /** The last index of `c` in `s`, or -1 (`str.rfind` for one character). */
  function LastIndexOf(s: string, c: char): (r: int)
    ensures -1 <= r < |s|
    ensures r >= 0 ==> s[r] == c
    ensures forall j :: r < j < |s| ==> s[j] != c
    decreases |s|
  {
    if |s| == 0 then -1
    else if s[|s| - 1] == c then |s| - 1
    else LastIndexOf(s[..|s| - 1], c)
  }

  /** `PurePath.suffix`: from the last dot, unless that dot is the first or the last character. */
  function Suffix(name: string): (r: string)
    ensures r == "" || (StartsWith(r, ".") && EndsWith(name, r) && |r| >= 2)
  {
    var i := LastIndexOf(name, '.');
    if 0 < i < |name| - 1 then name[i..] else ""
  }

  const SourceSuffixes: seq<string> := [".py", ".js", ".ts", ".go", ".java", ".cpp", ".c"]

  predicate IsSource(f: FileEntry) {
    Suffix(f.name) in SourceSuffixes
  }

  /** The result of `scan_project`. */
  datatype ScanResult = ScanResult(
    name: string, version: string,
    totalFiles: nat, includedFiles: nat, excludedFiles: nat, sourceFilesExcluded: nat,
    includedList: seq<FileEntry>, excludedList: seq<FileEntry>)

  /** The visited files the patterns keep or drop, in walk order. */
  function Partition(walk: seq<FileEntry>, patterns: set<string>, fnmatch: Matcher, keep: bool): (r: seq<FileEntry>)
    decreases |walk|
    ensures |r| <= |walk|
  {
    if |walk| == 0 then []
    else
      var last := walk[|walk| - 1];
      Partition(walk[..|walk| - 1], patterns, fnmatch, keep)
        + (if Visible(last) && Excluded(last, patterns, fnmatch) != keep then [last] else [])
  }

  /** The number of excluded files with a source suffix. */
  function SourceCount(files: seq<FileEntry>): (n: nat)
    ensures n <= |files|
  {
    if |files| == 0 then 0
    else SourceCount(files[..|files| - 1]) + (if IsSource(files[|files| - 1]) then 1 else 0)
  }

  /** The visited files, in walk order. */
  function VisitedFiles(walk: seq<FileEntry>): seq<FileEntry>
    decreases |walk|
  {
    if |walk| == 0 then []
    else VisitedFiles(walk[..|walk| - 1]) + (if Visible(walk[|walk| - 1]) then [walk[|walk| - 1]] else [])
  }

  /**
   * `scan_project` over the files of the whole tree in walk order, pruned as `os.walk` does
   * it here; each visited file goes to the excluded or the included list.
   */
  method ScanProject(config: Config, walk: seq<FileEntry>, patterns: set<string>, fnmatch: Matcher)
    returns (result: ScanResult)
    ensures result.includedList == Partition(walk, patterns, fnmatch, true)
    ensures result.excludedList == Partition(walk, patterns, fnmatch, false)
    ensures result.includedFiles == |result.includedList| && result.excludedFiles == |result.excludedList|
    ensures result.totalFiles == result.includedFiles + result.excludedFiles
    ensures result.sourceFilesExcluded == SourceCount(result.excludedList) <= result.excludedFiles
    ensures result.name == config.name && result.version == config.version
  {
    var includedFiles: seq<FileEntry> := [];
    var excludedFiles: seq<FileEntry> := [];
    var sourceFiles: nat := 0;
    for i := 0 to |walk|
      invariant includedFiles == Partition(walk[..i], patterns, fnmatch, true)
      invariant excludedFiles == Partition(walk[..i], patterns, fnmatch, false)
      invariant sourceFiles == SourceCount(excludedFiles)
    {
      var file := walk[i];
      if !Visible(file) {
        PartitionSkip(walk, i, patterns, fnmatch);
      }
      if Visible(file) {
        var excluded := ShouldExclude(file, patterns, fnmatch);
        PartitionStep(walk, i, patterns, fnmatch, excluded);
        if excluded {
          SourceCountStep(excludedFiles, file);
          excludedFiles := excludedFiles + [file];
          if IsSource(file) {
            sourceFiles := sourceFiles + 1;
          }
        } else {
          includedFiles := includedFiles + [file];
        }
      }
    }
    assert walk[..|walk|] == walk;
    result := ScanResult(config.name, config.version,
      |includedFiles| + |excludedFiles|, |includedFiles|, |excludedFiles|, sourceFiles,
      includedFiles, excludedFiles);
  }

  /** A visited file goes to the list its exclusion verdict `excluded` selects. */
  lemma PartitionStep(walk: seq<FileEntry>, i: nat, patterns: set<string>, fnmatch: Matcher, excluded: bool)
    requires i < |walk| && Visible(walk[i]) && (excluded <==> Excluded(walk[i], patterns, fnmatch))
    ensures excluded ==> Partition(walk[..i + 1], patterns, fnmatch, true) == Partition(walk[..i], patterns, fnmatch, true)
    ensures !excluded ==> Partition(walk[..i + 1], patterns, fnmatch, true) == Partition(walk[..i], patterns, fnmatch, true) + [walk[i]]
    ensures excluded ==> Partition(walk[..i + 1], patterns, fnmatch, false) == Partition(walk[..i], patterns, fnmatch, false) + [walk[i]]
    ensures !excluded ==> Partition(walk[..i + 1], patterns, fnmatch, false) == Partition(walk[..i], patterns, fnmatch, false)
  {
    assert walk[..i + 1][..i] == walk[..i];
  }

  /** A file under a pruned directory goes to neither list. */
  lemma PartitionSkip(walk: seq<FileEntry>, i: nat, patterns: set<string>, fnmatch: Matcher)
    requires i < |walk| && !Visible(walk[i])
    ensures Partition(walk[..i + 1], patterns, fnmatch, true) == Partition(walk[..i], patterns, fnmatch, true)
    ensures Partition(walk[..i + 1], patterns, fnmatch, false) == Partition(walk[..i], patterns, fnmatch, false)
  {
    assert walk[..i + 1][..i] == walk[..i];
  }

  lemma SourceCountStep(files: seq<FileEntry>, f: FileEntry)
    ensures SourceCount(files + [f]) == SourceCount(files) + (if IsSource(f) then 1 else 0)
  {
    assert (files + [f])[..|files|] == files;
  }

  /** Every visited file is in exactly one list, and the two lists hold only visited files. */
  lemma {:induction false} PartitionIsExact(walk: seq<FileEntry>, patterns: set<string>, fnmatch: Matcher)
    ensures multiset(Partition(walk, patterns, fnmatch, true)) + multiset(Partition(walk, patterns, fnmatch, false))
      == multiset(VisitedFiles(walk))
    ensures |Partition(walk, patterns, fnmatch, true)| + |Partition(walk, patterns, fnmatch, false)| == |VisitedFiles(walk)|
    decreases |walk|
  {
    if |walk| > 0 {
      PartitionIsExact(walk[..|walk| - 1], patterns, fnmatch);
    }
  }

  /** A file is in the kept (dropped) list exactly when it is visited and not excluded (excluded). */
  lemma {:induction false} PartitionMembers(walk: seq<FileEntry>, patterns: set<string>, fnmatch: Matcher, keep: bool)
    ensures forall f :: f in Partition(walk, patterns, fnmatch, keep) <==>
      f in walk && Visible(f) && (Excluded(f, patterns, fnmatch) != keep)
    decreases |walk|
  {
    if |walk| > 0 {
      PartitionMembers(walk[..|walk| - 1], patterns, fnmatch, keep);
      assert walk == walk[..|walk| - 1] + [walk[|walk| - 1]];
    }
  }

  /** A file in a hidden directory is in neither list. */
  lemma HiddenDirectoryPruned(walk: seq<FileEntry>, patterns: set<string>, fnmatch: Matcher, f: FileEntry, i: nat)
    requires i < |f.dirs| && StartsWith(f.dirs[i], ".")
    ensures f !in Partition(walk, patterns, fnmatch, true) && f !in Partition(walk, patterns, fnmatch, false)
  {
    PartitionMembers(walk, patterns, fnmatch, true);
    PartitionMembers(walk, patterns, fnmatch, false);
  }

  // ---- detect_docker: multi-stage ----

  /**
   * Line `i` of the Dockerfile matches `^FROM\s+`: it starts with FROM followed by a space
   * character, or is exactly FROM with a line break after it.
   */
  predicate IsStageLine(lines: seq<string>, i: int)
    requires 0 <= i < |lines|
  {
    StartsWith(lines[i], "FROM")
    && ((|lines[i]| > 4 && IsSpace(lines[i][4])) || (|lines[i]| == 4 && i < |lines| - 1))
  }

  /** The number of matches of `^FROM\s+` in multiline mode: one per stage line. */
  function StageCount(lines: seq<string>, n: nat): (c: nat)
    requires n <= |lines|
    ensures c <= n
  {
    if n == 0 then 0 else StageCount(lines, n - 1) + (if IsStageLine(lines, n - 1) then 1 else 0)
  }

  /** `multi_stage`: more than one match. */
  predicate MultiStage(dockerfile: string) {
    var lines := Split(dockerfile, '\n');
    StageCount(lines, |lines|) > 1
  }

  lemma {:induction false} StageCountPositive(lines: seq<string>, n: nat)
    requires n <= |lines|
    ensures StageCount(lines, n) > 0 <==> exists i :: 0 <= i < n && IsStageLine(lines, i)
  {
    if n > 0 {
      StageCountPositive(lines, n - 1);
    }
  }

  lemma {:induction false} StageCountTwo(lines: seq<string>, n: nat)
    requires n <= |lines|
    ensures StageCount(lines, n) > 1 <==> exists i, j :: 0 <= i < j < n && IsStageLine(lines, i) && IsStageLine(lines, j)
  {
    if n > 0 {
      StageCountTwo(lines, n - 1);
      StageCountPositive(lines, n - 1);
    }
  }

  /** A Dockerfile is multi-stage iff two different lines open a stage. */
  lemma MultiStageIffTwoStages(dockerfile: string)
    ensures var lines := Split(dockerfile, '\n');
      MultiStage(dockerfile) <==> exists i, j :: 0 <= i < j < |lines| && IsStageLine(lines, i) && IsStageLine(lines, j)
  {
    var lines := Split(dockerfile, '\n');
    StageCountTwo(lines, |lines|);
  }

  // ---- validate ----

  const SecretPatterns: seq<string> := ["PASSWORD", "SECRET", "KEY", "TOKEN", "API_KEY"]

  const MissingDockerfileError: string := "Dockerfile not found"

  /** The warnings `validate` can add. */
  datatype Warning = MissingCompose | PotentialSecrets | NoSourceExcluded | SingleStage | NoConfig

  /** The text of each warning. */
  function WarningText(w: Warning): string {
    match w
    case MissingCompose => "docker-compose.yml not found - will use Dockerfile only"
    case PotentialSecrets => "Potential secrets found in .env file. Use .env.example instead."
    case NoSourceExcluded => "No source files detected for exclusion"
    case SingleStage => "Multi-stage Dockerfile not detected. Consider using multi-stage builds for smaller images."
    case NoConfig => "ShipLock config not found. Run 'shiplock init' first."
  }

  /** The dictionary `validate` returns. */
  datatype Validation = Validation(readyToBuild: bool, warnings: seq<Warning>, errors: seq<string>,
                                   sourceProtected: bool, hasSecrets: bool)

  /** The upper-cased `.env` text contains one of the secret patterns. */
  predicate HasSecret(env: string) {
    MentionsSecret(Upper(env))
  }

  predicate MentionsSecret(upper: string) {
    exists i :: 0 <= i < |SecretPatterns| && Contains(upper, SecretPatterns[i])
  }

  /** Which of the sample's facts `validate` looks at. */
  datatype ProjectFacts = ProjectFacts(
    hasDockerfile: bool,
    multiStage: bool,                // `detect_docker()['multi_stage']`
    hasCompose: bool,
    env: Option<string>,             // the text of `.env`, if it exists
    sourceFilesExcluded: nat,        // from the project scan
    hasConfig: bool)                 // `.shiplock/config.yaml` exists

  /** The `for pattern in secret_patterns` loop of `validate`, which stops at the first hit. */
  method SearchSecrets(upper: string) returns (found: bool)
    ensures found <==> MentionsSecret(upper)
  {
    found := false;
    for k := 0 to |SecretPatterns|
      invariant !found ==> forall i :: 0 <= i < k ==> !Contains(upper, SecretPatterns[i])
      invariant found ==> MentionsSecret(upper)
    {
      if Contains(upper, SecretPatterns[k]) {
        found := true;
        break;
      }
    }
  }

  /** The warnings `validate` collects, in the order it adds them. */
  function ExpectedWarnings(facts: ProjectFacts): seq<Warning> {
    var ws := AddIf([], !facts.hasCompose, MissingCompose);
    var ws := AddIf(ws, facts.env.Some? && HasSecret(facts.env.value), PotentialSecrets);
    var ws := AddIf(ws, facts.sourceFilesExcluded == 0, NoSourceExcluded);
    var ws := AddIf(ws, !facts.multiStage, SingleStage);
    AddIf(ws, !facts.hasConfig, NoConfig)
  }

  /** `ws` with `w` appended when `cond` holds. */
  function AddIf(ws: seq<Warning>, cond: bool, w: Warning): seq<Warning> {
    if cond then ws + [w] else ws
  }

  /** The whole report `validate` returns for these facts. */
  function ValidationOf(facts: ProjectFacts): Validation {
    Validation(facts.hasDockerfile, ExpectedWarnings(facts),
               if !facts.hasDockerfile then [MissingDockerfileError] else [],
               true, facts.env.Some? && HasSecret(facts.env.value))
  }

  /** `validate`, appending to the report step by step; the secrets search stops at the first hit. */
  method Validate(facts: ProjectFacts) returns (v: Validation)
    ensures v == ValidationOf(facts)
  {
    var ready := true;
    var warnings: seq<Warning> := [];
    var errors: seq<string> := [];
    var hasSecrets := false;
    if !facts.hasDockerfile {
      errors := errors + [MissingDockerfileError];
      ready := false;
    }
    if !facts.hasCompose {
      warnings := warnings + [MissingCompose];
    }
    if facts.env.Some? {
      hasSecrets := SearchSecrets(Upper(facts.env.value));
      if hasSecrets {
        warnings := warnings + [PotentialSecrets];
      }
    }
    if facts.sourceFilesExcluded == 0 {
      warnings := warnings + [NoSourceExcluded];
    }
    if !facts.multiStage {
      warnings := warnings + [SingleStage];
    }
    if !facts.hasConfig {
      warnings := warnings + [NoConfig];
    }
    assert hasSecrets == (facts.env.Some? && HasSecret(facts.env.value));
    assert warnings == ExpectedWarnings(facts);
    v := Validation(ready, warnings, errors, true, hasSecrets);
  }

  /**
   * The rule table: the only error, and the only way to be not ready, is a missing Dockerfile;
   * each other finding adds its own warning exactly when it applies.
   */
  lemma ValidationRules(facts: ProjectFacts)
    ensures var v := ValidationOf(facts);
      && (v.readyToBuild <==> facts.hasDockerfile)
      && (v.readyToBuild <==> v.errors == [])
      && (!v.readyToBuild ==> v.errors == [MissingDockerfileError])
      && (v.hasSecrets <==> facts.env.Some? && HasSecret(facts.env.value))
      && (MissingCompose in v.warnings <==> !facts.hasCompose)
      && (PotentialSecrets in v.warnings <==> v.hasSecrets)
      && (NoSourceExcluded in v.warnings <==> facts.sourceFilesExcluded == 0)
      && (SingleStage in v.warnings <==> !facts.multiStage)
      && (NoConfig in v.warnings <==> !facts.hasConfig)
  {
  }

  /**
   * The facts `validate` gathers from the project itself: the Dockerfile text (absent: None),
   * whose `multi_stage` flag `detect_docker` leaves False when there is no Dockerfile, and the
   * excluded-source count of `scan_project`.
   */
  function GatherFacts(dockerfile: Option<string>, hasCompose: bool, env: Option<string>,
                       scan: ScanResult, hasConfig: bool): ProjectFacts
  {
    ProjectFacts(dockerfile.Some?, dockerfile.Some? && MultiStage(dockerfile.value), hasCompose, env,
                 scan.sourceFilesExcluded, hasConfig)
  }

  /**
   * On the gathered facts, the single-stage warning follows the Dockerfile text: it is given
   * exactly when there is no Dockerfile or fewer than two of its lines start a stage, so a
   * missing Dockerfile also yields that warning next to the error.
   */
  lemma ValidationOfProject(dockerfile: Option<string>, hasCompose: bool, env: Option<string>,
                            scan: ScanResult, hasConfig: bool)
    ensures var v := ValidationOf(GatherFacts(dockerfile, hasCompose, env, scan, hasConfig));
      var lines := if dockerfile.Some? then Split(dockerfile.value, '\n') else [];
      && (SingleStage in v.warnings <==>
            dockerfile.None? || !exists i, j :: 0 <= i < j < |lines| && IsStageLine(lines, i) && IsStageLine(lines, j))
      && (dockerfile.None? ==> !v.readyToBuild && v.errors == [MissingDockerfileError] && SingleStage in v.warnings)
      && (NoSourceExcluded in v.warnings <==> scan.sourceFilesExcluded == 0)
  {
    ValidationRules(GatherFacts(dockerfile, hasCompose, env, scan, hasConfig));
    if dockerfile.Some? {
      MultiStageIffTwoStages(dockerfile.value);
    }
  }

  /** The warnings come in a fixed order, so none is added twice. */
  lemma WarningsDistinct(facts: ProjectFacts)
    ensures var ws := ValidationOf(facts).warnings;
      forall i, j :: 0 <= i < j < |ws| ==> WarningRank(ws[i]) < WarningRank(ws[j])
  {
  }

  function WarningRank(w: Warning): nat {
    match w
    case MissingCompose => 0
    case PotentialSecrets => 1
    case NoSourceExcluded => 2
    case SingleStage => 3
    case NoConfig => 4
  }

  /** `API_KEY` is never the pattern that decides: any text containing it also contains `KEY`. */
  lemma ApiKeyImpliesKey(text: string)
    requires Contains(text, "API_KEY")
    ensures Contains(text, "KEY")
  {
    var i := ContainsWitness(text, "API_KEY");
    assert text[i + 4..i + 7] == text[i..i + 7][4..7];
    assert text[i + 4..][..3] == text[i + 4..i + 7];
    ContainsAt(text, "KEY", i + 4);
  }
}
