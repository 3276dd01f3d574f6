/**
 * SecurityHardening (shiplock_security.py): patching `run.sh` with the bundle integrity step,
 * the dead-code and string-encoding transforms, the obfuscation skip rule, the `CHECKSUMS.txt`
 * listing, and the decision of the embedded `verify_integrity()` gate.
 */
module Security {
  import opened Wrappers
  import opened Strings
  import opened JsonValues

  type byte = bv8

  // ---- run.sh patching ----

  /** The file name whose presence marks `run.sh` as already patched. */
  const IntegrityScriptName: string := "verify_integrity.py"

  /** The text of the inserted "Step 0" block, before and after its first mention of the checker. */
  const IntegrityBlockHead: string :=
    "\n# Step 0: Verify Bundle Integrity\necho \"[0/5] Verifying bundle integrity...\"\nif [ -f \"$SCRIPT_DIR/"
  const IntegrityBlockTail: string :=
    "\" ]; then\n    PYTHON_CMD=\"python3\"\n    if ! command -v python3 &> /dev/null; then\n        PYTHON_CMD=\"python\"\n    fi\n    \n    $PYTHON_CMD \"$SCRIPT_DIR/verify_integrity.py\" || {\n        echo \"ERROR: Bundle integrity verification failed\"\n        echo \"The product may have been tampered with\"\n        exit 1\n    }\nfi\n\n"

  /** The block `_patch_run_script` inserts. */
  function IntegrityBlock(): (b: string)
    ensures Contains(b, IntegrityScriptName)
  {
    ContainsAt(IntegrityScriptName, IntegrityScriptName, 0);
    ContainsInfix(IntegrityBlockHead, IntegrityScriptName, IntegrityBlockTail, IntegrityScriptName);
    IntegrityBlockHead + IntegrityScriptName + IntegrityBlockTail
  }

  /** The banner line after which the block goes. */
  const EchoBlank: string := "echo \"\""

  /** The step marker `[k/n]`. */
  function StepMarker(k: nat, n: nat): (m: string)
    requires 1 <= k <= 9 && 1 <= n <= 9
    ensures MarkedToken(m, '[') && |m| == 5
  {
    ['[', DigitChar(k), '/', DigitChar(n), ']']
  }

  /** The four `content.replace('[k/4]', '[k/5]')` calls, for k = 1..4 in turn. */
  function RenumberSteps(content: string): (r: string)
    ensures |r| == |content|
  {
    var c1 := Replace(content, StepMarker(1, 4), StepMarker(1, 5));
    var c2 := Replace(c1, StepMarker(2, 4), StepMarker(2, 5));
    var c3 := Replace(c2, StepMarker(3, 4), StepMarker(3, 5));
    Replace(c3, StepMarker(4, 4), StepMarker(4, 5))
  }

  /**
   * The insertion: after the first `echo ""` (followed by a newline and the block) when that
   * occurrence is at an index above 0, otherwise in front of everything.
   */
  function InsertIntegrityBlock(content: string): string {
    var bannerPos := Find(content, EchoBlank);
    if bannerPos > 0 then
      var bannerEnd := bannerPos + |EchoBlank|;
      content[..bannerEnd] + "\n" + IntegrityBlock() + content[bannerEnd..]
    else
      IntegrityBlock() + content
  }

  /** What `_patch_run_script` leaves in `run.sh`. */
  function PatchedRunScript(content: string): string {
    if Contains(content, IntegrityScriptName) then content
    else InsertIntegrityBlock(RenumberSteps(content))
  }

  /** `_patch_run_script` on the content of an existing `run.sh`, step by step as the source does it. */
  method PatchRunScript(original: string) returns (patched: string)
    ensures patched == PatchedRunScript(original)
    ensures Contains(patched, IntegrityScriptName)
  {
    if Contains(original, IntegrityScriptName) {
      return original;
    }
    var content := original;
    content := Replace(content, StepMarker(1, 4), StepMarker(1, 5));
    content := Replace(content, StepMarker(2, 4), StepMarker(2, 5));
    content := Replace(content, StepMarker(3, 4), StepMarker(3, 5));
    content := Replace(content, StepMarker(4, 4), StepMarker(4, 5));
    var bannerPos := Find(content, EchoBlank);
    if bannerPos > 0 {
      var bannerEnd := bannerPos + |EchoBlank|;
      patched := content[..bannerEnd] + "\n" + IntegrityBlock() + content[bannerEnd..];
    } else {
      patched := IntegrityBlock() + content;
    }
    InsertedBlockMarksScript(content);
  }

  /** Every insertion result mentions the checker script. */
  lemma InsertedBlockMarksScript(content: string)
    ensures Contains(InsertIntegrityBlock(content), IntegrityScriptName)
  {
    var bannerPos := Find(content, EchoBlank);
    var block := IntegrityBlock();
    if bannerPos > 0 {
      var bannerEnd := bannerPos + |EchoBlank|;
      ContainsInfix(content[..bannerEnd] + "\n", block, content[bannerEnd..], IntegrityScriptName);
      assert content[..bannerEnd] + "\n" + block + content[bannerEnd..]
          == (content[..bannerEnd] + "\n") + block + content[bannerEnd..];
    } else {
      ContainsInfix("", block, content, IntegrityScriptName);
      assert "" + block + content == block + content;
    }
  }

  /** Patching twice is patching once; an already patched script is left alone. */
  lemma PatchIdempotent(content: string)
    ensures Contains(content, IntegrityScriptName) ==> PatchedRunScript(content) == content
    ensures PatchedRunScript(PatchedRunScript(content)) == PatchedRunScript(content)
  {
    if !Contains(content, IntegrityScriptName) {
      InsertedBlockMarksScript(RenumberSteps(content));
    }
  }

  /** After renumbering, no `[k/4]` marker for k = 1..4 is left. */
  lemma {:induction false} RenumberLeavesNoOldMarker(content: string)
    ensures forall k :: 1 <= k <= 4 ==> !Contains(RenumberSteps(content), StepMarker(k, 4))
  {
    var c1 := Replace(content, StepMarker(1, 4), StepMarker(1, 5));
    var c2 := Replace(c1, StepMarker(2, 4), StepMarker(2, 5));
    var c3 := Replace(c2, StepMarker(3, 4), StepMarker(3, 5));
    var c4 := Replace(c3, StepMarker(4, 4), StepMarker(4, 5));
    forall k | 1 <= k <= 4 ensures !Contains(c4, StepMarker(k, 4)) {
      var q := StepMarker(k, 4);
      assert StepMarker(1, 5) != q && StepMarker(2, 5) != q && StepMarker(3, 5) != q && StepMarker(4, 5) != q
        by { assert q[3] == '4'; }
      if k == 1 {
        ReplaceLeavesTokenAbsent(content, StepMarker(1, 4), StepMarker(1, 5), q, '[');
      } else {
        assert StepMarker(1, 4) != q by { assert q[1] != '1'; }
      }
      if k == 2 {
        ReplaceLeavesTokenAbsent(c1, StepMarker(2, 4), StepMarker(2, 5), q, '[');
      } else {
        if k < 2 { ReplaceLeavesTokenAbsent(c1, StepMarker(2, 4), StepMarker(2, 5), q, '['); }
        assert StepMarker(2, 4) != q by { assert q[1] != '2'; }
      }
      if k == 3 {
        ReplaceLeavesTokenAbsent(c2, StepMarker(3, 4), StepMarker(3, 5), q, '[');
      } else {
        if k < 3 { ReplaceLeavesTokenAbsent(c2, StepMarker(3, 4), StepMarker(3, 5), q, '['); }
        assert StepMarker(3, 4) != q by { assert q[1] != '3'; }
      }
      assert StepMarker(4, 4) != q || k == 4;
      ReplaceLeavesTokenAbsent(c3, StepMarker(4, 4), StepMarker(4, 5), q, '[');
      NowhereInIsNotContains(c4, q);
    }
  }

  /**
   * Where the block goes: right after the first `echo ""` when that line begins past index 0;
   * in front when `echo ""` is absent or starts the script.
   */
  lemma InsertionPoint(content: string)
    ensures (!Contains(content, EchoBlank) || StartsWith(content, EchoBlank)) ==>
      InsertIntegrityBlock(content) == IntegrityBlock() + content
    ensures Contains(content, EchoBlank) && !StartsWith(content, EchoBlank) ==>
      var bannerEnd := Find(content, EchoBlank) + |EchoBlank|;
      && InsertIntegrityBlock(content) == content[..bannerEnd] + "\n" + IntegrityBlock() + content[bannerEnd..]
      && EndsWith(content[..bannerEnd], EchoBlank)
      && forall j :: 0 < j < bannerEnd - |EchoBlank| ==> !StartsWith(content[j..], EchoBlank)
  {
    if Contains(content, EchoBlank) && !StartsWith(content, EchoBlank) {
      var pos := Find(content, EchoBlank);
      assert pos != 0 by { assert content[0..] == content; }
      assert content[..pos + |EchoBlank|][pos..] == content[pos..pos + |EchoBlank|];
    } else if StartsWith(content, EchoBlank) {
      assert Find(content, EchoBlank) == 0;
    }
  }

  // ---- source transforms ----

  /** The lines of the junk text `_inject_dead_code` puts in front, the blank first one included. */
  const DeadCodeLines: seq<string> := ["", "# Verification checksum", "_x1 = lambda: None",
    "_x2 = [i for i in range(100) if i % 2 == 0]", "_x3 = {k: v for k, v in enumerate(_x2)}"]

  /** The junk text itself: its lines, each ended by a line break. */
  const DeadCode: string := Join(DeadCodeLines, '\n') + "\n"

  function InjectDeadCode(code: string): (r: string)
    ensures EndsWith(r, code) && StartsWith(r, DeadCode) && |r| == |DeadCode| + |code|
  {
    DeadCode + code
  }

  /**
   * The junk text ends in a line break, so it never runs into the first line of the code:
   * the lines of the result are the junk lines followed by the code's own lines.
   */
  lemma DeadCodeKeepsLines(code: string)
    ensures Split(InjectDeadCode(code), '\n') == DeadCodeLines + Split(code, '\n')
  {
    SplitAfterSep(DeadCode, '\n', code);
    var ls := DeadCodeLines;
    assert DeadCode[..|DeadCode| - 1] == Join(ls, '\n');
    DeadCodeLinesUnbroken();
    SplitJoin(ls, '\n');
  }

  lemma DeadCodeLinesUnbroken()
    ensures forall i :: 0 <= i < |DeadCodeLines| ==> '\n' !in DeadCodeLines[i]
  {
    ShortDeadCodeLinesUnbroken();
    LongDeadCodeLinesUnbroken();
  }

  lemma ShortDeadCodeLinesUnbroken()
    ensures '\n' !in DeadCodeLines[0] && '\n' !in DeadCodeLines[1] && '\n' !in DeadCodeLines[2]
  {
  }

  lemma LongDeadCodeLinesUnbroken()
    ensures '\n' !in DeadCodeLines[3] && '\n' !in DeadCodeLines[4]
  {
  }

  /** `_encode_strings`: the substitution is commented out, so the text is returned as it is. */
  function EncodeStrings(code: string): (r: string)
    ensures r == code
  {
    code
  }

  /** `_apply_transformations`: string encoding, then dead code. */
  function ApplyTransformations(code: string): (r: string)
    ensures r == DeadCode + code
  {
    InjectDeadCode(EncodeStrings(code))
  }

  /** A Python file found under `runtime/`. */
  datatype PyFile = PyFile(dir: string, name: string)

  /** Files named `_...`, or with "test" anywhere in the lower-cased name, are not obfuscated. */
  predicate SkipForObfuscation(name: string) {
    StartsWith(name, "_") || Contains(Lower(name), "test")
  }

  /** The files `obfuscate_python_files` hands to `_obfuscate_file`, in the order found. */
  method SelectForObfuscation(files: seq<PyFile>) returns (selected: seq<PyFile>)
    ensures forall f :: f in selected <==> f in files && !SkipForObfuscation(f.name)
    ensures |selected| <= |files|
    ensures selected == SelectedFiles(files)
  {
    selected := [];
    for i := 0 to |files|
      invariant selected == SelectedFiles(files[..i])
    {
      assert files[..i + 1][..i] == files[..i];
      if !SkipForObfuscation(files[i].name) {
        selected := selected + [files[i]];
      }
    }
    assert files[..|files|] == files;
    SelectedFilesMembers(files);
  }

  function SelectedFiles(files: seq<PyFile>): seq<PyFile>
    decreases |files|
  {
    if |files| == 0 then []
    else
      var last := files[|files| - 1];
      SelectedFiles(files[..|files| - 1]) + (if SkipForObfuscation(last.name) then [] else [last])
  }

  lemma {:induction false} SelectedFilesMembers(files: seq<PyFile>)
    ensures forall f :: f in SelectedFiles(files) <==> f in files && !SkipForObfuscation(f.name)
    ensures |SelectedFiles(files)| <= |files|
    decreases |files|
  {
    if |files| > 0 {
      var init := files[..|files| - 1];
      SelectedFilesMembers(init);
      assert files == init + [files[|files| - 1]];
    }
  }

  // ---- CHECKSUMS.txt ----

  /** A file met by the bundle walk: its path relative to the bundle and its bytes. */
  datatype WalkedFile = WalkedFile(relPath: string, content: seq<byte>)

  const ChecksumsFileName: string := "CHECKSUMS.txt"
  const ChecksumSeparator: string := "  "

  function ChecksumLine(hash: string, relPath: string): string {
    hash + ChecksumSeparator + relPath
  }

  /** The walked files that get a line: all but the checksums file itself. */
  function Listed(walk: seq<WalkedFile>): (r: seq<WalkedFile>)
    decreases |walk|
    ensures |r| <= |walk|
    ensures forall f :: f in r <==> f in walk && f.relPath != ChecksumsFileName
  {
    if |walk| == 0 then []
    else
      var last := walk[|walk| - 1];
      assert walk == walk[..|walk| - 1] + [last];
      Listed(walk[..|walk| - 1]) + (if last.relPath == ChecksumsFileName then [] else [last])
  }

  /** The lines of `CHECKSUMS.txt`, one per listed file in walk order. */
  function ChecksumLines(sha256Hex: seq<byte> -> string, walk: seq<WalkedFile>): (lines: seq<string>)
    ensures |lines| == |Listed(walk)|
  {
    var listed := Listed(walk);
    seq(|listed|, i requires 0 <= i < |listed| => ChecksumLine(sha256Hex(listed[i].content), listed[i].relPath))
  }

  /** `generate_checksums`: the text written to `CHECKSUMS.txt`, with `\n` between lines and none at the end. */
  method GenerateChecksums(sha256Hex: seq<byte> -> string, walk: seq<WalkedFile>) returns (text: string)
    ensures text == Join(ChecksumLines(sha256Hex, walk), '\n')
  {
    var checksums: seq<string> := [];
    for i := 0 to |walk|
      invariant checksums == ChecksumLines(sha256Hex, walk[..i])
    {
      assert walk[..i + 1][..i] == walk[..i];
      if walk[i].relPath != ChecksumsFileName {
        var fileHash := sha256Hex(walk[i].content);
        checksums := checksums + [ChecksumLine(fileHash, walk[i].relPath)];
      }
    }
    assert walk[..|walk|] == walk;
    text := Join(checksums, '\n');
  }

  /** Splitting a line at the first double space recovers the hash and the path. */
  function ParseChecksumLine(line: string): (string, string) {
    var k := Find(line, ChecksumSeparator);
    if k < 0 then (line, "") else (line[..k], line[k + |ChecksumSeparator|..])
  }

  lemma ChecksumLineRoundTrip(hash: string, relPath: string)
    requires ' ' !in hash
    ensures ParseChecksumLine(ChecksumLine(hash, relPath)) == (hash, relPath)
  {
    var line := ChecksumLine(hash, relPath);
    assert line[|hash|..][..2] == ChecksumSeparator;
    ContainsAt(line, ChecksumSeparator, |hash|);
    var k := Find(line, ChecksumSeparator);
    assert forall j :: 0 <= j < |hash| ==> line[j] == hash[j] && line[j] != ' ';
    assert StartsWith(line[|hash|..], ChecksumSeparator);
    assert line[k] == ' ';
    assert k == |hash|;
    assert line[..k] == hash;
    assert line[k + 2..] == relPath;
  }

  /**
   * Reading `CHECKSUMS.txt` back: when no path has a newline and no hash a space or newline,
   * splitting on `\n` gives one line per listed file, each parsing to its hash and path.
   */
  lemma {:induction false} ChecksumsRoundTrip(sha256Hex: seq<byte> -> string, walk: seq<WalkedFile>)
    requires forall f :: f in walk ==> '\n' !in f.relPath && ' ' !in sha256Hex(f.content) && '\n' !in sha256Hex(f.content)
    requires |Listed(walk)| >= 1
    ensures var lines := ChecksumLines(sha256Hex, walk);
      && Split(Join(lines, '\n'), '\n') == lines
      && forall i :: 0 <= i < |lines| ==>
           ParseChecksumLine(lines[i]) == (sha256Hex(Listed(walk)[i].content), Listed(walk)[i].relPath)
  {
    var lines := ChecksumLines(sha256Hex, walk);
    var listed := Listed(walk);
    forall i | 0 <= i < |lines| ensures '\n' !in lines[i]
      && ParseChecksumLine(lines[i]) == (sha256Hex(listed[i].content), listed[i].relPath)
    {
      assert listed[i] in walk;
      ChecksumLineRoundTrip(sha256Hex(listed[i].content), listed[i].relPath);
    }
    SplitJoin(lines, '\n');
  }

  // ---- the embedded integrity gate ----

  /** `MANIFEST.json` as the gate finds it. */
  datatype ManifestFile = NoManifest | BadManifest | ManifestDoc(doc: Json)

  /** The gate's outcome: passed, returned False, or raised (the script then exits with a traceback). */
  datatype GateResult = GatePass | GateFail | GateCrash

  const CriticalFiles: seq<string> := ["runtime/run.sh", "runtime/verify_license.sh", "runtime/docker-compose.yml"]

  /** Python's `path in expected_checksums` for each JSON type; None where `in` raises. */
  function MemberOf(path: string, container: Json): Option<bool> {
    match container
    case JObj(m) => Some(path in m)
    case JArr(items) => Some(JStr(path) in items)
    case JStr(s) => Some(Contains(s, path))
    case _ => None
  }

  /** The loop over the critical files, from `files` on. */
  function CheckCritical(expected: Json, bundle: map<string, seq<byte>>, sha256Hex: seq<byte> -> string,
                         files: seq<string>): GateResult
    decreases |files|
  {
    if |files| == 0 then GatePass
    else
      var path := files[0];
      match MemberOf(path, expected)
      case None => GateCrash
      case Some(listed) =>
        if !listed then CheckCritical(expected, bundle, sha256Hex, files[1..])
        else if path !in bundle then GateFail
        else if !expected.JObj? then GateCrash
        else if JStr(sha256Hex(bundle[path])) != expected.obj[path] then GateFail
        else CheckCritical(expected, bundle, sha256Hex, files[1..])
  }

  /** `verify_integrity()` on a manifest and the bundle's files. */
  function GateVerdict(manifest: ManifestFile, bundle: map<string, seq<byte>>, sha256Hex: seq<byte> -> string): GateResult {
    match manifest
    case NoManifest => GateFail
    case BadManifest => GateCrash
    case ManifestDoc(doc) =>
      if !doc.JObj? then GateCrash
      else CheckCritical(Get(doc.obj, "checksums", JObj(map[])), bundle, sha256Hex, CriticalFiles)
  }

  /** `verify_integrity()` with its loop and early returns. */
  method IntegrityGate(manifest: ManifestFile, bundle: map<string, seq<byte>>, sha256Hex: seq<byte> -> string)
    returns (result: GateResult)
    ensures result == GateVerdict(manifest, bundle, sha256Hex)
  {
    if manifest.NoManifest? {
      return GateFail;
    }
    if manifest.BadManifest? || !manifest.doc.JObj? {
      return GateCrash;
    }
    var expected := Get(manifest.doc.obj, "checksums", JObj(map[]));
    for i := 0 to |CriticalFiles|
      invariant CheckCritical(expected, bundle, sha256Hex, CriticalFiles[i..]) == GateVerdict(manifest, bundle, sha256Hex)
    {
      var path := CriticalFiles[i];
      assert CriticalFiles[i..][1..] == CriticalFiles[i + 1..];
      var listed := MemberOf(path, expected);
      if listed.None? {
        return GateCrash;
      }
      if !listed.value {
        continue;
      }
      if path !in bundle {
        return GateFail;
      }
      var actualHash := sha256Hex(bundle[path]);
      if !expected.JObj? {
        return GateCrash;
      }
      if JStr(actualHash) != expected.obj[path] {
        return GateFail;
      }
    }
    return GatePass;
  }

  /** The gate's exit status: 0 only when the check passed. */
  function GateExitCode(r: GateResult): (code: int)
    ensures code == 0 <==> r == GatePass
  {
    if r == GatePass then 0 else 1
  }

  /** The bundle's critical files are all the gate consults: it is the same on bundles agreeing on them. */
  lemma {:induction false} CheckCriticalReadsOnly(expected: Json, b1: map<string, seq<byte>>, b2: map<string, seq<byte>>,
                                                  sha256Hex: seq<byte> -> string, files: seq<string>)
    requires forall f :: f in files ==> (f in b1 <==> f in b2) && (f in b1 ==> b1[f] == b2[f])
    ensures CheckCritical(expected, b1, sha256Hex, files) == CheckCritical(expected, b2, sha256Hex, files)
    decreases |files|
  {
    if |files| > 0 {
      CheckCriticalReadsOnly(expected, b1, b2, sha256Hex, files[1..]);
    }
  }

  lemma GateReadsOnlyCriticalFiles(manifest: ManifestFile, b1: map<string, seq<byte>>, b2: map<string, seq<byte>>,
                                   sha256Hex: seq<byte> -> string)
    requires forall f :: f in CriticalFiles ==> (f in b1 <==> f in b2) && (f in b1 ==> b1[f] == b2[f])
    ensures GateVerdict(manifest, b1, sha256Hex) == GateVerdict(manifest, b2, sha256Hex)
  {
    if manifest.ManifestDoc? && manifest.doc.JObj? {
      CheckCriticalReadsOnly(Get(manifest.doc.obj, "checksums", JObj(map[])), b1, b2, sha256Hex, CriticalFiles);
    }
  }

  /** Every listed file among `files` exists and has its recorded hash. */
  predicate ListedFilesMatch(expected: map<string, Json>, bundle: map<string, seq<byte>>, sha256Hex: seq<byte> -> string,
                             files: seq<string>) {
    forall f :: f in files && f in expected ==> f in bundle && expected[f] == JStr(sha256Hex(bundle[f]))
  }

  /** With an object of checksums the gate never raises, and passes exactly when every listed file matches. */
  lemma {:induction false} CheckCriticalOnObject(expected: map<string, Json>, bundle: map<string, seq<byte>>,
                                                 sha256Hex: seq<byte> -> string, files: seq<string>)
    ensures CheckCritical(JObj(expected), bundle, sha256Hex, files) != GateCrash
    ensures CheckCritical(JObj(expected), bundle, sha256Hex, files) == GatePass
      <==> ListedFilesMatch(expected, bundle, sha256Hex, files)
    decreases |files|
  {
    if |files| > 0 {
      CheckCriticalOnObject(expected, bundle, sha256Hex, files[1..]);
      assert forall f :: f in files <==> f == files[0] || f in files[1..];
    }
  }

  /**
   * The gate on a manifest whose `checksums` is an object (or absent): a missing manifest
   * fails, files not listed are skipped, and it passes iff every listed critical file exists
   * with the recorded hash.
   */
  lemma GateDecision(manifest: ManifestFile, bundle: map<string, seq<byte>>, sha256Hex: seq<byte> -> string)
    ensures manifest.NoManifest? ==> GateVerdict(manifest, bundle, sha256Hex) == GateFail
    ensures manifest.ManifestDoc? && manifest.doc.JObj? && Get(manifest.doc.obj, "checksums", JObj(map[])).JObj? ==>
      var expected := Get(manifest.doc.obj, "checksums", JObj(map[])).obj;
      && GateVerdict(manifest, bundle, sha256Hex) != GateCrash
      && (GateVerdict(manifest, bundle, sha256Hex) == GatePass <==> ListedFilesMatch(expected, bundle, sha256Hex, CriticalFiles))
  {
    if manifest.ManifestDoc? && manifest.doc.JObj? && Get(manifest.doc.obj, "checksums", JObj(map[])).JObj? {
      CheckCriticalOnObject(Get(manifest.doc.obj, "checksums", JObj(map[])).obj, bundle, sha256Hex, CriticalFiles);
    }
  }
}
