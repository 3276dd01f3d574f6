/**
 * BundleBuilder (shiplock_builder.py): image names from the compose services, the build-file
 * choice of `build_images`, tar-file names, the sanitised runtime compose file, the bundle
 * file list and checksum map of the manifest, the raise order of `validate`, and the
 * generated `run.sh`. Docker, docker-compose, gzip, git and the file system are inputs.
 */
module Builder {
  import opened Wrappers
  import opened Strings
  import opened JsonValues
  import Analyzer
  import Security

  // ---- compose data ----

  /** One entry of the compose file's `services` mapping, in file order. */
  datatype Service = Service(name: string, fields: map<string, Json>)

  /** A parsed compose file: its `services` entries (None: no such key) and its other keys. */
  datatype Compose = Compose(rest: map<string, Json>, services: Option<seq<Service>>)

  /** The image docker-compose gives a service without `image`: lower-cased project, spaces to `_`. */
  function ComposeDefaultImage(projectName: string, service: string): string {
    Replace(Lower(projectName), " ", "_") + "_" + service + ":latest"
  }

  /** The image the runtime compose file names for a built service without `image`: the project name as it is. */
  function RuntimeDefaultImage(projectName: string, service: string): string {
    projectName + "_" + service + ":latest"
  }

  /** The two default names agree exactly when lower-casing and `' '`→`'_'` leave the project name alone. */
  lemma DefaultImageNamesAgree(projectName: string, service: string)
    ensures ComposeDefaultImage(projectName, service) == RuntimeDefaultImage(projectName, service)
      <==> Replace(Lower(projectName), " ", "_") == projectName
  {
    var a, b, x := Replace(Lower(projectName), " ", "_"), projectName, "_" + service + ":latest";
    assert ComposeDefaultImage(projectName, service) == a + x;
    assert RuntimeDefaultImage(projectName, service) == b + x;
    if a + x == b + x {
      assert |a| == |b|;
      assert a == (a + x)[..|a|];
      assert b == (b + x)[..|b|];
    }
  }

  /** A project name with a capital letter yields a runtime image name that differs from the built one. */
  lemma CapitalisedProjectNamesDiverge(projectName: string, service: string, i: nat)
    requires i < |projectName| && 'A' <= projectName[i] <= 'Z'
    ensures ComposeDefaultImage(projectName, service) != RuntimeDefaultImage(projectName, service)
  {
    DefaultImageNamesAgree(projectName, service);
    var lowered := Lower(projectName);
    ReplaceChar(lowered, ' ', '_');
    assert Replace(lowered, " ", "_")[i] != projectName[i];
  }

  /** The image `_get_compose_images` reports for one service. */
  function ServiceImage(projectName: string, s: Service): Json {
    if "image" in s.fields then s.fields["image"] else JStr(ComposeDefaultImage(projectName, s.name))
  }

  /** One image per service, in service order; none without a compose file or a `services` key. */
  function ComposeImages(projectName: string, compose: Option<Compose>): (images: seq<Json>)
    ensures compose.None? || compose.value.services.None? ==> images == []
    ensures compose.Some? && compose.value.services.Some? ==>
      var services := compose.value.services.value;
      |images| == |services| && forall i :: 0 <= i < |services| ==> images[i] == ServiceImage(projectName, services[i])
  {
    if compose.None? || compose.value.services.None? then []
    else
      var services := compose.value.services.value;
      seq(|services|, i requires 0 <= i < |services| => ServiceImage(projectName, services[i]))
  }

  /** `_copy_compose_file`'s rewrite of one service: `build` removed, `image` defaulted if it was built. */
  function SanitizeService(projectName: string, s: Service): Service {
    if "build" in s.fields then
      var fields := s.fields - {"build"};
      if "image" in fields then Service(s.name, fields)
      else Service(s.name, fields["image" := JStr(RuntimeDefaultImage(projectName, s.name))])
    else s
  }

  /**
   * After the rewrite no service has `build`; one that had it has an `image`, the original or
   * the default; one that had not is unchanged; other keys stay as they were.
   */
  lemma SanitizeServiceFacts(projectName: string, s: Service)
    ensures var t := SanitizeService(projectName, s);
      && t.name == s.name
      && "build" !in t.fields
      && ("build" in s.fields ==>
            ("image" in t.fields
             && t.fields["image"] == (if "image" in s.fields then s.fields["image"] else JStr(RuntimeDefaultImage(projectName, s.name)))
             && forall k :: k in s.fields && k != "build" && k != "image" ==> k in t.fields && t.fields[k] == s.fields[k]))
      && ("build" !in s.fields ==> t == s)
  {
  }

  // ---- file lists and checksums ----

  /** The path → bytes map of the walked files (a later entry for a path wins, as a dict update does). */
  function BundleContents(walk: seq<Security.WalkedFile>): map<string, seq<Security.byte>>
    decreases |walk|
  {
    if |walk| == 0 then map[]
    else BundleContents(walk[..|walk| - 1])[walk[|walk| - 1].relPath := walk[|walk| - 1].content]
  }

  /** The checksum dictionary `_calculate_checksums` fills. */
  function ChecksumMap(sha256Hex: seq<Security.byte> -> string, walk: seq<Security.WalkedFile>): map<string, string>
    decreases |walk|
  {
    if |walk| == 0 then map[]
    else ChecksumMap(sha256Hex, walk[..|walk| - 1])[walk[|walk| - 1].relPath := sha256Hex(walk[|walk| - 1].content)]
  }

  /** The relative paths of a walk. */
  function PathsOf(walk: seq<Security.WalkedFile>): set<string> {
    set i | 0 <= i < |walk| :: walk[i].relPath
  }

  /** The checksum keys are the walked paths, and each value is the hash of that path's bytes. */
  lemma {:induction false} ChecksumsMatchContents(sha256Hex: seq<Security.byte> -> string, walk: seq<Security.WalkedFile>)
    ensures ChecksumMap(sha256Hex, walk).Keys == BundleContents(walk).Keys
    ensures ChecksumMap(sha256Hex, walk).Keys == PathsOf(walk)
    ensures forall p :: p in ChecksumMap(sha256Hex, walk) ==> ChecksumMap(sha256Hex, walk)[p] == sha256Hex(BundleContents(walk)[p])
    decreases |walk|
  {
    if |walk| > 0 {
      var init := walk[..|walk| - 1];
      ChecksumsMatchContents(sha256Hex, init);
      forall p | p in PathsOf(walk)
        ensures p in PathsOf(init) + {walk[|walk| - 1].relPath}
      {
        var i :| 0 <= i < |walk| && walk[i].relPath == p;
        if i < |init| {
          assert init[i] == walk[i];
        }
      }
      forall p | p in PathsOf(init)
        ensures p in PathsOf(walk)
      {
        var i :| 0 <= i < |init| && init[i].relPath == p;
        assert walk[i] == init[i];
      }
      assert walk[|walk| - 1].relPath in PathsOf(walk);
    }
  }

  /** `_list_bundle_files`: every walked file's relative path, in walk order. */
  method ListBundleFiles(walk: seq<Security.WalkedFile>) returns (files: seq<string>)
    ensures |files| == |walk| && forall i :: 0 <= i < |walk| ==> files[i] == walk[i].relPath
  {
    files := [];
    for i := 0 to |walk|
      invariant |files| == i && forall j :: 0 <= j < i ==> files[j] == walk[j].relPath
    {
      files := files + [walk[i].relPath];
    }
  }

  /** `_calculate_checksums` with its walk loop. */
  method CalculateChecksums(sha256Hex: seq<Security.byte> -> string, walk: seq<Security.WalkedFile>)
    returns (checksums: map<string, string>)
    ensures checksums == ChecksumMap(sha256Hex, walk)
  {
    checksums := map[];
    for i := 0 to |walk|
      invariant checksums == ChecksumMap(sha256Hex, walk[..i])
    {
      assert walk[..i + 1][..i] == walk[..i];
      var fileHash := sha256Hex(walk[i].content);
      checksums := checksums[walk[i].relPath := fileHash];
    }
    assert walk[..|walk|] == walk;
  }

  /** The file list and the checksum map name the same files. */
  lemma FileListMatchesChecksums(sha256Hex: seq<Security.byte> -> string, walk: seq<Security.WalkedFile>, files: seq<string>)
    requires |files| == |walk| && forall i :: 0 <= i < |walk| ==> files[i] == walk[i].relPath
    ensures (set f | f in files) == ChecksumMap(sha256Hex, walk).Keys
  {
    ChecksumsMatchContents(sha256Hex, walk);
    assert forall f :: f in files <==> exists i :: 0 <= i < |walk| && walk[i].relPath == f;
  }

  /** `MANIFEST.json` as `_create_manifest` writes it. */
  function Manifest(projectName: string, createdAt: string, images: seq<Json>, files: seq<string>,
                    checksums: map<string, string>): Json {
    JObj(map[
      "bundle_info" := JObj(map["project_name" := JStr(projectName), "created_at" := JStr(createdAt),
                                "shiplock_version" := JStr("1.0.0")]),
      "images" := JArr(images),
      "files" := JArr(seq(|files|, i requires 0 <= i < |files| => JStr(files[i]))),
      "checksums" := JObj(map p | p in checksums :: JStr(checksums[p]))])
  }

  /**
   * A bundle checked exactly as its manifest was written passes the embedded integrity gate,
   * and changing a critical file it lists makes the gate fail.
   */
  lemma {:induction false} ManifestPassesGate(sha256Hex: seq<Security.byte> -> string, walk: seq<Security.WalkedFile>,
                                              projectName: string, createdAt: string, images: seq<Json>, files: seq<string>)
    ensures var manifest := Security.ManifestDoc(Manifest(projectName, createdAt, images, files, ChecksumMap(sha256Hex, walk)));
      Security.GateVerdict(manifest, BundleContents(walk), sha256Hex) == Security.GatePass
    ensures forall f, altered :: f in Security.CriticalFiles && f in BundleContents(walk) && sha256Hex(altered) != sha256Hex(BundleContents(walk)[f]) ==>
      var manifest := Security.ManifestDoc(Manifest(projectName, createdAt, images, files, ChecksumMap(sha256Hex, walk)));
      Security.GateVerdict(manifest, BundleContents(walk)[f := altered], sha256Hex) == Security.GateFail
  {
    var checksums := ChecksumMap(sha256Hex, walk);
    var bundle := BundleContents(walk);
    var manifest := Security.ManifestDoc(Manifest(projectName, createdAt, images, files, checksums));
    var expected := map p | p in checksums :: JStr(checksums[p]);
    ChecksumsMatchContents(sha256Hex, walk);
    assert Get(manifest.doc.obj, "checksums", JObj(map[])) == JObj(expected);
    Security.GateDecision(manifest, bundle, sha256Hex);
    forall f, altered | f in Security.CriticalFiles && f in bundle && sha256Hex(altered) != sha256Hex(bundle[f])
      ensures Security.GateVerdict(manifest, bundle[f := altered], sha256Hex) == Security.GateFail
    {
      Security.GateDecision(manifest, bundle[f := altered], sha256Hex);
      assert !Security.ListedFilesMatch(expected, bundle[f := altered], sha256Hex, Security.CriticalFiles);
    }
  }

  // ---- validate ----

  /** How `validate` ends: with the analysis, or with the error it raises. */
  datatype ValidateOutcome =
    | ValidationPassed(validation: Analyzer.Validation)
    | DockerUnavailable
    | ValidationFailed(message: string)
    | NotReady(message: string)

  function Bullets(items: seq<string>): string {
    Join(seq(|items|, i requires 0 <= i < |items| => "  - " + items[i]), '\n')
  }

  /**
   * `validate`: Docker availability first, then any error, then `ready_to_build`; the
   * analysis is returned only when none of them stops it.
   */
  function ValidateProject(dockerAvailable: bool, v: Analyzer.Validation): (r: ValidateOutcome)
    ensures r.ValidationPassed? <==> dockerAvailable && v.errors == [] && v.readyToBuild
    ensures r.NotReady? <==> dockerAvailable && v.errors == [] && !v.readyToBuild
    ensures r.ValidationFailed? <==> dockerAvailable && v.errors != []
    ensures r.ValidationPassed? ==> r.validation == v
  {
    if !dockerAvailable then DockerUnavailable
    else if v.errors != [] then ValidationFailed("Project validation failed:\n" + Bullets(v.errors))
    else if !v.readyToBuild then
      var warnings := seq(|v.warnings|, i requires 0 <= i < |v.warnings| => Analyzer.WarningText(v.warnings[i]));
      NotReady("Project not ready to build:\n" + (if warnings != [] then Bullets(warnings) else "Unknown validation issue"))
    else ValidationPassed(v)
  }

  /**
   * On the analyzer's own report the not-ready branch is dead: a project is not ready only
   * when the Dockerfile is missing, and that always comes with an error.
   */
  lemma NotReadyUnreachable(dockerAvailable: bool, facts: Analyzer.ProjectFacts)
    ensures !ValidateProject(dockerAvailable, Analyzer.ValidationOf(facts)).NotReady?
    ensures dockerAvailable ==>
      (ValidateProject(dockerAvailable, Analyzer.ValidationOf(facts)).ValidationPassed? <==> facts.hasDockerfile)
  {
  }

  // ---- exported image file names ----

  /** `image.replace(':', '_').replace('/', '_')`. */
  function SafeName(image: string): (r: string)
    ensures |r| == |image|
    ensures ':' !in r && '/' !in r
    ensures forall i :: 0 <= i < |image| ==> r[i] == (if image[i] == ':' || image[i] == '/' then '_' else image[i])
  {
    var colonsReplaced := Replace(image, ":", "_");
    ReplaceChar(image, ':', '_');
    ReplaceChar(colonsReplaced, '/', '_');
    Replace(colonsReplaced, "/", "_")
  }

  function TarName(image: string): string {
    SafeName(image) + ".tar"
  }

  /** Distinct images can share an archive: `a:b`, `a/b` and `a_b` all export to `a_b.tar`. */
  lemma TarNamesCollide()
    ensures TarName("a:b") == TarName("a/b") == TarName("a_b") == "a_b.tar"
  {
    SafeNameIsAB("a:b");
    SafeNameIsAB("a/b");
    SafeNameIsAB("a_b");
  }

  lemma SafeNameIsAB(image: string)
    requires |image| == 3 && image[0] == 'a' && image[2] == 'b' && image[1] in {':', '/', '_'}
    ensures SafeName(image) == "a_b"
  {
    var r := SafeName(image);
    assert r[0] == 'a' && r[1] == '_' && r[2] == 'b';
  }

  // ---- the generated run.sh ----

  /** `_generate_run_script`'s text, split at its first mention of the integrity checker. */
  const RunScriptHead: string :=
    "#!/bin/bash\n"
    + "set -e\n"
    + "\n"
    + "# ShipLock Runtime Launcher\n"
    + "# Auto-generated - DO NOT MODIFY\n"
    + "\n"
    + "SCRIPT_DIR=\"$(cd \"$(dirname \"${BASH_SOURCE[0]}\")\" && pwd)\"\n"
    + "\n"
    + "echo \"==================================================\"\n"
    + "echo \"  ShipLock Secure Runtime\"\n"
    + "echo \"==================================================\"\n"
    + "echo \"\"\n"
    + "\n"
    + "# Detect Python command\n"
    + "PYTHON_CMD=\"python3\"\n"
    + "if ! command -v python3 &> /dev/null; then\n"
    + "    PYTHON_CMD=\"python\"\n"
    + "fi\n"
    + "\n"
    + "# Detect docker-compose command\n"
    + "COMPOSE_CMD=\"docker-compose\"\n"
    + "if ! command -v docker-compose &> /dev/null; then\n"
    + "    COMPOSE_CMD=\"docker compose\"\n"
    + "fi\n"
    + "\n"
    + "# Step 1: Verify Bundle Integrity (if available)\n"
    + "if [ -f \"$SCRIPT_DIR/"
  const RunScriptTail: string :=
    "\" ]; then\n"
    + "    echo \"[1/5] Verifying bundle integrity...\"\n"
    + "    $PYTHON_CMD \"$SCRIPT_DIR/verify_integrity.py\" || {\n"
    + "        echo \"ERROR: Bundle integrity verification failed\"\n"
    + "        echo \"The product may have been tampered with\"\n"
    + "        exit 1\n"
    + "    }\n"
    + "fi\n"
    + "\n"
    + "# Step 2: Verify License (MANDATORY - Software cannot run without valid license)\n"
    + "echo \"[2/5] Verifying license...\"\n"
    + "if [ ! -f \"$SCRIPT_DIR/verify_license.sh\" ]; then\n"
    + "    echo \"ERROR: License verification script not found\"\n"
    + "    echo \"This bundle appears to be corrupted or incomplete\"\n"
    + "    exit 1\n"
    + "fi\n"
    + "\n"
    + "# License verification is MANDATORY - exit immediately if it fails\n"
    + "bash \"$SCRIPT_DIR/verify_license.sh\" || {\n"
    + "    echo \"\"\n"
    + "    echo \"==================================================\"\n"
    + "    echo \"  LICENSE VERIFICATION FAILED\"\n"
    + "    echo \"==================================================\"\n"
    + "    echo \"\"\n"
    + "    echo \"This software requires a valid license to run.\"\n"
    + "    echo \"\"\n"
    + "    echo \"Possible reasons:\"\n"
    + "    echo \"  - License file (license.key) is missing\"\n"
    + "    echo \"  - License file is invalid or corrupted\"\n"
    + "    echo \"  - License has expired\"\n"
    + "    echo \"  - License is not valid for this machine\"\n"
    + "    echo \"\"\n"
    + "    echo \"Please contact your vendor to obtain a valid license.\"\n"
    + "    echo \"Expected license file location: $SCRIPT_DIR/../license.key\"\n"
    + "    echo \"\"\n"
    + "    exit 1\n"
    + "}\n"
    + "\n"
    + "# Step 3: Load Docker Images\n"
    + "echo \"[3/5] Loading Docker images...\"\n"
    + "if [ -f \"$SCRIPT_DIR/load_images.sh\" ]; then\n"
    + "    bash \"$SCRIPT_DIR/load_images.sh\" || {\n"
    + "        echo \"ERROR: Failed to load images\"\n"
    + "        exit 1\n"
    + "    }\n"
    + "else\n"
    + "    echo \"WARNING: No images to load\"\n"
    + "fi\n"
    + "\n"
    + "# Step 4: Start Services\n"
    + "echo \"[4/5] Starting services...\"\n"
    + "cd \"$SCRIPT_DIR\"\n"
    + "\n"
    + "if [ -f \"docker-compose.yml\" ]; then\n"
    + "    $COMPOSE_CMD up -d || {\n"
    + "        echo \"ERROR: Failed to start services\"\n"
    + "        echo \"Make sure Docker is running and you have permissions\"\n"
    + "        exit 1\n"
    + "    }\n"
    + "else\n"
    + "    echo \"ERROR: docker-compose.yml not found\"\n"
    + "    exit 1\n"
    + "fi\n"
    + "\n"
    + "# Step 5: Show Status\n"
    + "echo \"[5/5] Checking service status...\"\n"
    + "$COMPOSE_CMD ps\n"
    + "\n"
    + "echo \"\"\n"
    + "echo \"==================================================\"\n"
    + "echo \"  Application started successfully!\"\n"
    + "echo \"==================================================\"\n"
    + "echo \"\"\n"
    + "echo \"To view logs: $COMPOSE_CMD logs -f\"\n"
    + "echo \"To stop: $COMPOSE_CMD down\"\n"
    + "echo \"\"\n"

  function GeneratedRunScript(): (s: string)
    ensures Contains(s, Security.IntegrityScriptName)
  {
    ContainsAt(Security.IntegrityScriptName, Security.IntegrityScriptName, 0);
    ContainsInfix(RunScriptHead, Security.IntegrityScriptName, RunScriptTail, Security.IntegrityScriptName);
    RunScriptHead + Security.IntegrityScriptName + RunScriptTail
  }

  /** The builder's own `run.sh` already runs the checker, so `_patch_run_script` leaves it unchanged. */
  lemma GeneratedRunScriptNotPatched()
    ensures Security.PatchedRunScript(GeneratedRunScript()) == GeneratedRunScript()
  {
  }

  // ---- the builder object ----

  /** How `build_images` ends. */
  datatype BuildResult = Built(images: seq<Json>) | DockerBuildFailed | NoBuildFile

  /** `BundleBuilder`: the project directory's name and the images of the last successful build. */
  class BundleBuilder {
    const projectName: string
    var builtImages: seq<Json>

    constructor (projectName: string)
      ensures this.projectName == projectName && builtImages == []
    {
      this.projectName := projectName;
      builtImages := [];
    }

    /** `_get_compose_images`, appending one image per service. */
    method GetComposeImages(compose: Option<Compose>) returns (images: seq<Json>)
      ensures images == ComposeImages(projectName, compose)
    {
      images := [];
      if compose.Some? && compose.value.services.Some? {
        var services := compose.value.services.value;
        for i := 0 to |services|
          invariant images == seq(i, j requires 0 <= j < i => ServiceImage(projectName, services[j]))
        {
          if "image" in services[i].fields {
            images := images + [services[i].fields["image"]];
          } else {
            var project := Replace(Lower(projectName), " ", "_");
            images := images + [JStr(project + "_" + services[i].name + ":latest")];
          }
        }
      }
    }

    /**
     * `build_images`: a compose file takes precedence over a Dockerfile; with neither it raises.
     * The outcomes of the docker commands are inputs; `built_images` changes only on success.
     */
    method BuildImages(compose: Option<Compose>, hasDockerfile: bool, composeBuildOk: bool, dockerBuildOk: bool)
      returns (result: BuildResult)
      modifies this
      ensures compose.Some? ==> result == (if composeBuildOk then Built(ComposeImages(projectName, compose)) else DockerBuildFailed)
      ensures compose.None? && hasDockerfile ==>
        result == (if dockerBuildOk then Built([JStr("shiplock-" + projectName + ":latest")]) else DockerBuildFailed)
      ensures compose.None? && !hasDockerfile ==> result == NoBuildFile
      ensures builtImages == (if result.Built? then result.images else old(builtImages))
    {
      if compose.Some? {
        if !composeBuildOk {
          return DockerBuildFailed;
        }
        var images := GetComposeImages(compose);
        builtImages := images;
        return Built(images);
      } else if hasDockerfile {
        var imageName := "shiplock-" + projectName + ":latest";
        if !dockerBuildOk {
          return DockerBuildFailed;
        }
        builtImages := [JStr(imageName)];
        return Built([JStr(imageName)]);
      } else {
        return NoBuildFile;
      }
    }

    /** `_copy_compose_file`: the sanitised compose data written to the runtime directory, if there is a compose file. */
    method CopyComposeFile(compose: Option<Compose>) returns (written: Option<Compose>)
      ensures compose.None? ==> written.None?
      ensures compose.Some? ==> written.Some? && written.value.rest == compose.value.rest
      ensures compose.Some? ==> (written.value.services.Some? <==> compose.value.services.Some?)
      ensures compose.Some? && compose.value.services.Some? ==>
        var before, after := compose.value.services.value, written.value.services.value;
        |after| == |before| && forall i :: 0 <= i < |before| ==> after[i] == SanitizeService(projectName, before[i])
    {
      if compose.None? {
        return None;
      }
      if compose.value.services.None? {
        return compose;
      }
      var services := compose.value.services.value;
      for i := 0 to |services|
        invariant |services| == |compose.value.services.value|
        invariant forall j :: 0 <= j < i ==> services[j] == SanitizeService(projectName, compose.value.services.value[j])
        invariant forall j :: i <= j < |services| ==> services[j] == compose.value.services.value[j]
      {
        var service := services[i];
        if "build" in service.fields {
          var fields := service.fields - {"build"};
          if "image" !in fields {
            fields := fields["image" := JStr(projectName + "_" + service.name + ":latest")];
          }
          services := services[i := Service(service.name, fields)];
        }
      }
      return Some(Compose(compose.value.rest, Some(services)));
    }
  }
}
