# ShipLock licensing and bundle core in Dafny

ShipLock packages a Docker project as a bundle for a client. The bundle consists of:

- pre-built images;
- a runtime directory with `run.sh`, a sanitised `docker-compose.yml` and an embedded license verifier;
- a `MANIFEST.json` of file checksums, and a `CHECKSUMS.txt`.

A vendor issues an offline license: a signed JSON payload that may be bound to one machine's hardware fingerprint. This project models the decision logic of that system; its text and metadata transforms are modelled on values. It proves properties of the model.

The modules follow the four source files, with shared helpers alongside:

- `Fingerprint` (from `shiplock_license.py`): the machine-id component list of `get_machine_id` and the node→MAC formatting of `_get_mac_address`.
- `License` (from `shiplock_license.py`):
  - the salted integrity digest;
  - the `LicenseGenerator` class (key fields, `create_license`, `sign_license`);
  - the `.bin` layout of `write_license`.
- `Verifier` (from `shiplock_license.py`):
  - the verdict of `LicenseVerifier.verify`, as a function and as the class's method with early returns;
  - the decision logic of the embedded `verify_license_file` script;
  - lemmas relating the two verifiers to the generator.
- `Security` (from `shiplock_security.py`):
  - `_patch_run_script`;
  - the dead-code and string transforms;
  - the obfuscation skip rule;
  - `generate_checksums`;
  - the embedded `verify_integrity` gate.
- `Analyzer` (from `shiplock_analyzer.py`):
  - the default configuration;
  - `.bundleignore` parsing;
  - `_should_exclude`;
  - `scan_project`;
  - the `multi_stage` rule of `detect_docker`;
  - `validate`.
- `Builder` (from `shiplock_builder.py`):
  - compose image names;
  - tar names;
  - the runtime compose rewrite;
  - the bundle file list and checksum map;
  - the manifest;
  - `validate`'s raise order;
  - `build_images`'s file choice;
  - the generated `run.sh`.
- `Strings`, `JsonValues`, `Wrappers`: Python string operations (`replace`, `find`, `split`, `join`, `strip`, `upper`, `lower`), parsed JSON/YAML values with Python truthiness and `.get`, and `Option`.

Outside effects are inputs:

- **Cryptography and encodings.** SHA-256/512, RSA-PSS signing and verification, PEM encoding and loading, base64, canonical `json.dumps(sort_keys=True)` and `datetime.fromisoformat` are function-typed fields of `License.Primitives`. Properties that depend on them are stated under explicit hypotheses (`Verifier.SoundPrimitives`).
- **Clock, identifiers and machine probes.** The clock (`now`), UUIDs and the local machine id are parameters. Results of machine probes are fields of `Fingerprint.Probe`.
- **Files, directory walks and Docker.** File contents and existence, directory walks (taken in walk order) and Docker command outcomes are parameters.

Where the system's written design and its code differ, the model follows the code:

- **Missing fingerprint components.** They are omitted, not kept as empty slots.
- **No issuance checks.** `create_license` validates neither the expiry date against the issue date nor empty product or client names.
- **No key pinning.** `verify` uses the public key embedded in the license; no trusted key is pinned. As a result, any key pair yields a license that is accepted (`Verifier.SignThenVerify` holds for every key pair).
- **Plain comparisons.** Digests and machine ids are compared with plain equality.
- **Inclusive expiry.** Expiry is rejected only when `now > expires_at`.
- **The integrity gate.** It checks only the three critical files, and stops at the first mismatch.
- **One exit code for every failure.** The launcher, the integrity gate and the license script exit with 1 on every failure. The design asks for a distinct non-zero code per reason.
- **Transforms never reach the bundle.** `_obfuscate_file` computes `_apply_transformations` but never uses the result (shiplock_security.py:76). The modelled transforms therefore describe text that is thrown away.

## Model

| member | source | states |
|---|---|---|
| Fingerprint.NodeMac | shiplock_license.py:165-174 | The node fallback yields a MAC only for a nonzero node, and that MAC is the formatted node and never `00:00:00:00:00:00`. |
| Fingerprint.FormatMacShape | shiplock_license.py:169-170 | The formatted MAC has 17 characters: six lowercase two-digit hex octets, most significant first, with `:` at every third position. |
| Fingerprint.ParseFormatMac | shiplock_license.py:169-170 | Reading the formatted MAC back gives the node modulo 2^48, so no information about the low 48 bits is lost (round trip). |
| Fingerprint.NodeMacOfValidNode | shiplock_license.py:166-172 | Every nonzero 48-bit node produces its MAC: the all-zero guard never rejects one. |
| Fingerprint.Components | shiplock_license.py:34-128 | The component list that is hashed is never empty. |
| Fingerprint.GetMachineId | shiplock_license.py:25-133 | The loop that appends components returns sha256 of the `'\|'`-join of the specified component list. |
| Fingerprint.ComponentsRules | shiplock_license.py:104-128 | Two or more collected components are used as they are. With fewer, a nonzero node adds its decimal text (never "0"). The three-item fallback replaces the list only when nothing was collected and the node is zero. A collected hostname comes first. |
| Fingerprint.ScriptAgreesOnPlainLinux | shiplock_license.py:593-619 | On Linux without a CPU serial line or netifaces address, the issuer and the embedded script collect the same components, so they compute the same machine id. |
| Fingerprint.ScriptDisagreesWithCpuSerial | shiplock_license.py:52-58 | When a CPU serial line exists, the issuer hashes a different text than the embedded script, because the script never reads `/proc/cpuinfo`. |
| License.DigestInputDeterminesFields | shiplock_license.py:349-349 | The digest input `license + ":" + signature` determines both fields when the license text has no `:`. |
| License.SignedArtifact | shiplock_license.py:327-342 | In the artifact `sign_license` assembles, the integrity field is the digest of its own license and signature fields. |
| License.LicenseGenerator.constructor | shiplock_license.py:217-220 | A new generator holds no keys and no encryption key. |
| License.LicenseGenerator.GenerateKeys | shiplock_license.py:222-255 | It adopts the new pair and Fernet key, and returns the two PEM encodings. Both keys are then set. |
| License.LicenseGenerator.LoadKeys | shiplock_license.py:257-276 | It keeps the stored keys when both files exist. If either file is missing, it replaces both with a new pair and a new Fernet key. |
| License.LicenseGenerator.CreateLicense | shiplock_license.py:278-305 | Payload keys are the eight base keys, plus `machine_id` and `system_info` exactly when the license is machine-bound. `expires or 'never'` (so `""` becomes "never"), `features or {}`, version "1.0". Each field holds its input, and the payload is well formed for the verifier. |
| License.LicenseGenerator.SignLicense | shiplock_license.py:307-344 | Keys are loaded first only when none are held; keys already held stay. The artifact is the signed artifact for the payload and the held keys. |
| License.MaskKey | shiplock_license.py:375-375 | Masking keeps the key length. |
| License.BinaryLayoutRoundTrip | shiplock_license.py:373-378 | The `.bin` file is the masked key, then 16 zero bytes, then the token. Unmasking its first `len(key)` bytes recovers the key. |
| License.BinaryCopyTarget | shiplock_license.py:360-378 | A path containing `.key` gets a distinct `.bin` path. Any other path is overwritten by the binary copy, so its JSON text does not survive. |
| License.ReplaceChangesFirstMatch | shiplock_license.py:366-366 | `replace('.key', '.bin')` changes every path that contains `.key`. |
| Verifier.Abbreviate | shiplock_license.py:449-450 | A shown machine id is at most 19 characters and ends with `...`. An id of 16 characters or fewer is shown whole. |
| Verifier.Details | shiplock_license.py:454-462 | The success details are exactly the seven keys, copied from the payload, with `features` defaulting to `{}`. |
| Verifier.LicenseVerifier.constructor | shiplock_license.py:384-385 | A new verifier holds no public key. |
| Verifier.LicenseVerifier.Verify | shiplock_license.py:387-469 | The early-return chain returns the specified verdict, with `valid` true exactly on acceptance. The stored public key changes only once integrity passes and the key loads. |
| Verifier.SignThenVerify | shiplock_license.py:387-462 | Round trip: a well-formed payload signed by the generator is accepted with its details when its terms hold and the primitives behave. |
| Verifier.IntegrityFailureReported | shiplock_license.py:403-406 | The verdict is `IntegrityFailed` exactly when the four fields are present and the stored digest differs. The key, the signature and the payload play no part. |
| Verifier.VerificationOrder | shiplock_license.py:403-451 | Integrity and signature failures are reported whatever the clock and the machine. An expired license is reported as expired on every machine. |
| Verifier.ExpiryIsInclusive | shiplock_license.py:436-439 | A license is not expired at its own expiry instant and is expired one tick later. |
| Verifier.NeverIgnoresClock | shiplock_license.py:436-436 | With `expires_at == 'never'`, neither the clock nor the date parser affects the verdict. |
| Verifier.OffsetDateRejected | shiplock_license.py:437-438 | A date with a UTC offset cannot be compared with the naive clock, and is always a verification error. |
| Verifier.MachineBindingDefaults | shiplock_license.py:442-451 | A missing `machine_bound` makes the local machine irrelevant. A bound payload without `machine_id` is rejected on any machine with a non-empty id. |
| Verifier.ScriptSignThenVerify | shiplock_license.py:502-628 | The embedded script accepts what the generator signs when its terms hold, and returns the whole payload. |
| Verifier.ScriptExitCode | shiplock_license.py:654-669 | The script exits 0 exactly when the license is valid, and 1 otherwise. |
| Verifier.EmptyMachineIdDisagreement | shiplock_license.py:586-588 | For a bound payload with an empty `machine_id`, the class rejects it on any machine but the script skips the machine check and accepts. |
| Verifier.VerifiersAgreeOnTerms | shiplock_license.py:577-622 | On a well-formed payload with a non-empty bound id, the class and the script each accept exactly when the terms hold. |
| Security.IntegrityBlock | shiplock_security.py:269-285 | The inserted block mentions `verify_integrity.py`. |
| Security.StepMarker | shiplock_security.py:288-291 | A step marker is five characters and starts with its only `[`. |
| Security.RenumberSteps | shiplock_security.py:288-291 | Renumbering the markers keeps the script length. |
| Security.PatchRunScript | shiplock_security.py:253-306 | The successive rebinding of `content` gives the specified patched script, which always mentions the checker. |
| Security.InsertedBlockMarksScript | shiplock_security.py:269-300 | The script after insertion mentions the checker. |
| Security.PatchIdempotent | shiplock_security.py:264-300 | A script that already mentions the checker is left unchanged, so patching twice is patching once. |
| Security.RenumberLeavesNoOldMarker | shiplock_security.py:288-291 | After renumbering, no `[k/4]` marker for k = 1..4 remains. |
| Security.InsertionPoint | shiplock_security.py:293-300 | The block is prepended when `echo ""` is absent or at index 0. Otherwise it goes after the first `echo ""`, on a new line, and no earlier occurrence exists. |
| Security.DeadCodeKeepsLines | shiplock_security.py:143-153 | The junk text ends in a line break, so it never merges into the code's first line: the lines of the result are the five junk lines followed by the code's own lines. |
| Security.ApplyTransformations | shiplock_security.py:113-125 | The transformed source is the junk text followed by the original source. |
| Security.SelectForObfuscation | shiplock_security.py:40-43 | The loop selects exactly the files whose name neither starts with `_` nor contains `test` in any case, in order. |
| Security.SelectedFilesMembers | shiplock_security.py:42-43 | The selection contains a file exactly when the skip rule does not apply to it. |
| Security.Listed | shiplock_security.py:318-320 | Every walked file except `CHECKSUMS.txt` gets a line. |
| Security.ChecksumLines | shiplock_security.py:314-326 | There is one line per listed file. |
| Security.GenerateChecksums | shiplock_security.py:308-329 | The walk loop writes the lines `hash + "  " + path`, joined by `\n` with no trailing newline. |
| Security.ChecksumLineRoundTrip | shiplock_security.py:326-326 | A line splits back into its hash and path at the first space. |
| Security.ChecksumsRoundTrip | shiplock_security.py:326-329 | Splitting the file at `\n` gives back its lines, and every line parses to its file's hash and path. |
| Security.IntegrityGate | shiplock_security.py:184-227 | The loop with early returns gives the specified gate verdict. |
| Security.GateExitCode | shiplock_security.py:229-236 | The checker exits 0 exactly when the gate passed. |
| Security.CheckCriticalReadsOnly | shiplock_security.py:206-225 | The loop depends only on the files it iterates over. |
| Security.GateReadsOnlyCriticalFiles | shiplock_security.py:200-227 | Bundles that agree on the three critical files get the same verdict. |
| Security.CheckCriticalOnObject | shiplock_security.py:206-227 | With an object of checksums the loop never raises. It passes exactly when every listed file exists and has its recorded hash. |
| Security.GateDecision | shiplock_security.py:190-227 | A missing manifest fails and unlisted files are skipped. The gate passes exactly when every listed critical file exists with its recorded hash. |
| Analyzer.DefaultConfigLoads | shiplock_analyzer.py:22-51 | Reading the default document as the scan and the pattern loader read it gives the typed defaults: the directory name, "1.0.0" and the ten exclude patterns. With no `.bundleignore`, the patterns are exactly those excludes. |
| Analyzer.DefaultExcludesMissCSources | shiplock_analyzer.py:44-47 | The default excludes have no pattern for `.c` or `.cpp`, though both count as source suffixes. |
| Analyzer.LoadIgnorePatterns | shiplock_analyzer.py:53-68 | The line-by-line loop loads exactly the specified pattern set. A pattern is in it exactly when it is a configured exclude, or a stripped, non-empty, non-`#` line of `.bundleignore`. |
| Analyzer.IgnorePatternsMembers | shiplock_analyzer.py:53-68 | The specified pattern set holds a pattern exactly when it is a configured exclude, or the stripped text of a non-empty, non-`#` line. |
| Analyzer.ShouldExclude | shiplock_analyzer.py:70-81 | The pattern loop returns true exactly when some pattern matches the relative path or the base name. |
| Analyzer.LastIndexOf | shiplock_analyzer.py:102-102 | It returns the last index holding the character, or -1. |
| Analyzer.Suffix | shiplock_analyzer.py:102-102 | A path suffix is empty or a dotted ending of the name of at least two characters. |
| Analyzer.PartitionMembers | shiplock_analyzer.py:89-105 | A file is in the included (excluded) list exactly when it is visited and not excluded (excluded). |
| Analyzer.SourceCount | shiplock_analyzer.py:101-103 | The source-file count never exceeds the list it counts. |
| Analyzer.ScanProject | shiplock_analyzer.py:83-116 | The walk loop fills both lists, and the total is the sum of the two counts. The source count is at most the excluded count. |
| Analyzer.PartitionIsExact | shiplock_analyzer.py:95-105 | Every visited file is in exactly one list: the two lists together are a permutation of the visited files. |
| Analyzer.HiddenDirectoryPruned | shiplock_analyzer.py:91-91 | A file under a directory whose name starts with `.` is in neither list. |
| Analyzer.StageCount | shiplock_analyzer.py:138-138 | The number of matches is at most the number of lines scanned. |
| Analyzer.StageCountPositive | shiplock_analyzer.py:138-138 | There is at least one match exactly when some line opens a stage. |
| Analyzer.StageCountTwo | shiplock_analyzer.py:138-138 | There are two or more matches exactly when two different lines open a stage. |
| Analyzer.MultiStageIffTwoStages | shiplock_analyzer.py:138-139 | `multi_stage` holds exactly when two lines match `^FROM\s+`. |
| Analyzer.SearchSecrets | shiplock_analyzer.py:221-228 | The loop that breaks at the first hit finds a secret exactly when some pattern occurs in the upper-cased text. |
| Analyzer.Validate | shiplock_analyzer.py:196-248 | Appending step by step gives the specified report. |
| Analyzer.ValidationRules | shiplock_analyzer.py:206-246 | The project is not ready exactly when the Dockerfile is missing, which is also the only error. Every other check adds its own warning exactly when it applies. |
| Analyzer.ValidationOfProject | shiplock_analyzer.py:120-133 | On the facts gathered from the project, the single-stage warning is given exactly when there is no Dockerfile or fewer than two of its lines start a stage. A missing Dockerfile therefore gives that warning next to the error. The no-source warning follows the scan's count. |
| Analyzer.WarningsDistinct | shiplock_analyzer.py:211-246 | Warnings come in a fixed order, so none appears twice, including the secrets warning. |
| Analyzer.ApiKeyImpliesKey | shiplock_analyzer.py:221-223 | Any text containing `API_KEY` contains `KEY`, so the last pattern never decides. |
| Builder.DefaultImageNamesAgree | shiplock_builder.py:479-481 | The image name that is built and the one in the runtime compose file agree exactly when lower-casing and `' '`→`'_'` leave the project name unchanged. |
| Builder.CapitalisedProjectNamesDiverge | shiplock_builder.py:190-191 | A project name with a capital letter makes the two default names differ. |
| Builder.ComposeImages | shiplock_builder.py:183-193 | There is one image per service, in order: its `image` or the default name. The list is empty without a compose file or a `services` key. |
| Builder.BundleBuilder.GetComposeImages | shiplock_builder.py:173-193 | The append loop returns the specified image list. |
| Builder.SanitizeServiceFacts | shiplock_builder.py:474-481 | After the rewrite no service has `build`. One that had it has its old or a defaulted `image`, and its other keys are kept. One without `build` is unchanged. |
| Builder.BundleBuilder.CopyComposeFile | shiplock_builder.py:461-486 | The loop rewrites every service in place and leaves the other keys and the service order alone. |
| Builder.ChecksumsMatchContents | shiplock_builder.py:684-697 | The checksum keys are exactly the walked paths, and each value hashes that path's bytes. |
| Builder.ListBundleFiles | shiplock_builder.py:674-682 | It lists one path per walked file, in walk order. |
| Builder.CalculateChecksums | shiplock_builder.py:684-697 | The walk loop builds the specified checksum map. |
| Builder.FileListMatchesChecksums | shiplock_builder.py:674-697 | The file list and the checksum map name the same files. |
| Builder.ManifestPassesGate | shiplock_builder.py:657-668 | A bundle in its manifest-time state passes the integrity gate. Altering a listed critical file makes it fail. |
| Builder.ValidateProject | shiplock_builder.py:30-49 | Docker is checked first, then errors are raised before the not-ready case. The analysis is returned only when neither applies. |
| Builder.NotReadyUnreachable | shiplock_builder.py:40-47 | On the analyzer's report, the not-ready branch is dead. With Docker available, validation passes exactly when the Dockerfile exists. |
| Builder.SafeName | shiplock_builder.py:252-252 | The safe name has the same length, contains no `:` or `/`, and replaces exactly those characters with `_`. |
| Builder.TarNamesCollide | shiplock_builder.py:252-253 | `a:b`, `a/b` and `a_b` all export to `a_b.tar`. |
| Builder.GeneratedRunScript | shiplock_builder.py:319-421 | The generated `run.sh` mentions `verify_integrity.py`. |
| Builder.GeneratedRunScriptNotPatched | shiplock_builder.py:345-345 | Patching the builder's own `run.sh` leaves it unchanged. |
| Builder.BundleBuilder.constructor | shiplock_builder.py:24-28 | A new builder has no built images. |
| Builder.BundleBuilder.BuildImages | shiplock_builder.py:115-171 | A compose file takes precedence over a Dockerfile. A Dockerfile-only build yields `shiplock-<name>:latest`, and having neither is an error. A failed build returns failure. `built_images` is replaced only on success. |

## Left out

- **Cryptography.** Cryptographic primitives, encodings, the date parser and the key passphrase are function parameters, not implementations.
- **File and process I/O.** Files, `chmod`, `mkdir`, zip creation, gzip, git pushes and all Docker and docker-compose subprocesses are left out. Their outcomes are boolean or data inputs.
- **Machine probes.** The registry, `system_profiler`, `getmac`, netifaces, `/etc/machine-id` and `/proc/cpuinfo` are results in `Fingerprint.Probe`. Which netifaces interface is chosen is not modelled.
- **Text and numbers.**
  - ASCII only: upper- and lower-casing are ASCII, and Unicode case mapping is not modelled.
  - Floats: JSON and YAML numbers are integers, and floats are not modelled.
  - YAML typing: `Analyzer.ConfigOf` reads a loaded document into the typed `Analyzer.Config`, or None (see below). A top-level document that is not a mapping is not modelled.
- **Orders supplied as inputs.** `os.walk` order and Python set iteration order are inputs; no result of the model depends on the set order.
- **Windows paths.** Relative paths join with `/`. On Windows, `str(rel_path)` uses `\`, so the embedded gate would skip every critical file; this is not modelled.
- **Exceptions.** Exception message texts are replaced by reason kinds, and the script's `ImportError` branch for a missing `cryptography` package is left out.
- **The script's entry point.** `main()` path resolution in the embedded license script is left out.
- **Source-code obfuscation.** AST parsing, `py_compile` and bytecode launchers (`_obfuscate_file`, `_create_bytecode_launcher`) are left out, and so are the randomising `CodeObfuscator` and the fixed-text generators (`add_anti_debug`, `RuntimeProtection`, `AntiReverse`). Apart from the randomising `CodeObfuscator`, these only write fixed text or call foreign tools.
- **Other analyzer members.** `get_file_tree`, `extract_metadata`, `analyze_dependencies`, and the ports, volumes and service count of `detect_docker` are outside the modelled core. `fnmatch` is a parameter.
- **Other builder members.** `_verify_no_source_in_image`, `strip_source_code`, `_compress_tar`, `_generate_load_images_script`, `_generate_license_verifier`, `_generate_readme`, `create_zip_bundle`, `push_to_github` and CLI wiring only orchestrate tools or write fixed text. The order in which the command-line tool calls the build steps is not part of this model.
- **Activation.** `LicenseActivation` only writes or tests a file under the home directory.
- **Hypotheses of individual lemmas:**
  - License.DigestInputDeterminesFields: stated for license texts without `:`, which base64 output satisfies. For other texts the split point is not determined.
  - Fingerprint.ScriptDisagreesWithCpuSerial: stated for components without `'|'`; with one, two different lists can join to the same text.
  - Security.ChecksumsRoundTrip: stated for at least one listed file, paths without line breaks, and hashes without spaces or line breaks.
  - Verifier.ScriptSignThenVerify: requires the four artifact fields to be non-empty text, because the script checks their truthiness.
  - Builder.ManifestPassesGate: assumes the bundle files are unchanged between writing the manifest and running the gate. Whether later build steps rewrite `runtime/run.sh` depends on the command-line ordering, which is not part of this model.
  - Analyzer.Validate: the facts are inputs. `validate` calls `detect_docker`, which raises `TypeError` on a `docker-compose.yml` that parses to nothing (`'services' in None`) or has a null service (`'volumes' in None`), and `BundleBuilder.validate` lets it escape. That raise is not modelled: the model always returns a report. `Analyzer.GatherFacts` gives the facts as the project yields them.
  - Analyzer.ConfigOf: None covers every document on which the scan's or the pattern loader's reads raise or give non-string values. Which exception is raised is not modelled.
  - Analyzer.IgnorePatterns: splits `.bundleignore` at `'\n'` only. Python's text-mode read also ends a line at a lone `'\r'`, so `"a\rb"` is two patterns there and one here.
  - License.LicenseGenerator.LoadKeys: a key file that exists but cannot be loaded (a corrupt PEM, a wrong passphrase) makes `load_keys`, and with it `sign_license`, raise. It is not modelled, because each key is given as present or absent.
  - Fingerprint.MacAddress: `Probe.interfaceMac` accepts `Some("")` and the all-zero MAC, which the netifaces filter of `_get_mac_address` never returns. On `Some("")`, the model returns `""` where the source goes on to the node fallback. Only values the filter returns are meaningful.
  - Builder.BundleBuilder.BuildImages: the compose file is given already parsed. An empty compose file, for which `'services' in None` raises, is not modelled.
