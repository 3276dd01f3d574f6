/**
 * LicenseGenerator (shiplock_license.py): the license payload, the salted integrity digest,
 * the key state of the generator, artifact assembly and the `.bin` file layout.
 * Cryptography, hashing, base64 and JSON encoding are the uninterpreted functions of
 * `Primitives`; the model says only how the code combines them.
 */
module License {
  import opened Wrappers
  import opened Strings
  import opened JsonValues

  type byte = bv8
  type PrivateKey = seq<byte>
  type PublicKey = seq<byte>

  /** Outcome of `json.loads(payload_bytes.decode('utf-8'))`. */
  datatype PayloadParse = NotUtf8 | NotJson | Parsed(value: Json)

  /** The library calls the license code makes, as uninterpreted functions. */
  datatype Primitives = Primitives(
    sha256Hex: string -> string,                    // hashlib.sha256(text.encode()).hexdigest()
    sha512Hex: string -> string,                    // hashlib.sha512(text.encode()).hexdigest()
    show: Json -> string,                           // str() of a non-string value in an f-string
    canonicalJson: map<string, Json> -> seq<byte>,  // json.dumps(d, sort_keys=True).encode('utf-8')
    parsePayload: seq<byte> -> PayloadParse,        // json.loads(b.decode('utf-8'))
    b64encode: seq<byte> -> string,
    b64decode: string -> Option<seq<byte>>,         // None where b64decode raises
    sign: (PrivateKey, seq<byte>) -> seq<byte>,     // RSA-PSS with SHA-256
    sigValid: (PublicKey, seq<byte>, seq<byte>) -> bool, // public_key.verify(signature, data) succeeds
    privatePem: PrivateKey -> seq<byte>,            // PKCS8 PEM under the built-in passphrase
    publicPem: PublicKey -> string,                 // SubjectPublicKeyInfo PEM
    loadPublicPem: string -> Option<PublicKey>,     // None where load_pem_public_key raises
    parseIsoTime: string -> Option<Moment>)         // datetime.fromisoformat, None where it raises

  /** A parsed ISO timestamp: its position on the local clock and whether it carries a UTC offset. */
  datatype Moment = Moment(ticks: int, aware: bool)

  datatype KeyPair = KeyPair(privateKey: PrivateKey, publicKey: PublicKey)

  /** The four fields of a signed license file. */
  datatype Artifact = Artifact(license: string, signature: string, publicKey: string, integrity: string)

  const IntegritySalt: string := "shiplock_integrity_salt_v1"

  /**
   * `_calculate_integrity`: three salted rounds, sha256 then sha512 then sha256, over
   * `license_b64 + ":" + signature_b64`. The generator, the verifier and the embedded
   * script carry textually identical copies; all three are this one function.
   */
  function IntegrityDigest(p: Primitives, licenseB64: string, signatureB64: string): string {
    var combined := licenseB64 + ":" + signatureB64;
    var hash1 := p.sha256Hex(combined + IntegritySalt);
    var hash2 := p.sha512Hex(hash1 + IntegritySalt);
    p.sha256Hex(hash2 + IntegritySalt)
  }

  /**
   * The digest input determines both fields as long as the license text has no ':' (true of
   * base64 text); otherwise the split point is not bound by the digest.
   */
  lemma {:induction false} DigestInputDeterminesFields(l1: string, s1: string, l2: string, s2: string)
    requires ':' !in l1 && ':' !in l2
    requires l1 + ":" + s1 == l2 + ":" + s2
    ensures l1 == l2 && s1 == s2
  {
    var c := l1 + ":" + s1;
    assert forall j :: 0 <= j < |l1| ==> c[j] == l1[j] && c[j] != ':';
    assert forall j :: 0 <= j < |l2| ==> c[j] == l2[j] && c[j] != ':';
    assert c[|l1|] == ':' && c[|l2|] == ':';
    assert |l1| == |l2|;
    assert l1 == c[..|l1|] == l2;
    assert s1 == c[|l1| + 1..] == s2;
  }

  const NeverExpires: string := "never"
  const PayloadVersion: string := "1.0"

  /** The keys every payload from `create_license` has. */
  const BaseKeys: set<string> :=
    {"license_id", "product_id", "client", "issued_at", "expires_at", "machine_bound", "features", "version"}

  /** The keys added only to a machine-bound payload. */
  const MachineKeys: set<string> := {"machine_id", "system_info"}

  /** What the verifier needs of a payload to reach its success branch. */
  predicate WellFormedPayload(m: map<string, Json>) {
    && {"license_id", "product_id", "client", "issued_at", "expires_at", "machine_bound"} <= m.Keys
    && m["expires_at"].JStr?
    && m["machine_bound"].JBool?
    && (m["machine_bound"].b ==> "machine_id" in m && m["machine_id"].JStr?)
  }

  /** The artifact `sign_license` assembles for a payload and a key pair. */
  function SignedArtifact(p: Primitives, data: map<string, Json>, priv: PrivateKey, pub: PublicKey): (a: Artifact)
    ensures a.integrity == IntegrityDigest(p, a.license, a.signature)
  {
    var payloadBytes := p.canonicalJson(data);
    var signature := p.sign(priv, payloadBytes);
    var licenseB64 := p.b64encode(payloadBytes);
    var signatureB64 := p.b64encode(signature);
    Artifact(licenseB64, signatureB64, p.publicPem(pub), IntegrityDigest(p, licenseB64, signatureB64))
  }

  /** The JSON document `sign_license` serialises (`json.dumps(signed_license, indent=2)`). */
  function ArtifactDocument(a: Artifact): Json {
    JObj(map["license" := JStr(a.license), "signature" := JStr(a.signature),
             "public_key" := JStr(a.publicKey), "integrity" := JStr(a.integrity)])
  }

  /** `LicenseGenerator`: RSA keys held in fields, set by `generate_keys` and `load_keys`. */
  class LicenseGenerator {
    var privateKey: Option<PrivateKey>
    var publicKey: Option<PublicKey>
    var encryptionKey: Option<seq<byte>>

    /** Both keys are set together or not at all. */
    ghost predicate Valid()
      reads this
    {
      privateKey.Some? <==> publicKey.Some?
    }

    constructor ()
      ensures Valid()
      ensures privateKey.None? && publicKey.None? && encryptionKey.None?
    {
      privateKey, publicKey, encryptionKey := None, None, None;
    }

    /**
     * `generate_keys`: adopts a freshly generated pair and Fernet key, returns both PEMs.
     * Writing the two key files is left out.
     */
    method GenerateKeys(p: Primitives, generated: KeyPair, fernetKey: seq<byte>)
      returns (privatePem: seq<byte>, publicPem: string)
      modifies this
      ensures Valid()
      ensures privateKey == Some(generated.privateKey) && publicKey == Some(generated.publicKey)
      ensures encryptionKey == Some(fernetKey)
      ensures privatePem == p.privatePem(generated.privateKey) && publicPem == p.publicPem(generated.publicKey)
    {
      privateKey := Some(generated.privateKey);
      publicKey := Some(generated.publicKey);
      privatePem := p.privatePem(generated.privateKey);
      publicPem := p.publicPem(generated.publicKey);
      encryptionKey := Some(fernetKey);
    }

    /**
     * `load_keys`: the stored keys (None where the key file does not exist); a missing file
     * of either kind makes it generate a new pair, which replaces both keys.
     */
    method LoadKeys(p: Primitives, storedPrivate: Option<PrivateKey>, storedPublic: Option<PublicKey>,
                    generated: KeyPair, fernetKey: seq<byte>)
      modifies this
      ensures Valid() && privateKey.Some? && publicKey.Some?
      ensures storedPrivate.Some? && storedPublic.Some? ==>
        privateKey == storedPrivate && publicKey == storedPublic && encryptionKey == old(encryptionKey)
      ensures storedPrivate.None? || storedPublic.None? ==>
        privateKey == Some(generated.privateKey) && publicKey == Some(generated.publicKey) && encryptionKey == Some(fernetKey)
    {
      if storedPrivate.None? {
        var privatePem, publicPem := GenerateKeys(p, generated, fernetKey);
      } else {
        privateKey := storedPrivate;
        if storedPublic.None? {
          var privatePem, publicPem := GenerateKeys(p, generated, fernetKey);
        } else {
          publicKey := storedPublic;
        }
      }
    }

    /**
     * `create_license`: the payload, with `expires or 'never'`, `features or {}`, version
     * "1.0", and the machine fields only for a machine-bound license. The UUID, the clock,
     * the fingerprint and the system information are inputs.
     */
    method CreateLicense(productId: string, client: string, expires: Option<string>, machineBound: bool,
                         features: Option<map<string, Json>>, licenseId: string, issuedAt: string,
                         machineId: string, systemInfo: map<string, Json>)
      returns (data: map<string, Json>)
      ensures data.Keys == BaseKeys + (if machineBound then MachineKeys else {})
      ensures data["license_id"] == JStr(licenseId) && data["issued_at"] == JStr(issuedAt)
      ensures data["product_id"] == JStr(productId) && data["client"] == JStr(client)
      ensures data["expires_at"] == JStr(if expires.None? || expires.value == "" then NeverExpires else expires.value)
      ensures data["features"] == JObj(if features.None? then map[] else features.value)
      ensures data["version"] == JStr(PayloadVersion)
      ensures data["machine_bound"] == JBool(machineBound)
      ensures machineBound ==> data["machine_id"] == JStr(machineId) && data["system_info"] == JObj(systemInfo)
      ensures WellFormedPayload(data)
    {
      var expiresAt := if expires.Some? && expires.value != "" then expires.value else NeverExpires;
      var featureMap := if features.Some? && features.value != map[] then features.value else map[];
      data := map[
        "license_id" := JStr(licenseId),
        "product_id" := JStr(productId),
        "client" := JStr(client),
        "issued_at" := JStr(issuedAt),
        "expires_at" := JStr(expiresAt),
        "machine_bound" := JBool(machineBound),
        "features" := JObj(featureMap),
        "version" := JStr(PayloadVersion)];
      if machineBound {
        data := data["machine_id" := JStr(machineId)];
        data := data["system_info" := JObj(systemInfo)];
      }
    }

    /**
     * `sign_license`: loads the keys first when none are held, then signs the canonical
     * payload bytes and assembles the artifact with the public key and the integrity digest.
     */
    method SignLicense(p: Primitives, data: map<string, Json>, storedPrivate: Option<PrivateKey>,
                       storedPublic: Option<PublicKey>, generated: KeyPair, fernetKey: seq<byte>)
      returns (artifact: Artifact)
      requires Valid()
      modifies this
      ensures Valid() && privateKey.Some? && publicKey.Some?
      ensures old(privateKey).Some? ==>
        privateKey == old(privateKey) && publicKey == old(publicKey) && encryptionKey == old(encryptionKey)
      ensures artifact == SignedArtifact(p, data, privateKey.value, publicKey.value)
      ensures artifact.integrity == IntegrityDigest(p, artifact.license, artifact.signature)
    {
      if privateKey.None? {
        LoadKeys(p, storedPrivate, storedPublic, generated, fernetKey);
      }
      var licenseBytes := p.canonicalJson(data);
      var signature := p.sign(privateKey.value, licenseBytes);
      var licenseB64 := p.b64encode(licenseBytes);
      var signatureB64 := p.b64encode(signature);
      var integrity := IntegrityDigest(p, licenseB64, signatureB64);
      artifact := Artifact(licenseB64, signatureB64, p.publicPem(publicKey.value), integrity);
    }
  }

  /** What `write_license` puts on disk, in order. */
  datatype FileWrite = TextWrite(path: string, text: string) | BinaryWrite(path: string, bytes: seq<byte>)

  const SeparatorLength: nat := 16

  /** `bytes([k ^ 0xAB for k in key])`. */
  function MaskKey(key: seq<byte>): (r: seq<byte>)
    ensures |r| == |key|
  {
    seq(|key|, i requires 0 <= i < |key| => key[i] ^ 0xAB)
  }

  /** The `.bin` file: the masked Fernet key, sixteen zero bytes, the Fernet token. */
  function BinaryLayout(fernetKey: seq<byte>, encrypted: seq<byte>): seq<byte> {
    MaskKey(fernetKey) + seq(SeparatorLength, _ => 0 as byte) + encrypted
  }

  /** `output_path.replace('.key', '.bin')`. */
  function BinaryPath(outputPath: string): string {
    Replace(outputPath, ".key", ".bin")
  }

  /**
   * `write_license`: the JSON text at the output path, then the binary copy. The Fernet key
   * and its token (`cipher.encrypt(signed_license.encode('utf-8'))`) are inputs.
   */
  function WriteLicense(signedLicense: string, outputPath: string, fernetKey: seq<byte>, encrypted: seq<byte>): seq<FileWrite> {
    [TextWrite(outputPath, signedLicense), BinaryWrite(BinaryPath(outputPath), BinaryLayout(fernetKey, encrypted))]
  }

  /** The write that determines a path's final content: the last one to it. */
  function LastWriteTo(writes: seq<FileWrite>, path: string): Option<FileWrite>
    decreases |writes|
  {
    if |writes| == 0 then None
    else if writes[|writes| - 1].path == path then Some(writes[|writes| - 1])
    else LastWriteTo(writes[..|writes| - 1], path)
  }

  /**
   * Reading the `.bin` file back: unmasking the first `len(key)` bytes recovers the key, the
   * next sixteen are zero, and the rest is the token.
   */
  lemma BinaryLayoutRoundTrip(fernetKey: seq<byte>, encrypted: seq<byte>)
    ensures var bin := BinaryLayout(fernetKey, encrypted);
      && |bin| == |fernetKey| + SeparatorLength + |encrypted|
      && MaskKey(bin[..|fernetKey|]) == fernetKey
      && (forall i :: |fernetKey| <= i < |fernetKey| + SeparatorLength ==> bin[i] == 0)
      && bin[|fernetKey| + SeparatorLength..] == encrypted
  {
    var bin := BinaryLayout(fernetKey, encrypted);
    assert bin[..|fernetKey|] == MaskKey(fernetKey);
    assert bin[|fernetKey| + SeparatorLength..] == encrypted;
  }

  /**
   * A `.key` path gets a separate `.bin` file; any path without `.key` is overwritten by the
   * binary copy, so the JSON license text does not survive `write_license`.
   */
  lemma {:induction false} BinaryCopyTarget(signedLicense: string, outputPath: string, fernetKey: seq<byte>, encrypted: seq<byte>)
    ensures Contains(outputPath, ".key") ==> BinaryPath(outputPath) != outputPath
    ensures !Contains(outputPath, ".key") ==>
      LastWriteTo(WriteLicense(signedLicense, outputPath, fernetKey, encrypted), outputPath)
        == Some(BinaryWrite(outputPath, BinaryLayout(fernetKey, encrypted)))
  {
    if Contains(outputPath, ".key") {
      ReplaceChangesFirstMatch(outputPath);
    } else {
      ReplaceAbsent(outputPath, ".key", ".bin");
    }
  }

  lemma {:induction false} ReplaceChangesFirstMatch(s: string)
    requires Contains(s, ".key")
    ensures Replace(s, ".key", ".bin") != s
  {
    var r := Replace(s, ".key", ".bin");
    if StartsWith(s, ".key") {
      assert r[..4] == ".bin";
      assert r[3] != s[3];
    } else {
      ReplaceChangesFirstMatch(s[1..]);
      assert r == [s[0]] + Replace(s[1..], ".key", ".bin");
      assert r[1..] != s[1..];
    }
  }
}
