/**
 * LicenseVerifier.verify (shiplock_license.py) and the standalone `verify_license_file` the
 * generator embeds in bundles: the order of the checks, the reasons each rejects with, and
 * the details returned on success.
 */
module Verifier {
  import opened Wrappers
  import opened Strings
  import opened JsonValues
  import opened License

  /** The license file as `open` plus `json.loads` deliver it. */
  datatype LicenseFile = Missing | Unreadable | NotJsonText | Document(doc: Json)

  /** The `reason` of a rejection by `LicenseVerifier.verify`; exception texts are not modelled. */
  datatype Reason =
    | FileNotFound
    | InvalidFormat
    | IntegrityFailed
    | SignatureFailed
    | Expired(expiredAt: string)
    | MachineMismatch(expected: string, actual: string)
    | VerificationError

  datatype Verdict = Accepted(details: map<string, Json>) | Rejected(reason: Reason)

  const NeverText: Json := JStr(NeverExpires)

  /** The four fields the verifier reads from the license file. */
  const ArtifactKeys: set<string> := {"license", "signature", "public_key", "integrity"}

  /** The payload keys the success branch indexes directly. */
  const DetailKeys: set<string> :=
    {"license_id", "product_id", "client", "issued_at", "expires_at", "machine_bound"}

  /** An f-string renders a string as itself and anything else by `str()`. */
  function Text(p: Primitives, j: Json): string {
    if j.JStr? then j.str else p.show(j)
  }

  /** `license_machine_id[:16] + '...'`. */
  function Abbreviate(s: string): (r: string)
    ensures |r| <= 19 && EndsWith(r, "...")
    ensures |s| <= 16 ==> r == s + "..."
  {
    Take(s, 16) + "..."
  }

  /** The details returned for a valid license; `features` defaults to `{}`. */
  function Details(m: map<string, Json>): (d: map<string, Json>)
    requires DetailKeys <= m.Keys
    ensures d.Keys == DetailKeys + {"features"}
    ensures forall k :: k in DetailKeys ==> d[k] == m[k]
    ensures d["features"] == (if "features" in m then m["features"] else JObj(map[]))
  {
    map["license_id" := m["license_id"], "product_id" := m["product_id"], "client" := m["client"],
        "issued_at" := m["issued_at"], "expires_at" := m["expires_at"],
        "machine_bound" := m["machine_bound"], "features" := Get(m, "features", JObj(map[]))]
  }

  /** The artifact fields are present and the stored integrity equals the recomputed digest. */
  predicate IntegrityPasses(p: Primitives, doc: Json) {
    && doc.JObj? && ArtifactKeys <= doc.obj.Keys
    && doc.obj["integrity"] == JStr(IntegrityDigest(p, Text(p, doc.obj["license"]), Text(p, doc.obj["signature"])))
  }

  /**
   * The checks on the decoded payload object, in order: an expiry date other than "never" must
   * parse to a naive datetime not before now; a truthy `machine_bound` needs `machine_id`
   * (default "") equal to the local id; the six indexed keys must exist.
   */
  function CheckTerms(p: Primitives, m: map<string, Json>, now: int, localMachineId: string): Verdict {
    if "expires_at" !in m then Rejected(VerificationError)
    else
      var e := m["expires_at"];
      if e != NeverText && (!e.JStr? || p.parseIsoTime(e.str).None? || p.parseIsoTime(e.str).value.aware) then
        Rejected(VerificationError)
      else if e != NeverText && now > p.parseIsoTime(e.str).value.ticks then
        Rejected(Expired(e.str))
      else if Truthy(Get(m, "machine_bound", JBool(false))) && Get(m, "machine_id", JStr("")) != JStr(localMachineId) then
        var mid := Get(m, "machine_id", JStr(""));
        if mid.JStr? then Rejected(MachineMismatch(Abbreviate(mid.str), Abbreviate(localMachineId)))
        else Rejected(VerificationError)
      else if !(DetailKeys <= m.Keys) then Rejected(VerificationError)
      else Accepted(Details(m))
  }

  /** Decoding the verified payload bytes: a JSON error is a format error, any other failure is not. */
  function CheckPayload(p: Primitives, parsed: PayloadParse, now: int, localMachineId: string): Verdict {
    match parsed
    case NotUtf8 => Rejected(VerificationError)
    case NotJson => Rejected(InvalidFormat)
    case Parsed(data) =>
      if data.JObj? then CheckTerms(p, data.obj, now, localMachineId) else Rejected(VerificationError)
  }

  /**
   * The verdict on a parsed license document: fields, integrity, public key, base64, signature,
   * then the payload.
   */
  function VerifyDocument(p: Primitives, doc: Json, now: int, localMachineId: string): Verdict {
    if !doc.JObj? || !(ArtifactKeys <= doc.obj.Keys) then Rejected(VerificationError)
    else if !IntegrityPasses(p, doc) then Rejected(IntegrityFailed)
    else
      var l, s, k := doc.obj["license"], doc.obj["signature"], doc.obj["public_key"];
      if !k.JStr? || p.loadPublicPem(k.str).None? then Rejected(VerificationError)
      else if !l.JStr? || !s.JStr? || p.b64decode(l.str).None? || p.b64decode(s.str).None? then
        Rejected(VerificationError)
      else
        var payload := p.b64decode(l.str).value;
        if !p.sigValid(p.loadPublicPem(k.str).value, payload, p.b64decode(s.str).value) then Rejected(SignatureFailed)
        else CheckPayload(p, p.parsePayload(payload), now, localMachineId)
  }

  /** `verify`: the verdict on a license file at local time `now` on the machine `localMachineId`. */
  function VerifyLicense(p: Primitives, file: LicenseFile, now: int, localMachineId: string): Verdict {
    match file
    case Missing => Rejected(FileNotFound)
    case Unreadable => Rejected(VerificationError)
    case NotJsonText => Rejected(InvalidFormat)
    case Document(doc) => VerifyDocument(p, doc, now, localMachineId)
  }

  /** The verifier's `public_key` after `verify`: replaced once integrity passes and the key loads. */
  function KeyAfterVerify(p: Primitives, file: LicenseFile, previous: Option<PublicKey>): Option<PublicKey> {
    if file.Document? && IntegrityPasses(p, file.doc) && file.doc.obj["public_key"].JStr?
       && p.loadPublicPem(file.doc.obj["public_key"].str).Some?
    then p.loadPublicPem(file.doc.obj["public_key"].str)
    else previous
  }

  /** `LicenseVerifier`, whose `verify` keeps the last loaded public key. */
  class LicenseVerifier {
    var publicKey: Option<PublicKey>

    constructor ()
      ensures publicKey.None?
    {
      publicKey := None;
    }

    method Verify(p: Primitives, file: LicenseFile, now: int, localMachineId: string)
      returns (valid: bool, verdict: Verdict)
      modifies this
      ensures verdict == VerifyLicense(p, file, now, localMachineId)
      ensures valid <==> verdict.Accepted?
      ensures publicKey == KeyAfterVerify(p, file, old(publicKey))
    {
      match file {
        case Missing => return false, Rejected(FileNotFound);
        case Unreadable => return false, Rejected(VerificationError);
        case NotJsonText => return false, Rejected(InvalidFormat);
        case Document(doc) =>
          if !doc.JObj? || !(ArtifactKeys <= doc.obj.Keys) {
            return false, Rejected(VerificationError);
          }
          var licenseB64 := doc.obj["license"];
          var signatureB64 := doc.obj["signature"];
          var publicKeyPem := doc.obj["public_key"];
          var integrity := doc.obj["integrity"];
          var expected := IntegrityDigest(p, Text(p, licenseB64), Text(p, signatureB64));
          if integrity != JStr(expected) {
            return false, Rejected(IntegrityFailed);
          }
          if !publicKeyPem.JStr? || p.loadPublicPem(publicKeyPem.str).None? {
            return false, Rejected(VerificationError);
          }
          publicKey := p.loadPublicPem(publicKeyPem.str);
          if !licenseB64.JStr? || !signatureB64.JStr? {
            return false, Rejected(VerificationError);
          }
          var licenseBytes := p.b64decode(licenseB64.str);
          var signature := p.b64decode(signatureB64.str);
          if licenseBytes.None? || signature.None? {
            return false, Rejected(VerificationError);
          }
          if !p.sigValid(publicKey.value, licenseBytes.value, signature.value) {
            return false, Rejected(SignatureFailed);
          }
          var parsed := p.parsePayload(licenseBytes.value);
          if parsed.NotUtf8? {
            return false, Rejected(VerificationError);
          }
          if parsed.NotJson? {
            return false, Rejected(InvalidFormat);
          }
          if !parsed.value.JObj? {
            return false, Rejected(VerificationError);
          }
          var data := parsed.value.obj;
          if "expires_at" !in data {
            return false, Rejected(VerificationError);
          }
          var expiresAt := data["expires_at"];
          if expiresAt != NeverText {
            if !expiresAt.JStr? {
              return false, Rejected(VerificationError);
            }
            var expiry := p.parseIsoTime(expiresAt.str);
            if expiry.None? || expiry.value.aware {
              return false, Rejected(VerificationError);
            }
            if now > expiry.value.ticks {
              return false, Rejected(Expired(expiresAt.str));
            }
          }
          if Truthy(Get(data, "machine_bound", JBool(false))) {
            var licenseMachineId := Get(data, "machine_id", JStr(""));
            if licenseMachineId != JStr(localMachineId) {
              if !licenseMachineId.JStr? {
                return false, Rejected(VerificationError);
              }
              return false, Rejected(MachineMismatch(Abbreviate(licenseMachineId.str), Abbreviate(localMachineId)));
            }
          }
          if !(DetailKeys <= data.Keys) {
            return false, Rejected(VerificationError);
          }
          return true, Accepted(Details(data));
      }
    }
  }

  /** Properties of the primitives the round trip relies on, at the values it uses. */
  predicate SoundPrimitives(p: Primitives, data: map<string, Json>, priv: PrivateKey, pub: PublicKey) {
    var bytes := p.canonicalJson(data);
    var signature := p.sign(priv, bytes);
    && p.b64decode(p.b64encode(bytes)) == Some(bytes)
    && p.b64decode(p.b64encode(signature)) == Some(signature)
    && p.loadPublicPem(p.publicPem(pub)) == Some(pub)
    && p.sigValid(pub, bytes, signature)
    && p.parsePayload(bytes) == Parsed(JObj(data))
  }

  /** The terms of a payload hold at `now` on `localMachineId`. */
  predicate TermsHold(p: Primitives, m: map<string, Json>, now: int, localMachineId: string)
    requires WellFormedPayload(m)
  {
    && (m["expires_at"] != NeverText ==>
          p.parseIsoTime(m["expires_at"].str).Some?
          && !p.parseIsoTime(m["expires_at"].str).value.aware
          && now <= p.parseIsoTime(m["expires_at"].str).value.ticks)
    && (m["machine_bound"].b ==> m["machine_id"] == JStr(localMachineId))
  }

  /**
   * Signing then verifying: a well-formed payload signed by the generator is accepted, with
   * the payload's details, whenever its terms hold and the primitives behave.
   */
  lemma SignThenVerify(p: Primitives, data: map<string, Json>, priv: PrivateKey, pub: PublicKey,
                       now: int, localMachineId: string)
    requires WellFormedPayload(data) && SoundPrimitives(p, data, priv, pub)
    requires TermsHold(p, data, now, localMachineId)
    ensures VerifyLicense(p, Document(ArtifactDocument(SignedArtifact(p, data, priv, pub))), now, localMachineId)
      == Accepted(Details(data))
  {
    var a := SignedArtifact(p, data, priv, pub);
    var doc := ArtifactDocument(a);
    assert IntegrityPasses(p, doc);
    assert Get(data, "machine_bound", JBool(false)) == data["machine_bound"];
    if data["machine_bound"].b {
      assert Get(data, "machine_id", JStr("")) == JStr(localMachineId);
    }
  }

  /** A failed integrity check is reported as such, whatever the key, signature and payload are. */
  lemma IntegrityFailureReported(p: Primitives, doc: Json, now: int, localMachineId: string)
    ensures VerifyDocument(p, doc, now, localMachineId) == Rejected(IntegrityFailed)
      <==> doc.JObj? && ArtifactKeys <= doc.obj.Keys && !IntegrityPasses(p, doc)
  {
  }

  /** An expiry date is inclusive: valid at its own instant, expired one tick later. */
  lemma {:induction false} ExpiryIsInclusive(p: Primitives, m: map<string, Json>, t: int, localMachineId: string)
    requires "expires_at" in m && m["expires_at"].JStr? && m["expires_at"] != NeverText
    requires p.parseIsoTime(m["expires_at"].str) == Some(Moment(t, false))
    ensures !CheckTerms(p, m, t, localMachineId).Rejected? || !CheckTerms(p, m, t, localMachineId).reason.Expired?
    ensures CheckTerms(p, m, t + 1, localMachineId) == Rejected(Expired(m["expires_at"].str))
  {
  }

  /** A "never" license skips the date entirely: the clock and the date parser play no part. */
  lemma NeverIgnoresClock(p: Primitives, m: map<string, Json>, now1: int, now2: int, localMachineId: string,
                          parse: string -> Option<Moment>)
    requires "expires_at" in m && m["expires_at"] == NeverText
    ensures CheckTerms(p, m, now1, localMachineId) == CheckTerms(p.(parseIsoTime := parse), m, now2, localMachineId)
  {
  }

  /** A date with a UTC offset cannot be compared with the naive local clock: always an error. */
  lemma OffsetDateRejected(p: Primitives, m: map<string, Json>, now: int, localMachineId: string)
    requires "expires_at" in m && m["expires_at"].JStr? && m["expires_at"] != NeverText
    requires p.parseIsoTime(m["expires_at"].str).Some? && p.parseIsoTime(m["expires_at"].str).value.aware
    ensures CheckTerms(p, m, now, localMachineId) == Rejected(VerificationError)
  {
  }

  /**
   * Machine binding: without `machine_bound` the local machine plays no part; a bound payload
   * without `machine_id` is rejected on every machine whose id is not empty.
   */
  lemma MachineBindingDefaults(p: Primitives, m: map<string, Json>, now: int, id1: string, id2: string)
    ensures "machine_bound" !in m ==> CheckTerms(p, m, now, id1) == CheckTerms(p, m, now, id2)
    ensures "machine_bound" in m && Truthy(m["machine_bound"]) && "machine_id" !in m && id1 != ""
      ==> CheckTerms(p, m, now, id1).Rejected?
  {
  }

  /**
   * Each stage hides the later ones: an integrity or signature failure is reported whatever the
   * clock and the local machine, and an expired license is reported as expired on every machine.
   */
  lemma VerificationOrder(p: Primitives, doc: Json, now1: int, now2: int, id1: string, id2: string)
    ensures VerifyDocument(p, doc, now1, id1) == Rejected(IntegrityFailed)
      ==> VerifyDocument(p, doc, now2, id2) == Rejected(IntegrityFailed)
    ensures VerifyDocument(p, doc, now1, id1) == Rejected(SignatureFailed)
      ==> VerifyDocument(p, doc, now2, id2) == Rejected(SignatureFailed)
    ensures VerifyDocument(p, doc, now1, id1).Rejected? && VerifyDocument(p, doc, now1, id1).reason.Expired?
      ==> VerifyDocument(p, doc, now1, id2) == VerifyDocument(p, doc, now1, id1)
  {
  }

  // The standalone verifier embedded in bundles (`verify_license_file`).

  /** The message kinds `verify_license_file` returns on failure. */
  datatype ScriptReason =
    | ScriptFileNotFound
    | ScriptInvalidFormat
    | ScriptFileNotJson
    | ScriptIntegrityFailed
    | ScriptKeyLoadFailed
    | ScriptDecodeFailed
    | ScriptSignatureFailed
    | ScriptPayloadParseFailed
    | ScriptExpired(expiredOn: string)
    | ScriptBadExpiry
    | ScriptMachineMismatch
    | ScriptError

  /** The script returns the whole payload on success. */
  datatype ScriptVerdict = ScriptAccepted(data: Json) | ScriptRejected(reason: ScriptReason)

  /**
   * The script's payload checks: a missing or unparsable expiry is its own message, a
   * non-string one an error; the machine check runs only for a truthy `machine_id`, against
   * the script's own fingerprint `scriptMachineId`.
   */
  function ScriptCheckTerms(p: Primitives, m: map<string, Json>, now: int, scriptMachineId: string): ScriptVerdict {
    var e := Get(m, "expires_at", JNull);
    if e != NeverText && "expires_at" !in m then ScriptRejected(ScriptBadExpiry)
    else if e != NeverText && !e.JStr? then ScriptRejected(ScriptError)
    else if e != NeverText && p.parseIsoTime(e.str).None? then ScriptRejected(ScriptBadExpiry)
    else if e != NeverText && p.parseIsoTime(e.str).value.aware then ScriptRejected(ScriptError)
    else if e != NeverText && now > p.parseIsoTime(e.str).value.ticks then ScriptRejected(ScriptExpired(e.str))
    else if Truthy(Get(m, "machine_bound", JBool(false))) && Truthy(Get(m, "machine_id", JStr("")))
            && Get(m, "machine_id", JStr("")) != JStr(scriptMachineId) then
      ScriptRejected(ScriptMachineMismatch)
    else ScriptAccepted(JObj(m))
  }

  /** `verify_license_file` on a parsed document. */
  function ScriptVerifyDocument(p: Primitives, doc: Json, now: int, scriptMachineId: string): ScriptVerdict {
    if !doc.JObj? then ScriptRejected(ScriptError)
    else
      var l, s := Get(doc.obj, "license", JNull), Get(doc.obj, "signature", JNull);
      var k, i := Get(doc.obj, "public_key", JNull), Get(doc.obj, "integrity", JNull);
      if !(Truthy(l) && Truthy(s) && Truthy(k) && Truthy(i)) then ScriptRejected(ScriptInvalidFormat)
      else if i != JStr(IntegrityDigest(p, Text(p, l), Text(p, s))) then ScriptRejected(ScriptIntegrityFailed)
      else if !k.JStr? || p.loadPublicPem(k.str).None? then ScriptRejected(ScriptKeyLoadFailed)
      else if !l.JStr? || !s.JStr? || p.b64decode(l.str).None? || p.b64decode(s.str).None? then
        ScriptRejected(ScriptDecodeFailed)
      else
        var payload := p.b64decode(l.str).value;
        if !p.sigValid(p.loadPublicPem(k.str).value, payload, p.b64decode(s.str).value) then
          ScriptRejected(ScriptSignatureFailed)
        else match p.parsePayload(payload)
          case Parsed(data) =>
            if data.JObj? then ScriptCheckTerms(p, data.obj, now, scriptMachineId) else ScriptRejected(ScriptError)
          case _ => ScriptRejected(ScriptPayloadParseFailed)
  }

  function ScriptVerify(p: Primitives, file: LicenseFile, now: int, scriptMachineId: string): ScriptVerdict {
    match file
    case Missing => ScriptRejected(ScriptFileNotFound)
    case Unreadable => ScriptRejected(ScriptError)
    case NotJsonText => ScriptRejected(ScriptFileNotJson)
    case Document(doc) => ScriptVerifyDocument(p, doc, now, scriptMachineId)
  }

  /**
   * The embedded script accepts what the generator signs and returns the whole payload,
   * provided the four artifact fields are non-empty text (the script checks their truthiness).
   */
  lemma ScriptSignThenVerify(p: Primitives, data: map<string, Json>, priv: PrivateKey, pub: PublicKey,
                             now: int, scriptMachineId: string)
    requires WellFormedPayload(data) && SoundPrimitives(p, data, priv, pub)
    requires TermsHold(p, data, now, scriptMachineId)
    requires var a := SignedArtifact(p, data, priv, pub);
      a.license != "" && a.signature != "" && a.publicKey != "" && a.integrity != ""
    ensures ScriptVerify(p, Document(ArtifactDocument(SignedArtifact(p, data, priv, pub))), now, scriptMachineId)
      == ScriptAccepted(JObj(data))
  {
    var doc := ArtifactDocument(SignedArtifact(p, data, priv, pub));
    assert Get(doc.obj, "license", JNull) == doc.obj["license"];
    assert Get(doc.obj, "signature", JNull) == doc.obj["signature"];
    assert Get(doc.obj, "public_key", JNull) == doc.obj["public_key"];
    assert Get(doc.obj, "integrity", JNull) == doc.obj["integrity"];
    assert Get(data, "expires_at", JNull) == data["expires_at"];
    assert Get(data, "machine_bound", JBool(false)) == data["machine_bound"];
    if data["machine_bound"].b {
      assert Get(data, "machine_id", JStr("")) == JStr(scriptMachineId);
    }
  }

  /** The script's exit status: 0 for a valid license, 1 for every failure. */
  function ScriptExitCode(v: ScriptVerdict): (code: int)
    ensures code == 0 <==> v.ScriptAccepted?
    ensures code == 0 || code == 1
  {
    if v.ScriptAccepted? then 0 else 1
  }

  /**
   * The two verifiers disagree on a machine-bound payload whose `machine_id` is empty: the
   * class rejects it on any machine, the embedded script skips the check and accepts.
   */
  lemma {:induction false} EmptyMachineIdDisagreement(p: Primitives, m: map<string, Json>, now: int,
                                                      localMachineId: string, scriptMachineId: string)
    requires WellFormedPayload(m) && TermsHold(p, m, now, "")
    requires m["machine_bound"] == JBool(true) && m["machine_id"] == JStr("")
    requires localMachineId != ""
    ensures CheckTerms(p, m, now, localMachineId) == Rejected(MachineMismatch("...", Abbreviate(localMachineId)))
    ensures ScriptCheckTerms(p, m, now, scriptMachineId) == ScriptAccepted(JObj(m))
  {
    assert Take("", 16) == "";
  }

  /** On a well-formed payload both verifiers accept exactly when the terms hold. */
  lemma {:induction false} VerifiersAgreeOnTerms(p: Primitives, m: map<string, Json>, now: int, machineId: string)
    requires WellFormedPayload(m)
    requires m["machine_bound"].b ==> m["machine_id"] != JStr("")
    ensures CheckTerms(p, m, now, machineId).Accepted? <==> TermsHold(p, m, now, machineId)
    ensures ScriptCheckTerms(p, m, now, machineId).ScriptAccepted? <==> TermsHold(p, m, now, machineId)
  {
    assert Get(m, "machine_bound", JBool(false)) == m["machine_bound"];
    if m["machine_bound"].b {
      assert Get(m, "machine_id", JStr("")) == m["machine_id"];
    }
  }
}
