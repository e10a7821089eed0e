/** setup.py: create a KMS key, then build a PKCS#10 certificate request for
    it whose signature KMS computes, and write it out in PEM. The foreign
    libraries it calls (the RFC 4514 parser, pyasn1's DER codec, SHA-256) are
    the fields of a `Library` value; KMS is a `KmsClient`; the files it writes
    are a `Disk`. */
module Setup {
  import opened Types
  import opened Pkcs10
  import opened Kms
  import Pem
  import Base64

  const CsrFile: string := "kms-signing.csr"
  const ConfigFile: string := "config.json"

  /** The key create_kms_key asks KMS for. */
  const CreateKeyCall: KmsCall := CreateKey("C2PA Python KMS Demo Key", "SIGN_VERIFY", "ECC_NIST_P256")

  /** The foreign code setup.py calls, as functions of their inputs. */
  datatype Library = Library(
    /** `Name.from_rfc4514_string`; `None` when it raises. */
    parseSubject: string -> Option<Name>,
    /** pyasn1's decoder for a SubjectPublicKeyInfo; `None` when it raises. */
    decodePublicKey: Bytes -> Option<SubjectPublicKeyInfo>,
    /** pyasn1's DER encoder, on the request info and on the whole request. */
    encodeInfo: CertificationRequestInfo -> Bytes,
    encodeRequest: CertificationRequest -> Bytes,
    /** hashlib's SHA-256. */
    sha256: Bytes -> Bytes)

  /** Why setup.py stops; every one is an exception in the source. */
  datatype SetupError =
    | KmsFailed(call: KmsCall)
    | MalformedSubject(subject: string)
    | MalformedPublicKey
    | NoKeyIdGenerated

  /** The files the script writes, by name. */
  class Disk {
    var files: map<string, string>

    constructor (files: map<string, string>)
      ensures this.files == files
    {
      this.files := files;
    }

    method Write(name: string, content: string)
      modifies this
      ensures files == old(files)[name := content]
    {
      files := files[name := content];
    }
  }

  /** A hashlib SHA-256 object: what it has absorbed so far. */
  class Sha256Hash {
    const sha256: Bytes -> Bytes
    var absorbed: Bytes

    constructor (sha256: Bytes -> Bytes)
      ensures this.sha256 == sha256 && absorbed == []
    {
      this.sha256 := sha256;
      absorbed := [];
    }

    method Update(data: Bytes)
      modifies this
      ensures absorbed == old(absorbed) + data
    {
      absorbed := absorbed + data;
    }

    function Digest(): Bytes
      reads this
    {
      sha256(absorbed)
    }
  }

  /** `build_output`: the PEM text of the DER encoding of `csr`, built line by
      line; reading it back gives that DER encoding. */
  method BuildOutput(lib: Library, csr: CertificationRequest) returns (out: string)
    ensures out == Pem.PemText(lib.encodeRequest(csr))
    ensures Pem.ParsePem(out) == Ok(lib.encodeRequest(csr))
  {
    out := Pem.StartMarker + "\n";
    var der := lib.encodeRequest(csr);
    var b64 := Base64.Encode(der);
    Pem.EncodeUnbreakable(der);
    var lines := Pem.Wrap(b64, Pem.LineWidth);
    for i := 0 to |lines|
      invariant out == Pem.StartMarker + "\n" + Pem.Joined(lines[..i])
    {
      assert lines[..i + 1][..i] == lines[..i];
      out := out + lines[i] + "\n";
    }
    assert lines[..|lines|] == lines;
    out := out + Pem.EndMarker;
    Pem.PemRoundTrip(der);
  }

  /** The request info after the key is replaced: authored for `subject`
      around the throwaway key, then given the KMS key. */
  function FinalInfo(subject: Name, throwaway: SubjectPublicKeyInfo, kmsKey: SubjectPublicKeyInfo): CertificationRequestInfo {
    WithPublicKey(AuthorInfo(subject, throwaway), kmsKey)
  }

  /** The signing request for a request info: the SHA-256 digest of its DER
      encoding, under `keyId`, as a digest, with ECDSA_SHA_256. */
  function SignCall(lib: Library, keyId: KeyId, info: CertificationRequestInfo): KmsCall {
    Sign(keyId, lib.sha256(lib.encodeInfo(info)), Digest, EcdsaSha256)
  }

  /** The exchanges made since `before`. */
  function Since(before: seq<Exchange>, after: seq<Exchange>): seq<Exchange>
    requires |before| <= |after|
  {
    after[|before|..]
  }

  /** Every reply in `ex` is the service's answer given the exchanges before
      it, starting from the history `before`. */
  predicate Answered(service: Service, before: seq<Exchange>, ex: seq<Exchange>) {
    forall i | 0 <= i < |ex| :: ex[i].reply == service(before + ex[..i], ex[i].call)
  }

  lemma AnsweredExtend(service: Service, before: seq<Exchange>, ex: seq<Exchange>, e: Exchange)
    requires Answered(service, before, ex)
    requires e.reply == service(before + ex, e.call)
    ensures Answered(service, before, ex + [e])
  {
    var ex' := ex + [e];
    forall i | 0 <= i < |ex'| ensures ex'[i].reply == service(before + ex'[..i], ex'[i].call) {
      if i < |ex| {
        assert ex'[..i] == ex[..i];
      } else {
        assert ex'[..i] == ex;
      }
    }
  }

  /** What `generate_certificate_request` does with KMS after the exchanges
      `before`, and its outcome. Every reply is the service's answer given all
      exchanges before it. KMS is asked to describe the key; unless that
      raises, it is asked for the public key; only then is the subject parsed,
      the request info authored around the throwaway key and its key replaced
      by the decoded KMS key; when all of that succeeds, exactly one sign
      request follows, carrying the digest of the final info, and the request
      is assembled from that info and the signature. */
  predicate CsrRun(lib: Library, service: Service, before: seq<Exchange>, after: seq<Exchange>,
                   keyId: KeyId, subject: string, throwaway: SubjectPublicKeyInfo,
                   r: Result<CertificationRequest, SetupError>)
  {
    before <= after &&
    var ex := Since(before, after);
    1 <= |ex| <= 3 &&
    Answered(service, before, ex) &&
    ex[0].call == DescribeKey(keyId) &&
    (ex[0].reply.Fault? ==> |ex| == 1 && r == Err(KmsFailed(DescribeKey(keyId)))) &&
    (!ex[0].reply.Fault? ==> |ex| >= 2 && ex[1].call == GetPublicKey(keyId)) &&
    (|ex| >= 2 && !ex[1].reply.PublicKey? ==>
       |ex| == 2 && r == Err(KmsFailed(GetPublicKey(keyId)))) &&
    (|ex| >= 2 && ex[1].reply.PublicKey? && lib.parseSubject(subject).None? ==>
       |ex| == 2 && r == Err(MalformedSubject(subject))) &&
    (|ex| >= 2 && ex[1].reply.PublicKey? && lib.parseSubject(subject).Some? &&
     lib.decodePublicKey(ex[1].reply.der).None? ==>
       |ex| == 2 && r == Err(MalformedPublicKey)) &&
    (|ex| >= 2 && ex[1].reply.PublicKey? && lib.parseSubject(subject).Some? &&
     lib.decodePublicKey(ex[1].reply.der).Some? ==>
       var info := FinalInfo(lib.parseSubject(subject).value, throwaway, lib.decodePublicKey(ex[1].reply.der).value);
       |ex| == 3 && ex[2].call == SignCall(lib, keyId, info) &&
       (ex[2].reply.Signature? ==> r == Ok(Assemble(info, ex[2].reply.octets))) &&
       (!ex[2].reply.Signature? ==> r == Err(KmsFailed(ex[2].call))))
  }

  /** `CsrRun` leaves no freedom: for one service, history and input there is
      one sequence of exchanges and one outcome. */
  lemma CsrRunDeterministic(lib: Library, service: Service, before: seq<Exchange>,
                            after1: seq<Exchange>, after2: seq<Exchange>,
                            keyId: KeyId, subject: string, throwaway: SubjectPublicKeyInfo,
                            r1: Result<CertificationRequest, SetupError>, r2: Result<CertificationRequest, SetupError>)
    requires CsrRun(lib, service, before, after1, keyId, subject, throwaway, r1)
    requires CsrRun(lib, service, before, after2, keyId, subject, throwaway, r2)
    ensures after1 == after2 && r1 == r2
  {
    var ex1, ex2 := Since(before, after1), Since(before, after2);
    assert Answered(service, before, ex1) && Answered(service, before, ex2);
    assert ex1[..0] == ex2[..0];
    assert ex1[0] == ex2[0];
    if |ex1| >= 2 {
      assert ex1[..1] == ex2[..1];
      assert ex1[1] == ex2[1];
      if |ex1| == 3 {
        assert ex1[..2] == ex2[..2];
        assert ex1[2] == ex2[2];
      }
    }
    assert ex1 == ex2;
    assert after1 == before + ex1;
    assert after2 == before + ex2;
  }

  /** Every request of the run is for `keyId`, and none creates a key. */
  lemma CsrRunCallsFor(lib: Library, service: Service, before: seq<Exchange>, after: seq<Exchange>,
                       keyId: KeyId, subject: string, throwaway: SubjectPublicKeyInfo,
                       r: Result<CertificationRequest, SetupError>)
    requires CsrRun(lib, service, before, after, keyId, subject, throwaway, r)
    ensures forall i | |before| <= i < |after| :: !after[i].call.CreateKey? && after[i].call.keyId == keyId
  {
    var ex := Since(before, after);
    forall i | |before| <= i < |after| ensures !after[i].call.CreateKey? && after[i].call.keyId == keyId {
      assert after[i] == ex[i - |before|];
    }
  }

  /** `generate_certificate_request`: the run `CsrRun` describes, and the
      PEM file is written only when everything succeeded, with the very
      request whose info was signed. */
  method GenerateCertificateRequest(kms: KmsClient, disk: Disk, lib: Library, keyId: KeyId,
                                    subject: string, throwaway: SubjectPublicKeyInfo)
    returns (r: Result<CertificationRequest, SetupError>)
    modifies kms, disk
    ensures CsrRun(lib, kms.service, old(kms.transcript), kms.transcript, keyId, subject, throwaway, r)
    // The request signed is the request written.
    ensures r.Ok? ==>
      var ex := Since(old(kms.transcript), kms.transcript);
      |ex| == 3 && ex[2].call == SignCall(lib, keyId, r.value.certificationRequestInfo) &&
      ToOctetString(r.value.signature) == Some(ex[2].reply.octets)
    ensures r.Ok? ==> disk.files == old(disk.files)[CsrFile := Pem.PemText(lib.encodeRequest(r.value))]
    ensures r.Err? ==> disk.files == old(disk.files)
  {
    ghost var t0 := kms.transcript;
    assert Answered(kms.service, t0, []);
    var described := kms.Call(DescribeKey(keyId));
    ghost var e0 := Exchange(DescribeKey(keyId), described);
    assert t0 + [] == t0;
    AnsweredExtend(kms.service, t0, [], e0);
    ghost var ex := [] + [e0];
    assert kms.transcript == t0 + ex;
    if described.Fault? {
      return Err(KmsFailed(DescribeKey(keyId)));
    }
    var response := kms.Call(GetPublicKey(keyId));
    ghost var e1 := Exchange(GetPublicKey(keyId), response);
    AnsweredExtend(kms.service, t0, ex, e1);
    ex := ex + [e1];
    assert kms.transcript == t0 + ex;
    if !response.PublicKey? {
      return Err(KmsFailed(GetPublicKey(keyId)));
    }
    var pubkeyDer := response.der;
    var name := lib.parseSubject(subject);
    if name.None? {
      return Err(MalformedSubject(subject));
    }
    var csrInfo := AuthorInfo(name.value, throwaway);
    var pub := lib.decodePublicKey(pubkeyDer);
    if pub.None? {
      return Err(MalformedPublicKey);
    }
    csrInfo := WithPublicKey(csrInfo, pub.value);
    var derBytes := lib.encodeInfo(csrInfo);
    var hash := new Sha256Hash(lib.sha256);
    hash.Update(derBytes);
    assert hash.absorbed == derBytes;
    var signCall := Sign(keyId, hash.Digest(), Digest, EcdsaSha256);
    var signed := kms.Call(signCall);
    ghost var e2 := Exchange(signCall, signed);
    AnsweredExtend(kms.service, t0, ex, e2);
    ex := ex + [e2];
    assert kms.transcript == t0 + ex;
    assert Since(t0, kms.transcript) == [e0, e1, e2];
    if !signed.Signature? {
      return Err(KmsFailed(signCall));
    }
    var csrRequest := Assemble(csrInfo, signed.octets);
    var pem := BuildOutput(lib, csrRequest);
    disk.Write(CsrFile, pem);
    r := Ok(csrRequest);
  }

  const ConfigPrefix: string := "{\"kms_key_id\": "

  /** The text `json.dumps({'kms_key_id': key_id})` writes; reading it back
      gives the key id, or `null`, again. */
  function ConfigJson(keyId: Option<KeyId>): (text: string)
    ensures ReadConfig(text) == Some(keyId)
  {
    match keyId
    case Some(id) =>
      var text := ConfigPrefix + ("\"" + id + "\"") + "}";
      assert text[..|ConfigPrefix|] == ConfigPrefix && text[|text| - 1] == '}';
      assert text[|ConfigPrefix|..|text| - 1] == "\"" + id + "\"";
      text
    case None =>
      var text := ConfigPrefix + "null" + "}";
      assert text[..|ConfigPrefix|] == ConfigPrefix && text[|text| - 1] == '}';
      assert text[|ConfigPrefix|..|text| - 1] == "null";
      text
  }

  /** A reader for the one-key object config.json holds: the key id as a
      JSON string, or `null`; `None` when the text has another shape. */
  function ReadConfig(text: string): Option<Option<KeyId>> {
    if |text| < |ConfigPrefix| + 1 || text[..|ConfigPrefix|] != ConfigPrefix || text[|text| - 1] != '}' then None
    else
      var value := text[|ConfigPrefix|..|text| - 1];
      if value == "null" then Some(None)
      else if |value| >= 2 && value[0] == '"' && value[|value| - 1] == '"' then Some(Some(value[1..|value| - 1]))
      else None
  }

  /** `create_kms_key`: one CreateKey request; on success the key id is
      written to config.json, even when it is missing, and returned. */
  method CreateKmsKey(kms: KmsClient, disk: Disk) returns (r: Result<Option<KeyId>, SetupError>)
    modifies kms, disk
    ensures kms.transcript == old(kms.transcript) + [Exchange(CreateKeyCall, kms.service(old(kms.transcript), CreateKeyCall))]
    ensures var reply := kms.service(old(kms.transcript), CreateKeyCall);
      reply.KeyMetadata? ==>
        r == Ok(reply.createdKeyId) && disk.files == old(disk.files)[ConfigFile := ConfigJson(reply.createdKeyId)]
    ensures var reply := kms.service(old(kms.transcript), CreateKeyCall);
      !reply.KeyMetadata? ==> r == Err(KmsFailed(CreateKeyCall)) && disk.files == old(disk.files)
  {
    var response := kms.Call(CreateKeyCall);
    if !response.KeyMetadata? {
      return Err(KmsFailed(CreateKeyCall));
    }
    var keyId := response.createdKeyId;
    disk.Write(ConfigFile, ConfigJson(keyId));
    r := Ok(keyId);
  }

  /** `create_key_and_csr`: the request is built only once a key id came
      back, and for exactly that key; the key and config.json stay whatever
      happens to the request, whose outcome is the method's. */
  method CreateKeyAndCsr(kms: KmsClient, disk: Disk, lib: Library, subject: string, throwaway: SubjectPublicKeyInfo)
    returns (r: Result<CertificationRequest, SetupError>)
    modifies kms, disk
    ensures old(kms.transcript) < kms.transcript
    ensures kms.transcript[|old(kms.transcript)|] == Exchange(CreateKeyCall, kms.service(old(kms.transcript), CreateKeyCall))
    ensures var reply := kms.service(old(kms.transcript), CreateKeyCall);
      !reply.KeyMetadata? ==>
        r == Err(KmsFailed(CreateKeyCall)) && |kms.transcript| == |old(kms.transcript)| + 1 &&
        disk.files == old(disk.files)
    ensures var reply := kms.service(old(kms.transcript), CreateKeyCall);
      reply == KeyMetadata(None) ==>
        r == Err(NoKeyIdGenerated) && |kms.transcript| == |old(kms.transcript)| + 1 &&
        disk.files == old(disk.files)[ConfigFile := ConfigJson(None)]
    // With a key id, the rest is the certificate request run for that id.
    ensures var reply := kms.service(old(kms.transcript), CreateKeyCall);
      reply.KeyMetadata? && reply.createdKeyId.Some? ==>
        var keyId := reply.createdKeyId.value;
        var configured := old(disk.files)[ConfigFile := ConfigJson(Some(keyId))];
        CsrRun(lib, kms.service, old(kms.transcript) + [Exchange(CreateKeyCall, reply)], kms.transcript,
               keyId, subject, throwaway, r) &&
        (r.Ok? ==> disk.files == configured[CsrFile := Pem.PemText(lib.encodeRequest(r.value))]) &&
        (r.Err? ==> disk.files == configured)
    ensures var reply := kms.service(old(kms.transcript), CreateKeyCall);
      reply.KeyMetadata? && reply.createdKeyId.Some? ==>
        forall i | |old(kms.transcript)| + 1 <= i < |kms.transcript| ::
          !kms.transcript[i].call.CreateKey? && kms.transcript[i].call.keyId == reply.createdKeyId.value
  {
    var created := CreateKmsKey(kms, disk);
    if created.Err? {
      return Err(created.error);
    }
    if created.value.None? {
      return Err(NoKeyIdGenerated);
    }
    ghost var afterCreate := kms.transcript;
    r := GenerateCertificateRequest(kms, disk, lib, created.value.value, subject, throwaway);
    CsrRunCallsFor(lib, kms.service, afterCreate, kms.transcript, created.value.value, subject, throwaway, r);
  }
}
