/** app.py, the signing server: `sign` hashes and hands the digest to KMS,
    `/signer_data` publishes the descriptor a client builds its signer from,
    `/sign` is the signing callback, and `/attach` signs with the server's own
    signer. The startup configuration is a `ServerConfig` value; SHA-256 and
    KMS are the fields of a `Backend`. */
module App {
  import opened Types
  import Kms
  import Base64
  import C2pa

  const TimestampUrl: string := "http://timestamp.digicert.com"
  const SigningUrl: string := "http://localhost:5000/sign"
  /** The algorithm name the descriptor advertises, spelled as in app.py. */
  const AdvertisedAlg: string := "Ps256"

  /** What app.py reads once at startup: the KMS key id and the bytes of the
      certificate chain file. */
  datatype ServerConfig = ServerConfig(kmsKeyId: Kms.KeyId, certChain: Bytes)

  /** hashlib's SHA-256 and KMS's reply to a sign request. */
  datatype Backend = Backend(sha256: Bytes -> Bytes, kms: Kms.KmsCall -> Kms.KmsReply)

  /** What `sign` is handed: octets, or an `io.BytesIO` holding them. */
  datatype Payload = Octets(data: Bytes) | Stream(held: Bytes)

  datatype ServerError =
    | TypeError       // `sha256` refuses an object that is not bytes-like
    | KmsFailed(call: Kms.KmsCall)

  /** A run of `sign`: the KMS requests it sent and its outcome. */
  datatype SignRun = SignRun(kmsCalls: seq<Kms.KmsCall>, result: Result<Bytes, ServerError>)

  /** The one request `sign` sends for `data`: the SHA-256 digest of the data,
      under the configured key, as a digest, with ECDSA_SHA_256. */
  function SignRequest(cfg: ServerConfig, backend: Backend, data: Bytes): Kms.KmsCall {
    Kms.Sign(cfg.kmsKeyId, backend.sha256(data), Kms.Digest, Kms.EcdsaSha256)
  }

  /** `sign`. Bytes are hashed and the digest alone goes to KMS, whose
      signature comes back untouched; a stream is refused by the hash before
      KMS is reached. */
  function Sign(cfg: ServerConfig, backend: Backend, payload: Payload): (run: SignRun)
    ensures |run.kmsCalls| <= 1
    ensures payload.Stream? ==> run.kmsCalls == [] && run.result == Err(TypeError)
    ensures payload.Octets? ==>
      run.kmsCalls == [SignRequest(cfg, backend, payload.data)] &&
      run.kmsCalls[0].message == backend.sha256(payload.data) &&
      run.kmsCalls[0].messageType == Kms.Digest
    ensures payload.Octets? ==>
      var reply := backend.kms(SignRequest(cfg, backend, payload.data));
      (reply.Signature? ==> run.result == Ok(reply.octets)) &&
      (!reply.Signature? ==> run.result == Err(KmsFailed(SignRequest(cfg, backend, payload.data))))
  {
    match payload
    case Stream(_) => SignRun([], Err(TypeError))
    case Octets(data) =>
      var hashedData := backend.sha256(data);
      var request := Kms.Sign(cfg.kmsKeyId, hashedData, Kms.Digest, Kms.EcdsaSha256);
      var reply := backend.kms(request);
      if reply.Signature? then SignRun([request], Ok(reply.octets))
      else SignRun([request], Err(KmsFailed(request)))
  }

  /** Whatever is signed, the key and the algorithm are the configured ones:
      nothing in a request changes them. */
  lemma SignKeyAndAlgorithmFixed(cfg: ServerConfig, backend: Backend, a: Bytes, b: Bytes)
    ensures var ra, rb := Sign(cfg, backend, Octets(a)), Sign(cfg, backend, Octets(b));
      ra.kmsCalls[0].keyId == rb.kmsCalls[0].keyId == cfg.kmsKeyId &&
      ra.kmsCalls[0].signingAlgorithm == rb.kmsCalls[0].signingAlgorithm == "ECDSA_SHA_256"
  {
  }

  /** The JSON object `/signer_data` returns, key by key. */
  function SignerData(cfg: ServerConfig): (d: map<string, string>)
    ensures d.Keys == {"alg", "timestamp_url", "signing_url", "cert_chain"}
    ensures d["alg"] == "Ps256" && d["timestamp_url"] == TimestampUrl && d["signing_url"] == SigningUrl
    ensures Base64.Decode(d["cert_chain"]) == Ok(cfg.certChain)
  {
    Base64.DecodeEncode(cfg.certChain);
    map["alg" := AdvertisedAlg,
        "timestamp_url" := TimestampUrl,
        "signing_url" := SigningUrl,
        "cert_chain" := Base64.Encode(cfg.certChain)]
  }

  /** What the `/sign` route does with a request: the response body, the KMS
      requests made, and the errors logged. */
  datatype RouteRun = RouteRun(body: Bytes, kmsCalls: seq<Kms.KmsCall>, logged: seq<ServerError>)

  /** The `/sign` route: it hands `sign` an `io.BytesIO` around the request
      body, logs the error that raises instead of propagating it, and answers
      with its empty buffer. */
  function SignRoute(cfg: ServerConfig, backend: Backend, requestData: Bytes): (run: RouteRun)
    ensures run.body == [] && run.kmsCalls == [] && run.logged == [TypeError]
  {
    var result: Bytes := [];
    var attempt := Sign(cfg, backend, Stream(requestData));
    var logged := if attempt.result.Err? then [attempt.result.error] else [];
    RouteRun(result, attempt.kmsCalls, logged)
  }

  /** The signer `/attach` hands the c2pa library: `sign` as callback, ES256,
      the startup certificate chain and the timestamp authority. */
  datatype LocalSigner = LocalSigner(alg: C2pa.SigningAlg, certs: Bytes, timestampUrl: string)

  function AttachSigner(cfg: ServerConfig): (s: LocalSigner)
    ensures C2pa.MemberName(s.alg) == "ES256"
    ensures s.certs == cfg.certChain && s.timestampUrl == TimestampUrl
  {
    LocalSigner(C2pa.Es256, cfg.certChain, TimestampUrl)
  }
}
