/** tests/client.py: `get_remote_signer` fetches the signer descriptor,
    checks it and builds a callback signer from it. The HTTP exchanges are
    values: the response to the descriptor request is a parameter, and the
    POST the callback makes is a function from URL and body to the reply. */
module Client {
  import opened Types
  import Base64
  import C2pa

  /** The answer to the descriptor request: its status code and its JSON
      object, string-valued. */
  datatype HttpResponse = HttpResponse(statusCode: int, json: map<string, string>)

  /** The answer to the callback's POST. */
  datatype PostReply = PostReply(statusCode: int, content: Bytes)

  datatype ClientError =
    | FailedToGetSignerData(statusCode: int)      // ValueError
    | MissingKey(key: string)                     // KeyError
    | BadBase64(reason: Base64.DecodeError)       // binascii.Error
    | UnsupportedSigningAlgorithm(name: string)   // ValueError

  /** What `c2pa.create_signer` is given: the callback (which posts to the
      descriptor's `signing_url`, looked up when it is called), the algorithm,
      the certificate chain and the timestamp authority URL. */
  datatype RemoteSigner = RemoteSigner(descriptor: map<string, string>, alg: C2pa.SigningAlg, certs: Bytes, timestampUrl: string)

  function UpperChar(c: char): char {
    if 'a' <= c <= 'z' then (c as int - 'a' as int + 'A' as int) as char else c
  }

  /** `str.upper` on ASCII text. */
  function Upper(s: string): (r: string)
    ensures |r| == |s| && forall i | 0 <= i < |s| :: r[i] == UpperChar(s[i])
  {
    if s == [] then [] else [UpperChar(s[0])] + Upper(s[1..])
  }

  /** The algorithm an advertised name stands for: the `SigningAlg` member
      named by the upper-cased name. */
  function LookupAlg(name: string): Option<C2pa.SigningAlg> {
    C2pa.Member(Upper(name))
  }

  /** Names that differ only in the case of their letters resolve alike, and a
      name resolves to a member exactly when it upper-cases to that member's
      name. */
  lemma LookupAlgIgnoresCase(name: string, alg: C2pa.SigningAlg)
    ensures LookupAlg(name) == Some(alg) <==> Upper(name) == C2pa.MemberName(alg)
  {
  }

  /** `get_remote_signer`, from the response to the descriptor request on.
      A status other than 200 is refused with that status; otherwise the
      certificate chain is base64-decoded, the algorithm name upper-cased and
      looked up, and the signer built from them and the timestamp URL. */
  function GetRemoteSigner(response: HttpResponse): (r: Result<RemoteSigner, ClientError>)
    ensures response.statusCode != 200 ==> r == Err(FailedToGetSignerData(response.statusCode))
    ensures r.Ok? ==>
      var json := response.json;
      response.statusCode == 200 &&
      "cert_chain" in json && Base64.Decode(json["cert_chain"]) == Ok(r.value.certs) &&
      "alg" in json && C2pa.MemberName(r.value.alg) == Upper(json["alg"]) &&
      "timestamp_url" in json && r.value.timestampUrl == json["timestamp_url"] &&
      r.value.descriptor == json
    // A signer comes back exactly when every step succeeds.
    ensures r.Ok? <==>
      var json := response.json;
      response.statusCode == 200 &&
      "cert_chain" in json && Base64.Decode(json["cert_chain"]).Ok? &&
      "alg" in json && LookupAlg(json["alg"]).Some? &&
      "timestamp_url" in json
    // The errors, in the order the steps are taken.
    ensures (response.statusCode == 200 && "cert_chain" !in response.json) ==>
      r == Err(MissingKey("cert_chain"))
    ensures (response.statusCode == 200 && "cert_chain" in response.json &&
             Base64.Decode(response.json["cert_chain"]).Err?) ==>
      r == Err(BadBase64(Base64.Decode(response.json["cert_chain"]).error))
    ensures (response.statusCode == 200 && "cert_chain" in response.json &&
             Base64.Decode(response.json["cert_chain"]).Ok? && "alg" !in response.json) ==>
      r == Err(MissingKey("alg"))
    ensures (response.statusCode == 200 && "cert_chain" in response.json &&
             Base64.Decode(response.json["cert_chain"]).Ok? && "alg" in response.json &&
             LookupAlg(response.json["alg"]).None?) ==>
      r == Err(UnsupportedSigningAlgorithm(Upper(response.json["alg"])))
    ensures (response.statusCode == 200 && "cert_chain" in response.json &&
             Base64.Decode(response.json["cert_chain"]).Ok? && "alg" in response.json &&
             LookupAlg(response.json["alg"]).Some? && "timestamp_url" !in response.json) ==>
      r == Err(MissingKey("timestamp_url"))
  {
    if response.statusCode != 200 then Err(FailedToGetSignerData(response.statusCode))
    else
      var json := response.json;
      if "cert_chain" !in json then Err(MissingKey("cert_chain"))
      else match Base64.Decode(json["cert_chain"])
        case Err(e) => Err(BadBase64(e))
        case Ok(certs) =>
          if "alg" !in json then Err(MissingKey("alg"))
          else
            var algStr := Upper(json["alg"]);
            match C2pa.Member(algStr)
            case None => Err(UnsupportedSigningAlgorithm(algStr))
            case Some(alg) =>
              if "timestamp_url" !in json then Err(MissingKey("timestamp_url"))
              else Ok(RemoteSigner(json, alg, certs, json["timestamp_url"]))
  }

  /** The signer's callback: POST the data to the descriptor's `signing_url`
      and return the reply's content, whatever its status. */
  function SignCallback(signer: RemoteSigner, post: (string, Bytes) -> PostReply, data: Bytes): (r: Result<Bytes, ClientError>)
    ensures "signing_url" in signer.descriptor ==> r == Ok(post(signer.descriptor["signing_url"], data).content)
    ensures "signing_url" !in signer.descriptor ==> r == Err(MissingKey("signing_url"))
  {
    if "signing_url" in signer.descriptor then Ok(post(signer.descriptor["signing_url"], data).content)
    else Err(MissingKey("signing_url"))
  }

  /** The callback does not look at the status: two replies with the same
      content give the same signature, an error status included. */
  lemma SignCallbackIgnoresStatus(signer: RemoteSigner, post1: (string, Bytes) -> PostReply,
                                  post2: (string, Bytes) -> PostReply, data: Bytes)
    requires "signing_url" in signer.descriptor
    requires post1(signer.descriptor["signing_url"], data).content == post2(signer.descriptor["signing_url"], data).content
    ensures SignCallback(signer, post1, data) == SignCallback(signer, post2, data)
  {
  }
}
