/** The boundary to the key-management service as setup.py uses it through
    boto3: the requests it sends, with their arguments, and the replies it
    gets. The service itself is not modelled: it is any function from the
    exchanges so far and the new request to a reply. */
module Kms {
  import opened Types

  type KeyId = string

  datatype MessageType = Raw | Digest

  /** The KMS signing algorithm both setup.py and app.py ask for. */
  const EcdsaSha256: string := "ECDSA_SHA_256"

  /** One request, with the arguments the source passes. */
  datatype KmsCall =
    | CreateKey(description: string, keyUsage: string, keySpec: string)
    | DescribeKey(keyId: KeyId)
    | GetPublicKey(keyId: KeyId)
    | Sign(keyId: KeyId, message: Bytes, messageType: MessageType, signingAlgorithm: string)

  /** A reply. `Fault` stands for every exception boto3 raises; a reply of
      another shape than the request expects fails like a missing dictionary
      key would. `KeyMetadata(None)` is key metadata whose KeyId is present but
      null, the one way `create_kms_key` can return no id without raising. */
  datatype KmsReply =
    | Fault
    | KeyMetadata(createdKeyId: Option<KeyId>)
    | KeyDescription
    | PublicKey(der: Bytes)
    | Signature(octets: Bytes)

  datatype Exchange = Exchange(call: KmsCall, reply: KmsReply)

  /** The service: its reply to a request, given every exchange before it. */
  type Service = (seq<Exchange>, KmsCall) -> KmsReply

  /** A boto3 KMS client, seen through the exchanges it has made. */
  class KmsClient {
    const service: Service
    var transcript: seq<Exchange>

    constructor (service: Service)
      ensures this.service == service && transcript == []
    {
      this.service := service;
      transcript := [];
    }

    /** Send one request and record it with its reply. */
    method Call(call: KmsCall) returns (reply: KmsReply)
      modifies this
      ensures reply == service(old(transcript), call)
      ensures transcript == old(transcript) + [Exchange(call, reply)]
    {
      reply := service(transcript, call);
      transcript := transcript + [Exchange(call, reply)];
    }
  }
}
