/** The server and the client together: what a client built from the
    server's descriptor holds, and what its signing callback gets back from
    the server's `/sign` route. */
module Protocol {
  import opened Types
  import Base64
  import C2pa
  import App
  import Client

  /** The response a client gets from `/signer_data`. */
  function DescriptorResponse(cfg: App.ServerConfig): Client.HttpResponse {
    Client.HttpResponse(200, App.SignerData(cfg))
  }

  /** A client built from the server's descriptor holds exactly the server's
      certificate chain bytes, its timestamp URL and its signing URL, and the
      algorithm it resolved from "Ps256" is PS256. */
  lemma DescriptorRoundTrip(cfg: App.ServerConfig)
    ensures Client.GetRemoteSigner(DescriptorResponse(cfg)) ==
      Ok(Client.RemoteSigner(App.SignerData(cfg), C2pa.Ps256, cfg.certChain, App.TimestampUrl))
    ensures App.SignerData(cfg)["signing_url"] == App.SigningUrl
  {
    assert Client.Upper(App.AdvertisedAlg) == "PS256";
  }

  /** The algorithm the client is told (PS256, an RSA-PSS algorithm) is not
      the one the server signs with: `/attach` uses ES256 and `sign` asks KMS
      for ECDSA_SHA_256. */
  lemma AdvertisedAlgorithmIsNotUsed(cfg: App.ServerConfig)
    ensures Client.GetRemoteSigner(DescriptorResponse(cfg)).Ok?
    ensures Client.GetRemoteSigner(DescriptorResponse(cfg)).value.alg != App.AttachSigner(cfg).alg
  {
    DescriptorRoundTrip(cfg);
  }

  /** `/attach` signs with the timestamp authority and the certificate chain
      `/signer_data` advertises. */
  lemma AttachAgreesWithDescriptor(cfg: App.ServerConfig)
    ensures App.AttachSigner(cfg).timestampUrl == App.SignerData(cfg)["timestamp_url"]
    ensures Base64.Decode(App.SignerData(cfg)["cert_chain"]) == Ok(App.AttachSigner(cfg).certs)
  {
  }

  /** The POST of the callback when it reaches this server: `/sign` answers
      200 with its response body. */
  function ServerPost(cfg: App.ServerConfig, backend: App.Backend): (string, Bytes) -> Client.PostReply {
    (url: string, data: Bytes) => Client.PostReply(200, App.SignRoute(cfg, backend, data).body)
  }

  /** End to end, a client built from the descriptor signs every payload with
      the empty signature, and the server never reaches KMS. */
  lemma RemoteSignatureIsEmpty(cfg: App.ServerConfig, backend: App.Backend, data: Bytes)
    ensures Client.GetRemoteSigner(DescriptorResponse(cfg)).Ok?
    ensures Client.SignCallback(Client.GetRemoteSigner(DescriptorResponse(cfg)).value, ServerPost(cfg, backend), data) == Ok([])
    ensures App.SignRoute(cfg, backend, data).kmsCalls == []
  {
    DescriptorRoundTrip(cfg);
  }
}
