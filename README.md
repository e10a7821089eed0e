# Split-custody signing: a Dafny model of the c2pa KMS example

This project models the core of the c2pa Python KMS example: a private key that
never leaves AWS KMS signs both content-credential manifests and a PKCS#10
certificate request. The model covers three parts.

- **The CSR pipeline (setup.py).** `create_key_and_csr` asks KMS for a new
  ECC_NIST_P256 signing key and records its id in `config.json`. It then calls
  `generate_certificate_request`, which works in these steps:
  1. It asks KMS to describe the key and for its public key.
  2. It parses the subject and authors a CertificationRequestInfo (section 4.1
     of RFC 2986) around a throwaway key.
  3. It replaces the throwaway key with the KMS key, DER-encodes the result
     and hashes it with SHA-256.
  4. It has KMS sign the digest and assembles the CertificationRequest
     (section 4.2 of RFC 2986) with ecdsa-with-SHA256 (section 3.2 of RFC 5758).
  5. `build_output` writes the request as PEM (section 7 of RFC 7468).
- **The signing server (app.py).** `sign` hashes the data and hands only the
  digest to KMS. `/signer_data` publishes the signer descriptor. `/sign` is the
  signing callback. `/attach` signs with the server's own signer.
- **The client (tests/client.py).** `get_remote_signer` checks the descriptor
  and builds a callback signer from it.

Modules, one per file:

- `Types`: octets, Option, Result.
- `Base64`: `b64encode`, and CPython's lenient `b64decode` as a state machine.
- `Pem`: textwrap's cutting, PEM framing, and the reader of a PEM consumer.
- `Pkcs10`: the RFC 2986 structures, key substitution, assembly and bit strings.
- `Kms`: KMS requests and replies, and a client that records every exchange.
- `Setup`: setup.py.
- `C2pa`: the closed set of `SigningAlg` members.
- `App`: app.py.
- `Client`: tests/client.py.
- `Protocol`: lemmas about the server and the client together.

Some parts are parameters rather than code. KMS is a `Kms.Service`, a function
from the exchanges so far and a new request to a reply. The foreign libraries
are the function fields of `Setup.Library` and `App.Backend`: the RFC 4514
parser, pyasn1's DER codec and SHA-256. The files written are `Setup.Disk`.
The HTTP responses the client sees are arguments.

The model follows the code as written, including these behaviours of it:

- The descriptor advertises `"Ps256"`, an RSA-PSS algorithm. The server signs
  with ES256 and ECDSA_SHA_256.
- The `/sign` route hands `sign` an `io.BytesIO` instead of bytes. The hash
  raises before KMS is reached, the error is only logged, and the route always
  answers with an empty body. So a client built from the descriptor always
  receives an empty signature (`Protocol.RemoteSignatureIsEmpty`).
- The client's callback returns the reply's content even for an error status.
- `generate_certificate_request` parses the subject only after both KMS
  lookups, so a malformed subject is reported after two remote calls.
- `create_kms_key` writes `config.json` before the caller checks the key id, so
  a missing id is written as `null`.
- The descriptor route is `/signer_data`, and its `signing_url` is the fixed
  `http://localhost:5000/sign`. It is not derived from the request host.

## Model

| member | source | states |
|---|---|---|
| `Base64.Encode` | setup.py:200 | the encoding has 4 characters per started group of 3 octets, so its length is a multiple of 4, and every character is in the RFC 4648 alphabet or is `=` |
| `Base64.A2b` | tests/client.py:32 | the lenient decoding loop only appends to what it has emitted, at most 3 octets for every 4 characters read, counting the quad already open |
| `Base64.Decode` | tests/client.py:32 | `b64decode` succeeds only with at most 3 octets for every 4 characters of input |
| `Base64.DecodeEncode` | tests/client.py:32 | `b64decode(b64encode(b)) == b` for every octet string, with `b64decode` as CPython's lenient decoder |
| `Pem.Wrap` | setup.py:201 | `textwrap.wrap` on text with no break opportunity cuts it into lines that concatenate back to the text; each line holds 1 to 64 characters and every line but the last holds exactly 64 |
| `Pem.PemMarkers` | setup.py:198-204 | the PEM text starts with `-----BEGIN CERTIFICATE REQUEST-----` and a newline, and ends with `-----END CERTIFICATE REQUEST-----` with no newline after it |
| `Pem.BodyLayout` | setup.py:201-202 | in the body, a character is a newline exactly when it is the 65th of its line or the last of the body; every line ends in a newline, every line but the last holds 64 characters, and there is one line per started group of 64 |
| `Pem.UnwrapJoinedWrap` | setup.py:200-202 | dropping the newlines from the body gives back exactly the base64 text that was wrapped |
| `Pem.PemRoundTrip` | setup.py:198-204 | reading the PEM text back gives exactly the DER octets: strip the markers, drop the line breaks, base64-decode |
| `Setup.BuildOutput` | setup.py:198-204 | the text built line by line in the loop is the PEM framing of the base64 of the request's DER encoding, and reading it back gives that encoding |
| `Pkcs10.AuthorInfo` | setup.py:138-159 | the authored info is version 1 (encoded 0) with the subject and the throwaway key; its one extensionRequest attribute holds KeyUsage with digital signature only (critical), then ExtendedKeyUsage with email protection (not critical) |
| `Pkcs10.WithPublicKey` | setup.py:161-167 | substitution sets the public key and keeps version, subject and attributes |
| `Pkcs10.WithPublicKeyForgetsThrowaway` | setup.py:132-167 | once the key is replaced, the info does not depend on which throwaway key authored it |
| `Pkcs10.FromOctetString` | setup.py:189-190 | the bit string built from the signature has 8 bits per octet, so there are no unused bits |
| `Pkcs10.OctetStringRoundTrip` | setup.py:189-190 | the signature bit string holds exactly the KMS signature octets |
| `Pkcs10.Assemble` | setup.py:178-190 | the request carries the given info, the algorithm 1.2.840.10045.4.3.2 with no parameters, and a signature bit string whose octets are the KMS signature |
| `Kms.KmsClient.Call` | setup.py:124-128 | each request is answered by the service given the exchanges so far, and is appended with its reply to the transcript |
| `Setup.Disk.Write` | setup.py:193-195 | writing a file replaces that file's contents and leaves every other file as it was |
| `Setup.Sha256Hash.Update` | setup.py:170-172 | the hash object absorbs the data after what it held before; its digest is SHA-256 of everything absorbed |
| `Setup.GenerateCertificateRequest` | setup.py:115-195 | the run is `CsrRun`. Every reply comes from the service, given everything before it. The requests are: describe the key; unless that fails, get its public key; then one sign request exactly when the public-key reply, the subject (parsed only after both lookups) and the key decoding all succeed. Each failure gives its own error. The sign request carries the SHA-256 digest, as a digest with ECDSA_SHA_256, of the DER of the final info: the authored info with the KMS key substituted. That final info is the returned request's info, and its signature holds the KMS signature octets. The CSR file is written with that request's PEM only on success; on any error no file changes |
| `Setup.CsrRunDeterministic` | setup.py:124-190 | for one service, history, key id, subject and throwaway key, exactly one sequence of KMS exchanges and one outcome satisfy `CsrRun` |
| `Setup.ConfigJson` | setup.py:99 | reading the written config.json back gives the key id, or `null`, that was written |
| `Setup.CreateKmsKey` | setup.py:80-101 | one CreateKey request (SIGN_VERIFY, ECC_NIST_P256). If KMS returns key metadata, config.json then holds `{"kms_key_id": ...}` with the returned id (or `null`) and that id is returned; otherwise nothing is written |
| `Setup.CreateKeyAndCsr` | setup.py:103-112 | key creation comes first. A failure or a missing id stops before any CSR work; a missing id leaves config.json holding `null`. With an id, config.json holds it, and the rest of the transcript and the result are exactly a `CsrRun` for that id, starting from the history that includes the creation; every later request is for that id. The CSR file is added with the request's PEM on success, and nothing else changes |
| `App.Sign` | app.py:77-92 | for bytes, exactly one KMS request: the SHA-256 digest (never the data) with MessageType DIGEST, the configured key and ECDSA_SHA_256. KMS's signature is returned untouched, or its failure reported. A stream raises TypeError before KMS is reached |
| `App.SignKeyAndAlgorithmFixed` | app.py:77-81 | the key id and the algorithm sent to KMS are the configured ones for every payload |
| `App.SignerData` | app.py:141-153 | the descriptor has exactly the keys alg, timestamp_url, signing_url and cert_chain. alg is "Ps256", and the two URLs are the fixed timestamp and signing URLs. cert_chain base64-decodes to exactly the certificate chain bytes read at startup |
| `App.AttachSigner` | app.py:130-133 | `/attach` signs with the member ES256, the certificate chain read at startup and the DigiCert timestamp URL |
| `App.SignRoute` | app.py:156-169 | for every request body the route answers with the empty buffer, makes no KMS request and logs the one TypeError instead of propagating it |
| `C2pa.Member` | tests/client.py:34-37 | a name resolves to the member of exactly that name, and to nothing when no member of the closed set has it |
| `Client.Upper` | tests/client.py:33 | upper-casing keeps the length and maps each letter a-z to A-Z, leaving other characters alone |
| `Client.LookupAlgIgnoresCase` | tests/client.py:33-37 | an advertised name resolves to a member exactly when its upper-cased form is that member's name |
| `Client.GetRemoteSigner` | tests/client.py:26-44 | a signer comes back exactly when the status is 200, cert_chain is present and base64-decodes, alg is present and upper-cases to a member name, and timestamp_url is present. The signer's certs are the decoded cert_chain, its algorithm is that member, and its timestamp URL is timestamp_url. Otherwise the first failing step gives its error: the ValueError with the status; a KeyError for cert_chain; the binascii error; a KeyError for alg; "Unsupported signing algorithm" with the upper-cased name; a KeyError for timestamp_url |
| `Client.SignCallback` | tests/client.py:38-42 | the callback POSTs the data to the descriptor's signing_url and returns the reply's content. A KeyError is raised at call time if the descriptor has no signing_url |
| `Client.SignCallbackIgnoresStatus` | tests/client.py:42 | two replies with the same content give the same result whatever their status codes, an error status included |
| `Protocol.DescriptorRoundTrip` | app.py:141-153 | a client built from the server's descriptor holds exactly the server's certificate chain bytes, its timestamp URL and its signing URL, with the algorithm PS256 |
| `Protocol.AdvertisedAlgorithmIsNotUsed` | app.py:130-149 | the algorithm the client resolves from the descriptor differs from the ES256 that `/attach` signs with |
| `Protocol.AttachAgreesWithDescriptor` | app.py:130-149 | `/attach` uses the timestamp URL that `/signer_data` advertises, and the certificate chain that its cert_chain decodes to |
| `Protocol.RemoteSignatureIsEmpty` | app.py:156-169 | when the client's callback reaches this server's `/sign`, every payload is signed with the empty signature and KMS is never reached |

## Left out

- Configuration and plumbing: `read_env_params`, dotenv loading, boto3 client
  construction, Flask app setup and the module-level file reads. The startup
  configuration is the value `App.ServerConfig`. KMS is `Kms.Service`.
- DER encoding and decoding are functions in `Setup.Library`. The same goes
  for SHA-256, `Name.from_rfc4514_string` and the pyasn1 decoding of the KMS
  public key.
- `tbs_certrequest_bytes` is not modelled. In the source, the `cryptography`
  builder signs the authored info with the throwaway key, keeps the
  to-be-signed bytes, and pyasn1 decodes them again. The model takes this
  round trip as lossless and builds the decoded info directly
  (`Pkcs10.AuthorInfo`). The throwaway key's own signature is discarded in
  the source and absent from the model.
- EC key generation: the throwaway key is a parameter.
- The validity of ECDSA signatures is not modelled. Signatures are opaque
  octets.
- The reply to `describe_key` is only printed in the source. The model checks
  only whether that call raised.
- The c2pa `Builder`, `create_signer` and manifest JSON are left out, as is
  embedding into media. Of `/attach`, only the signer parameters it passes
  are modelled (`App.AttachSigner`).
- The client's HTTP transport is left out. The response to the descriptor
  request is an argument, and the callback's POST is a function argument. A
  failure inside `requests` is not modelled. Neither are argparse, the
  thumbnail or the per-file signing loop.
- JSON is not modelled. The descriptor is a string-valued map. The round trip
  through `json.dumps` and `response.json()` is taken as lossless. JSON values
  that are not strings are not modelled.
- `Setup.ConfigJson`: writes the key id without JSON string escaping, and
  `Setup.ReadConfig` reads it back the same way. KMS key ids are UUIDs, which
  need none.
- `Client.Upper`: upper-cases ASCII letters only. Python's `str.upper` also
  maps other letters; for example `"ſ"` becomes `"S"`.
- `Pem.Wrap`: models `textwrap.wrap` only on text without white space or
  hyphens. That is the only text `build_output` gives it, because base64 has
  neither.
- `Base64.A2b` follows CPython 3.11 and later in non-strict mode. Older
  versions treat some malformed padding differently.
- In the source, `build_output` is first called once with its result
  discarded (setup.py:191). That call has no effect and is not modelled.
- Printing and logging are not modelled, except that the `/sign` route
  records the error it logs.
- The model assumes Flask 2.2 or later, which streams the `io.BytesIO` that
  `/sign` returns. Older Flask versions reject it.
- The `except` branch of `/signer_data` cannot be reached. Encoding the
  startup bytes cannot raise.
- Timeouts, concurrency and cancellation are left out. Each call is modelled
  as a single sequential run.
