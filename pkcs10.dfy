/** The PKCS#10 structures `generate_certificate_request` handles, as values:
    CertificationRequestInfo (section 4.1 of RFC 2986) and
    CertificationRequest (section 4.2), with the pieces of X.509 they hold.
    DER encoding is not modelled here; it is a function of these values,
    supplied from outside (see module Setup). */
module Pkcs10 {
  import opened Types

  /** An object identifier, as its list of arcs. */
  type Oid = seq<nat>

  /** ecdsa-with-SHA256 (section 3.2 of RFC 5758), the `sign_oid` of setup.py. */
  const EcdsaWithSha256: Oid := [1, 2, 840, 10045, 4, 3, 2]
  /** id-ce-keyUsage and id-ce-extKeyUsage of RFC 5280. */
  const KeyUsageOid: Oid := [2, 5, 29, 15]
  const ExtendedKeyUsageOid: Oid := [2, 5, 29, 37]
  /** id-kp-emailProtection of RFC 5280. */
  const EmailProtection: Oid := [1, 3, 6, 1, 5, 5, 7, 3, 4]
  /** pkcs-9-at-extensionRequest, the attribute a request carries its
      extensions in. */
  const ExtensionRequestOid: Oid := [1, 2, 840, 113549, 1, 9, 14]

  datatype AttributeTypeAndValue = AttributeTypeAndValue(attrType: Oid, value: string)

  /** A distinguished name: its relative distinguished names in order. */
  datatype Name = Name(rdns: seq<seq<AttributeTypeAndValue>>)

  /** A BIT STRING, bit by bit, most significant bit of each octet first. */
  datatype BitString = BitString(bits: seq<bool>)

  datatype AlgorithmIdentifier = AlgorithmIdentifier(algorithm: Oid, parameters: Option<Bytes>)

  datatype SubjectPublicKeyInfo = SubjectPublicKeyInfo(algorithm: AlgorithmIdentifier, subjectPublicKey: BitString)

  /** The nine named bits of the KeyUsage extension. */
  datatype KeyUsage = KeyUsage(
    digitalSignature: bool, contentCommitment: bool, keyEncipherment: bool,
    dataEncipherment: bool, keyAgreement: bool, keyCertSign: bool,
    crlSign: bool, encipherOnly: bool, decipherOnly: bool)

  datatype ExtensionValue =
    | KeyUsageValue(usage: KeyUsage)
    | ExtendedKeyUsageValue(purposes: seq<Oid>)

  datatype Extension = Extension(extnId: Oid, critical: bool, value: ExtensionValue)

  /** The one kind of attribute the request carries: the extensions it asks
      the authority to put in the certificate. */
  datatype Attribute = ExtensionRequest(extensions: seq<Extension>)

  datatype CertificationRequestInfo = CertificationRequestInfo(
    version: nat,
    subject: Name,
    subjectPKInfo: SubjectPublicKeyInfo,
    attributes: seq<Attribute>)

  datatype CertificationRequest = CertificationRequest(
    certificationRequestInfo: CertificationRequestInfo,
    signatureAlgorithm: AlgorithmIdentifier,
    signature: BitString)

  /** The KeyUsage setup.py asks for: digital signature and nothing else. */
  const DigitalSignatureOnly: KeyUsage :=
    KeyUsage(true, false, false, false, false, false, false, false, false)

  /** The extensions setup.py adds, in the order it adds them: KeyUsage,
      critical, then ExtendedKeyUsage with email protection, not critical. */
  const RequestedExtensions: seq<Extension> := [
    Extension(KeyUsageOid, true, KeyUsageValue(DigitalSignatureOnly)),
    Extension(ExtendedKeyUsageOid, false, ExtendedKeyUsageValue([EmailProtection]))
  ]

  /** The to-be-signed part of the request the `cryptography` builder authors
      for `subject` around the throwaway key: version 1 (encoded 0), the
      subject, the throwaway key and one extensionRequest attribute. */
  function AuthorInfo(subject: Name, throwaway: SubjectPublicKeyInfo): (info: CertificationRequestInfo)
    ensures info.version == 0 && info.subject == subject && info.subjectPKInfo == throwaway
    ensures info.attributes == [ExtensionRequest(RequestedExtensions)]
  {
    CertificationRequestInfo(0, subject, throwaway, [ExtensionRequest(RequestedExtensions)])
  }

  /** `csr_info['subjectPKInfo'] = pub`: the key is replaced and every other
      field is kept. */
  function WithPublicKey(info: CertificationRequestInfo, key: SubjectPublicKeyInfo): (r: CertificationRequestInfo)
    ensures r.subjectPKInfo == key
    ensures r.version == info.version && r.subject == info.subject && r.attributes == info.attributes
  {
    info.(subjectPKInfo := key)
  }

  /** Once the key is replaced, nothing of the throwaway key is left: the
      result does not depend on which throwaway key authored the info. */
  lemma WithPublicKeyForgetsThrowaway(subject: Name, throwaway1: SubjectPublicKeyInfo, throwaway2: SubjectPublicKeyInfo, key: SubjectPublicKeyInfo)
    ensures WithPublicKey(AuthorInfo(subject, throwaway1), key) == WithPublicKey(AuthorInfo(subject, throwaway2), key)
  {
  }

  function Pow2(n: nat): (p: nat)
    ensures p > 0
  {
    if n == 0 then 1 else 2 * Pow2(n - 1)
  }

  /** The `n` low bits of `x`, most significant first. */
  function Bits(x: nat, n: nat): (bs: seq<bool>)
    ensures |bs| == n
  {
    if n == 0 then [] else Bits(x / 2, n - 1) + [x % 2 == 1]
  }

  function Bit(b: bool): nat { if b then 1 else 0 }

  /** The number bits stand for, most significant first. */
  function BitsValue(bs: seq<bool>): (v: nat)
    ensures v < Pow2(|bs|)
  {
    if bs == [] then 0 else 2 * BitsValue(bs[..|bs| - 1]) + Bit(bs[|bs| - 1])
  }

  lemma {:induction false} BitsRoundTrip(x: nat, n: nat)
    requires x < Pow2(n)
    ensures BitsValue(Bits(x, n)) == x
  {
    if n > 0 {
      var bs := Bits(x, n);
      assert bs[..n - 1] == Bits(x / 2, n - 1);
      BitsRoundTrip(x / 2, n - 1);
    }
  }

  /** The eight bits of an octet, most significant first. */
  function OctetBits(x: Byte): (bs: seq<bool>)
    ensures |bs| == 8
  {
    Bits(x, 8)
  }

  /** The octet eight bits stand for. */
  function BitsOctet(bs: seq<bool>): Byte
    requires |bs| == 8
  {
    assert Pow2(8) == 256;
    BitsValue(bs)
  }

  lemma OctetBitsRoundTrip(x: Byte)
    ensures BitsOctet(OctetBits(x)) == x
  {
    assert Pow2(8) == 256;
    BitsRoundTrip(x, 8);
  }

  /** `univ.BitString.fromOctetString`: the bits of the octets in order, no
      unused bits. */
  function FromOctetString(octets: Bytes): (b: BitString)
    ensures |b.bits| == 8 * |octets|
  {
    if octets == [] then BitString([])
    else BitString(OctetBits(octets[0]) + FromOctetString(octets[1..]).bits)
  }

  /** The octets of a bit string whose length is a whole number of octets. */
  function ToOctetString(b: BitString): Option<Bytes>
    decreases |b.bits|
  {
    if |b.bits| % 8 != 0 then None
    else if b.bits == [] then Some([])
    else match ToOctetString(BitString(b.bits[8..]))
      case None => None
      case Some(rest) => Some([BitsOctet(b.bits[..8])] + rest)
  }

  /** The bit string built from octets holds exactly those octets. */
  lemma {:induction false} OctetStringRoundTrip(octets: Bytes)
    ensures ToOctetString(FromOctetString(octets)) == Some(octets)
    decreases |octets|
  {
    if octets != [] {
      var bits := FromOctetString(octets).bits;
      var head := OctetBits(octets[0]);
      assert bits == head + FromOctetString(octets[1..]).bits;
      assert bits[..8] == head;
      assert bits[8..] == FromOctetString(octets[1..]).bits;
      OctetBitsRoundTrip(octets[0]);
      OctetStringRoundTrip(octets[1..]);
      assert [octets[0]] + octets[1..] == octets;
    }
  }

  /** The signatureAlgorithm setup.py writes: ecdsa-with-SHA256 with its
      parameters absent, as section 3.2 of RFC 5758 requires. */
  const SignatureAlgorithm: AlgorithmIdentifier := AlgorithmIdentifier(EcdsaWithSha256, None)

  /** The final request: the given info, ecdsa-with-SHA256, and the signature
      octets as a bit string. */
  function Assemble(info: CertificationRequestInfo, signature: Bytes): (r: CertificationRequest)
    ensures r.certificationRequestInfo == info
    ensures r.signatureAlgorithm.algorithm == [1, 2, 840, 10045, 4, 3, 2]
    ensures r.signatureAlgorithm.parameters.None?
    ensures ToOctetString(r.signature) == Some(signature)
  {
    OctetStringRoundTrip(signature);
    CertificationRequest(info, SignatureAlgorithm, FromOctetString(signature))
  }
}
