/** The signing algorithms the c2pa library knows, as the members of its
    `SigningAlg` enumeration: a closed set, looked up by member name. */
module C2pa {
  import opened Types

  datatype SigningAlg = Es256 | Es384 | Es512 | Ps256 | Ps384 | Ps512 | Ed25519

  /** The member's attribute name on `c2pa.SigningAlg`. */
  function MemberName(alg: SigningAlg): string {
    match alg
    case Es256 => "ES256"
    case Es384 => "ES384"
    case Es512 => "ES512"
    case Ps256 => "PS256"
    case Ps384 => "PS384"
    case Ps512 => "PS512"
    case Ed25519 => "ED25519"
  }

  /** `getattr(c2pa.SigningAlg, name)`: the member of that exact name, if
      there is one. */
  function Member(name: string): (r: Option<SigningAlg>)
    ensures r.Some? ==> MemberName(r.value) == name
    ensures r.None? ==> forall alg: SigningAlg :: MemberName(alg) != name
  {
    if name == "ES256" then Some(Es256)
    else if name == "ES384" then Some(Es384)
    else if name == "ES512" then Some(Es512)
    else if name == "PS256" then Some(Ps256)
    else if name == "PS384" then Some(Ps384)
    else if name == "PS512" then Some(Ps512)
    else if name == "ED25519" then Some(Ed25519)
    else None
  }
}
