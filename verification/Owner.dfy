/** The owner's side of a credential: key generation, signing, and the proposal of a successor. */
module Owner {
  import opened Basics
  import opened Credentials
  import opened RotationEngine

  /** A freshly generated pair of key pairs. */
  datatype Fresh = Fresh(edPrivate: bytes, edPublic: bytes, xPrivate: bytes, xPublic: bytes)

  /** Private keys by version: Ed25519, X25519. */
  type Keys = map<int, (bytes, bytes)>

  /** Ed25519 signing of (private key, message), left uninterpreted. */
  type Signer = (bytes, bytes) -> bytes

  /** Whether an X25519 private key opens what was sealed to a public one, left uninterpreted. */
  type Opener = (bytes, bytes) -> bool

  datatype Setup = Setup(cfg: Config, id: Uuid, sign: Signer, opens: Opener)

  /** Exceptions of the owner's own code that are not RotationErrors. */
  datatype Escape = KEY_ERROR | STRUCT_ERROR

  /** The private key signs what the public key verifies (section 5.1 of RFC 8032). */
  ghost predicate KeyPair(setup: Setup, private_: bytes, public: bytes) {
    forall m :: setup.cfg.verify(public, m, setup.sign(private_, m))
  }

  /** Both private keys belong to the record's public keys. */
  ghost predicate Paired(setup: Setup, keys: (bytes, bytes), c: Credential) {
    KeyPair(setup, keys.0, c.ed25519) && setup.opens(keys.1, c.x25519)
  }

  ghost predicate Genuine(setup: Setup, g: Fresh) {
    && KeyPair(setup, g.edPrivate, g.edPublic) && setup.opens(g.xPrivate, g.xPublic)
    && |g.edPublic| == 32 && |g.xPublic| == 32
  }

  /** Versions are 32 bits wide on the wire. */
  const VERSIONS := 0x1_0000_0000

  /** When the rotation away from c starts: a validation and a fallback period before it expires. */
  function RotateAt(cfg: Config, c: Credential, now: int): int {
    OrElse(c.expiration, now) - 2 * cfg.Half()
  }

  /** The record an owner proposes to follow its ACTIVE one: always the next version after it. */
  function Successor(id: Uuid, active: Credential, g: Fresh): Credential {
    Generated(id, active.version + 1, g.edPublic, g.xPublic)
  }

  function OwnPayload(id: Uuid, active: Credential, g: Fresh): Result<bytes, Escape> {
    match SuccessorPayload(id, active.version, active.version + 1, g.edPublic, g.xPublic, [])
    case Ok(p) => Ok(p)
    case Raised(_) => Raised(STRUCT_ERROR)
  }

  lemma {:induction false} PayloadEncodes(id: Uuid, a: int, g: Fresh)
    requires |g.edPublic| == 32 && |g.xPublic| == 32
    ensures SuccessorPayload(id, a, a + 1, g.edPublic, g.xPublic, []).Ok? <==> 0 <= a && a + 1 < VERSIONS
  {
    var fs := SuccessorFields(id, a, a + 1, g.edPublic, g.xPublic, []);
    assert fs[2].InRange() <==> 0 <= a < 0x1_0000_0000;
    assert fs[3].InRange() <==> 0 <= a + 1 < 0x1_0000_0000;
    assert fs[0].InRange() && fs[1].InRange() && fs[4].InRange() && fs[5].InRange() && fs[6].InRange();
  }
}
