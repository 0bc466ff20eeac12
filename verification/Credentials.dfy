/** Credential records, their statuses and the timing parameters of their life cycle. */
module Credentials {
  import opened Basics

  datatype Status = GENERATED | VALIDATING | ACTIVE | FALLBACK | EXPIRED | TERMINATED | REVOKED

  /** The public registration record of one credential version. Times are unix seconds. */
  datatype Credential = Credential(
    identity: Uuid,
    version: int,
    ed25519: bytes,
    x25519: bytes,
    status: Status,
    createdAt: int,
    deadline: Option<int>,
    activation: Option<int>,
    expiration: Option<int>)

  /** Ed25519 verification of (public key, message, signature), left uninterpreted. */
  type Verifier = (bytes, bytes, bytes) -> bool

  /** What an engine is configured with: the rotation duration T and the signature check. */
  datatype Config = Config(T: int, verify: Verifier)
  {
    /** T/2: validation and fallback last this long. */
    function Half(): int {
      T / 2
    }

    /** The whole validity of a credential from its creation. */
    function Validity(): int {
      3 * T / 2
    }
  }

  predicate InWindow(st: Status) {
    st == VALIDATING || st == ACTIVE || st == FALLBACK
  }

  predicate Authenticating(st: Status) {
    st == ACTIVE || st == FALLBACK
  }

  predicate Expired(c: Credential, now: int) {
    c.expiration.Some? && now >= c.expiration.value
  }

  /** A credential that may authenticate a message at time now. */
  predicate Usable(c: Credential, now: int) {
    Authenticating(c.status) && !Expired(c, now)
  }

  /** A fresh record as its owner proposes it. */
  function Generated(identity: Uuid, version: int, ed25519: bytes, x25519: bytes): Credential {
    Credential(identity, version, ed25519, x25519, GENERATED, 0, None, None, None)
  }
}
