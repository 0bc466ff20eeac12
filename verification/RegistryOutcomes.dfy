/** Enrollment and recovery in terms of the token and the store alone: which refusal comes first, when
    they succeed, and everything they leave behind. */
module RegistryOutcomes {
  import opened Basics
  import opened Credentials
  import opened RotationEngine
  import opened RotationRuns
  import opened RotationOutcomes
  import opened Registry
  import opened RegistryTheorems

  /** The token is there, was not used, and has not expired. */
  predicate TokenGood(s: Store, hash: bytes, now: int) {
    hash in s.tokens && s.tokens[hash].usedAt.None? && now <= s.tokens[hash].expiresAt
  }

  predicate Known(s: Store, id: Uuid, kind: Kind) {
    match kind
    case CLIENT => id in s.clients
    case PROXY => id in s.proxies
  }

  predicate HasRows(s: Store, id: Uuid) {
    id in s.rows && s.rows[id] != map[]
  }

  /** What the token's purpose asks of the identity. */
  predicate Entitled(s: Store, id: Uuid, kind: Kind, token: Token) {
    match token.purpose
    case ENROLL => !Known(s, id, kind) && !HasRows(s, id)
    case RECOVER => token.bound == Some(id) && Known(s, id, kind) && HasRows(s, id)
    case OTHER => !HasRows(s, id)
  }

  /** The first transaction's refusals in their order. */
  lemma {:induction false} ClaimRefusal(s: Store, id: Uuid, kind: Kind, hash: bytes, now: int)
    ensures Refusal(s, id, kind, hash, now).None? <==>
      TokenGood(s, hash, now) && Entitled(s, id, kind, s.tokens[hash])
    ensures hash !in s.tokens ==> Refusal(s, id, kind, hash, now) == Some(BAD_TOKEN)
    ensures hash in s.tokens ==>
      var t := s.tokens[hash];
      Refusal(s, id, kind, hash, now) ==
        Unless(t.usedAt.None?, TOKEN_USED,
        Unless(now <= t.expiresAt, TOKEN_EXPIRED,
        Unless(t.purpose == RECOVER ==> t.bound == Some(id), TOKEN_MISMATCH,
        Unless(t.purpose == RECOVER ==> Known(s, id, kind) && HasRows(s, id), UNKNOWN_IDENTITY,
        Unless((t.purpose == ENROLL ==> !Known(s, id, kind)) && (t.purpose != RECOVER ==> !HasRows(s, id)),
               ALREADY_ENROLLED, None)))))
  {
  }

  /** Enrollment succeeds exactly when the token is good, the identity is entitled to it, and the version
      fits: 1 with an enrollment token, one past the newest for a recovery that finds nothing VALIDATING,
      any for a token of neither purpose. */
  lemma {:induction false} EnrollIff(cfg: Config, s: Store, id: Uuid, kind: Kind, hash: bytes, version: int,
                                     ed: bytes, x: bytes, now: int)
    requires Healthy(s.rows)
    ensures Enrolled(cfg, s, id, kind, hash, version, ed, x, now).1.None? <==>
      && TokenGood(s, hash, now) && Entitled(s, id, kind, s.tokens[hash])
      && (match s.tokens[hash].purpose
          case ENROLL => version == 1
          case RECOVER =>
            && version - 1 in s.rows[id] && (forall w :: w in s.rows[id] ==> w < version)
            && (forall v :: !Is(s.rows[id], v, VALIDATING))
          case OTHER => true)
  {
    ClaimRefusal(s, id, kind, hash, now);
    EnrollSucceedsIff(cfg, s, id, kind, hash, version, ed, x, now);
  }

  /** After the claim: an enrollment with a version other than 1, an identity that still has something
      VALIDATING, and a version out of order fail, in this order. */
  lemma {:induction false} EnrollFailure(cfg: Config, s: Store, id: Uuid, kind: Kind, hash: bytes, version: int,
                                         ed: bytes, x: bytes, now: int)
    requires Healthy(s.rows) && TokenGood(s, hash, now) && Entitled(s, id, kind, s.tokens[hash])
    ensures Enrolled(cfg, s, id, kind, hash, version, ed, x, now).1 ==
      Unless(s.tokens[hash].purpose == ENROLL ==> version == 1, Rotation(VERSION_ORDER),
      Unless(!Any(Rows(s.rows, id), VALIDATING), Rotation(ALREADY_PROVISIONED),
      Unless(HasRows(s, id) ==> version - 1 in s.rows[id] && forall w :: w in s.rows[id] ==> w < version,
             Rotation(VERSION_ORDER), None)))
  {
    ClaimRefusal(s, id, kind, hash, now);
    ClaimedHealthy(s, id, kind, hash, now);
    var m, claimed := Rows(s.rows, id), Rows(Claimed(s, id, kind, hash, now).rows, id);
    WithdrawnKeeps(m, id);
    forall v ensures !Is(claimed, v, ACTIVE) {
      ClaimedIdle(s, id, kind, hash, now, v);
    }
    assert claimed.Keys == m.Keys;
    assert forall v :: Is(claimed, v, VALIDATING) <==> Is(m, v, VALIDATING);
    ProvisionOutcome(cfg, claimed, Generated(id, version, ed, x), now);
  }

  /** A refused claim leaves the whole store as it was, and refuses the enrollment with the same error. */
  lemma {:induction false} RefusedLeavesAll(cfg: Config, s: Store, id: Uuid, kind: Kind, hash: bytes, version: int,
                                            ed: bytes, x: bytes, now: int)
    ensures !TokenGood(s, hash, now) || !Entitled(s, id, kind, s.tokens[hash]) ==>
      Enrolled(cfg, s, id, kind, hash, version, ed, x, now) == (s, Refusal(s, id, kind, hash, now))
      && Refusal(s, id, kind, hash, now).Some?
  {
    ClaimRefusal(s, id, kind, hash, now);
  }

  /** Whatever becomes of the rest, a claim that is not refused spends exactly that token, lists exactly that
      identity under exactly that kind, and touches the rows of nobody else. */
  lemma {:induction false} ClaimedAlways(cfg: Config, s: Store, id: Uuid, kind: Kind, hash: bytes, version: int,
                                         ed: bytes, x: bytes, now: int)
    requires Healthy(s.rows) && TokenGood(s, hash, now) && Entitled(s, id, kind, s.tokens[hash])
    ensures var after := Enrolled(cfg, s, id, kind, hash, version, ed, x, now).0;
      && after.tokens == s.tokens[hash := s.tokens[hash].(usedAt := Some(now))]
      && (forall other, k ::
            Known(after, other, k) <==> Known(s, other, k) || (other == id && k == kind))
      && (forall other :: other != id ==> Rows(after.rows, other) == Rows(s.rows, other))
  {
    ClaimRefusal(s, id, kind, hash, now);
    ClaimedHealthy(s, id, kind, hash, now);
    var e := Event(now, Provision(Generated(id, version, ed, x)));
    var claimed := Claimed(s, id, kind, hash, now);
    forall other | other != id ensures Rows(Applied(cfg, claimed.rows, id, e), other) == Rows(s.rows, other) {
      AppliedRows(cfg, claimed.rows, id, e, other);
    }
  }

  /** The rows of the identity after a success: the new version ACTIVE with the given keys, from now on for
      3T/2; of the older ones, those that were ACTIVE or FALLBACK are REVOKED and the rest unchanged. */
  lemma {:induction false} EnrolledRows(cfg: Config, s: Store, id: Uuid, kind: Kind, hash: bytes, version: int,
                                        ed: bytes, x: bytes, now: int, v: int)
    requires Healthy(s.rows) && Enrolled(cfg, s, id, kind, hash, version, ed, x, now).1.None?
    ensures var n := Rows(Enrolled(cfg, s, id, kind, hash, version, ed, x, now).0.rows, id);
      && n.Keys == Rows(s.rows, id).Keys + {version} && version !in Rows(s.rows, id)
      && n[version] == Credential(id, version, ed, x, ACTIVE, now, None, Some(now), Some(now + 3 * cfg.T / 2))
      && (v in Rows(s.rows, id) ==>
            var c := s.rows[id][v];
            n[v] == if c.status in {ACTIVE, FALLBACK} then c.(status := REVOKED) else c)
  {
    ClaimRefusal(s, id, kind, hash, now);
    ClaimedHealthy(s, id, kind, hash, now);
    var claimed := Claimed(s, id, kind, hash, now);
    var m := Rows(claimed.rows, id);
    var c := Generated(id, version, ed, x);
    AppliedRows(cfg, claimed.rows, id, Event(now, Provision(c)), id);
    ProvisionOutcome(cfg, m, c, now);
  }
}
