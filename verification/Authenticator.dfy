/** Authentication of signed envelopes, and what the bounded replay cache is worth over whole
    runs. */
module Authenticator {
  import opened Basics
  import opened Credentials
  import opened Envelopes
  import opened Replay
  import opened RotationEngine
  import RotationRuns
  import Registry
  import RegistryTheorems
  import Owner

  datatype AuthError =
    | STALE_TIMESTAMP | REPLAYED | BAD_CREDENTIAL | BAD_SIGNATURE | UNKNOWN_IDENTITY
    | UNENCODABLE  // struct.error; no parsed envelope raises it

  /** One arrival: the envelope, the server's time, whether it was authenticated, and the registry as
      it was then. */
  datatype Visit = Visit(e: Envelope, now: int, ok: bool, store: Registry.Store)

  function KeyOf(e: Envelope): Key {
    ReplayKey(e.sender, e.requestId, e.nonce)
  }

  predicate Timely(v: Visit, window: int) {
    TimestampOk(v.e.timestamp, v.now, window)
  }

  /** The keys that reach the cache: those of arrivals inside the timestamp window, whatever becomes
      of them after that. */
  function Reached(vs: seq<Visit>, window: int): (ks: seq<Key>)
  {
    if vs == [] then []
    else
      var front := Reached(vs[..|vs| - 1], window);
      if Timely(vs[|vs| - 1], window) then front + [KeyOf(vs[|vs| - 1].e)] else front
  }

  /** The outcome after the replay check, from the registry's rows. */
  ghost function Verdict(cfg: Config, s: Registry.Store, e: Envelope, now: int)
    : Result<(Registry.Kind, Credential), AuthError>
  {
    var m := Registry.Rows(s.rows, e.sender);
    if !RotationRuns.Accepts(m, e.credentialVersion, now) then Raised(BAD_CREDENTIAL)
    else
      var c := m[e.credentialVersion];
      match SignedBytes(e)
      case Raised(_) => Raised(AuthError.UNENCODABLE)
      case Ok(signed) =>
        if !cfg.verify(c.ed25519, signed, e.signature) then Raised(BAD_SIGNATURE)
        else if e.sender in s.clients then Ok((Registry.CLIENT, c))
        else if e.sender in s.proxies then Ok((Registry.PROXY, c))
        else Raised(UNKNOWN_IDENTITY)
  }

  /** The claim of an envelope to come from its sender: the named version is ACTIVE or FALLBACK and not
      yet expired, and its public key verifies the signature over the bytes that have to be signed. */
  ghost predicate Vouched(cfg: Config, m: Records, e: Envelope, now: int) {
    var v := e.credentialVersion;
    && (Is(m, v, ACTIVE) || Is(m, v, FALLBACK))
    && (m[v].expiration.None? || now < m[v].expiration.value)
    && SignedBytes(e).Ok? && cfg.verify(m[v].ed25519, SignedBytes(e).value, e.signature)
  }

  ghost predicate Listed(s: Registry.Store, id: Uuid) {
    id in s.clients || id in s.proxies
  }

  /** Every authenticated arrival was vouched for by its sender's rows at the time. */
  ghost predicate AllVouched(cfg: Config, vs: seq<Visit>) {
    forall v :: v in vs && v.ok ==>
      Vouched(cfg, Registry.Rows(v.store.rows, v.e.sender), v.e, v.now) && Listed(v.store, v.e.sender)
  }

  /** What is authenticated after the replay check: exactly what is vouched for and listed, as a client
      before a proxy and with the version's record. */
  lemma {:induction false} VerdictIff(cfg: Config, s: Registry.Store, e: Envelope, now: int)
    ensures var (r, m) := (Verdict(cfg, s, e, now), Registry.Rows(s.rows, e.sender));
      && (r.Ok? <==> Vouched(cfg, m, e, now) && Listed(s, e.sender))
      && (r.Ok? ==> r.value.1 == m[e.credentialVersion]
                    && r.value.0 == if e.sender in s.clients then Registry.CLIENT else Registry.PROXY)
  {
  }

  /** Which refusal comes first. */
  lemma {:induction false} VerdictRefusal(cfg: Config, s: Registry.Store, e: Envelope, now: int)
    ensures var (m, v, p) := (Registry.Rows(s.rows, e.sender), e.credentialVersion, SignedBytes(e));
      Decides(Unless(v in m && m[v].status in {ACTIVE, FALLBACK}
                     && (m[v].expiration.Some? ==> now < m[v].expiration.value), BAD_CREDENTIAL,
              Unless(p.Ok?, AuthError.UNENCODABLE,
              Unless(v in m && p.Ok? && cfg.verify(m[v].ed25519, p.value, e.signature), BAD_SIGNATURE,
              Unless(Listed(s, e.sender), UNKNOWN_IDENTITY, None)))), Verdict(cfg, s, e, now))
  {
  }

  /** An arrival passes both replay checks after the ones before it. */
  predicate Passes(before: seq<Visit>, v: Visit, max: int, window: int)
    requires max > 0
  {
    Timely(v, window) && !SeenRecently(Reached(before, window), KeyOf(v.e), max)
  }

  /** Every authenticated arrival passed the replay checks. */
  ghost predicate Checked(vs: seq<Visit>, max: int, window: int)
    requires max > 0
  {
    forall i :: 0 <= i < |vs| && vs[i].ok ==> Passes(vs[..i], vs[i], max, window)
  }

  class EnvelopeAuthenticator {
    const registry: Registry.CredentialRegistry
    const replay: ReplayCache
    /** Every arrival so far. */
    ghost var visits: seq<Visit>

    ghost predicate Valid()
      reads this, registry, replay
    {
      && registry.Valid() && replay.Valid()
      && replay.history == Reached(visits, TIMESTAMP_WINDOW)
      && Checked(visits, replay.max, TIMESTAMP_WINDOW)
      && AllVouched(registry.cfg, visits)
    }

    constructor (registry: Registry.CredentialRegistry)
      requires registry.Valid()
      ensures Valid() && this.registry == registry && fresh(replay)
      ensures visits == [] && replay.max == DEFAULT_REPLAY_CACHE_SIZE
    {
      this.registry := registry;
      replay := new ReplayCache(DEFAULT_REPLAY_CACHE_SIZE);
      visits := [];
    }

    ghost method Record(v: Visit)
      requires registry.Valid() && replay.Valid() && Checked(visits, replay.max, TIMESTAMP_WINDOW)
      requires v.ok ==> Passes(visits, v, replay.max, TIMESTAMP_WINDOW)
      requires AllVouched(registry.cfg, visits) && AllVouched(registry.cfg, [v])
      requires replay.history == Reached(visits, TIMESTAMP_WINDOW)
        + (if Timely(v, TIMESTAMP_WINDOW) then [KeyOf(v.e)] else [])
      modifies this`visits
      ensures Valid() && visits == old(visits) + [v]
    {
      var all := visits + [v];
      assert all[..|visits|] == visits;
      assert forall i :: 0 <= i < |visits| ==> all[..i] == visits[..i];
      assert v in [v] && forall w :: w in all ==> w in visits || w == v;
      visits := all;
    }

    method Authenticate(e: Envelope, now: int) returns (r: Result<(Registry.Kind, Credential), AuthError>)
      requires Valid()
      modifies this, replay
      ensures Valid() && visits == old(visits) + [Visit(e, now, r.Ok?, registry.Value())]
      ensures r.Ok? <==>
        && now - TIMESTAMP_WINDOW <= e.timestamp <= now + TIMESTAMP_WINDOW
        && !SeenRecently(old(replay.history), KeyOf(e), replay.max)
        && Vouched(registry.cfg, Registry.Rows(registry.rows, e.sender), e, now)
        && Listed(registry.Value(), e.sender)
      ensures r ==
        if !TimestampOk(e.timestamp, now, TIMESTAMP_WINDOW) then Raised(STALE_TIMESTAMP)
        else if SeenRecently(old(replay.history), KeyOf(e), replay.max) then Raised(REPLAYED)
        else Verdict(registry.cfg, registry.Value(), e, now)
    {
      if !TimestampOk(e.timestamp, now, TIMESTAMP_WINDOW) {
        Record(Visit(e, now, false, registry.Value()));
        return Raised(STALE_TIMESTAMP);
      }
      var fresh_ := replay.CheckAndAdd(KeyOf(e));
      if !fresh_ {
        Record(Visit(e, now, false, registry.Value()));
        return Raised(REPLAYED);
      }
      r := Judge(e, now);
      VerdictIff(registry.cfg, registry.Value(), e, now);
      Record(Visit(e, now, r.Ok?, registry.Value()));
    }

    /** The checks after the replay cache. */
    method Judge(e: Envelope, now: int) returns (r: Result<(Registry.Kind, Credential), AuthError>)
      requires registry.Valid()
      ensures r == Verdict(registry.cfg, registry.Value(), e, now)
      ensures r.Ok? <==>
        Vouched(registry.cfg, Registry.Rows(registry.rows, e.sender), e, now) && Listed(registry.Value(), e.sender)
    {
      VerdictIff(registry.cfg, registry.Value(), e, now);
      var found := registry.CredentialForAuth(e.sender, e.credentialVersion, now);
      if found.Raised? || found.value.None? { return Raised(BAD_CREDENTIAL); }
      var c := found.value.value;
      if !Authenticating(c.status) { return Raised(BAD_CREDENTIAL); }
      var signed := SignedBytes(e);
      if signed.Raised? { return Raised(AuthError.UNENCODABLE); }
      if !registry.cfg.verify(c.ed25519, signed.value, e.signature) { return Raised(BAD_SIGNATURE); }
      var kind := registry.IdentityKind(e.sender);
      if kind.None? { return Raised(UNKNOWN_IDENTITY); }
      r := Ok((kind.value, c));
    }
  }

  // ------------------------------------------------------------------
  // who is authenticated
  // ------------------------------------------------------------------

  /** An honest sender gets through: what it signed with the private key of a version that is ACTIVE or
      FALLBACK and unexpired is vouched for. */
  lemma {:induction false} HonestIsVouched(setup: Owner.Setup, m: Records, e: Envelope, private_: bytes, now: int)
    requires RotationRuns.Accepts(m, e.credentialVersion, now) && SignedBytes(e).Ok?
    requires Owner.KeyPair(setup, private_, m[e.credentialVersion].ed25519)
    requires Sign(e, b => setup.sign(private_, b)) == Ok(e)
    ensures Vouched(setup.cfg, m, e, now)
  {
  }

  /** Over the registry's runs: nothing is authenticated under a version 2T or more after its creation,
      nor ever again once the version was revoked. */
  lemma {:induction false} VouchedIsAlive(cfg: Config, es: seq<RotationRuns.Event>, more: seq<RotationRuns.Event>,
                                          e: Envelope, now: int)
    requires Vouched(cfg, RegistryTheorems.CommitRun(cfg, map[], es + more), e, now)
    ensures var c := RegistryTheorems.CommitRun(cfg, map[], es + more)[e.credentialVersion];
      cfg.T >= 0 ==> now < c.createdAt + 2 * cfg.T
    ensures !Is(RegistryTheorems.CommitRun(cfg, map[], es), e.credentialVersion, REVOKED)
  {
    var m := RegistryTheorems.CommitRun(cfg, map[], es);
    if cfg.T >= 0 {
      RegistryTheorems.CommittedLife(cfg, es + more, e.credentialVersion, now);
    }
    RegistryTheorems.CommitAppend(cfg, map[], es, more);
    RegistryTheorems.CommittedIsRun(cfg, map[], es);
    RegistryTheorems.CommittedIsRun(cfg, m, more);
    RotationRuns.WindowInvariant(cfg, map[], RegistryTheorems.Committed(cfg, map[], es));
    RotationRuns.VersionsNeverRewritten(cfg, m, RegistryTheorems.Committed(cfg, m, more));
  }

  // ------------------------------------------------------------------
  // replay safety over runs
  // ------------------------------------------------------------------

  predicate ClockForward(vs: seq<Visit>) {
    forall i, j :: 0 <= i <= j < |vs| ==> vs[i].now <= vs[j].now
  }

  /** In any stretch of arrivals lasting at most span seconds, at most max distinct keys reach the
      cache. */
  ghost predicate Calm(vs: seq<Visit>, max: int, window: int, span: int) {
    forall i, j :: 0 <= i < j <= |vs| && vs[j - 1].now - vs[i].now <= span ==>
      |Elements(Reached(vs[i..j], window))| <= max
  }

  lemma {:induction false} ReachedSplit(a: seq<Visit>, b: seq<Visit>, window: int)
    ensures Reached(a + b, window) == Reached(a, window) + Reached(b, window)
  {
    if b == [] {
      assert a + b == a;
    } else {
      assert (a + b)[..|a + b| - 1] == a + b[..|b| - 1];
      ReachedSplit(a, b[..|b| - 1], window);
    }
  }

  /** What comes after the last occurrence of k comes after any given one. */
  lemma {:induction false} SinceWithin(h: seq<Key>, k: Key, g: seq<Key>)
    ensures k in h + [k] + g && Elements(Since(h + [k] + g, k)) <= Elements(g) - {k}
  {
    var all := h + [k] + g;
    assert all[|h|] == k;
    if g == [] {
      assert all == h + [k];
    } else {
      assert all[..|all| - 1] == h + [k] + g[..|g| - 1];
      SinceWithin(h, k, g[..|g| - 1]);
      assert g[|g| - 1] == all[|all| - 1];
      forall x | x in Since(all, k) ensures x in Elements(g) - {k} {
        assert x != k;
        if x in Since(all[..|all| - 1], k) {
          assert x in Elements(Since(all[..|all| - 1], k));
          assert x in g[..|g| - 1];
        }
      }
    }
  }

  lemma {:induction false} Smaller(a: set<Key>, b: set<Key>)
    requires a <= b
    ensures |a| <= |b|
    decreases |a|
  {
    if a != {} {
      var x := Pick(a);
      Smaller(a - {x}, b - {x});
    }
  }

  lemma {:induction false} ReachedAround(before: seq<Visit>, v: Visit, after: seq<Visit>, window: int)
    requires Timely(v, window)
    ensures Reached([v] + after, window) == [KeyOf(v.e)] + Reached(after, window)
    ensures Reached(before + [v] + after, window) ==
      Reached(before, window) + [KeyOf(v.e)] + Reached(after, window)
  {
    ReachedSplit(before + [v], after, window);
    ReachedSplit(before, [v], window);
    ReachedSplit([v], after, window);
    assert [v][..0] == [];
    assert Reached([v], window) == [KeyOf(v.e)];
  }

  lemma {:induction false} Remembered(h: seq<Key>, k: Key, g: seq<Key>, max: int)
    requires |Elements([k] + g)| <= max
    ensures SeenRecently(h + [k] + g, k, max)
  {
    SinceWithin(h, k, g);
    assert Elements([k] + g) == (Elements(g) - {k}) + {k};
    Smaller(Elements(Since(h + [k] + g, k)), Elements(g) - {k});
  }

  /** A key that reached the cache is still remembered while at most max distinct keys, itself
      included, have reached it from then on. */
  lemma {:induction false} StillRemembered(before: seq<Visit>, v: Visit, after: seq<Visit>, max: int, window: int)
    requires Timely(v, window) && |Elements(Reached([v] + after, window))| <= max
    ensures SeenRecently(Reached(before + [v] + after, window), KeyOf(v.e), max)
  {
    ReachedAround(before, v, after, window);
    Remembered(Reached(before, window), KeyOf(v.e), Reached(after, window), max);
  }

  /** Replay safety over runs: with a clock that never goes back, if at most max distinct
      (sender, nonce) keys reach the cache in any span of twice the window, nothing is authenticated
      whose sender, nonce and timestamp arrived inside the window before, authenticated or not and
      whatever the rest of the envelope: in particular nothing is authenticated twice. */
  lemma {:induction false} NeverTwice(vs: seq<Visit>, max: int, window: int, i: nat, j: nat)
    requires max > 0 && Checked(vs, max, window) && ClockForward(vs) && Calm(vs, max, window, 2 * window)
    requires i < j < |vs| && Timely(vs[i], window) && vs[j].ok
    ensures KeyOf(vs[i].e) != KeyOf(vs[j].e) || vs[i].e.timestamp != vs[j].e.timestamp
  {
    if KeyOf(vs[i].e) == KeyOf(vs[j].e) && vs[i].e.timestamp == vs[j].e.timestamp {
      assert Passes(vs[..j], vs[j], max, window);
      var between := vs[i + 1..j];
      assert vs[..j] == vs[..i] + [vs[i]] + between;
      assert vs[i..j] == [vs[i]] + between;
      assert vs[j - 1].now <= vs[j].now;
      StillRemembered(vs[..i], vs[i], between, max, window);
    }
  }

  /** The bound is exact: an arrival inside the window whose key reached the cache before passes the
      replay check again if and only if at least max distinct other keys have reached it since the
      key last did. */
  lemma {:induction false} ReplayedIff(before: seq<Visit>, v: Visit, after: seq<Visit>, w: Visit, max: int,
                                       window: int)
    requires max > 0 && Timely(v, window) && Timely(w, window) && KeyOf(v.e) == KeyOf(w.e)
    requires KeyOf(w.e) !in Reached(after, window)
    ensures Passes(before + [v] + after, w, max, window) <==> |Elements(Reached(after, window))| >= max
  {
    ReachedAround(before, v, after, window);
    SinceExactly(Reached(before, window), KeyOf(v.e), Reached(after, window));
  }

  lemma {:induction false} SinceExactly(h: seq<Key>, k: Key, g: seq<Key>)
    requires k !in g
    ensures k in h + [k] + g && Since(h + [k] + g, k) == g
  {
    var all := h + [k] + g;
    assert all[|h|] == k;
    if g == [] {
      assert all == h + [k];
    } else {
      assert all[..|all| - 1] == h + [k] + g[..|g| - 1];
      SinceExactly(h, k, g[..|g| - 1]);
      assert g[|g| - 1] == all[|all| - 1];
    }
  }
}
