/** What one tick of the server attempts, what it leaves on disk, and that the server's private keys
    always belong to its versions. */
module ServerOutcomes {
  import opened Basics
  import opened Credentials
  import opened RotationEngine
  import opened RotationRuns
  import opened RotationOutcomes
  import opened Owner
  import opened ServerIdentity

  /** The ACTIVE credential is within a validation and a fallback period of its expiry; one without an
      expiry always is. */
  ghost predicate RotationDue(setup: Setup, m: Records, now: int) {
    exists a :: Is(m, a, ACTIVE) && now >= OrElse(m[a].expiration, now) - 2 * (setup.cfg.T / 2)
  }

  ghost predicate PromotionDue(m: Records, now: int) {
    exists v :: Is(m, v, VALIDATING) && now >= OrElse(m[v].deadline, 0)
  }

  /** A tick without an ACTIVE credential does nothing. Otherwise it tries a submission exactly when the
      rotation is due and nothing is VALIDATING, and, when it tried none, a checkpoint exactly when a
      promotion is due; after a submission that failed it stops. */
  lemma {:induction false} TickAttempts(setup: Setup, s: Server, g: Fresh, now: int)
    requires Window(s.records)
    ensures var (s', tick) := AfterTick(setup, s, g, now);
      && (!Any(s.records, ACTIVE) ==> s' == s && tick == IDLE)
      && (tick.Escaped? || tick.submit.Some? <==> RotationDue(setup, s.records, now) && !Any(s.records, VALIDATING))
      && (tick.Ticked? && tick.submit.None? ==>
            (tick.checkpoint.Some? <==> Any(s.records, ACTIVE) && PromotionDue(s.records, now)))
      && (tick.Ticked? && tick.submit.Some? && tick.submit.value.Raised? ==> tick.checkpoint.None?)
  {
    var active, validating := Lookup(s.records, ACTIVE), Lookup(s.records, VALIDATING);
    if active.Some? {
      assert Is(s.records, active.value.version, ACTIVE);
      assert forall a :: Is(s.records, a, ACTIVE) ==> s.records[a] == active.value;
    }
    if validating.Some? {
      assert Is(s.records, validating.value.version, VALIDATING);
      assert forall v :: Is(s.records, v, VALIDATING) ==> s.records[v] == validating.value;
    }
  }

  /** Memory and disk after a step that did, or did not, write. */
  ghost predicate Wrote(s: Server, t: Server, done: bool) {
    if done then t.rows == s.rows + t.records && t.keyFile == Some(t.keys)
    else t.rows == s.rows && t.keyFile == s.keyFile && t.keys == s.keys
  }

  lemma {:induction false} SubmitWrites(setup: Setup, s: Server, active: Credential, g: Fresh, now: int)
    ensures var (t, r) := AfterOwnSubmit(setup, s, active, g, now); Wrote(s, t, r == Ok(Ok(())))
  {
  }

  lemma {:induction false} CheckpointWrites(setup: Setup, s: Server, now: int)
    ensures var (t, r) := AfterOwnCheckpoint(setup, s, now);
      Wrote(s, t, r.Ok?) && t.keys == s.keys && s.records.Keys <= t.records.Keys
  {
  }

  lemma {:induction false} WroteTwice(s: Server, t: Server, u: Server)
    requires Wrote(s, t, true) && Wrote(t, u, true) && t.records.Keys <= u.records.Keys
    ensures Wrote(s, u, true)
  {
    assert (s.rows + t.records) + u.records == s.rows + u.records;
  }

  /** What a tick leaves on disk: all of memory when the last thing it did succeeded, nothing new when it
      did nothing or failed at once. Private keys are added with a submission and never otherwise. */
  lemma {:induction false} TickPersists(setup: Setup, s: Server, g: Fresh, now: int)
    ensures var (s', tick) := AfterTick(setup, s, g, now);
      var submitted := tick.Ticked? && tick.submit == Some(Ok(()));
      var promoted := tick.Ticked? && tick.checkpoint == Some(Ok(()));
      && (promoted || (submitted && tick.checkpoint.None?) ==> Wrote(s, s', true))
      && (!promoted && !submitted ==> Wrote(s, s', false))
      && (!submitted ==> s'.keys == s.keys)
  {
    var active := Lookup(s.records, ACTIVE);
    if active.Some? {
      var (t, r) := AfterOwnSubmit(setup, s, active.value, g, now);
      SubmitWrites(setup, s, active.value, g, now);
      CheckpointWrites(setup, s, now);
      CheckpointWrites(setup, t, now);
      var (u, q) := AfterOwnCheckpoint(setup, t, now);
      if r == Ok(Ok(())) && q.Ok? {
        WroteTwice(s, t, u);
      }
    }
  }

  /** A submission escapes the tick exactly when the signing key is missing or a version does not fit its 32
      bits; then nothing has changed. */
  lemma {:induction false} SubmitEscapes(setup: Setup, s: Server, active: Credential, g: Fresh, now: int)
    requires |g.edPublic| == 32 && |g.xPublic| == 32
    ensures var (t, r) := AfterOwnSubmit(setup, s, active, g, now);
      && (r == Raised(KEY_ERROR) <==> active.version !in s.keys)
      && (r == Raised(STRUCT_ERROR) <==>
            active.version in s.keys && !(0 <= active.version && active.version + 1 < VERSIONS))
      && (r.Raised? ==> t == s)
  {
    PayloadEncodes(setup.id, active.version, g);
  }

  // ------------------------------------------------------------------
  // the private keys
  // ------------------------------------------------------------------

  /** The server holds both private keys of every version it records. */
  ghost predicate KeysHeld(setup: Setup, s: Server) {
    && Window(s.records) && forall v :: v in s.records ==> v in s.keys && Paired(setup, s.keys[v], s.records[v])
  }

  lemma {:induction false} SubmitHolds(setup: Setup, s: Server, active: Credential, g: Fresh, now: int)
    requires KeysHeld(setup, s) && Genuine(setup, g)
    ensures KeysHeld(setup, AfterOwnSubmit(setup, s, active, g, now).0)
  {
    var t := AfterOwnSubmit(setup, s, active, g, now).0;
    if t != s && active.version in s.keys && OwnPayload(setup.id, active, g).Ok? {
      var sig := setup.sign(s.keys[active.version].0, OwnPayload(setup.id, active, g).value);
      var c := Successor(setup.id, active, g);
      WindowStep(setup.cfg, s.records, Event(now, Submit(c, sig, [])));
      SubmitOutcome(setup.cfg, s.records, c, sig, [], now, 0);
    }
  }

  lemma {:induction false} CheckpointHolds(setup: Setup, s: Server, now: int)
    requires KeysHeld(setup, s)
    ensures KeysHeld(setup, AfterOwnCheckpoint(setup, s, now).0)
  {
    var n := AfterCheckpoint(setup.cfg, s.records, now).records;
    var e := Event(now, Checkpoint);
    WindowStep(setup.cfg, s.records, e);
    var x := CheckpointChanges(setup.cfg, s.records, now);
    ChangeKeepsVersions(setup.cfg, s.records, e, n, x);
    assert n.Keys == s.records.Keys;
  }

  /** In every run of ticks, at whatever times, each version the server records keeps both its private
      keys, and they belong to its public ones. */
  lemma {:induction false} TicksHoldKeys(setup: Setup, s: Server, ticks: seq<(Fresh, int)>)
    requires KeysHeld(setup, s) && forall k :: k in ticks ==> Genuine(setup, k.0)
    ensures KeysHeld(setup, AfterTicks(setup, s, ticks))
    decreases ticks
  {
    if ticks != [] {
      var (g, now) := ticks[0];
      assert ticks[0] in ticks;
      var active := Lookup(s.records, ACTIVE);
      if active.Some? {
        SubmitHolds(setup, s, active.value, g, now);
        CheckpointHolds(setup, s, now);
        CheckpointHolds(setup, AfterOwnSubmit(setup, s, active.value, g, now).0, now);
      }
      TicksHoldKeys(setup, AfterTick(setup, s, g, now).0, ticks[1..]);
    }
  }

  ghost function AfterTicks(setup: Setup, s: Server, ticks: seq<(Fresh, int)>): Server
    decreases ticks
  {
    if ticks == [] then s else AfterTicks(setup, AfterTick(setup, s, ticks[0].0, ticks[0].1).0, ticks[1..])
  }

  /** The first start provisions version 1 with keys that belong to it; a later one loads what is on disk,
      and fails exactly when the key file is missing. */
  lemma {:induction false} StartOutcome(setup: Setup, s: Server, g: Fresh, now: int)
    ensures var (s', ok) := AfterStart(setup, s, g, now);
      && (ok <==> s.rows == map[] || s.keyFile.Some?)
      && (s.rows != map[] ==> s' == Server(s.rows, if ok then s.keyFile.value else s.keys, s.rows, s.keyFile))
      && (s.rows == map[] ==>
            && s'.records == map[1 := Credential(setup.id, 1, g.edPublic, g.xPublic, ACTIVE, now, None, Some(now),
                                                 Some(now + 3 * setup.cfg.T / 2))]
            && s'.keys == map[1 := (g.edPrivate, g.xPrivate)]
            && s'.rows == s'.records && s'.keyFile == Some(s'.keys))
  {
    if s.rows == map[] {
      var c := Generated(setup.id, 1, g.edPublic, g.xPublic);
      ProvisionOutcome(setup.cfg, map[], c, now);
      assert forall m: Records :: s.rows + m == m;
    }
  }
}
