/** What the client's own moves answer and save. */
module ClientOutcomes {
  import opened Basics
  import opened Credentials
  import opened RotationEngine
  import opened RotationRuns
  import opened RotationOutcomes
  import opened Owner
  import opened ClientIdentity
  import ClientSession

  /** The first start makes version 1 with keys that belong to it and saves it; a later one takes over the
      file, and fails exactly when that has no private keys. */
  lemma {:induction false} StartOutcome(setup: Setup, c: Client, g: Fresh, now: int)
    requires c.file.None? ==> c.records == map[] && c.keys == map[]
    ensures var (c', r) := AfterStart(setup, c, g, now);
      && Decides(Unless(c.file.Some? ==> c.file.value.keys != map[], KEYS_MISSING, None), r)
      && (c.file.Some? && r.Ok? ==>
            c' == Client(c.file.value.records, c.file.value.keys, c.file.value.enrolled, c.file))
      && (c.file.None? ==>
            && c'.records == map[1 := Credential(setup.id, 1, g.edPublic, g.xPublic, ACTIVE, now, None, Some(now),
                                                 Some(now + 3 * setup.cfg.T / 2))]
            && c'.keys == map[1 := (g.edPrivate, g.xPrivate)] && c'.enrolled == c.enrolled
            && c'.file == Some(File(c'.records, c'.keys, c'.enrolled)))
  {
    if c.file.None? {
      ProvisionOutcome(setup.cfg, map[], Generated(setup.id, 1, g.edPublic, g.xPublic), now);
    }
  }

  /** What the client's engine says of an honest proposal. */
  lemma {:induction false} HonestSubmission(setup: Setup, m: Records, private_: bytes, g: Fresh, now: int, a: int)
    requires Window(m) && Is(m, a, ACTIVE) && KeyPair(setup, private_, m[a].ed25519)
    requires SuccessorPayload(m[a].identity, a, a + 1, g.edPublic, g.xPublic, []).Ok?
    ensures var p := SuccessorPayload(m[a].identity, a, a + 1, g.edPublic, g.xPublic, []).value;
      Decides(Unless(!Expired(m[a], now), SIGNER_EXPIRED,
              Unless(!Any(m, VALIDATING), WINDOW_FULL,
              Unless(forall w :: w in m ==> w <= a, VERSION_ORDER, None))),
              AfterSubmit(setup.cfg, m, Generated(m[a].identity, a + 1, g.edPublic, g.xPublic),
                          setup.sign(private_, p), [], now).result)
  {
    var p := SuccessorPayload(m[a].identity, a, a + 1, g.edPublic, g.xPublic, []).value;
    SubmitOutcome(setup.cfg, m, Generated(m[a].identity, a + 1, g.edPublic, g.xPublic), setup.sign(private_, p), [],
                  now, a);
  }

  /** Why a proposal is refused, with an honest key pair, in the order of the checks. */
  lemma {:induction false} GenerateRefusal(setup: Setup, c: Client, g: Fresh, now: int, a: int)
    requires Window(c.records) && Genuine(setup, g)
    requires Is(c.records, a, ACTIVE) && (a in c.keys ==> KeyPair(setup, c.keys[a].0, c.records[a].ed25519))
    ensures Decides(Unless(a in c.keys, Escaped(KEY_ERROR),
                    Unless(0 <= a && a + 1 < VERSIONS, Escaped(STRUCT_ERROR),
                    Unless(!Expired(c.records[a], now), Rotation(SIGNER_EXPIRED),
                    Unless(!Any(c.records, VALIDATING), Rotation(WINDOW_FULL),
                    Unless(forall w :: w in c.records ==> w <= a, Rotation(VERSION_ORDER), None))))),
                    AfterGenerate(setup, c, g, now).1)
  {
    assert Lookup(c.records, ACTIVE) == Some(c.records[a]);
    PayloadEncodes(c.records[a].identity, a, g);
    if a in c.keys && 0 <= a && a + 1 < VERSIONS {
      HonestSubmission(setup, c.records, c.keys[a].0, g, now, a);
    }
  }

  /** A proposal leaves one new version, the next one, VALIDATING from now on, both its private keys, and all
      of it saved; and it hands out that version, bare. */
  lemma {:induction false} GenerateOutcome(setup: Setup, c: Client, g: Fresh, now: int, a: int)
    requires Window(c.records) && Is(c.records, a, ACTIVE)
    ensures var (c', r) := AfterGenerate(setup, c, g, now);
      && (r.Raised? ==> c' == c)
      && (r.Ok? ==>
            && a + 1 !in c.records && c'.records.Keys == c.records.Keys + {a + 1}
            && (forall v :: v in c.records ==> c'.records[v] == c.records[v])
            && c'.records[a + 1] == Credential(c.records[a].identity, a + 1, g.edPublic, g.xPublic, VALIDATING, now,
                                               Some(now + setup.cfg.T / 2), None, Some(now + 3 * setup.cfg.T / 2))
            && c'.keys == c.keys[a + 1 := (g.edPrivate, g.xPrivate)] && c'.enrolled == c.enrolled
            && c'.file == Some(File(c'.records, c'.keys, c'.enrolled))
            && r.value.c == Generated(c.records[a].identity, a + 1, g.edPublic, g.xPublic)
            && SuccessorPayload(c.records[a].identity, a, a + 1, g.edPublic, g.xPublic, []).Ok?
            && r.value.sig == setup.sign(c.keys[a].0,
                 SuccessorPayload(c.records[a].identity, a, a + 1, g.edPublic, g.xPublic, []).value))
  {
    assert Lookup(c.records, ACTIVE) == Some(c.records[a]);
    var r := AfterGenerate(setup, c, g, now).1;
    if r.Ok? {
      SubmitOutcome(setup.cfg, c.records, r.value.c, r.value.sig, [], now, a);
    }
  }

  /** A request can be signed exactly when there is an ACTIVE version and its private keys are there. */
  lemma {:induction false} SignOutcome(c: Client, a: int)
    requires Window(c.records)
    ensures !Any(c.records, ACTIVE) ==> ClientSession.Signable(c) == Raised(NO_ACTIVE_CREDENTIAL)
    ensures Is(c.records, a, ACTIVE) ==>
      Decides(Unless(a in c.keys, KEYS_MISSING, None), ClientSession.Signable(c))
  {
  }

  /** A local checkpoint or rollback saves all of memory when the engine agreed, and otherwise leaves the file
      as it was; keys and flag stay. */
  lemma {:induction false} EndingsSave(setup: Setup, c: Client, now: int)
    ensures var c' := AfterLocalCheckpoint(setup, c, now);
      && c'.keys == c.keys && c'.enrolled == c.enrolled
      && c'.records == (if Any(c.records, VALIDATING) then AfterCheckpoint(setup.cfg, c.records, now).records
                        else c.records)
      && c'.file == (if AfterCheckpoint(setup.cfg, c.records, now).result.Ok?
                     then Some(File(c'.records, c.keys, c.enrolled)) else c.file)
    ensures var (c', r) := AfterLocalRollback(c);
      && c'.keys == c.keys && c'.enrolled == c.enrolled && c'.records == AfterRollback(c.records).records
      && c'.file == (if r.Ok? then Some(File(c'.records, c.keys, c.enrolled)) else c.file)
      && Decides(Unless(Any(c.records, VALIDATING), Rotation(NO_VALIDATING), None), r)
  {
  }
}
