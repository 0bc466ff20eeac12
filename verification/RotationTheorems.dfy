/** What holds over whole runs of the rotation engine: the full fallback period, the bounded
    life of a credential, the invisibility of eager expiry and the signer chain. */
module RotationTheorems {
  import opened Basics
  import opened Credentials
  import opened RotationEngine
  import opened RotationRuns

  // ------------------------------------------------------------------
  // the full fallback period (SR-14)
  // ------------------------------------------------------------------

  /** v is in fallback for a whole T/2 from time c, and nothing can displace it earlier. */
  ghost predicate Covered(cfg: Config, m: Records, v: int, c: int) {
    && Is(m, v, FALLBACK)
    && m[v].expiration.Some? && m[v].expiration.value >= c + cfg.Half()
    && forall w :: Is(m, w, VALIDATING) ==> m[w].deadline.Some? && m[w].deadline.value >= c + cfg.Half()
  }

  lemma {:induction false} CoveredChange(cfg: Config, m: Records, e: Event, n: Records, x: Change, v: int,
                                         c: int)
    requires Changes(cfg, m, e, n, x) && Covered(cfg, m, v, c)
    requires c <= e.now < c + cfg.Half() && e.op != Revoke(v)
    ensures !x.Shift? && Covered(cfg, n, v, c)
  {
  }

  lemma {:induction false} CoveredRun(cfg: Config, m: Records, es: seq<Event>, v: int, c: int, t: int)
    requires Window(m) && Covered(cfg, m, v, c)
    requires c <= t && Forward(t, es) && EndOf(t, es) < c + cfg.Half()
    requires forall i :: 0 <= i < |es| ==> es[i].op != Revoke(v)
    ensures Window(Run(cfg, m, es)) && Covered(cfg, Run(cfg, m, es), v, c)
    decreases es
  {
    if es != [] {
      EndAfter(es[0].now, es[1..]);
      var n := Next(cfg, m, es[0]);
      var x := ChangeOf(cfg, m, es[0]);
      CoveredChange(cfg, m, es[0], n, x, v, c);
      WindowStep(cfg, m, es[0]);
      CoveredRun(cfg, n, es[1..], v, c, es[0].now);
    }
  }

  /** A successful checkpoint puts the credential it demotes under that promise. */
  lemma {:induction false} DemotionCovers(cfg: Config, m: Records, c: int)
    requires Window(m) && AfterCheckpoint(cfg, m, c).result.Ok?
    ensures Lookup(m, ACTIVE).Some? && Window(AfterCheckpoint(cfg, m, c).records)
    ensures Covered(cfg, AfterCheckpoint(cfg, m, c).records, Lookup(m, ACTIVE).value.version, c)
  {
    var x := CheckpointChanges(cfg, m, c);
    ShiftKeepsWindow(cfg, m, AfterCheckpoint(cfg, m, c).records, c, x.v2, x.v3);
  }

  /** While it lasts no checkpoint succeeds and the credential is accepted. */
  lemma {:induction false} CoveredHolds(cfg: Config, m: Records, v: int, c: int, t: int)
    requires Window(m) && Covered(cfg, m, v, c) && c <= t < c + cfg.Half()
    ensures Accepts(m, v, t) && AfterCheckpoint(cfg, m, t).result.Raised?
  {
  }

  /** SR-14 over whole runs: whatever came before, a version demoted by a checkpoint at time c
      authenticates at every time of [c, c + T/2) in every run that does not revoke it, and no
      checkpoint succeeds again in that interval. */
  lemma {:induction false} FullFallback(cfg: Config, past: seq<Event>, c: int, future: seq<Event>, t: int,
                                        v: int)
    requires var m := Run(cfg, map[], past);
      AfterCheckpoint(cfg, m, c).result.Ok? && Is(m, v, ACTIVE)
    requires Forward(c, future) && EndOf(c, future) <= t < c + cfg.Half()
    requires forall i :: 0 <= i < |future| ==> future[i].op != Revoke(v)
    ensures var n := Run(cfg, AfterCheckpoint(cfg, Run(cfg, map[], past), c).records, future);
      Accepts(n, v, t) && AfterCheckpoint(cfg, n, t).result.Raised?
  {
    var m := Run(cfg, map[], past);
    WindowInvariant(cfg, map[], past);
    DemotionCovers(cfg, m, c);
    EndAfter(c, future);
    var n := AfterCheckpoint(cfg, m, c).records;
    CoveredRun(cfg, n, future, v, c, c);
    CoveredHolds(cfg, Run(cfg, n, future), v, c, t);
  }

  /** SR-14 is met by extending, not by refusing: a checkpoint succeeds exactly when something
      VALIDATING has reached its deadline and neither it nor the ACTIVE credential has expired; and it
      moves the expiry of the demoted credential exactly when less than T/2 of it is left. */
  lemma {:induction false} CheckpointIff(cfg: Config, m: Records, now: int, a: int)
    requires Window(m) && Is(m, a, ACTIVE)
    ensures AfterCheckpoint(cfg, m, now).result.Ok? <==>
      !Expired(m[a], now)
      && exists v :: Is(m, v, VALIDATING) && !Expired(m[v], now) && OrElse(m[v].deadline, 0) <= now
    ensures AfterCheckpoint(cfg, m, now).result.Ok? && OrElse(m[a].expiration, 0) != 0 ==>
      var n := AfterCheckpoint(cfg, m, now).records;
      n[a].expiration != m[a].expiration <==> m[a].expiration.value - now < cfg.Half()
  {
  }

  /** "Exactly one ACTIVE" holds only as "at most one": the ACTIVE credential is lost without a
      successor exactly by its revocation or by a sweep after its expiry. */
  lemma {:induction false} LosesActiveIff(cfg: Config, m: Records, e: Event, a: int)
    requires Window(m) && Is(m, a, ACTIVE)
    ensures (forall v :: !Is(Next(cfg, m, e), v, ACTIVE)) <==>
      e.op == Revoke(a) || (e.op.ExpireAll? && Expired(m[a], e.now))
  {
    var n := Next(cfg, m, e);
    var x := ChangeOf(cfg, m, e);
    if x.Shift? {
      assert Is(n, x.v3, ACTIVE);
    } else if e.op != Revoke(a) && !(e.op.ExpireAll? && Expired(m[a], e.now)) {
      assert Is(n, a, ACTIVE);
    } else {
      assert forall v :: Is(n, v, ACTIVE) ==> Is(m, v, ACTIVE);
    }
  }

  // ------------------------------------------------------------------
  // bounded life, no resurrection
  // ------------------------------------------------------------------

  /** The dates of one record: its expiry is fixed at creation and moved at most once, by less
      than T/2. */
  ghost predicate DatedRecord(cfg: Config, c: Credential) {
    && c.expiration.Some?
    && (c.status == ACTIVE || c.status == VALIDATING ==> c.expiration.value == c.createdAt + cfg.Validity())
    && (c.status == VALIDATING ==> c.deadline == Some(c.createdAt + cfg.Half()))
    && c.createdAt + cfg.Validity() <= c.expiration.value
         <= c.createdAt + cfg.Validity() + Max(0, cfg.Half() - 1)
  }

  ghost predicate Dated(cfg: Config, m: Records) {
    forall v :: v in m ==> DatedRecord(cfg, m[v])
  }

  lemma {:induction false} DatedChange(cfg: Config, m: Records, e: Event, n: Records, x: Change)
    requires Changes(cfg, m, e, n, x) && Dated(cfg, m)
    ensures Dated(cfg, n)
  {
  }

  lemma {:induction false} DatedRun(cfg: Config, m: Records, es: seq<Event>)
    requires Window(m) && Dated(cfg, m)
    ensures Dated(cfg, Run(cfg, m, es))
    decreases es
  {
    if es != [] {
      var n := Next(cfg, m, es[0]);
      var x := ChangeOf(cfg, m, es[0]);
      DatedChange(cfg, m, es[0], n, x);
      WindowStep(cfg, m, es[0]);
      DatedRun(cfg, n, es[1..]);
    }
  }

  /** No credential is accepted 2T after its creation, even with its expiry extended. For every
      T its last second is at most creation + 3T/2 + T/2 - 2. */
  lemma {:induction false} BoundedLife(cfg: Config, es: seq<Event>, v: int, t: int)
    requires Accepts(Run(cfg, map[], es), v, t)
    ensures var c := Run(cfg, map[], es)[v];
      && t < c.createdAt + cfg.Validity() + Max(0, cfg.Half() - 1)
      && (cfg.T >= 0 ==> t < c.createdAt + 2 * cfg.T)
  {
    DatedRun(cfg, map[], es);
  }

  /** The run that gives a credential its longest life: provisioned at time 0, a successor submitted so
      late that its promotion falls in the last second of the validity, and that promotion. */
  function LongestRun(cfg: Config, first: Credential, second: Credential, sig: bytes, meta: bytes): seq<Event> {
    [Event(0, Provision(first)), Event(cfg.Validity() - 1 - cfg.Half(), Submit(second, sig, meta)),
     Event(cfg.Validity() - 1, Checkpoint)]
  }

  lemma {:induction false} RunThree(cfg: Config, m: Records, x: Event, y: Event, z: Event)
    ensures Run(cfg, m, [x, y, z]) == Next(cfg, Next(cfg, Next(cfg, m, x), y), z)
  {
    assert [x, y, z][1..] == [y, z] && [y, z][1..] == [z] && [z][1..] == [];
    var n := Next(cfg, m, x);
    var o := Next(cfg, n, y);
    assert Run(cfg, o, [z]) == Run(cfg, Next(cfg, o, z), []);
    assert Run(cfg, n, [y, z]) == Run(cfg, o, [z]);
  }

  /** The two credentials of that run before its checkpoint. */
  lemma {:induction false} LongestBefore(cfg: Config, first: Credential, second: Credential, sig: bytes, meta: bytes)
    requires cfg.T >= 2 && first.status == GENERATED && first.version == 1
    requires second.version == 2 && second.identity == first.identity
    requires Authorizes(cfg, Provisioned(cfg, first, 0), second, meta, sig)
    ensures var es := LongestRun(cfg, first, second, sig, meta);
      Next(cfg, Next(cfg, map[], es[0]), es[1])
        == map[1 := Provisioned(cfg, first, 0), 2 := Submitted(cfg, second, es[1].now)]
  {
    var none: Records := map[];
    var v2 := Provisioned(cfg, first, 0);
    assert NextAfter(none, 1);
    var m := Next(cfg, none, Event(0, Provision(first)));
    assert m == map[1 := v2];
    assert Is(m, 1, ACTIVE) && Lookup(m, ACTIVE) == Some(v2) && Lookup(m, VALIDATING).None?;
    assert NextAfter(m, 2);
  }

  /** That last second is reached, by a run: whatever the keys, a first credential whose successor is
      submitted and promoted as late as that is accepted Validity + T/2 - 2 seconds after its creation. */
  lemma {:induction false} LongestLife(cfg: Config, first: Credential, second: Credential, sig: bytes, meta: bytes)
    requires cfg.T >= 2 && first.status == GENERATED && first.version == 1
    requires second.version == 2 && second.identity == first.identity
    requires Authorizes(cfg, Provisioned(cfg, first, 0), second, meta, sig)
    ensures Forward(0, LongestRun(cfg, first, second, sig, meta))
    ensures Accepts(Run(cfg, map[], LongestRun(cfg, first, second, sig, meta)), 1, cfg.Validity() + cfg.Half() - 2)
  {
    var es := LongestRun(cfg, first, second, sig, meta);
    assert es[1..][1..][1..] == [] && es[1..][1..][0] == es[2] && es[1..][0] == es[1];
    assert Forward(es[2].now, []);
    assert Forward(es[1].now, es[1..][1..]);
    RunThree(cfg, map[], es[0], es[1], es[2]);
    LongestBefore(cfg, first, second, sig, meta);
    var m := map[1 := Provisioned(cfg, first, 0), 2 := Submitted(cfg, second, es[1].now)];
    assert Is(m, 1, ACTIVE) && Is(m, 2, VALIDATING);
    assert Lookup(m, ACTIVE) == Some(m[1]) && Lookup(m, VALIDATING) == Some(m[2]) && Lookup(m, FALLBACK).None?;
  }

  /** v will never be accepted again at or after time t. */
  ghost predicate Spent(m: Records, v: int, t: int) {
    v in m && (Rank(m[v].status) >= 4 || (Rank(m[v].status) >= 2 && Expired(m[v], t)))
  }

  lemma {:induction false} SpentChange(cfg: Config, m: Records, e: Event, n: Records, x: Change, v: int,
                                       t: int)
    requires Changes(cfg, m, e, n, x) && Spent(m, v, t) && t <= e.now
    ensures Spent(n, v, e.now)
  {
  }

  lemma {:induction false} SpentRun(cfg: Config, m: Records, es: seq<Event>, v: int, t: int)
    requires Window(m) && Spent(m, v, t) && Forward(t, es)
    ensures Spent(Run(cfg, m, es), v, EndOf(t, es))
    decreases es
  {
    if es != [] {
      var n := Next(cfg, m, es[0]);
      var x := ChangeOf(cfg, m, es[0]);
      SpentChange(cfg, m, es[0], n, x, v, t);
      WindowStep(cfg, m, es[0]);
      SpentRun(cfg, n, es[1..], v, es[0].now);
    }
  }

  /** No resurrection: a version accepted at one time of a run and refused at a later one is
      refused at every time after that. */
  lemma {:induction false} NoResurrection(cfg: Config, m: Records, t1: int, es1: seq<Event>, t2: int,
                                          es2: seq<Event>, t3: int, v: int)
    requires Window(m) && Accepts(m, v, t1)
    requires Forward(t1, es1) && EndOf(t1, es1) <= t2 && !Accepts(Run(cfg, m, es1), v, t2)
    requires Forward(t2, es2) && EndOf(t2, es2) <= t3
    ensures !Accepts(Run(cfg, Run(cfg, m, es1), es2), v, t3)
  {
    VersionsNeverRewritten(cfg, m, es1);
    WindowInvariant(cfg, m, es1);
    SpentRun(cfg, Run(cfg, m, es1), es2, v, t2);
  }

  // ------------------------------------------------------------------
  // eager expiry is invisible
  // ------------------------------------------------------------------

  /** The run without its expiry sweeps. */
  function Strip(es: seq<Event>): seq<Event> {
    if es == [] then []
    else if es[0].op.ExpireAll? then Strip(es[1..])
    else [es[0]] + Strip(es[1..])
  }

  /** n is m after sweeps up to time t: some records that can no longer be accepted are marked
      EXPIRED in n while m still calls them ACTIVE, FALLBACK or TERMINATED. */
  ghost predicate Swept(m: Records, n: Records, t: int) {
    && m.Keys == n.Keys
    && forall v :: v in m ==> n[v] == m[v] || (n[v] == m[v].(status := EXPIRED) && Spent(m, v, t))
  }

  /** A status lookup in swept records finds the same record, or nothing where the other has one
      that can no longer be accepted. */
  lemma {:induction false} SweptLookup(m: Records, n: Records, st: Status, t: int)
    requires Window(m) && Window(n) && Swept(m, n, t) && InWindow(st)
    ensures Lookup(n, st).Some? ==> Lookup(m, st) == Lookup(n, st)
    ensures Lookup(m, st).Some? && Lookup(n, st).None? ==>
      var v := Lookup(m, st).value.version;
      Is(m, v, st) && Spent(m, v, t) && n[v] == m[v].(status := EXPIRED)
  {
    var x, y := Lookup(m, st), Lookup(n, st);
    if x.Some? && n[x.value.version] == x.value {
      assert Is(n, x.value.version, st);
    }
    if y.Some? {
      assert Is(m, y.value.version, st);
    }
  }

  lemma {:induction false} SweptSubmit(cfg: Config, m: Records, n: Records, c: Credential, sig: bytes,
                                       meta: bytes, now: int)
    requires Window(m) && Window(n) && Swept(m, n, now)
    ensures Swept(AfterSubmit(cfg, m, c, sig, meta, now).records,
                  AfterSubmit(cfg, n, c, sig, meta, now).records, now)
  {
    SweptLookup(m, n, VALIDATING, now);
    SweptLookup(m, n, ACTIVE, now);
    assert NextAfter(m, c.version) <==> NextAfter(n, c.version) by {
      assert m == map[] <==> m.Keys == {};
      assert n == map[] <==> n.Keys == {};
    }
  }

  /** The records after a checkpoint, when the lookups differ only by what was swept. */
  lemma {:induction false} SweptShift(cfg: Config, m: Records, n: Records, v1: Option<Credential>,
                                      w1: Option<Credential>, v2: Credential, v3: Credential, t: int)
    requires Swept(m, n, t)
    requires v1.Some? ==> v1.value.version in m && m[v1.value.version] == v1.value
    requires w1.Some? ==> v1 == w1
    requires v1.Some? && w1.None? ==>
      Spent(m, v1.value.version, t) && n[v1.value.version] == v1.value.(status := EXPIRED)
    requires v2.version in m && v3.version in m
    ensures Swept(CheckpointRecords(cfg, m, v1, Some(v2), Some(v3), t).0,
                  CheckpointRecords(cfg, n, w1, Some(v2), Some(v3), t).0, t)
  {
  }

  lemma {:induction false} SweptCheckpoint(cfg: Config, m: Records, n: Records, now: int)
    requires Window(m) && Window(n) && Swept(m, n, now)
    ensures Swept(AfterCheckpoint(cfg, m, now).records, AfterCheckpoint(cfg, n, now).records, now)
  {
    SweptLookup(m, n, VALIDATING, now);
    SweptLookup(m, n, ACTIVE, now);
    SweptLookup(m, n, FALLBACK, now);
    var v3 := Lookup(m, VALIDATING);
    if v3.Some? && Lookup(n, ACTIVE).Some? {
      SweptShift(cfg, m, n, Lookup(m, FALLBACK), Lookup(n, FALLBACK), Lookup(m, ACTIVE).value, v3.value, now);
    }
  }

  lemma {:induction false} SweptEnd(m: Records, n: Records, v: int, st: Status, t: int)
    requires Swept(m, n, t) && v in m && (m[v] == n[v] || st == REVOKED)
    ensures Swept(m[v := m[v].(status := st)], n[v := n[v].(status := st)], t)
  {
  }

  lemma {:induction false} SweptRollback(m: Records, n: Records, now: int)
    requires Window(m) && Window(n) && Swept(m, n, now)
    ensures Swept(AfterRollback(m).records, AfterRollback(n).records, now)
  {
    SweptLookup(m, n, VALIDATING, now);
    var v3 := Lookup(m, VALIDATING);
    if v3.Some? {
      SweptEnd(m, n, v3.value.version, TERMINATED, now);
    }
  }

  lemma {:induction false} SweptSweep(m: Records, n: Records, now: int)
    requires Swept(m, n, now)
    ensures Swept(m, AfterExpiry(n, now), now)
  {
  }

  lemma {:induction false} SweptStep(cfg: Config, m: Records, n: Records, e: Event)
    requires Window(m) && Window(n) && Swept(m, n, e.now)
    requires !e.op.ExpireAll? && !e.op.Provision?
    ensures Swept(Next(cfg, m, e), Next(cfg, n, e), e.now)
  {
    match e.op
    case Submit(c, sig, meta) => SweptSubmit(cfg, m, n, c, sig, meta, e.now);
    case Checkpoint => SweptCheckpoint(cfg, m, n, e.now);
    case Rollback => SweptRollback(m, n, e.now);
    case Revoke(v) => if v in m { SweptEnd(m, n, v, REVOKED, e.now); }
  }

  /** The simulation: n, swept, follows every event of the run; m skips the sweeps. */
  lemma {:induction false} SweptRun(cfg: Config, m: Records, n: Records, es: seq<Event>, t: int)
    requires Window(m) && Window(n) && Swept(m, n, t) && Forward(t, es)
    requires forall i :: 0 <= i < |es| ==> !es[i].op.Provision?
    ensures Swept(Run(cfg, m, Strip(es)), Run(cfg, n, es), EndOf(t, es))
    decreases es
  {
    if es != [] {
      var e, rest := es[0], es[1..];
      assert Swept(m, n, e.now);
      WindowStep(cfg, n, e);
      if e.op.ExpireAll? {
        SweptSweep(m, n, e.now);
        SweptRun(cfg, m, Next(cfg, n, e), rest, e.now);
      } else {
        WindowStep(cfg, m, e);
        SweptStep(cfg, m, n, e);
        SweptRun(cfg, Next(cfg, m, e), Next(cfg, n, e), rest, e.now);
        assert Strip(es)[0] == e && Strip(es)[1..] == Strip(rest);
      }
    }
  }

  /** Expiry sweeps never change an authentication answer: a run of submissions, checkpoints,
      rollbacks and revocations answers as it would without any of its sweeps. */
  lemma {:induction false} EagerExpiryInvisible(cfg: Config, m: Records, es: seq<Event>, t0: int, v: int,
                                                t: int)
    requires Window(m) && Forward(t0, es) && EndOf(t0, es) <= t
    requires forall i :: 0 <= i < |es| ==> !es[i].op.Provision?
    ensures var eager, lazy := Run(cfg, m, es), Run(cfg, m, Strip(es));
      && (Accepts(eager, v, t) <==> Accepts(lazy, v, t))
      && (Accepts(eager, v, t) ==> eager[v] == lazy[v])
  {
    SweptRun(cfg, m, m, es, t0);
  }

  /** Provisioning is the one step a sweep is visible to, and exactly when: an ACTIVE credential has
      expired and nothing is VALIDATING. Without the sweep it is then refused; with it the credential's
      own version and status decide. */
  lemma {:induction false} ProvisioningSeesSweep(cfg: Config, m: Records, c: Credential, now: int)
    requires Window(m)
    ensures AfterProvision(cfg, m, c, now).result != AfterProvision(cfg, AfterExpiry(m, now), c, now).result <==>
      (exists a :: Is(m, a, ACTIVE) && Expired(m[a], now)) && forall v :: !Is(m, v, VALIDATING)
    ensures AfterProvision(cfg, AfterExpiry(m, now), c, now).result.Ok? <==>
      && (forall v :: !Is(m, v, VALIDATING)) && (forall a :: Is(m, a, ACTIVE) ==> Expired(m[a], now))
      && NextAfter(m, c.version) && c.status == GENERATED
  {
    var n := AfterExpiry(m, now);
    assert n.Keys == m.Keys;
    assert m == map[] <==> m.Keys == {};
    assert n == map[] <==> n.Keys == {};
    assert forall v :: Is(n, v, VALIDATING) <==> Is(m, v, VALIDATING);
    assert forall v :: Is(n, v, ACTIVE) <==> Is(m, v, ACTIVE) && !Expired(m[v], now);
  }

  // ------------------------------------------------------------------
  // the signer chain
  // ------------------------------------------------------------------

  /** How a version came to be recorded. */
  datatype Origin = Root | SignedBy(signer: int, sig: bytes, meta: bytes)

  type Log = map<int, Origin>

  /** The origin of every version a run admits. */
  ghost function LogStep(cfg: Config, m: Records, e: Event, log: Log): Log {
    match e.op
    case Provision(c) =>
      if AfterProvision(cfg, m, c, e.now).result.Ok? then log[c.version := Root] else log
    case Submit(c, sig, meta) =>
      if AfterSubmit(cfg, m, c, sig, meta, e.now).result.Ok? && Lookup(m, ACTIVE).Some?
      then log[c.version := SignedBy(Lookup(m, ACTIVE).value.version, sig, meta)]
      else log
    case _ => log
  }

  ghost function LogRun(cfg: Config, m: Records, es: seq<Event>, log: Log): Log
    decreases es
  {
    if es == [] then log
    else LogRun(cfg, Next(cfg, m, es[0]), es[1..], LogStep(cfg, m, es[0], log))
  }

  /** A link: c was admitted by an older version of the same identity, whose signature covers
      the identity, both versions, both new keys and the metadata. */
  predicate Link(cfg: Config, signer: Credential, c: Credential, meta: bytes, sig: bytes) {
    signer.version < c.version && signer.identity == c.identity && Authorizes(cfg, signer, c, meta, sig)
  }

  ghost predicate Linked(cfg: Config, m: Records, log: Log, v: int) {
    v in log && v in m && (log[v].SignedBy? ==>
      log[v].signer in m && Link(cfg, m[log[v].signer], m[v], log[v].meta, log[v].sig))
  }

  ghost predicate Chain(cfg: Config, m: Records, log: Log) {
    && log.Keys == m.Keys
    && (forall v :: v in m ==> Linked(cfg, m, log, v))
    && (forall v, w :: Is(m, v, VALIDATING) && Is(m, w, ACTIVE) ==> log[v].SignedBy? && log[v].signer == w)
  }

  /** The origin a change records. */
  ghost function LogOf(e: Event, x: Change, log: Log): Log {
    if x.Added? && x.signer.None? then log[x.c.version := Root]
    else if x.Added? && e.op.Submit? then log[x.c.version := SignedBy(x.signer.value, e.op.sig, e.op.meta)]
    else log
  }

  lemma {:induction false} LinkedChange(cfg: Config, m: Records, e: Event, n: Records, x: Change, log: Log,
                                        v: int)
    requires Window(m) && Changes(cfg, m, e, n, x) && log.Keys == m.Keys && v in n
    requires v in m ==> Linked(cfg, m, log, v)
    ensures Linked(cfg, n, LogOf(e, x, log), v)
  {
  }

  lemma {:induction false} ChainChange(cfg: Config, m: Records, e: Event, n: Records, x: Change, log: Log)
    requires Window(m) && Changes(cfg, m, e, n, x) && Chain(cfg, m, log)
    ensures Chain(cfg, n, LogOf(e, x, log))
  {
    var log' := LogOf(e, x, log);
    forall v | v in n ensures Linked(cfg, n, log', v) {
      LinkedChange(cfg, m, e, n, x, log, v);
    }
    forall v, w | Is(n, v, VALIDATING) && Is(n, w, ACTIVE)
      ensures log'[v].SignedBy? && log'[v].signer == w
    {
      if x.Shift? {
        ShiftKeepsWindow(cfg, m, n, e.now, x.v2, x.v3);
        assert false;
      } else if x.Added? {
        assert w != x.c.version ==> Is(m, w, ACTIVE);
        assert v != x.c.version ==> Is(m, v, VALIDATING);
      } else {
        assert Is(m, v, VALIDATING) && Is(m, w, ACTIVE);
      }
    }
  }

  lemma {:induction false} LogMatches(cfg: Config, m: Records, e: Event, log: Log) returns (x: Change)
    requires Window(m)
    ensures Changes(cfg, m, e, Next(cfg, m, e), x)
    ensures LogStep(cfg, m, e, log) == LogOf(e, x, log)
  {
    match e.op
    case Provision(c) => x := ProvisionChanges(cfg, m, e);
    case Submit(c, sig, meta) => x := SubmitChanges(cfg, m, e);
    case Checkpoint => x := CheckpointChanges(cfg, m, e.now);
    case Rollback => x := RollbackChanges(cfg, m, e.now);
    case Revoke(v) => x := if v in m then End(v, REVOKED) else Same;
    case ExpireAll => x := Lapse;
  }

  /** Every version of every run is provisioned or linked to the one that signed it. */
  lemma {:induction false} SignerChain(cfg: Config, m: Records, es: seq<Event>, log: Log)
    requires Window(m) && Chain(cfg, m, log)
    ensures Chain(cfg, Run(cfg, m, es), LogRun(cfg, m, es, log))
    decreases es
  {
    if es != [] {
      var n := Next(cfg, m, es[0]);
      var x := LogMatches(cfg, m, es[0], log);
      ChainChange(cfg, m, es[0], n, x, log);
      WindowStep(cfg, m, es[0]);
      SignerChain(cfg, n, es[1..], LogStep(cfg, m, es[0], log));
    }
  }

  /** The credential a checkpoint demotes is the one whose signature admitted the credential it
      promotes. */
  lemma {:induction false} DemotesItsSigner(cfg: Config, es: seq<Event>, now: int, v2: int, v3: int)
    requires var m := Run(cfg, map[], es);
      AfterCheckpoint(cfg, m, now).result.Ok? && Is(m, v2, ACTIVE) && Is(m, v3, VALIDATING)
    ensures var m, log := Run(cfg, map[], es), LogRun(cfg, map[], es, map[]);
      && Shifted(cfg, m, AfterCheckpoint(cfg, m, now).records, now, v2, v3)
      && v3 in log && log[v3].SignedBy? && log[v3].signer == v2
      && Link(cfg, m[v2], m[v3], log[v3].meta, log[v3].sig)
  {
    var m := Run(cfg, map[], es);
    SignerChain(cfg, map[], es, map[]);
    WindowInvariant(cfg, map[], es);
    var x := CheckpointChanges(cfg, m, now);
    assert Linked(cfg, m, LogRun(cfg, map[], es, map[]), v3);
  }

  /** A path from v back to a provisioned version, every step a link to a smaller signer. */
  ghost predicate Descends(cfg: Config, m: Records, log: Log, path: seq<int>, v: int) {
    && path != [] && path[0] == v
    && (forall i :: 0 <= i < |path| ==> path[i] in log && path[i] in m)
    && log[path[|path| - 1]] == Root
    && forall i :: 0 <= i < |path| - 1 ==>
         && log[path[i]].SignedBy? && log[path[i]].signer == path[i + 1]
         && Link(cfg, m[path[i + 1]], m[path[i]], log[path[i]].meta, log[path[i]].sig)
  }

  lemma {:induction false} Ancestry(cfg: Config, m: Records, log: Log, v: int, least: int)
    returns (path: seq<int>)
    requires Keyed(m) && Chain(cfg, m, log) && v in m && forall w :: w in m ==> least <= w
    ensures Descends(cfg, m, log, path, v)
    decreases v - least
  {
    assert Linked(cfg, m, log, v);
    if log[v].Root? {
      path := [v];
    } else {
      var up := Ancestry(cfg, m, log, log[v].signer, least);
      path := [v] + up;
      DescendsOne(cfg, m, log, up, v);
    }
  }

  lemma {:induction false} DescendsOne(cfg: Config, m: Records, log: Log, up: seq<int>, v: int)
    requires Linked(cfg, m, log, v) && log[v].SignedBy? && Descends(cfg, m, log, up, log[v].signer)
    ensures Descends(cfg, m, log, [v] + up, v)
  {
  }

  lemma {:induction false} LeastVersion(m: Records) returns (least: int)
    ensures forall v :: v in m ==> least <= v
    decreases |m|
  {
    if u :| u in m {
      var rest := m - {u};
      assert rest.Keys == m.Keys - {u};
      var l := LeastVersion(rest);
      least := Min(l, u);
      assert forall v :: v in m ==> v == u || v in rest;
    } else {
      least := 0;
    }
  }

  /** Every version of every run descends, through strictly smaller signers and valid
      signatures, from a provisioned one of the same identity. */
  lemma {:induction false} EveryVersionHasRoot(cfg: Config, es: seq<Event>, v: int) returns (path: seq<int>)
    requires v in Run(cfg, map[], es)
    ensures Descends(cfg, Run(cfg, map[], es), LogRun(cfg, map[], es, map[]), path, v)
  {
    SignerChain(cfg, map[], es, map[]);
    WindowInvariant(cfg, map[], es);
    var m := Run(cfg, map[], es);
    var least := LeastVersion(m);
    path := Ancestry(cfg, m, LogRun(cfg, map[], es, map[]), v, least);
  }
}
