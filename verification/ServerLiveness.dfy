/** When the server's self-rotation never lapses. With ticks at most d seconds apart the exact
    bound is 3d <= (T+1)/2 + 1: below it every run keeps an unexpired ACTIVE credential with its
    private keys, above it some run loses it, and what is lost never comes back.

    A tick does to the server what PhaseTick does to three integers (Simulates), so the bound is
    found by arithmetic on phases. */
module ServerLiveness {
  import opened Basics
  import opened Credentials
  import opened RotationEngine
  import opened RotationRuns
  import opened Owner
  import opened ServerIdentity

  // ------------------------------------------------------------------
  // phases
  // ------------------------------------------------------------------

  /** Version a, created at c, is ACTIVE and newest; or its successor, submitted at b, is
      VALIDATING; or the ACTIVE credential has expired. */
  datatype Phase = Quiet(a: int, c: int) | Pending(a: int, c: int, b: int) | Lapsed

  /** Rotation starts this long after an ACTIVE credential's creation. */
  function Lead(cfg: Config): int {
    (cfg.T + 1) / 2
  }

  function PhaseTick(cfg: Config, p: Phase, now: int): Phase {
    match p
    case Lapsed => Lapsed
    case Quiet(a, c) =>
      if now >= c + cfg.Validity() then Lapsed
      else if now >= c + Lead(cfg) then Pending(a, c, now)
      else p
    case Pending(a, c, b) =>
      if now >= c + cfg.Validity() then Lapsed
      else if now >= b + cfg.Half() then Quiet(a + 1, b)
      else p
  }

  function PhaseRun(cfg: Config, p: Phase, ts: seq<int>): Phase
    decreases ts
  {
    if ts == [] then p else PhaseRun(cfg, PhaseTick(cfg, p, ts[0]), ts[1..])
  }

  /** Every tick comes at most d seconds after the one before. */
  predicate Paced(t: int, d: int, ts: seq<int>)
    decreases ts
  {
    ts == [] || (t <= ts[0] <= t + d && Paced(ts[0], d, ts[1..]))
  }

  function LastOf(t: int, ts: seq<int>): int {
    if ts == [] then t else ts[|ts| - 1]
  }

  /** The newest version there is. */
  function Version(p: Phase): int {
    match p
    case Quiet(a, c) => a
    case Pending(a, c, b) => a + 1
    case Lapsed => 0
  }

  /** Every version a run reaches is 32 bits wide. */
  predicate Fits(cfg: Config, p: Phase, ts: seq<int>)
    decreases ts
  {
    Version(p) < VERSIONS && (ts == [] || Fits(cfg, PhaseTick(cfg, p, ts[0]), ts[1..]))
  }

  /** A version is created no sooner than Lead seconds after the one before it. */
  predicate Born(cfg: Config, p: Phase, start: int) {
    match p
    case Lapsed => true
    case Quiet(a, c) => a >= 1 && start + (a - 1) * Lead(cfg) <= c
    case Pending(a, c, b) => a >= 1 && start + (a - 1) * Lead(cfg) <= c && start + a * Lead(cfg) <= b
  }

  lemma {:induction false} Cancel(a: int, k: int, l: int)
    requires l > 0
    ensures a * l < k * l ==> a < k
  {
    if a >= k {
      var x := a - k;
      assert x * l >= 0;
      assert a * l == k * l + x * l;
    }
  }

  lemma {:induction false} OneLead(a: int, l: int)
    ensures (a - 1) * l + l == a * l
  {
  }

  /** So every run shorter than (2^32 - 1) times Lead fits, millions of years when T is a day. */
  lemma {:induction false} FitsForAges(cfg: Config, p: Phase, start: int, u: int, d: int, ts: seq<int>)
    requires cfg.T >= 1 && Born(cfg, p, start) && Version(p) < VERSIONS && Paced(u, d, ts)
    requires LastOf(u, ts) - start < (VERSIONS - 1) * Lead(cfg)
    ensures Fits(cfg, p, ts)
    decreases ts
  {
    if ts != [] {
      var now := ts[0];
      PacedLast(now, d, ts[1..]);
      if p.Quiet? && now >= p.c + Lead(cfg) {
        OneLead(p.a, Lead(cfg));
        Cancel(p.a, VERSIONS - 1, Lead(cfg));
      }
      FitsForAges(cfg, PhaseTick(cfg, p, now), start, now, d, ts[1..]);
    }
  }

  lemma {:induction false} PacedLast(u: int, d: int, ts: seq<int>)
    requires Paced(u, d, ts)
    ensures u <= LastOf(u, ts)
    decreases ts
  {
    if ts != [] {
      PacedLast(ts[0], d, ts[1..]);
    }
  }

  /** A run of few ticks fits whatever their times. */
  lemma {:induction false} FewFit(cfg: Config, p: Phase, ts: seq<int>)
    requires Version(p) + |ts| < VERSIONS && Version(p) >= 0
    ensures Fits(cfg, p, ts)
    decreases ts
  {
    if ts != [] {
      FewFit(cfg, PhaseTick(cfg, p, ts[0]), ts[1..]);
    }
  }

  /** The pace that is fast enough. */
  predicate Fast(cfg: Config, d: int) {
    3 * d <= Lead(cfg) + 1
  }

  lemma {:induction false} Halves(cfg: Config)
    requires cfg.T >= 0
    ensures cfg.Validity() == 2 * cfg.Half() + Lead(cfg)
    ensures 0 <= cfg.Half() <= Lead(cfg) <= cfg.Half() + 1
  {
  }

  /** At time u: promoted recently enough for the successor to be submitted in time, or the
      successor was submitted in time and is not due yet. */
  predicate OnTime(cfg: Config, p: Phase, u: int, d: int) {
    match p
    case Lapsed => false
    case Quiet(a, c) => u <= c + cfg.Half() - 1 + d
    case Pending(a, c, b) => b <= c + cfg.Half() - 1 + 2 * d && b <= u < b + cfg.Half()
  }

  lemma {:induction false} FastStaysOnTime(cfg: Config, p: Phase, u: int, d: int, ts: seq<int>)
    requires cfg.T >= 0 && d >= 1 && Fast(cfg, d) && OnTime(cfg, p, u, d) && Paced(u, d, ts)
    ensures OnTime(cfg, PhaseRun(cfg, p, ts), LastOf(u, ts), d)
    decreases ts
  {
    Halves(cfg);
    if ts != [] {
      FastStaysOnTime(cfg, PhaseTick(cfg, p, ts[0]), ts[0], d, ts[1..]);
    }
  }

  lemma {:induction false} PhaseRunAppend(cfg: Config, p: Phase, t: int, d: int, ts: seq<int>, us: seq<int>)
    requires Paced(t, d, ts) && Paced(LastOf(t, ts), d, us)
    ensures Paced(t, d, ts + us) && LastOf(t, ts + us) == LastOf(LastOf(t, ts), us)
    ensures PhaseRun(cfg, p, ts + us) == PhaseRun(cfg, PhaseRun(cfg, p, ts), us)
    decreases ts
  {
    if ts == [] {
      assert ts + us == us;
    } else {
      assert (ts + us)[1..] == ts[1..] + us;
      PhaseRunAppend(cfg, PhaseTick(cfg, p, ts[0]), ts[0], d, ts[1..], us);
    }
  }

  /** Three ticks from t to `until`, in which nothing is due, and a fourth dt later. */
  function Wait(t: int, d: int, until: int, dt: int): seq<int> {
    [Min(t + d, until), Min(t + 2 * d, until), until, until + dt]
  }

  lemma {:induction false} Waiting(cfg: Config, p: Phase, t: int, d: int, until: int, dt: int)
    requires d >= 1 && 0 <= dt <= d && t <= until <= t + 3 * d
    requires forall now :: now <= until ==> PhaseTick(cfg, p, now) == p
    ensures var ts := Wait(t, d, until, dt);
      Paced(t, d, ts) && LastOf(t, ts) == until + dt && PhaseRun(cfg, p, ts) == PhaseTick(cfg, p, until + dt)
  {
    var ts := Wait(t, d, until, dt);
    var t1, t2, t3 := ts[1..], ts[1..][1..], ts[1..][1..][1..];
    assert t1 == [ts[1], ts[2], ts[3]] && t2 == [ts[2], ts[3]] && t3 == [ts[3]] && t3[1..] == [];
    assert Paced(ts[2], d, t3);
    assert Paced(ts[1], d, t2);
    assert Paced(ts[0], d, t1);
    assert PhaseRun(cfg, p, t3) == PhaseTick(cfg, p, ts[3]);
    assert PhaseRun(cfg, p, t2) == PhaseRun(cfg, p, t3);
    assert PhaseRun(cfg, p, t1) == PhaseRun(cfg, p, t2);
  }

  /** Submit as late as ticks allow, promote as late as ticks allow. */
  lemma {:induction false} SlowestCycle(cfg: Config, a: int, c: int, t: int, d: int) returns (ts: seq<int>)
    requires cfg.T >= 0 && d >= 1 && !Fast(cfg, d) && t >= c + Lead(cfg)
    ensures Paced(t, d, ts) && |ts| <= 4
    ensures var p := PhaseRun(cfg, Pending(a, c, t), ts);
      if t + cfg.Half() - 1 + d >= c + cfg.Validity() then p == Lapsed
      else p == Quiet(a + 1, t) && LastOf(t, ts) == t + cfg.Half() - 1 + d
  {
    Halves(cfg);
    var p := Pending(a, c, t);
    if t + Max(0, cfg.Half() - 1) >= c + cfg.Validity() {
      var late := if cfg.Half() == 0 then t else Min(t + d, t + cfg.Half() - 1 + d);
      if t >= c + cfg.Validity() {
        ts := [t];
        assert ts[1..] == [];
        assert Paced(t, d, ts[1..]);
        assert PhaseRun(cfg, p, ts) == PhaseRun(cfg, PhaseTick(cfg, p, t), ts[1..]);
      } else {
        // the expiry falls in the wait for the deadline
        var until := c + cfg.Validity() - 1;
        Waiting(cfg, p, t, d, until, 1);
        ts := Wait(t, d, until, 1);
      }
    } else if cfg.Half() == 0 {
      assert false;
    } else {
      Waiting(cfg, p, t, d, t + cfg.Half() - 1, d);
      ts := Wait(t, d, t + cfg.Half() - 1, d);
    }
  }

  /** The second rotation, when the pace allowed the first: submitted at the tick after the late
      promotion, and then promoted too late. */
  lemma {:induction false} SecondLapses(cfg: Config, a: int, b: int, d: int) returns (ts: seq<int>)
    requires cfg.T >= 2 && 1 <= d <= cfg.Half() && !Fast(cfg, d)
    ensures Paced(b + cfg.Half() - 1 + d, d, ts) && |ts| <= 5
    ensures PhaseRun(cfg, Quiet(a, b), ts) == Lapsed
  {
    Halves(cfg);
    var t := b + cfg.Half() - 1 + d;
    var ts1 := [t + d];
    assert ts1[1..] == [];
    assert Paced(t + d, d, ts1[1..]);
    assert PhaseRun(cfg, Quiet(a, b), ts1) == PhaseRun(cfg, Pending(a, b, t + d), []);
    var ts2 := SlowestCycle(cfg, a, b, t + d, d);
    PhaseRunAppend(cfg, Quiet(a, b), t, d, ts1, ts2);
    ts := ts1 + ts2;
  }

  /** From the submission of the successor on. */
  lemma {:induction false} FirstLapses(cfg: Config, a: int, c: int, d: int) returns (ts: seq<int>)
    requires cfg.T >= 2 && d >= 1 && !Fast(cfg, d)
    ensures Paced(c + Lead(cfg), d, ts) && |ts| <= 9
    ensures PhaseRun(cfg, Pending(a, c, c + Lead(cfg)), ts) == Lapsed
  {
    Halves(cfg);
    var b := c + Lead(cfg);
    ts := SlowestCycle(cfg, a, c, b, d);
    if d <= cfg.Half() {
      var more := SecondLapses(cfg, a + 1, b, d);
      PhaseRunAppend(cfg, Pending(a, c, b), b, d, ts, more);
      ts := ts + more;
    }
  }

  /** Above the bound thirteen paced ticks can lose the credential created at c. */
  lemma {:induction false} SlowLapses(cfg: Config, a: int, c: int, d: int) returns (ts: seq<int>)
    requires cfg.T >= 0 && d >= 1 && !Fast(cfg, d)
    ensures Paced(c, d, ts) && |ts| <= 13 && PhaseRun(cfg, Quiet(a, c), ts) == Lapsed
  {
    Halves(cfg);
    var lead := Lead(cfg);
    if cfg.T == 0 {
      ts := [c];
      assert ts[1..] == [];
      assert Paced(c, d, ts[1..]);
    } else {
      Waiting(cfg, Quiet(a, c), c, d, c + lead - 1, 1);
      ts := Wait(c, d, c + lead - 1, 1);
      if cfg.T >= 2 {
        var more := FirstLapses(cfg, a, c, d);
        PhaseRunAppend(cfg, Quiet(a, c), c, d, ts, more);
        ts := ts + more;
      }
    }
  }

  // ------------------------------------------------------------------
  // the server in a phase
  // ------------------------------------------------------------------

  /** The ACTIVE credential is unexpired at time t. */
  ghost predicate Serving(m: Records, t: int) {
    exists v :: Is(m, v, ACTIVE) && !Expired(m[v], t)
  }

  /** A tick that took no error path. */
  predicate Clean(tick: Tick) {
    && tick.Ticked?
    && (tick.submit.Some? ==> tick.submit.value.Ok?)
    && (tick.checkpoint.Some? ==> tick.checkpoint.value.Ok?)
  }

  /** Version v was created by the server at time c, has the status, and its private key is
      there. */
  ghost predicate Holds(setup: Setup, s: Server, v: int, st: Status, c: int) {
    && Is(s.records, v, st) && v in s.keys && c >= 1
    && s.records[v].identity == setup.id && s.records[v].createdAt == c
    && s.records[v].expiration == Some(c + setup.cfg.Validity())
    && (st == VALIDATING ==> s.records[v].deadline == Some(c + setup.cfg.Half()))
    && Paired(setup, s.keys[v], s.records[v])
  }

  /** Memory and disk agree. */
  ghost predicate Synced(s: Server) {
    s.rows == s.records && s.keyFile == Some(s.keys)
  }

  /** The server is in phase p at time u. */
  ghost predicate Stands(setup: Setup, s: Server, p: Phase, u: int) {
    Window(s.records) &&
    match p
    case Lapsed => !Serving(s.records, u)
    case Quiet(a, c) =>
      && Synced(s) && Holds(setup, s, a, ACTIVE, c) && a >= 1 && c <= u
      && forall w :: w in s.records ==> w <= a
    case Pending(a, c, b) =>
      && Synced(s) && Holds(setup, s, a, ACTIVE, c) && a >= 1 && c <= b <= u
      && Holds(setup, s, a + 1, VALIDATING, b)
  }

  lemma {:induction false} TheActive(setup: Setup, s: Server, v: int, c: int)
    requires Window(s.records) && Holds(setup, s, v, ACTIVE, c)
    ensures Lookup(s.records, ACTIVE) == Some(s.records[v])
  {
  }

  lemma {:induction false} TheValidating(setup: Setup, s: Server, v: int, b: int)
    requires Window(s.records) && Holds(setup, s, v, VALIDATING, b)
    ensures Lookup(s.records, VALIDATING) == Some(s.records[v])
  {
  }

  lemma {:induction false} NoValidating(m: Records, a: int)
    requires Window(m) && Is(m, a, ACTIVE) && forall w :: w in m ==> w <= a
    ensures Lookup(m, VALIDATING).None?
  {
  }

  lemma {:induction false} ServesUntil(setup: Setup, s: Server, v: int, c: int, t: int)
    requires Window(s.records) && Holds(setup, s, v, ACTIVE, c)
    ensures Serving(s.records, t) <==> t < c + setup.cfg.Validity()
  {
  }

  lemma {:induction false} LapsedTick(setup: Setup, s: Server, g: Fresh, now: int)
    requires Window(s.records) && !Serving(s.records, now)
    ensures var s' := AfterTick(setup, s, g, now).0; Window(s'.records) && !Serving(s'.records, now)
  {
    var m := s.records;
    var active := Lookup(m, ACTIVE);
    if active.Some? {
      assert Is(m, active.value.version, ACTIVE);
      assert Expired(active.value, now);
      var x := CheckpointChanges(setup.cfg, m, now);
      var n := AfterCheckpoint(setup.cfg, m, now).records;
      ChangeKeepsWindow(setup.cfg, m, Event(now, Checkpoint), n, x);
      assert !x.Shift?;
      assert forall v :: Is(n, v, ACTIVE) ==> Is(m, v, ACTIVE) && n[v] == m[v];
    }
  }

  /** The server after the submission of version a + 1. */
  function WithSuccessor(setup: Setup, s: Server, a: int, g: Fresh, now: int): Server
    requires a in s.records
  {
    var n := Submitted(setup.cfg, Successor(setup.id, s.records[a], g), now);
    Persisted(s.(records := s.records[a + 1 := n], keys := s.keys[a + 1 := (g.edPrivate, g.xPrivate)]))
  }

  /** Its payload can be encoded and its signature verifies, so the submission is accepted. */
  lemma {:induction false} OwnSubmitAccepted(setup: Setup, s: Server, a: int, c: int, g: Fresh, now: int)
    requires Holds(setup, s, a, ACTIVE, c) && Window(s.records) && forall w :: w in s.records ==> w <= a
    requires Genuine(setup, g) && a >= 1 && a + 1 < VERSIONS && now < c + setup.cfg.Validity()
    ensures AfterOwnSubmit(setup, s, s.records[a], g, now) == (WithSuccessor(setup, s, a, g, now), Ok(Ok(())))
  {
  }

  lemma {:induction false} SubmittedStands(setup: Setup, s: Server, a: int, c: int, g: Fresh, now: int)
    requires Window(s.records) && Synced(s) && Holds(setup, s, a, ACTIVE, c)
    requires forall w :: w in s.records ==> w <= a
    requires Genuine(setup, g) && a >= 1 && c <= now
    ensures Stands(setup, WithSuccessor(setup, s, a, g, now), Pending(a, c, now), now)
  {
    NoValidating(s.records, a);
    var n := Submitted(setup.cfg, Successor(setup.id, s.records[a], g), now);
    var m := s.records[a + 1 := n];
    assert s.rows + m == m;
    assert NextAfter(s.records, a + 1);
    AddingKeepsWindow(s.records, n);
  }

  lemma {:induction false} TickSubmits(setup: Setup, s: Server, active: Credential, g: Fresh, now: int, s': Server)
    requires Lookup(s.records, ACTIVE) == Some(active) && Lookup(s.records, VALIDATING).None?
    requires now >= RotateAt(setup.cfg, active, now)
    requires AfterOwnSubmit(setup, s, active, g, now) == (s', Ok(Ok(())))
    requires Lookup(s'.records, VALIDATING).Some?
    requires now < OrElse(Lookup(s'.records, VALIDATING).value.deadline, 0)
    ensures AfterTick(setup, s, g, now) == (s', Ticked(Some(Ok(())), None))
  {
  }

  lemma {:induction false} QuietSubmits(setup: Setup, s: Server, a: int, c: int, u: int, g: Fresh, now: int)
    requires setup.cfg.T >= 0 && Stands(setup, s, Quiet(a, c), u) && Genuine(setup, g) && a + 1 < VERSIONS
    requires u <= now && c + Lead(setup.cfg) <= now < c + setup.cfg.Validity()
    ensures var (s', tick) := AfterTick(setup, s, g, now);
      Stands(setup, s', Pending(a, c, now), now) && Clean(tick)
  {
    Halves(setup.cfg);
    TheActive(setup, s, a, c);
    NoValidating(s.records, a);
    OwnSubmitAccepted(setup, s, a, c, g, now);
    SubmittedStands(setup, s, a, c, g, now);
    TheValidating(setup, WithSuccessor(setup, s, a, g, now), a + 1, now);
    TickSubmits(setup, s, s.records[a], g, now, WithSuccessor(setup, s, a, g, now));
  }

  lemma {:induction false} QuietWaits(setup: Setup, s: Server, a: int, c: int, u: int, g: Fresh, now: int)
    requires setup.cfg.T >= 0 && Stands(setup, s, Quiet(a, c), u)
    requires now < c + Lead(setup.cfg) && now < c + setup.cfg.Validity()
    ensures AfterTick(setup, s, g, now) == (s, IDLE)
  {
    Halves(setup.cfg);
    TheActive(setup, s, a, c);
    NoValidating(s.records, a);
  }

  lemma {:induction false} PendingWaits(setup: Setup, s: Server, a: int, c: int, b: int, u: int, g: Fresh, now: int)
    requires setup.cfg.T >= 0 && Stands(setup, s, Pending(a, c, b), u) && now < b + setup.cfg.Half()
    ensures AfterTick(setup, s, g, now) == (s, IDLE)
  {
    TheActive(setup, s, a, c);
    TheValidating(setup, s, a + 1, b);
  }

  lemma {:induction false} PendingPromotes(setup: Setup, s: Server, a: int, c: int, b: int, u: int, g: Fresh,
                                           now: int)
    requires setup.cfg.T >= 0 && Stands(setup, s, Pending(a, c, b), u) && u <= now
    requires b + setup.cfg.Half() <= now < c + setup.cfg.Validity()
    ensures var (s', tick) := AfterTick(setup, s, g, now);
      Stands(setup, s', Quiet(a + 1, b), now) && Clean(tick)
  {
    TheActive(setup, s, a, c);
    TheValidating(setup, s, a + 1, b);
    var m := AfterCheckpoint(setup.cfg, s.records, now);
    assert m.result.Ok?;
    var x := CheckpointChanges(setup.cfg, s.records, now);
    assert x == Shift(a, a + 1);
    ShiftKeepsWindow(setup.cfg, s.records, m.records, now, a, a + 1);
    assert s.rows + m.records == m.records;
    assert forall w :: w in m.records ==> w <= a + 1;
  }

  /** One tick moves the server as PhaseTick moves its phase, with no error path unless it has
      lapsed. */
  lemma {:induction false} Simulates(setup: Setup, s: Server, p: Phase, u: int, g: Fresh, now: int)
    requires setup.cfg.T >= 0 && Stands(setup, s, p, u) && Genuine(setup, g) && u <= now
    requires Version(PhaseTick(setup.cfg, p, now)) < VERSIONS
    ensures var ((s', tick), p') := (AfterTick(setup, s, g, now), PhaseTick(setup.cfg, p, now));
      Stands(setup, s', p', now) && (p' != Lapsed ==> Clean(tick))
  {
    if PhaseTick(setup.cfg, p, now) == Lapsed {
      if p != Lapsed {
        ServesUntil(setup, s, p.a, p.c, now);
      } else {
        assert forall v :: Is(s.records, v, ACTIVE) ==> Expired(s.records[v], u);
      }
      LapsedTick(setup, s, g, now);
    } else {
      match p
      case Quiet(a, c) =>
        if now >= c + Lead(setup.cfg) {
          QuietSubmits(setup, s, a, c, u, g, now);
        } else {
          QuietWaits(setup, s, a, c, u, g, now);
        }
      case Pending(a, c, b) =>
        if now >= b + setup.cfg.Half() {
          PendingPromotes(setup, s, a, c, b, u, g, now);
        } else {
          PendingWaits(setup, s, a, c, b, u, g, now);
        }
    }
  }

  // ------------------------------------------------------------------
  // runs
  // ------------------------------------------------------------------

  datatype Beat = Beat(now: int, g: Fresh)

  function Times(bs: seq<Beat>): (ts: seq<int>)
    ensures |ts| == |bs|
  {
    if bs == [] then [] else [bs[0].now] + Times(bs[1..])
  }

  ghost function Ticks(setup: Setup, s: Server, bs: seq<Beat>): Server
    decreases bs
  {
    if bs == [] then s else Ticks(setup, AfterTick(setup, s, bs[0].g, bs[0].now).0, bs[1..])
  }

  ghost predicate AllClean(setup: Setup, s: Server, bs: seq<Beat>)
    decreases bs
  {
    bs == [] || (var (s', tick) := AfterTick(setup, s, bs[0].g, bs[0].now);
                 Clean(tick) && AllClean(setup, s', bs[1..]))
  }

  ghost predicate AllGenuine(setup: Setup, bs: seq<Beat>) {
    forall b :: b in bs ==> Genuine(setup, b.g)
  }

  /** Ticks from the first provisioning on: at most d apart, with generated keys, and with versions
      that fit their 32 bits. */
  ghost predicate Ticking(setup: Setup, start: int, d: int, bs: seq<Beat>) {
    Paced(start, d, Times(bs)) && AllGenuine(setup, bs) && Fits(setup.cfg, Quiet(1, start), Times(bs))
  }

  lemma {:induction false} SimulatesRun(setup: Setup, s: Server, p: Phase, u: int, bs: seq<Beat>, d: int)
    requires setup.cfg.T >= 0 && Stands(setup, s, p, u) && AllGenuine(setup, bs) && Paced(u, d, Times(bs))
    requires Fits(setup.cfg, p, Times(bs))
    ensures Stands(setup, Ticks(setup, s, bs), PhaseRun(setup.cfg, p, Times(bs)), LastOf(u, Times(bs)))
    ensures PhaseRun(setup.cfg, p, Times(bs)) != Lapsed ==> AllClean(setup, s, bs)
    decreases bs
  {
    if bs != [] {
      assert bs[0] in bs;
      var now, rest := bs[0].now, Times(bs[1..]);
      assert Times(bs)[1..] == rest;
      Simulates(setup, s, p, u, bs[0].g, now);
      var p' := PhaseTick(setup.cfg, p, now);
      SimulatesRun(setup, AfterTick(setup, s, bs[0].g, now).0, p', now, bs[1..], d);
      if p' == Lapsed {
        LapsedPhase(setup.cfg, rest);
      }
    }
  }

  lemma {:induction false} LapsedPhase(cfg: Config, ts: seq<int>)
    ensures PhaseRun(cfg, Lapsed, ts) == Lapsed
  {
    if ts != [] {
      LapsedPhase(cfg, ts[1..]);
    }
  }

  const NEW := Server(map[], map[], map[], None)

  /** The server after its first start. */
  ghost function Started(setup: Setup, g: Fresh, start: int): Server {
    AfterStart(setup, NEW, g, start).0
  }

  lemma {:induction false} StartStands(setup: Setup, g: Fresh, start: int)
    requires Genuine(setup, g) && start >= 1
    ensures Stands(setup, Started(setup, g, start), Quiet(1, start), start)
  {
  }

  /** Server rotation never lapses. From the first provisioning on, with ticks at most d apart and
      3d <= (T+1)/2 + 1, no tick takes an error path, the ACTIVE credential is unexpired at every
      time up to the next tick and its private keys are there, versions keep up with time, and
      what is in memory is what is on disk; for as long as versions fit their 32 bits. */
  lemma {:induction false} NeverLapses(setup: Setup, g: Fresh, start: int, d: int, bs: seq<Beat>, t: int)
    returns (a: int)
    requires setup.cfg.T >= 0 && d >= 1 && Fast(setup.cfg, d) && Genuine(setup, g) && start >= 1
    requires Ticking(setup, start, d, bs)
    requires LastOf(start, Times(bs)) <= t <= LastOf(start, Times(bs)) + d
    ensures AllClean(setup, Started(setup, g, start), bs)
    ensures var s := Ticks(setup, Started(setup, g, start), bs);
      && Is(s.records, a, ACTIVE) && !Expired(s.records[a], t)
      && a in s.keys && Paired(setup, s.keys[a], s.records[a])
      && LastOf(start, Times(bs)) - s.records[a].createdAt <= setup.cfg.T - 2 + 2 * d
      && Synced(s)
  {
    Halves(setup.cfg);
    StartStands(setup, g, start);
    SimulatesRun(setup, Started(setup, g, start), Quiet(1, start), start, bs, d);
    FastStaysOnTime(setup.cfg, Quiet(1, start), start, d, Times(bs));
    a := PhaseRun(setup.cfg, Quiet(1, start), Times(bs)).a;
  }

  /** So restarting the server between two ticks changes nothing. */
  lemma {:induction false} RestartInvisible(setup: Setup, s: Server, g: Fresh, now: int)
    requires Synced(s) && s.records != map[]
    ensures AfterStart(setup, s.(records := map[], keys := map[]), g, now) == (s, true)
  {
  }

  predicate Later(t: int, bs: seq<Beat>)
    decreases bs
  {
    bs == [] || (t <= bs[0].now && Later(bs[0].now, bs[1..]))
  }

  function LastBeat(t: int, bs: seq<Beat>): int {
    if bs == [] then t else bs[|bs| - 1].now
  }

  /** Once the ACTIVE credential has expired, or there is none, no later tick ever brings one
      back. */
  lemma {:induction false} LapsedForever(setup: Setup, s: Server, t: int, bs: seq<Beat>)
    requires Window(s.records) && !Serving(s.records, t) && Later(t, bs)
    ensures !Serving(Ticks(setup, s, bs).records, LastBeat(t, bs))
    decreases bs
  {
    if bs != [] {
      assert forall v :: Is(s.records, v, ACTIVE) ==> Expired(s.records[v], t);
      LapsedTick(setup, s, bs[0].g, bs[0].now);
      LapsedForever(setup, AfterTick(setup, s, bs[0].g, bs[0].now).0, bs[0].now, bs[1..]);
    }
  }

  function Beats(ts: seq<int>, g: Fresh): (bs: seq<Beat>)
    ensures Times(bs) == ts && forall b :: b in bs ==> b.g == g
  {
    if ts == [] then [] else
      var rest := Beats(ts[1..], g);
      var bs := [Beat(ts[0], g)] + rest;
      assert bs[1..] == rest;
      bs
  }

  /** Above the bound thirteen paced ticks leave the server without an unexpired ACTIVE credential. */
  lemma {:induction false} SomeRunLapses(setup: Setup, g: Fresh, start: int, d: int) returns (bs: seq<Beat>)
    requires setup.cfg.T >= 0 && d >= 1 && !Fast(setup.cfg, d) && start >= 1 && Genuine(setup, g)
    ensures Ticking(setup, start, d, bs) && |bs| <= 13
    ensures !Serving(Ticks(setup, Started(setup, g, start), bs).records, LastOf(start, Times(bs)))
  {
    var ts := SlowLapses(setup.cfg, 1, start, d);
    bs := Beats(ts, g);
    FewFit(setup.cfg, Quiet(1, start), ts);
    StartStands(setup, g, start);
    SimulatesRun(setup, Started(setup, g, start), Quiet(1, start), start, bs, d);
  }

  /** The bound is exact: ticks at most d apart keep the server serving in every run if and only
      if 3d <= (T+1)/2 + 1. */
  lemma {:induction false} RotationBound(setup: Setup, g: Fresh, start: int, d: int)
    requires setup.cfg.T >= 0 && d >= 1 && start >= 1 && Genuine(setup, g)
    ensures 3 * d <= (setup.cfg.T + 1) / 2 + 1 <==>
      forall bs :: Ticking(setup, start, d, bs) ==>
        Serving(Ticks(setup, Started(setup, g, start), bs).records, LastOf(start, Times(bs)))
  {
    if Fast(setup.cfg, d) {
      forall bs | Ticking(setup, start, d, bs)
        ensures Serving(Ticks(setup, Started(setup, g, start), bs).records, LastOf(start, Times(bs)))
      {
        var a := NeverLapses(setup, g, start, d, bs, LastOf(start, Times(bs)));
      }
    } else {
      var bs := SomeRunLapses(setup, g, start, d);
    }
  }
}
