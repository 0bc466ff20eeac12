/** What the registry's transactions make of the engine's runs: atomic steps, independent
    identities, the validating credential that outlives its expiry, and the exact outcome of
    enrollment and recovery. */
module RegistryTheorems {
  import opened Basics
  import opened Credentials
  import opened RotationEngine
  import opened RotationRuns
  import opened RotationTheorems
  import opened Registry

  // ------------------------------------------------------------------
  // committed runs
  // ------------------------------------------------------------------

  /** The rows of one identity after a run in which only successful steps are committed. */
  ghost function CommitRun(cfg: Config, m: Records, es: seq<Event>): Records
    decreases es
  {
    if es == [] then m else CommitRun(cfg, Commit(cfg, m, es[0]), es[1..])
  }

  /** The steps of the run that were committed. */
  ghost function Committed(cfg: Config, m: Records, es: seq<Event>): seq<Event>
    decreases es
  {
    if es == [] then []
    else
      var rest := Committed(cfg, Commit(cfg, m, es[0]), es[1..]);
      if Succeeds(cfg, m, es[0]) then [es[0]] + rest else rest
  }

  lemma {:induction false} CommittedForward(cfg: Config, m: Records, es: seq<Event>, t: int)
    requires Forward(t, es)
    ensures Forward(t, Committed(cfg, m, es)) && EndOf(t, Committed(cfg, m, es)) <= EndOf(t, es)
    ensures forall e :: e in Committed(cfg, m, es) ==> e in es
    decreases es
  {
    if es != [] {
      var rest := Committed(cfg, Commit(cfg, m, es[0]), es[1..]);
      CommittedForward(cfg, Commit(cfg, m, es[0]), es[1..], es[0].now);
      if Succeeds(cfg, m, es[0]) {
        assert ([es[0]] + rest)[1..] == rest;
      } else {
        EarlierStart(t, es[0].now, rest);
        EndAfter(es[0].now, es[1..]);
      }
    }
  }

  lemma {:induction false} EarlierStart(t: int, u: int, es: seq<Event>)
    requires t <= u && Forward(u, es)
    ensures Forward(t, es) && EndOf(t, es) <= EndOf(u, es)
  {
  }

  /** A registry run is the engine run of its committed steps. */
  lemma {:induction false} CommittedIsRun(cfg: Config, m: Records, es: seq<Event>)
    ensures CommitRun(cfg, m, es) == Run(cfg, m, Committed(cfg, m, es))
    decreases es
  {
    if es != [] {
      var rest := Committed(cfg, Commit(cfg, m, es[0]), es[1..]);
      CommittedIsRun(cfg, Commit(cfg, m, es[0]), es[1..]);
      if Succeeds(cfg, m, es[0]) {
        assert ([es[0]] + rest)[1..] == rest;
      }
    }
  }

  lemma {:induction false} CommitAppend(cfg: Config, m: Records, es: seq<Event>, fs: seq<Event>)
    ensures CommitRun(cfg, m, es + fs) == CommitRun(cfg, CommitRun(cfg, m, es), fs)
    decreases es
  {
    if es == [] {
      assert es + fs == fs;
    } else {
      assert (es + fs)[1..] == es[1..] + fs;
      CommitAppend(cfg, Commit(cfg, m, es[0]), es[1..], fs);
    }
  }

  /** SR-14 of the persisted rows: a version that a committed checkpoint demoted at time c
      authenticates at every time of [c, c + T/2) in every registry run that does not revoke it, and
      no checkpoint is committed in that interval. */
  lemma {:induction false} CommittedFallback(cfg: Config, past: seq<Event>, c: int, future: seq<Event>, t: int,
                                             v: int)
    requires var m := CommitRun(cfg, map[], past);
      Succeeds(cfg, m, Event(c, Checkpoint)) && Is(m, v, ACTIVE)
    requires Forward(c, future) && EndOf(c, future) <= t < c + cfg.Half()
    requires forall i :: 0 <= i < |future| ==> future[i].op != Revoke(v)
    ensures var m := Commit(cfg, CommitRun(cfg, map[], past), Event(c, Checkpoint));
      var n := CommitRun(cfg, m, future);
      Accepts(n, v, t) && !Succeeds(cfg, n, Event(t, Checkpoint))
  {
    var m := Commit(cfg, CommitRun(cfg, map[], past), Event(c, Checkpoint));
    var done := Committed(cfg, m, future);
    CommittedIsRun(cfg, map[], past);
    CommittedIsRun(cfg, m, future);
    CommittedForward(cfg, m, future, c);
    forall i | 0 <= i < |done| ensures done[i].op != Revoke(v) {
      assert done[i] in future;
    }
    FullFallback(cfg, Committed(cfg, map[], past), c, done, t, v);
  }

  /** No persisted version is accepted at or after its creation plus 2T. */
  lemma {:induction false} CommittedLife(cfg: Config, es: seq<Event>, v: int, t: int)
    requires cfg.T >= 0 && Accepts(CommitRun(cfg, map[], es), v, t)
    ensures t < CommitRun(cfg, map[], es)[v].createdAt + 2 * cfg.T
  {
    CommittedIsRun(cfg, map[], es);
    BoundedLife(cfg, Committed(cfg, map[], es), v, t);
  }

  // ------------------------------------------------------------------
  // the registry's sweeps
  // ------------------------------------------------------------------

  /** Where a sweep cannot matter: a provisioning finds something VALIDATING, or no ACTIVE credential
      that has expired. */
  ghost predicate Unswayed(m: Records, e: Event) {
    e.op.Provision? ==>
      (exists v :: Is(m, v, VALIDATING)) || (forall a :: Is(m, a, ACTIVE) ==> !Expired(m[a], e.now))
  }

  ghost predicate AllUnswayed(cfg: Config, m: Records, es: seq<Event>)
    decreases es
  {
    es == [] || (Unswayed(m, es[0]) && AllUnswayed(cfg, Commit(cfg, m, es[0]), es[1..]))
  }

  lemma {:induction false} SweptSame(cfg: Config, m: Records, n: Records, e: Event)
    requires Window(m) && Window(n) && Swept(m, n, e.now) && Unswayed(m, e) && !e.op.ExpireAll?
    ensures Succeeds(cfg, m, e) <==> Succeeds(cfg, n, e)
  {
    SweptLookup(m, n, VALIDATING, e.now);
    SweptLookup(m, n, ACTIVE, e.now);
    SweptLookup(m, n, FALLBACK, e.now);
    if e.op.Submit? || e.op.Provision? {
      assert NextAfter(m, e.op.c.version) <==> NextAfter(n, e.op.c.version) by {
        assert m == map[] <==> m.Keys == {};
        assert n == map[] <==> n.Keys == {};
      }
    }
  }

  lemma {:induction false} SweptProvision(cfg: Config, m: Records, n: Records, e: Event)
    requires Window(m) && Window(n) && Swept(m, n, e.now) && Unswayed(m, e) && e.op.Provision?
    ensures Swept(Commit(cfg, m, e), Commit(cfg, n, e), e.now)
  {
    SweptSame(cfg, m, n, e);
  }

  lemma {:induction false} SweptCommit(cfg: Config, m: Records, n: Records, e: Event)
    requires Window(m) && Window(n) && Swept(m, n, e.now) && Unswayed(m, e) && !e.op.ExpireAll?
    ensures Swept(Commit(cfg, m, e), Commit(cfg, n, e), e.now)
  {
    SweptSame(cfg, m, n, e);
    if e.op.Provision? {
      SweptProvision(cfg, m, n, e);
    } else {
      SweptStep(cfg, m, n, e);
    }
  }

  lemma {:induction false} CommitWindow(cfg: Config, m: Records, e: Event)
    requires Window(m)
    ensures Window(Commit(cfg, m, e))
  {
    WindowStep(cfg, m, e);
  }

  /** n follows every event of the run, m skips the sweeps. */
  lemma {:induction false} SweptCommitRun(cfg: Config, m: Records, n: Records, es: seq<Event>, t: int)
    requires Window(m) && Window(n) && Swept(m, n, t) && Forward(t, es) && AllUnswayed(cfg, m, Strip(es))
    ensures Swept(CommitRun(cfg, m, Strip(es)), CommitRun(cfg, n, es), EndOf(t, es))
    decreases es
  {
    if es != [] {
      var e, rest := es[0], es[1..];
      assert Swept(m, n, e.now);
      CommitWindow(cfg, n, e);
      if e.op.ExpireAll? {
        SweptSweep(m, n, e.now);
        SweptCommitRun(cfg, m, Commit(cfg, n, e), rest, e.now);
      } else {
        assert Strip(es)[0] == e && Strip(es)[1..] == Strip(rest);
        CommitWindow(cfg, m, e);
        SweptCommit(cfg, m, n, e);
        SweptCommitRun(cfg, Commit(cfg, m, e), Commit(cfg, n, e), rest, e.now);
      }
    }
  }

  /** The registry's expiry sweeps, the only ones there are, never change an authentication answer,
      whatever else was committed or refused in between, as long as no provisioning meets an expired
      ACTIVE credential with nothing VALIDATING. */
  lemma {:induction false} RegistrySweepsInvisible(cfg: Config, m: Records, es: seq<Event>, t0: int, v: int, t: int)
    requires Window(m) && Forward(t0, es) && EndOf(t0, es) <= t && AllUnswayed(cfg, m, Strip(es))
    ensures var eager, lazy := CommitRun(cfg, m, es), CommitRun(cfg, m, Strip(es));
      && (Accepts(eager, v, t) <==> Accepts(lazy, v, t))
      && (Accepts(eager, v, t) ==> eager[v] == lazy[v])
  {
    SweptCommitRun(cfg, m, m, es, t0);
  }

  // ------------------------------------------------------------------
  // identities do not disturb each other
  // ------------------------------------------------------------------

  datatype Call = On(id: Uuid, e: Event) | Sweep(now: int)

  ghost function TableNext(cfg: Config, t: Table, call: Call): Table {
    match call
    case On(id, e) => Applied(cfg, t, id, e)
    case Sweep(now) => map id | id in t :: AfterExpiry(t[id], now)
  }

  ghost function TableRun(cfg: Config, t: Table, calls: seq<Call>): Table
    decreases calls
  {
    if calls == [] then t else TableRun(cfg, TableNext(cfg, t, calls[0]), calls[1..])
  }

  /** The events a sequence of calls holds for one identity. */
  function Project(id: Uuid, calls: seq<Call>): seq<Event>
    decreases calls
  {
    if calls == [] then []
    else
      var rest := Project(id, calls[1..]);
      match calls[0]
      case On(i, e) => if i == id then [e] + rest else rest
      case Sweep(now) => [Event(now, ExpireAll)] + rest
  }

  predicate OwnCalls(calls: seq<Call>) {
    forall call :: call in calls && call.On? ==> OwnOp(call.e.op, call.id)
  }

  lemma {:induction false} NextHealthy(cfg: Config, t: Table, call: Call)
    requires Healthy(t) && (call.On? ==> OwnOp(call.e.op, call.id))
    ensures Healthy(TableNext(cfg, t, call))
  {
    match call
    case On(id, e) => AppliedRows(cfg, t, id, e, id);
    case Sweep(now) =>
      forall id | id in t ensures Owned(AfterExpiry(t[id], now), id) && Window(AfterExpiry(t[id], now)) {
        CommitKeeps(cfg, t[id], id, Event(now, ExpireAll));
      }
  }

  lemma {:induction false} OneCall(cfg: Config, t: Table, call: Call, id: Uuid, rest: seq<Event>)
    requires Healthy(t) && (call.On? ==> OwnOp(call.e.op, call.id))
    ensures CommitRun(cfg, Rows(TableNext(cfg, t, call), id), rest) ==
      CommitRun(cfg, Rows(t, id), (match call
                                   case On(i, e) => if i == id then [e] else []
                                   case Sweep(now) => [Event(now, ExpireAll)]) + rest)
  {
    match call
    case On(i, e) =>
      AppliedRows(cfg, t, i, e, id);
      assert ([e] + rest)[1..] == rest;
      assert [] + rest == rest;
    case Sweep(now) =>
      var e := Event(now, ExpireAll);
      assert ([e] + rest)[1..] == rest;
      assert Rows(TableNext(cfg, t, call), id) == AfterExpiry(Rows(t, id), now);
  }

  /** Whatever the interleaving of calls for any number of identities, the rows of each are
      those of its own committed run. */
  lemma {:induction false} Isolation(cfg: Config, t: Table, calls: seq<Call>, id: Uuid)
    requires Healthy(t) && OwnCalls(calls)
    ensures Healthy(TableRun(cfg, t, calls))
    ensures Rows(TableRun(cfg, t, calls), id) == CommitRun(cfg, Rows(t, id), Project(id, calls))
    decreases calls
  {
    if calls != [] {
      assert calls[0] in calls;
      assert OwnCalls(calls[1..]);
      NextHealthy(cfg, t, calls[0]);
      Isolation(cfg, TableNext(cfg, t, calls[0]), calls[1..], id);
      OneCall(cfg, t, calls[0], id, Project(id, calls[1..]));
    }
  }

  // ------------------------------------------------------------------
  // a validating credential past its expiry
  // ------------------------------------------------------------------

  lemma {:induction false} StuckStep(cfg: Config, m: Records, e: Event, v: int)
    requires Window(m) && Is(m, v, VALIDATING) && Expired(m[v], e.now)
    requires e.op != Rollback && e.op != Revoke(v)
    ensures Window(Commit(cfg, m, e)) && v in Commit(cfg, m, e) && Commit(cfg, m, e)[v] == m[v]
    ensures e.op.Submit? || e.op.Checkpoint? || e.op.Provision? ==> !Succeeds(cfg, m, e)
  {
    WindowStep(cfg, m, e);
    var x := ChangeOf(cfg, m, e);
  }

  /** The registry never persists the engine's own marking of such a credential, so from its
      expiry on no submission, checkpoint or provisioning succeeds in any run, whatever the time,
      until a rollback or the revocation of that version. */
  lemma {:induction false} StuckValidating(cfg: Config, m: Records, es: seq<Event>, t: int, v: int, e: Event)
    requires Window(m) && Is(m, v, VALIDATING) && Expired(m[v], t)
    requires Forward(t, es) && EndOf(t, es) <= e.now
    requires forall f :: f in es ==> f.op != Rollback && f.op != Revoke(v)
    ensures Is(CommitRun(cfg, m, es), v, VALIDATING)
    ensures e.op.Submit? || e.op.Checkpoint? || e.op.Provision? ==> !Succeeds(cfg, CommitRun(cfg, m, es), e)
    ensures e.op.Rollback? || e.op == Revoke(v) ==>
      && Succeeds(cfg, CommitRun(cfg, m, es), e)
      && forall w :: !Is(Commit(cfg, CommitRun(cfg, m, es), e), w, VALIDATING)
    decreases es
  {
    if es == [] {
      if e.op.Rollback? || e.op == Revoke(v) {
        assert Lookup(m, VALIDATING) == Some(m[v]);
        assert forall w :: Is(Commit(cfg, m, e), w, VALIDATING) ==> Is(m, w, VALIDATING);
      } else {
        StuckStep(cfg, m, e, v);
      }
    } else {
      assert es[0] in es;
      StuckStep(cfg, m, es[0], v);
      EndAfter(es[0].now, es[1..]);
      StuckValidating(cfg, Commit(cfg, m, es[0]), es[1..], es[0].now, v, e);
    }
  }

  /** The engine in memory does mark it, and so is free again: the same failed checkpoint leaves
      the rows and the engine they were loaded into in different states. */
  lemma {:induction false} CheckpointForgets(cfg: Config, m: Records, now: int, v: int)
    requires Window(m) && Is(m, v, VALIDATING) && Expired(m[v], now) && now >= OrElse(m[v].deadline, 0)
    ensures var e := Event(now, Checkpoint);
      && Commit(cfg, m, e) == m
      && Next(cfg, m, e) == m[v := m[v].(status := EXPIRED)]
      && forall w :: !Is(Next(cfg, m, e), w, VALIDATING)
  {
    assert Lookup(m, VALIDATING) == Some(m[v]);
    var n := m[v := m[v].(status := EXPIRED)];
    forall w ensures !Is(n, w, VALIDATING) {
      assert Is(n, w, VALIDATING) ==> Is(m, w, VALIDATING);
    }
  }

  // ------------------------------------------------------------------
  // enrollment and recovery
  // ------------------------------------------------------------------

  /** Enrollment succeeds exactly when its checks pass and the version fits: 1 for a new identity,
      one past the newest for a recovery that finds nothing VALIDATING. */
  lemma {:induction false} EnrollSucceedsIff(cfg: Config, s: Store, id: Uuid, kind: Kind, hash: bytes,
                                             version: int, ed: bytes, x: bytes, now: int)
    requires Healthy(s.rows)
    ensures Enrolled(cfg, s, id, kind, hash, version, ed, x, now).1.None? <==>
      && Refusal(s, id, kind, hash, now).None?
      && (if s.tokens[hash].purpose == ENROLL then version == 1
          else NextAfter(Rows(s.rows, id), version) && forall v :: !Is(Rows(s.rows, id), v, VALIDATING))
  {
    if Refusal(s, id, kind, hash, now).None? {
      var m := Rows(s.rows, id);
      ClaimedHealthy(s, id, kind, hash, now);
      WithdrawnKeeps(m, id);
      assert Withdrawn(m).Keys == m.Keys;
      assert NextAfter(m, version) <==> NextAfter(Withdrawn(m), version) by {
        assert m == map[] <==> m.Keys == {};
        assert Withdrawn(m) == map[] <==> Withdrawn(m).Keys == {};
      }
    }
  }

  lemma {:induction false} OnlySweeps(id: Uuid, calls: seq<Call>)
    requires forall call :: call in calls && call.On? ==> call.id != id
    ensures forall e :: e in Project(id, calls) ==> e.op.ExpireAll?
    decreases calls
  {
    if calls != [] {
      assert calls[0] in calls;
      OnlySweeps(id, calls[1..]);
    }
  }

  lemma {:induction false} SweepsIdle(cfg: Config, m: Records, es: seq<Event>)
    requires forall v :: !Is(m, v, ACTIVE) && !Is(m, v, FALLBACK)
    requires forall e :: e in es ==> e.op.ExpireAll?
    ensures CommitRun(cfg, m, es) == m
    decreases es
  {
    if es != [] {
      assert es[0] in es;
      forall v | v in m ensures Lapsed(m[v], es[0].now) == m[v] {
        assert !Is(m, v, ACTIVE) && !Is(m, v, FALLBACK);
      }
      assert Commit(cfg, m, es[0]) == m;
      SweepsIdle(cfg, m, es[1..]);
    }
  }

  /** What the store holds between the two transactions has nothing that could authenticate. */
  lemma {:induction false} ClaimedIdle(s: Store, id: Uuid, kind: Kind, hash: bytes, now: int, v: int)
    requires Healthy(s.rows) && Refusal(s, id, kind, hash, now).None?
    ensures var m := Rows(Claimed(s, id, kind, hash, now).rows, id); !Is(m, v, ACTIVE) && !Is(m, v, FALLBACK)
  {
    ClaimedHealthy(s, id, kind, hash, now);
    WithdrawnKeeps(Rows(s.rows, id), id);
  }

  /** The gap between enrollment's two transactions, with any calls in it: the second transaction is the
      provisioning of what they left, it succeeds exactly when they left nothing ACTIVE or VALIDATING and
      the version still fits, and calls for other identities and sweeps make no difference at all. */
  lemma {:induction false} EnrollInterleaved(cfg: Config, s: Store, id: Uuid, kind: Kind, hash: bytes,
                                             calls: seq<Call>, version: int, ed: bytes, x: bytes, now: int)
    requires Healthy(s.rows) && OwnCalls(calls) && Refusal(s, id, kind, hash, now).None?
    requires s.tokens[hash].purpose == ENROLL ==> version == 1
    ensures var claimed := Claimed(s, id, kind, hash, now).rows;
      var e := Event(now, Provision(Generated(id, version, ed, x)));
      var (t, between) := (TableRun(cfg, claimed, calls), CommitRun(cfg, Rows(claimed, id), Project(id, calls)));
      && Rows(t, id) == between
      && Rows(Applied(cfg, t, id, e), id) == Commit(cfg, between, e)
      && (Succeeds(cfg, between, e) <==>
            NextAfter(between, version) && forall v :: !Is(between, v, ACTIVE) && !Is(between, v, VALIDATING))
      && ((forall call :: call in calls && call.On? ==> call.id != id) ==>
            Rows(Applied(cfg, t, id, e), id) == Rows(Enrolled(cfg, s, id, kind, hash, version, ed, x, now).0.rows, id))
  {
    var claimed, e := Claimed(s, id, kind, hash, now).rows, Event(now, Provision(Generated(id, version, ed, x)));
    var t, between := TableRun(cfg, claimed, calls), CommitRun(cfg, Rows(claimed, id), Project(id, calls));
    ClaimedHealthy(s, id, kind, hash, now);
    Isolation(cfg, claimed, calls, id);
    AppliedRows(cfg, t, id, e, id);
    AppliedRows(cfg, claimed, id, e, id);
    ProvisionIff(cfg, between, e);
    if forall call :: call in calls && call.On? ==> call.id != id {
      OnlySweeps(id, calls);
      forall v ensures !Is(Rows(claimed, id), v, ACTIVE) && !Is(Rows(claimed, id), v, FALLBACK) {
        ClaimedIdle(s, id, kind, hash, now, v);
      }
      SweepsIdle(cfg, Rows(claimed, id), Project(id, calls));
    }
  }

  lemma {:induction false} ProvisionIff(cfg: Config, m: Records, e: Event)
    requires Window(m) && e.op.Provision? && e.op.c.status == GENERATED
    ensures Succeeds(cfg, m, e) <==>
      NextAfter(m, e.op.c.version) && forall v :: !Is(m, v, ACTIVE) && !Is(m, v, VALIDATING)
  {
    assert forall v :: Is(m, v, ACTIVE) ==> Lookup(m, ACTIVE).Some?;
    assert forall v :: Is(m, v, VALIDATING) ==> Lookup(m, VALIDATING).Some?;
  }

  /** A recovery that passes the checks spends the token and revokes everything that could
      authenticate, whether or not it then succeeds. When it succeeds exactly the new version
      authenticates; when it fails nothing does, and the same token is refused from then on. */
  lemma {:induction false} RecoveryOutcome(cfg: Config, s: Store, id: Uuid, kind: Kind, hash: bytes,
                                           version: int, ed: bytes, x: bytes, now: int, v: int, t: int)
    requires Healthy(s.rows) && Refusal(s, id, kind, hash, now).None? && s.tokens[hash].purpose == RECOVER
    ensures var (after, failure) := Enrolled(cfg, s, id, kind, hash, version, ed, x, now);
      && Healthy(after.rows)
      && (forall other :: other != id ==> Rows(after.rows, other) == Rows(s.rows, other))
      && (Accepts(Rows(s.rows, id), v, t) ==> Is(Rows(after.rows, id), v, REVOKED))
      && (Accepts(Rows(after.rows, id), v, t) <==> failure.None? && v == version && t < now + cfg.Validity())
      && Refusal(after, id, kind, hash, now) == Some(TOKEN_USED)
  {
    var m := Rows(s.rows, id);
    var claimed := Claimed(s, id, kind, hash, now);
    ClaimedHealthy(s, id, kind, hash, now);
    WithdrawnKeeps(m, id);
    var e := Event(now, Provision(Generated(id, version, ed, x)));
    AppliedRows(cfg, claimed.rows, id, e, id);
    forall other ensures other != id ==>
      Rows(Applied(cfg, claimed.rows, id, e), other) == Rows(s.rows, other)
    {
      AppliedRows(cfg, claimed.rows, id, e, other);
    }
    ProvisionedAlone(cfg, m, e, v, t);
  }

  /** On withdrawn records only a provisioned version can authenticate. */
  lemma {:induction false} ProvisionedAlone(cfg: Config, m: Records, e: Event, v: int, t: int)
    requires Window(m) && e.op.Provision?
    ensures var n := Commit(cfg, Withdrawn(m), e);
      && (Accepts(n, v, t) <==> Succeeds(cfg, Withdrawn(m), e) && v == e.op.c.version && t < e.now + cfg.Validity())
      && (Accepts(m, v, t) ==> Is(n, v, REVOKED))
  {
  }

  /** Of the window only the VALIDATING version v is left. */
  ghost predicate Locked(m: Records, v: int) {
    Window(m) && Is(m, v, VALIDATING) && forall u :: !Is(m, u, ACTIVE) && !Is(m, u, FALLBACK)
  }

  /** Then no run changes that, until a rollback or the revocation of that version: nothing
      authenticates, and no submission, checkpoint or provisioning succeeds. */
  lemma {:induction false} LockedOut(cfg: Config, m: Records, es: seq<Event>, v: int, e: Event, w: int, t: int)
    requires Locked(m, v) && forall f :: f in es ==> f.op != Rollback && f.op != Revoke(v)
    ensures var n := CommitRun(cfg, m, es);
      && Locked(n, v) && !Accepts(n, w, t)
      && (e.op.Submit? || e.op.Checkpoint? || e.op.Provision? ==> !Succeeds(cfg, n, e))
    decreases es
  {
    if es == [] {
      assert Accepts(m, w, t) ==> Is(m, w, ACTIVE) || Is(m, w, FALLBACK);
      LockedRefuses(cfg, m, v, e);
    } else {
      assert es[0] in es;
      LockedStep(cfg, m, es[0], v);
      LockedOut(cfg, Commit(cfg, m, es[0]), es[1..], v, e, w, t);
    }
  }

  lemma {:induction false} LockedStep(cfg: Config, m: Records, e: Event, v: int)
    requires Locked(m, v) && e.op != Rollback && e.op != Revoke(v)
    ensures Locked(Commit(cfg, m, e), v)
  {
    CommitWindow(cfg, m, e);
    LockedRefuses(cfg, m, v, e);
    var n := Commit(cfg, m, e);
    forall u ensures !Is(n, u, ACTIVE) && !Is(n, u, FALLBACK) {
      assert !Is(m, u, ACTIVE) && !Is(m, u, FALLBACK);
    }
  }

  lemma {:induction false} LockedRefuses(cfg: Config, m: Records, v: int, e: Event)
    requires Locked(m, v)
    ensures e.op.Submit? || e.op.Checkpoint? || e.op.Provision? ==> !Succeeds(cfg, m, e)
  {
  }

  /** The failing case: a recovery while a successor is VALIDATING locks the identity out. Its
      message is that the identity is already provisioned, yet in every run that follows nothing
      authenticates and neither submission, checkpoint nor provisioning succeeds, until a rollback or
      the revocation of the successor, which only an authenticated request asks for. */
  lemma {:induction false} RecoveryWhileValidating(cfg: Config, s: Store, id: Uuid, kind: Kind, hash: bytes,
                                                   version: int, ed: bytes, x: bytes, now: int, v: int,
                                                   es: seq<Event>, e: Event, w: int, t: int)
    requires Healthy(s.rows) && Refusal(s, id, kind, hash, now).None? && s.tokens[hash].purpose == RECOVER
    requires Is(Rows(s.rows, id), v, VALIDATING)
    requires forall f :: f in es ==> f.op != Rollback && f.op != Revoke(v)
    ensures var (after, failure) := Enrolled(cfg, s, id, kind, hash, version, ed, x, now);
      && failure == Some(Rotation(ALREADY_PROVISIONED))
      && after.rows == s.rows[id := Withdrawn(Rows(s.rows, id))]
      && var m := CommitRun(cfg, Rows(after.rows, id), es);
      && Is(m, v, VALIDATING) && !Accepts(m, w, t)
      && (e.op.Submit? || e.op.Checkpoint? || e.op.Provision? ==> !Succeeds(cfg, m, e))
  {
    var m := Rows(s.rows, id);
    WithdrawnKeeps(m, id);
    var n := Withdrawn(m);
    assert n.Keys == m.Keys && v in n;
    assert n != map[];
    assert Is(n, v, VALIDATING);
    LockedOut(cfg, n, es, v, e, w, t);
  }

  /** An enrollment with a wrong version is refused only after its token was spent and the
      identity listed, so no token enrolls or recovers the identity under that kind any more, unless
      its purpose is neither. Under the other kind every other token does what it did before. */
  lemma {:induction false} WrongVersionBurns(cfg: Config, s: Store, id: Uuid, kind: Kind, hash: bytes,
                                             version: int, ed: bytes, x: bytes, now: int)
    requires Refusal(s, id, kind, hash, now).None? && s.tokens[hash].purpose == ENROLL && version != 1
    ensures var (after, failure) := Enrolled(cfg, s, id, kind, hash, version, ed, x, now);
      && failure == Some(Rotation(VERSION_ORDER)) && after.rows == s.rows
      && (forall h, later :: h in after.tokens && after.tokens[h].purpose != OTHER ==>
            Refusal(after, id, kind, h, later).Some?)
      && (forall k, h, later :: k != kind && h != hash ==>
            Refusal(after, id, k, h, later) == Refusal(s, id, k, h, later))
  {
  }

  /** Recovery's revocations are themselves a run of the engine. */
  lemma {:induction false} WithdrawnIsRun(cfg: Config, m: Records, now: int) returns (es: seq<Event>)
    requires Window(m)
    ensures Run(cfg, m, es) == Withdrawn(m)
    ensures |es| <= 2 && forall e :: e in es ==> e.op.Revoke? && e.now == now
  {
    var f, a := Lookup(m, FALLBACK), Lookup(m, ACTIVE);
    var es1 := if f.Some? then [Event(now, Revoke(f.value.version))] else [];
    var es2 := if a.Some? then [Event(now, Revoke(a.value.version))] else [];
    es := es1 + es2;
    RunAppend(cfg, m, es1, es2);
    var n := Run(cfg, m, es1);
    assert f.Some? ==> n == Next(cfg, m, es1[0]);
    assert n == if f.Some? then m[f.value.version := f.value.(status := REVOKED)] else m;
    var o := Run(cfg, n, es2);
    assert a.Some? ==> o == Next(cfg, n, es2[0]);
    assert o == if a.Some? then n[a.value.version := a.value.(status := REVOKED)] else n;
    forall v | v in m ensures o[v] == Withdrawn(m)[v] {
      assert Is(m, v, FALLBACK) <==> m[v].status == FALLBACK;
      assert Is(m, v, ACTIVE) <==> m[v].status == ACTIVE;
    }
  }
}
