/** Whole runs of the rotation engine.

    In a book that keeps the three-version window every lookup is unique, so a transition depends
    on the records alone. Runs are therefore stated over records; NextRefines and RunRefines connect
    them to the engine's ordered dictionary. */
module RotationRuns {
  import opened Basics
  import opened Credentials
  import opened RotationEngine

  datatype Op =
    | Provision(c: Credential)
    | Submit(c: Credential, sig: bytes, meta: bytes)
    | Checkpoint
    | Rollback
    | Revoke(version: int)
    | ExpireAll

  datatype Event = Event(now: int, op: Op)

  // ------------------------------------------------------------------
  // the transitions over records
  // ------------------------------------------------------------------

  /** The record with the status, when there is one. */
  ghost function Lookup(m: Records, st: Status): (r: Option<Credential>)
    ensures r.Some? ==> exists v :: Is(m, v, st) && m[v] == r.value
    ensures r.None? ==> forall v :: !Is(m, v, st)
  {
    if exists v :: Is(m, v, st) then
      var v :| Is(m, v, st);
      Some(m[v])
    else None
  }

  /** v is one more than every recorded version. */
  ghost predicate NextAfter(m: Records, v: int) {
    (forall w :: w in m ==> w < v) && (m != map[] ==> v - 1 in m)
  }

  datatype After<+T> = After(records: Records, result: Result<T, Code>)

  ghost function AfterProvision(cfg: Config, m: Records, c: Credential, now: int): After<()> {
    var busy := Lookup(m, ACTIVE).Some? || Lookup(m, VALIDATING).Some?;
    match ProvisionRecord(cfg, busy, NextAfter(m, c.version), c, now)
    case Ok(record) => After(m[record.version := record], Ok(()))
    case Raised(e) => After(m, Raised(e))
  }

  ghost function AfterSubmit(cfg: Config, m: Records, c: Credential, sig: bytes, meta: bytes, now: int)
    : After<()>
  {
    match SubmitRecord(cfg, Lookup(m, ACTIVE), Lookup(m, VALIDATING).Some?, false,
                       NextAfter(m, c.version), c, sig, meta, now)
    case Ok(record) => After(m[record.version := record], Ok(()))
    case Raised(e) => After(m, Raised(e))
  }

  ghost function AfterCheckpoint(cfg: Config, m: Records, now: int): After<seq<Credential>> {
    var (n, result) := CheckpointRecords(cfg, m, Lookup(m, FALLBACK), Lookup(m, ACTIVE),
                                         Lookup(m, VALIDATING), now);
    After(n, result)
  }

  ghost function AfterRollback(m: Records): After<Credential> {
    var v3 := Lookup(m, VALIDATING);
    if v3.None? then After(m, Raised(NO_VALIDATING))
    else
      var c := v3.value.(status := TERMINATED);
      After(m[c.version := c], Ok(c))
  }

  function AfterRevoke(m: Records, v: int): After<Credential> {
    if v !in m then After(m, Raised(UNKNOWN_VERSION))
    else
      var c := m[v].(status := REVOKED);
      After(m[v := c], Ok(c))
  }

  function AfterExpiry(m: Records, now: int): Records {
    map v | v in m :: Lapsed(m[v], now)
  }

  ghost function Next(cfg: Config, m: Records, e: Event): Records {
    match e.op
    case Provision(c) => AfterProvision(cfg, m, c, e.now).records
    case Submit(c, sig, meta) => AfterSubmit(cfg, m, c, sig, meta, e.now).records
    case Checkpoint => AfterCheckpoint(cfg, m, e.now).records
    case Rollback => AfterRollback(m).records
    case Revoke(v) => AfterRevoke(m, v).records
    case ExpireAll => AfterExpiry(m, e.now)
  }

  ghost function Run(cfg: Config, m: Records, es: seq<Event>): Records
    decreases es
  {
    if es == [] then m else Run(cfg, Next(cfg, m, es[0]), es[1..])
  }

  predicate Accepts(m: Records, v: int, t: int) {
    v in m && Usable(m[v], t)
  }

  /** The clock of a run never goes back, and starts no earlier than t. */
  predicate Forward(t: int, es: seq<Event>)
    decreases es
  {
    es == [] || (t <= es[0].now && Forward(es[0].now, es[1..]))
  }

  function EndOf(t: int, es: seq<Event>): int
    decreases es
  {
    if es == [] then t else EndOf(es[0].now, es[1..])
  }

  lemma {:induction false} EndAfter(t: int, es: seq<Event>)
    requires Forward(t, es)
    ensures t <= EndOf(t, es)
    decreases es
  {
    if es != [] {
      EndAfter(es[0].now, es[1..]);
    }
  }

  lemma {:induction false} RunAppend(cfg: Config, m: Records, es: seq<Event>, fs: seq<Event>)
    ensures Run(cfg, m, es + fs) == Run(cfg, Run(cfg, m, es), fs)
    decreases es
  {
    if es == [] {
      assert es + fs == fs;
    } else {
      assert (es + fs)[1..] == es[1..] + fs;
      RunAppend(cfg, Next(cfg, m, es[0]), es[1..], fs);
    }
  }

  // ------------------------------------------------------------------
  // the three-version window
  // ------------------------------------------------------------------

  ghost predicate AtMostOne(m: Records, st: Status) {
    forall v, w :: Is(m, v, st) && Is(m, w, st) ==> v == w
  }

  ghost predicate Before(m: Records, older: Status, newer: Status) {
    forall v, w :: Is(m, v, older) && Is(m, w, newer) ==> v < w
  }

  ghost predicate Newest(m: Records, st: Status) {
    forall v, w :: Is(m, v, st) && w in m ==> w <= v
  }

  ghost predicate Contiguous(m: Records) {
    forall u, v, w :: u in m && w in m && u <= v <= w ==> v in m
  }

  ghost predicate Keyed(m: Records) {
    forall v :: v in m ==> m[v].version == v
  }

  /** At most one credential per window status, FALLBACK < ACTIVE < VALIDATING = newest, and
      versions without a gap. */
  ghost predicate Window(m: Records) {
    && Keyed(m)
    && AtMostOne(m, VALIDATING) && AtMostOne(m, ACTIVE) && AtMostOne(m, FALLBACK)
    && Before(m, FALLBACK, ACTIVE) && Before(m, ACTIVE, VALIDATING) && Before(m, FALLBACK, VALIDATING)
    && Newest(m, VALIDATING)
    && Contiguous(m)
  }

  /** Same credential: only status, activation and expiry may differ. */
  predicate SameKeys(c: Credential, d: Credential) {
    c.identity == d.identity && c.version == d.version && c.ed25519 == d.ed25519
    && c.x25519 == d.x25519 && c.createdAt == d.createdAt && c.deadline == d.deadline
  }

  /** n keeps every record of m, under the same keys. */
  ghost predicate Keeps(m: Records, n: Records) {
    forall v :: v in m ==> v in n && SameKeys(m[v], n[v])
  }

  /** How far along its life a status is. */
  function Rank(st: Status): nat {
    match st
    case GENERATED => 0
    case VALIDATING => 1
    case ACTIVE => 2
    case FALLBACK => 3
    case EXPIRED => 4
    case TERMINATED => 4
    case REVOKED => 5
  }

  predicate Advances(old_: Status, new_: Status) {
    old_ == new_ || Rank(old_) < Rank(new_)
  }

  /** No status of m has moved back in n. */
  ghost predicate Onward(m: Records, n: Records) {
    forall v :: v in m ==> v in n && Advances(m[v].status, n[v].status)
  }

  // ------------------------------------------------------------------
  // what one event changes
  // ------------------------------------------------------------------

  /** How one event changes the records of a window: not at all, a new version, a shift by a
      checkpoint, the end of one version, or the lapse of every expired one. */
  datatype Change =
    | Same
    | Added(c: Credential, signer: Option<int>)
    | Shift(v2: int, v3: int)
    | End(v: int, st: Status)
    | Lapse

  /** What a successful checkpoint does: VALIDATING becomes ACTIVE, ACTIVE becomes FALLBACK with
      its expiry extended, FALLBACK is terminated, the rest stays. */
  ghost predicate Shifted(cfg: Config, m: Records, n: Records, now: int, v2: int, v3: int) {
    && Is(m, v2, ACTIVE) && Is(m, v3, VALIDATING)
    && n.Keys == m.Keys
    && n[v2] == Demoted(cfg, m[v2], now)
    && n[v3] == m[v3].(status := ACTIVE, activation := Some(now))
    && forall v :: v in m && v != v2 && v != v3 ==>
         n[v] == if m[v].status == FALLBACK then m[v].(status := TERMINATED) else m[v]
  }

  ghost predicate Changes(cfg: Config, m: Records, e: Event, n: Records, x: Change) {
    match x
    case Same => n == m
    case Added(c, signer) =>
      && n == m[c.version := c]
      && NextAfter(m, c.version)
      && (forall v :: !Is(m, v, VALIDATING))
      && c.createdAt == e.now && c.expiration == Some(e.now + cfg.Validity())
      && (if signer.None? then
            && e.op.Provision? && c == Provisioned(cfg, e.op.c, e.now)
            && (forall v :: !Is(m, v, ACTIVE))
          else
            && e.op.Submit? && Is(m, signer.value, ACTIVE) && !Expired(m[signer.value], e.now)
            && c == Submitted(cfg, e.op.c, e.now)
            && c.identity == m[signer.value].identity
            && Authorizes(cfg, m[signer.value], e.op.c, e.op.meta, e.op.sig))
    case Shift(v2, v3) =>
      && Shifted(cfg, m, n, e.now, v2, v3)
      && !Expired(m[v2], e.now) && !Expired(m[v3], e.now)
      && e.now >= OrElse(m[v3].deadline, 0)
      && e.op == Checkpoint
    case End(v, st) =>
      && v in m && n == m[v := m[v].(status := st)]
      && (match st
          case REVOKED => e.op == Revoke(v)
          case TERMINATED => e.op == Rollback && Is(m, v, VALIDATING)
          case EXPIRED => e.op == Checkpoint && Is(m, v, VALIDATING) && Expired(m[v], e.now)
          case _ => false)
    case Lapse =>
      e.op == ExpireAll && n == AfterExpiry(m, e.now)
  }

  lemma {:induction false} SubmitChanges(cfg: Config, m: Records, e: Event) returns (x: Change)
    requires Window(m) && e.op.Submit?
    ensures Changes(cfg, m, e, AfterSubmit(cfg, m, e.op.c, e.op.sig, e.op.meta, e.now).records, x)
    ensures AfterSubmit(cfg, m, e.op.c, e.op.sig, e.op.meta, e.now).result.Raised? ==> x == Same
    ensures AfterSubmit(cfg, m, e.op.c, e.op.sig, e.op.meta, e.now).result.Ok? ==>
      && x == Added(Submitted(cfg, e.op.c, e.now), Some(Lookup(m, ACTIVE).value.version))
      && e.op.c.version !in m
  {
    if AfterSubmit(cfg, m, e.op.c, e.op.sig, e.op.meta, e.now).result.Ok? {
      x := Added(Submitted(cfg, e.op.c, e.now), Some(Lookup(m, ACTIVE).value.version));
    } else {
      x := Same;
    }
  }

  lemma {:induction false} ProvisionChanges(cfg: Config, m: Records, e: Event) returns (x: Change)
    requires e.op.Provision?
    ensures Changes(cfg, m, e, AfterProvision(cfg, m, e.op.c, e.now).records, x)
    ensures x == if AfterProvision(cfg, m, e.op.c, e.now).result.Raised? then Same
                 else Added(Provisioned(cfg, e.op.c, e.now), None)
  {
    x := if AfterProvision(cfg, m, e.op.c, e.now).result.Raised? then Same
         else Added(Provisioned(cfg, e.op.c, e.now), None);
  }

  lemma {:induction false} CheckpointChanges(cfg: Config, m: Records, now: int) returns (x: Change)
    requires Window(m)
    ensures Changes(cfg, m, Event(now, Checkpoint), AfterCheckpoint(cfg, m, now).records, x)
    ensures !x.Added? && !x.Lapse? && (x.Shift? <==> AfterCheckpoint(cfg, m, now).result.Ok?)
    ensures x.Shift? ==> Lookup(m, ACTIVE) == Some(m[x.v2]) && Lookup(m, VALIDATING) == Some(m[x.v3])
  {
    var s := AfterCheckpoint(cfg, m, now);
    var v1, v2, v3 := Lookup(m, FALLBACK), Lookup(m, ACTIVE), Lookup(m, VALIDATING);
    if s.result.Ok? {
      x := Shift(v2.value.version, v3.value.version);
      RecordsShift(cfg, m, v1, v2.value, v3.value, now);
    } else if s.result.error == V3_EXPIRED {
      x := End(v3.value.version, EXPIRED);
    } else {
      x := Same;
    }
  }

  lemma {:induction false} RecordsShift(cfg: Config, m: Records, v1: Option<Credential>, v2: Credential,
                                        v3: Credential, now: int)
    requires Is(m, v2.version, ACTIVE) && m[v2.version] == v2
    requires Is(m, v3.version, VALIDATING) && m[v3.version] == v3
    requires v1.Some? ==> Is(m, v1.value.version, FALLBACK) && m[v1.value.version] == v1.value
    requires forall v :: Is(m, v, FALLBACK) ==> v1.Some? && v == v1.value.version
    requires CheckpointRecords(cfg, m, v1, Some(v2), Some(v3), now).1.Ok?
    ensures Shifted(cfg, m, CheckpointRecords(cfg, m, v1, Some(v2), Some(v3), now).0, now,
                    v2.version, v3.version)
  {
    var n := CheckpointRecords(cfg, m, v1, Some(v2), Some(v3), now).0;
    forall v | v in m && v != v2.version && v != v3.version
      ensures n[v] == if m[v].status == FALLBACK then m[v].(status := TERMINATED) else m[v]
    {
      assert Is(m, v, FALLBACK) <==> m[v].status == FALLBACK;
    }
  }

  lemma {:induction false} RollbackChanges(cfg: Config, m: Records, now: int) returns (x: Change)
    requires Window(m)
    ensures Changes(cfg, m, Event(now, Rollback), AfterRollback(m).records, x)
    ensures !x.Added? && !x.Shift?
  {
    var v3 := Lookup(m, VALIDATING);
    x := if v3.Some? then End(v3.value.version, TERMINATED) else Same;
  }

  lemma {:induction false} ChangeOf(cfg: Config, m: Records, e: Event) returns (x: Change)
    requires Window(m)
    ensures Changes(cfg, m, e, Next(cfg, m, e), x)
  {
    match e.op
    case Provision(c) => x := ProvisionChanges(cfg, m, e);
    case Submit(c, sig, meta) => x := SubmitChanges(cfg, m, e);
    case Checkpoint => x := CheckpointChanges(cfg, m, e.now);
    case Rollback => x := RollbackChanges(cfg, m, e.now);
    case Revoke(v) => x := if v in m then End(v, REVOKED) else Same;
    case ExpireAll => x := Lapse;
  }

  lemma {:induction false} ChangeKeepsVersions(cfg: Config, m: Records, e: Event, n: Records, x: Change)
    requires Changes(cfg, m, e, n, x)
    ensures Keeps(m, n) && Onward(m, n)
  {
  }

  lemma {:induction false} ShiftKeepsWindow(cfg: Config, m: Records, n: Records, now: int, v2: int, v3: int)
    requires Window(m) && Shifted(cfg, m, n, now, v2, v3)
    ensures Window(n) && forall v :: !Is(n, v, VALIDATING)
  {
    assert v2 < v3;
    forall v | v in n
      ensures Is(n, v, ACTIVE) <==> v == v3
      ensures Is(n, v, FALLBACK) <==> v == v2
      ensures !Is(n, v, VALIDATING)
    {
      if v != v2 && v != v3 {
        assert !Is(m, v, ACTIVE) && !Is(m, v, VALIDATING);
      }
    }
  }

  lemma {:induction false} AddingKeepsWindow(m: Records, c: Credential)
    requires Window(m) && NextAfter(m, c.version) && forall v :: !Is(m, v, VALIDATING)
    requires c.status == VALIDATING || (c.status == ACTIVE && forall v :: !Is(m, v, ACTIVE))
    ensures Window(m[c.version := c])
  {
    var n := m[c.version := c];
    assert forall v, st :: Is(n, v, st) <==> if v == c.version then c.status == st else Is(m, v, st);
    assert Contiguous(n) by {
      forall u, v, w | u in n && w in n && u <= v <= w ensures v in n {
        if v != c.version {
          assert u in m && v <= c.version - 1;
        }
      }
    }
  }

  lemma {:induction false} EndingKeepsWindow(m: Records, n: Records)
    requires Window(m) && Keyed(n) && n.Keys == m.Keys
    requires forall v :: v in m ==> n[v] == m[v] || !InWindow(n[v].status)
    ensures Window(n)
  {
    assert forall v, st :: InWindow(st) && Is(n, v, st) ==> Is(m, v, st);
  }

  lemma {:induction false} ChangeKeepsWindow(cfg: Config, m: Records, e: Event, n: Records, x: Change)
    requires Window(m) && Changes(cfg, m, e, n, x)
    ensures Window(n)
  {
    match x
    case Shift(v2, v3) => ShiftKeepsWindow(cfg, m, n, e.now, v2, v3);
    case Added(c, signer) => AddingKeepsWindow(m, c);
    case _ =>
      assert n.Keys == m.Keys;
      EndingKeepsWindow(m, n);
  }

  lemma {:induction false} WindowStep(cfg: Config, m: Records, e: Event)
    requires Window(m)
    ensures Window(Next(cfg, m, e))
  {
    var x := ChangeOf(cfg, m, e);
    ChangeKeepsWindow(cfg, m, e, Next(cfg, m, e), x);
  }

  /** Every run keeps the three-version window, from any records that have it; an empty engine's
      do. */
  lemma {:induction false} WindowInvariant(cfg: Config, m: Records, es: seq<Event>)
    requires Window(m)
    ensures Window(Run(cfg, m, es))
    decreases es
  {
    if es != [] {
      WindowStep(cfg, m, es[0]);
      WindowInvariant(cfg, Next(cfg, m, es[0]), es[1..]);
    }
  }

  lemma {:induction false} OnwardAndOn(m: Records, n: Records, o: Records)
    requires Keeps(m, n) && Onward(m, n) && Keeps(n, o) && Onward(n, o)
    ensures Keeps(m, o) && Onward(m, o)
  {
  }

  /** Identity, keys and creation time of a version never change, and its status only moves
      forward. */
  lemma {:induction false} VersionsNeverRewritten(cfg: Config, m: Records, es: seq<Event>)
    requires Window(m)
    ensures Keeps(m, Run(cfg, m, es)) && Onward(m, Run(cfg, m, es))
    decreases es
  {
    if es != [] {
      var n := Next(cfg, m, es[0]);
      var x := ChangeOf(cfg, m, es[0]);
      ChangeKeepsVersions(cfg, m, es[0], n, x);
      WindowStep(cfg, m, es[0]);
      VersionsNeverRewritten(cfg, n, es[1..]);
      OnwardAndOn(m, n, Run(cfg, n, es[1..]));
    }
  }

  // ------------------------------------------------------------------
  // the engine's dictionary behaves as its records
  // ------------------------------------------------------------------

  lemma {:induction false} CountBound(m: Records, order: seq<int>)
    requires Distinct(order) && forall i :: 0 <= i < |order| ==> order[i] in m
    requires AtMostOne(m, ACTIVE) && AtMostOne(m, FALLBACK)
    requires forall v :: !Is(m, v, VALIDATING)
    ensures CountWindow(order, m) <=
      (if exists v :: v in order && Is(m, v, ACTIVE) then 1 else 0)
      + (if exists v :: v in order && Is(m, v, FALLBACK) then 1 else 0)
  {
    if order != [] {
      CountBound(m, order[1..]);
      var v := order[0];
      assert v in order && v !in order[1..];
      assert !Is(m, v, VALIDATING);
      assert forall w :: w in order[1..] ==> w in order;
      if Is(m, v, ACTIVE) {
        assert forall w :: w in order[1..] ==> !Is(m, w, ACTIVE);
      } else if Is(m, v, FALLBACK) {
        assert forall w :: w in order[1..] ==> !Is(m, w, FALLBACK);
      }
    }
  }

  /** The second window check never decides anything: with nothing VALIDATING at most two
      versions are in the window. */
  lemma {:induction false} WindowNeverFull(b: Book)
    requires b.Dict() && Window(b.creds) && b.ByStatus(VALIDATING).None?
    ensures b.InWindowCount() <= 2
  {
    CountBound(b.creds, b.order);
  }

  /** The first record in insertion order is the only one. */
  lemma {:induction false} LookupRefines(b: Book, st: Status)
    requires b.Dict() && AtMostOne(b.creds, st)
    ensures b.ByStatus(st) == Lookup(b.creds, st)
  {
  }

  lemma {:induction false} ContinuesRefines(b: Book, v: int)
    requires b.Dict()
    ensures b.Continues(v) <==> NextAfter(b.creds, v)
  {
  }

  ghost predicate Refined<T>(s: Step<T>, a: After<T>) {
    s.result == a.result && s.book.creds == a.records
  }

  lemma {:induction false} LookupsRefine(b: Book)
    requires b.Dict() && Window(b.creds)
    ensures b.ByStatus(VALIDATING) == Lookup(b.creds, VALIDATING)
    ensures b.ByStatus(ACTIVE) == Lookup(b.creds, ACTIVE)
    ensures b.ByStatus(FALLBACK) == Lookup(b.creds, FALLBACK)
    ensures b.ByStatus(VALIDATING).None? ==> b.InWindowCount() <= 2
  {
    LookupRefines(b, VALIDATING);
    LookupRefines(b, ACTIVE);
    LookupRefines(b, FALLBACK);
    if b.ByStatus(VALIDATING).None? {
      WindowNeverFull(b);
    }
  }

  /** Every transition of the engine, insertion order included, is the transition of its
      records: same result, same exception, same records. */
  lemma {:induction false} ProvisionRefines(cfg: Config, b: Book, c: Credential, now: int)
    requires b.Dict() && Window(b.creds)
    ensures Refined(ProvisionStep(cfg, b, c, now), AfterProvision(cfg, b.creds, c, now))
  {
  }

  lemma {:induction false} PutRecords(b: Book, c: Credential)
    requires b.Dict()
    ensures b.Put(c).creds == b.creds[c.version := c]
  {
  }

  lemma {:induction false} SubmitRefines(cfg: Config, b: Book, c: Credential, sig: bytes, meta: bytes,
                                         now: int)
    requires b.Dict() && Window(b.creds)
    ensures Refined(SubmitStep(cfg, b, c, sig, meta, now), AfterSubmit(cfg, b.creds, c, sig, meta, now))
  {
    LookupsRefine(b);
    ContinuesRefines(b, c.version);
    var record := SubmitRecord(cfg, b.ByStatus(ACTIVE), b.ByStatus(VALIDATING).Some?, false,
                               b.Continues(c.version), c, sig, meta, now);
    if record.Ok? {
      PutRecords(b, record.value);
    }
  }

  lemma {:induction false} EndingsRefine(cfg: Config, b: Book, v: int, now: int)
    requires b.Dict() && Window(b.creds)
    ensures Refined(CheckpointStep(cfg, b, now), AfterCheckpoint(cfg, b.creds, now))
    ensures Refined(RollbackStep(b), AfterRollback(b.creds))
    ensures Refined(RevokeStep(b, v), AfterRevoke(b.creds, v))
    ensures ExpireAllStep(b, now).creds == AfterExpiry(b.creds, now)
  {
  }

  function BookNext(cfg: Config, b: Book, e: Event): (r: Book)
    requires b.Dict()
    ensures r.Dict()
  {
    match e.op
    case Provision(c) => ProvisionStep(cfg, b, c, e.now).book
    case Submit(c, sig, meta) => SubmitStep(cfg, b, c, sig, meta, e.now).book
    case Checkpoint => CheckpointStep(cfg, b, e.now).book
    case Rollback => RollbackStep(b).book
    case Revoke(v) => RevokeStep(b, v).book
    case ExpireAll => ExpireAllStep(b, e.now)
  }

  function BookRun(cfg: Config, b: Book, es: seq<Event>): (r: Book)
    requires b.Dict()
    ensures r.Dict()
    decreases es
  {
    if es == [] then b else BookRun(cfg, BookNext(cfg, b, es[0]), es[1..])
  }

  lemma {:induction false} NextRefines(cfg: Config, b: Book, e: Event)
    requires b.Dict() && Window(b.creds)
    ensures BookNext(cfg, b, e).creds == Next(cfg, b.creds, e)
  {
    match e.op
    case Submit(c, sig, meta) => SubmitRefines(cfg, b, c, sig, meta, e.now);
    case Provision(c) => ProvisionRefines(cfg, b, c, e.now);
    case Revoke(v) => EndingsRefine(cfg, b, v, e.now);
    case _ => EndingsRefine(cfg, b, 0, e.now);
  }

  /** A run of the engine is the run of its records, whatever the insertion order: so engines
      loaded with the same records in different orders stay equal and answer alike. */
  lemma {:induction false} RunRefines(cfg: Config, b: Book, es: seq<Event>)
    requires b.Dict() && Window(b.creds)
    ensures BookRun(cfg, b, es).creds == Run(cfg, b.creds, es)
    ensures forall v, t :: BookRun(cfg, b, es).ForAuth(v, t).Some? <==> Accepts(Run(cfg, b.creds, es), v, t)
    decreases es
  {
    if es != [] {
      NextRefines(cfg, b, es[0]);
      WindowStep(cfg, b.creds, es[0]);
      RunRefines(cfg, BookNext(cfg, b, es[0]), es[1..]);
    }
  }

  /** Loading records with distinct versions gives exactly those records. */
  lemma {:induction false} LoadExact(cs: seq<Credential>)
    requires forall i, j :: 0 <= i < j < |cs| ==> cs[i].version != cs[j].version
    ensures forall v :: v in LoadBook(cs).creds ==> LoadBook(cs).creds[v] in cs
    ensures forall c :: c in cs ==> c.version in LoadBook(cs).creds && LoadBook(cs).creds[c.version] == c
  {
    if cs != [] {
      var front, last := cs[..|cs| - 1], cs[|cs| - 1];
      LoadExact(front);
      assert forall c :: c in cs <==> c in front || c == last;
      assert forall c :: c in front ==> c.version != last.version;
    }
  }

  /** The list holds every record once, in any order. */
  ghost predicate Lists(cs: seq<Credential>, m: Records) {
    && (forall i, j :: 0 <= i < j < |cs| ==> cs[i].version != cs[j].version)
    && (forall c :: c in cs ==> c.version in m && m[c.version] == c)
    && (forall v :: v in m ==> m[v] in cs)
  }

  /** An engine loaded from records listed in any order holds exactly those records. */
  lemma {:induction false} LoadInAnyOrder(m: Records, cs: seq<Credential>)
    requires Lists(cs, m) && Keyed(m)
    ensures LoadBook(cs).creds == m
  {
    LoadExact(cs);
    var l := LoadBook(cs).creds;
    forall v | v in m ensures v in l && l[v] == m[v] {
      assert m[v] in cs;
    }
    forall v | v in l ensures v in m {
      assert l[v] in cs;
    }
  }

  /** Two engines loaded from two orderings of the same records run alike. */
  lemma {:induction false} LoadOrderInvisible(cfg: Config, m: Records, cs: seq<Credential>,
                                              ds: seq<Credential>, es: seq<Event>)
    requires Window(m) && Lists(cs, m) && Lists(ds, m)
    ensures BookRun(cfg, LoadBook(cs), es).creds == BookRun(cfg, LoadBook(ds), es).creds
  {
    LoadInAnyOrder(m, cs);
    LoadInAnyOrder(m, ds);
    RunRefines(cfg, LoadBook(cs), es);
    RunRefines(cfg, LoadBook(ds), es);
  }

  // ------------------------------------------------------------------
  // the engine's methods, in terms of its records
  // ------------------------------------------------------------------

  method FindStatus(engine: Engine, st: Status) returns (r: Option<Credential>)
    requires engine.Valid() && Window(engine.creds) && InWindow(st)
    ensures r == Lookup(engine.creds, st)
  {
    LookupsRefine(engine.Value());
    r := engine.ByStatus(st);
  }

  method ProvisionOn(engine: Engine, c: Credential, now: int) returns (r: Result<(), Code>)
    requires engine.Valid() && Window(engine.creds)
    modifies engine
    ensures engine.Valid() && Window(engine.creds)
    ensures After(engine.creds, r) == AfterProvision(engine.cfg, old(engine.creds), c, now)
  {
    ProvisionRefines(engine.cfg, engine.Value(), c, now);
    WindowStep(engine.cfg, engine.creds, Event(now, Provision(c)));
    r := engine.ProvisionInitial(c, now);
  }

  method SubmitOn(engine: Engine, c: Credential, sig: bytes, meta: bytes, now: int)
    returns (r: Result<(), Code>)
    requires engine.Valid() && Window(engine.creds)
    modifies engine
    ensures engine.Valid() && Window(engine.creds)
    ensures After(engine.creds, r) == AfterSubmit(engine.cfg, old(engine.creds), c, sig, meta, now)
  {
    SubmitRefines(engine.cfg, engine.Value(), c, sig, meta, now);
    WindowStep(engine.cfg, engine.creds, Event(now, Submit(c, sig, meta)));
    r := engine.SubmitSuccessor(c, sig, meta, now);
  }

  method CheckpointOn(engine: Engine, now: int) returns (r: Result<seq<Credential>, Code>)
    requires engine.Valid() && Window(engine.creds)
    modifies engine
    ensures engine.Valid() && Window(engine.creds)
    ensures After(engine.creds, r) == AfterCheckpoint(engine.cfg, old(engine.creds), now)
  {
    EndingsRefine(engine.cfg, engine.Value(), 0, now);
    WindowStep(engine.cfg, engine.creds, Event(now, Checkpoint));
    r := engine.Checkpoint(now);
  }

  method RollbackOn(engine: Engine, now: int) returns (r: Result<Credential, Code>)
    requires engine.Valid() && Window(engine.creds)
    modifies engine
    ensures engine.Valid() && Window(engine.creds)
    ensures After(engine.creds, r) == AfterRollback(old(engine.creds))
  {
    EndingsRefine(engine.cfg, engine.Value(), 0, now);
    WindowStep(engine.cfg, engine.creds, Event(now, Rollback));
    r := engine.Rollback(now);
  }
}
