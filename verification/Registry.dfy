/** The server's credential registry: one table of credential rows for every identity, enrollment
    tokens, and transitions that load an engine, run one step and commit only if it succeeded. */
module Registry {
  import opened Basics
  import opened Credentials
  import opened RotationEngine
  import opened RotationRuns

  datatype Failure =
    | UNKNOWN_IDENTITY | BAD_TOKEN | TOKEN_USED | TOKEN_EXPIRED | TOKEN_MISMATCH | ALREADY_ENROLLED
    | Rotation(code: Code)

  /** The registry stores any text as a token's purpose and compares it with two. */
  datatype Purpose = ENROLL | RECOVER | OTHER

  datatype Kind = CLIENT | PROXY

  datatype Token = Token(purpose: Purpose, bound: Option<Uuid>, expiresAt: int, usedAt: Option<int>)

  // ------------------------------------------------------------------
  // the table of credentials
  // ------------------------------------------------------------------

  /** The rows, by identity and version. */
  type Table = map<Uuid, Records>

  /** The rows of one identity. */
  function Rows(t: Table, id: Uuid): Records {
    if id in t then t[id] else map[]
  }

  /** t with all of m written as rows of id. */
  function Saved(t: Table, id: Uuid, m: Records): Table {
    if m == map[] then t else t[id := m]
  }

  ghost predicate Owned(m: Records, id: Uuid) {
    forall v :: v in m ==> m[v].identity == id
  }

  /** Every identity's rows are its own and keep the three-version window. */
  ghost predicate Healthy(t: Table) {
    forall id :: id in t ==> Owned(t[id], id) && Window(t[id])
  }

  // ------------------------------------------------------------------
  // one committed step
  // ------------------------------------------------------------------

  ghost predicate Succeeds(cfg: Config, m: Records, e: Event) {
    match e.op
    case Provision(c) => AfterProvision(cfg, m, c, e.now).result.Ok?
    case Submit(c, sig, meta) => AfterSubmit(cfg, m, c, sig, meta, e.now).result.Ok?
    case Checkpoint => AfterCheckpoint(cfg, m, e.now).result.Ok?
    case Rollback => AfterRollback(m).result.Ok?
    case Revoke(v) => AfterRevoke(m, v).result.Ok?
    case ExpireAll => true
  }

  /** What the step returns to the registry: the changed records, or the engine's exception. */
  ghost predicate Returns(cfg: Config, m: Records, e: Event, r: Result<seq<Credential>, Code>) {
    match e.op
    case Provision(c) =>
      (match AfterProvision(cfg, m, c, e.now).result
       case Ok(_) => r == Ok([])
       case Raised(code) => r == Raised(code))
    case Submit(c, sig, meta) =>
      (match AfterSubmit(cfg, m, c, sig, meta, e.now).result
       case Ok(_) => r == Ok([Submitted(cfg, c, e.now)])
       case Raised(code) => r == Raised(code))
    case Checkpoint => r == AfterCheckpoint(cfg, m, e.now).result
    case Rollback =>
      (match AfterRollback(m).result
       case Ok(c) => r == Ok([c])
       case Raised(code) => r == Raised(code))
    case Revoke(v) =>
      (match AfterRevoke(m, v).result
       case Ok(c) => r == Ok([c])
       case Raised(code) => r == Raised(code))
    case ExpireAll =>
      && r.Ok? && Distinct(r.value)
      && forall c :: c in r.value <==> Lapses(m, c, e.now)
  }

  /** The same, in the registry's exceptions. */
  ghost predicate Answered(cfg: Config, m: Records, e: Event, r: Result<seq<Credential>, Failure>) {
    match r
    case Ok(cs) => Returns(cfg, m, e, Ok(cs))
    case Raised(f) => f.Rotation? && Returns(cfg, m, e, Raised(f.code))
  }

  /** The rows of an identity after a step was tried on them: a step that raises leaves them. */
  ghost function Commit(cfg: Config, m: Records, e: Event): Records {
    if Succeeds(cfg, m, e) then Next(cfg, m, e) else m
  }

  /** The table after a step was tried for id. */
  ghost function Applied(cfg: Config, t: Table, id: Uuid, e: Event): Table {
    if Succeeds(cfg, Rows(t, id), e) then Saved(t, id, Next(cfg, Rows(t, id), e)) else t
  }

  /** A step that brings in a record brings in one of id. */
  predicate OwnOp(op: Op, id: Uuid) {
    op.Provision? || op.Submit? ==> op.c.identity == id
  }

  lemma {:induction false} CommitKeeps(cfg: Config, m: Records, id: Uuid, e: Event)
    requires Window(m) && Owned(m, id) && OwnOp(e.op, id)
    ensures var n := Commit(cfg, m, e); Window(n) && Owned(n, id) && m.Keys <= n.Keys
    ensures var n := Next(cfg, m, e); Window(n) && Owned(n, id) && m.Keys <= n.Keys
  {
    var n := Next(cfg, m, e);
    var x := ChangeOf(cfg, m, e);
    WindowStep(cfg, m, e);
    ChangeKeepsVersions(cfg, m, e, n, x);
    assert forall v :: v in m.Keys <==> v in m;
  }

  /** One identity's step changes its own rows as the engine says and nobody else's. */
  lemma {:induction false} AppliedRows(cfg: Config, t: Table, id: Uuid, e: Event, other: Uuid)
    requires Healthy(t) && OwnOp(e.op, id)
    ensures Rows(Applied(cfg, t, id, e), other) ==
      if other == id then Commit(cfg, Rows(t, id), e) else Rows(t, other)
    ensures Healthy(Applied(cfg, t, id, e))
  {
    CommitKeeps(cfg, Rows(t, id), id, e);
  }

  // ------------------------------------------------------------------
  // running a step on an engine
  // ------------------------------------------------------------------

  lemma {:induction false} LapsedOnes(order: seq<int>, m: Records, now: int)
    requires Distinct(order) && Keyed(m) && forall i :: 0 <= i < |order| ==> order[i] in m
    ensures Distinct(NewlyLapsed(order, m, now))
    ensures forall c :: c in NewlyLapsed(order, m, now) <==>
      c.version in order && Lapsed(m[c.version], now) == c != m[c.version]
  {
    if order != [] {
      var front, last := order[..|order| - 1], order[|order| - 1];
      LapsedOnes(front, m, now);
      assert order == front + [last];
      assert last !in front;
    }
  }

  lemma {:induction false} SweepReturns(cfg: Config, b: Book, now: int)
    requires b.Dict()
    ensures Returns(cfg, b.creds, Event(now, ExpireAll), Ok(NewlyLapsed(b.order, b.creds, now)))
  {
    LapsedOnes(b.order, b.creds, now);
  }

  method Execute(engine: Engine, e: Event) returns (r: Result<seq<Credential>, Code>)
    requires engine.Valid() && Window(engine.creds)
    modifies engine
    ensures engine.Valid() && engine.creds == Next(engine.cfg, old(engine.creds), e)
    ensures Returns(engine.cfg, old(engine.creds), e, r)
  {
    match e.op
    case Provision(c) =>
      var done := ProvisionOn(engine, c, e.now);
      r := if done.Ok? then Ok([]) else Raised(done.error);
    case Submit(c, sig, meta) =>
      var done := SubmitOn(engine, c, sig, meta, e.now);
      if done.Ok? {
        var added := engine.Get(c.version);
        r := Ok([added.value]);
      } else {
        r := Raised(done.error);
      }
    case Checkpoint =>
      r := CheckpointOn(engine, e.now);
    case Rollback =>
      var done := RollbackOn(engine, e.now);
      r := if done.Ok? then Ok([done.value]) else Raised(done.error);
    case Revoke(v) =>
      EndingsRefine(engine.cfg, engine.Value(), v, e.now);
      var done := engine.Revoke(v, e.now);
      r := if done.Ok? then Ok([done.value]) else Raised(done.error);
    case ExpireAll =>
      EndingsRefine(engine.cfg, engine.Value(), 0, e.now);
      SweepReturns(engine.cfg, engine.Value(), e.now);
      var changed := engine.ExpireAll(e.now);
      r := Ok(changed);
  }

  method SortedVersions(s: set<int>) returns (vs: seq<int>)
    ensures forall v :: v in vs <==> v in s
    ensures forall i, j :: 0 <= i < j < |vs| ==> vs[i] < vs[j]
  {
    vs := [];
    var left := s;
    while left != {}
      invariant left <= s
      invariant forall v :: v in vs <==> v in s && v !in left
      invariant forall i, j :: 0 <= i < j < |vs| ==> vs[i] < vs[j]
      decreases |left|
    {
      ghost var some := Pick(left);
      var v :| v in left;
      vs := Insert(vs, v);
      left := left - {v};
    }
  }

  /** The rows of an identity ordered by version. */
  method SelectByVersion(m: Records) returns (cs: seq<Credential>)
    requires Keyed(m)
    ensures Lists(cs, m)
    ensures forall i, j :: 0 <= i < j < |cs| ==> cs[i].version < cs[j].version
  {
    var vs := SortedVersions(m.Keys);
    assert forall i :: 0 <= i < |vs| ==> vs[i] in vs;
    cs := seq(|vs|, i requires 0 <= i < |vs| && vs[i] in m => m[vs[i]]);
    forall v | v in m ensures m[v] in cs {
      var i :| 0 <= i < |vs| && vs[i] == v;
      assert cs[i] == m[v];
    }
  }

  // ------------------------------------------------------------------
  // enrollment and recovery
  // ------------------------------------------------------------------

  /** Everything enrollment reads and writes. */
  datatype Store = Store(rows: Table, clients: set<Uuid>, proxies: set<Uuid>, tokens: map<bytes, Token>)
  {
    function Members(kind: Kind): set<Uuid> {
      if kind == CLIENT then clients else proxies
    }
  }

  /** Enrollment's own checks, in order. */
  function Refusal(s: Store, id: Uuid, kind: Kind, hash: bytes, now: int): Option<Failure> {
    if hash !in s.tokens then Some(BAD_TOKEN)
    else
      var token := s.tokens[hash];
      if token.usedAt.Some? then Some(TOKEN_USED)
      else if token.expiresAt < now then Some(TOKEN_EXPIRED)
      else if token.purpose == RECOVER && token.bound != Some(id) then Some(TOKEN_MISMATCH)
      else if token.purpose == RECOVER && id !in s.Members(kind) then Some(UNKNOWN_IDENTITY)
      else if token.purpose == ENROLL && id in s.Members(kind) then Some(ALREADY_ENROLLED)
      else if token.purpose == RECOVER && Rows(s.rows, id) == map[] then Some(UNKNOWN_IDENTITY)
      else if token.purpose != RECOVER && Rows(s.rows, id) != map[] then Some(ALREADY_ENROLLED)
      else None
  }

  /** Recovery's revocation of every credential that could still authenticate. */
  function Withdrawn(m: Records): (n: Records)
    ensures n.Keys == m.Keys
  {
    map v | v in m :: if Authenticating(m[v].status) then m[v].(status := REVOKED) else m[v]
  }

  /** The store after the first transaction of an enrollment that was not refused: the token is
      spent, the identity listed and, for a recovery, its credentials revoked. */
  function Claimed(s: Store, id: Uuid, kind: Kind, hash: bytes, now: int): Store
    requires hash in s.tokens
  {
    var token := s.tokens[hash];
    Store(if token.purpose == RECOVER then Saved(s.rows, id, Withdrawn(Rows(s.rows, id))) else s.rows,
          if kind == CLIENT then s.clients + {id} else s.clients,
          if kind == PROXY then s.proxies + {id} else s.proxies,
          s.tokens[hash := token.(usedAt := Some(now))])
  }

  /** The whole of enroll: the checks, the first transaction, the version check, the second
      transaction. */
  ghost function Enrolled(cfg: Config, s: Store, id: Uuid, kind: Kind, hash: bytes, version: int,
                          ed: bytes, x: bytes, now: int): (Store, Option<Failure>)
  {
    var refusal := Refusal(s, id, kind, hash, now);
    if refusal.Some? then (s, refusal)
    else
      var claimed := Claimed(s, id, kind, hash, now);
      if s.tokens[hash].purpose == ENROLL && version != 1 then (claimed, Some(Rotation(VERSION_ORDER)))
      else
        var c := Generated(id, version, ed, x);
        var m := Rows(claimed.rows, id);
        (claimed.(rows := Applied(cfg, claimed.rows, id, Event(now, Provision(c)))),
         match AfterProvision(cfg, m, c, now).result
         case Ok(_) => None
         case Raised(code) => Some(Rotation(code)))
  }

  lemma {:induction false} WithdrawnKeeps(m: Records, id: Uuid)
    requires Window(m) && Owned(m, id)
    ensures Window(Withdrawn(m)) && Owned(Withdrawn(m), id)
    ensures forall v :: !Is(Withdrawn(m), v, ACTIVE) && !Is(Withdrawn(m), v, FALLBACK)
    ensures forall v :: Is(Withdrawn(m), v, VALIDATING) <==> Is(m, v, VALIDATING)
  {
    EndingKeepsWindow(m, Withdrawn(m));
  }

  lemma {:induction false} ClaimedHealthy(s: Store, id: Uuid, kind: Kind, hash: bytes, now: int)
    requires Healthy(s.rows) && hash in s.tokens
    ensures var t := Claimed(s, id, kind, hash, now).rows;
      && Healthy(t)
      && (forall other :: other != id ==> Rows(t, other) == Rows(s.rows, other))
      && Rows(t, id) == if s.tokens[hash].purpose == RECOVER then Withdrawn(Rows(s.rows, id))
                        else Rows(s.rows, id)
  {
    WithdrawnKeeps(Rows(s.rows, id), id);
  }

  // ------------------------------------------------------------------
  // sweeping every identity
  // ------------------------------------------------------------------

  function Tagged(id: Uuid, cs: seq<Credential>): (ps: seq<(Uuid, Credential)>)
    ensures |ps| == |cs| && forall i :: 0 <= i < |cs| ==> ps[i] == (id, cs[i])
    ensures forall i, c :: (i, c) in ps <==> i == id && c in cs
  {
    var ps := seq(|cs|, i requires 0 <= i < |cs| => (id, cs[i]));
    assert forall c :: c in cs ==> (id, c) in ps by {
      forall c | c in cs ensures (id, c) in ps {
        var i :| 0 <= i < |cs| && cs[i] == c;
        assert ps[i] == (id, c);
      }
    }
    ps
  }

  /** The identities no longer in left have been swept; the others are as they were. */
  ghost predicate SweptOutside(was: Table, t: Table, left: set<Uuid>, now: int) {
    t.Keys == was.Keys && forall id :: id in t ==> t[id] == if id in left then was[id] else AfterExpiry(was[id], now)
  }

  /** The report holds exactly the changes made outside left, each once. */
  ghost predicate ReportsOutside(was: Table, report: seq<(Uuid, Credential)>, left: set<Uuid>, now: int) {
    && Distinct(report)
    && forall id, c :: (id, c) in report <==> id !in left && Lapses(Rows(was, id), c, now)
  }

  /** c is how one of the records lapses at time now. */
  ghost predicate Lapses(m: Records, c: Credential, now: int) {
    c.version in m && Lapsed(m[c.version], now) == c != m[c.version]
  }

  lemma {:induction false} SweepOne(cfg: Config, was: Table, t: Table, left: set<Uuid>, id: Uuid, now: int)
    requires SweptOutside(was, t, left, now) && id in left && id in was && was[id] != map[]
    ensures Rows(t, id) == was[id]
    ensures SweptOutside(was, Applied(cfg, t, id, Event(now, ExpireAll)), left - {id}, now)
  {
    var n := AfterExpiry(was[id], now);
    assert n.Keys == was[id].Keys;
    assert n != map[];
  }

  lemma {:induction false} ReportOne(was: Table, report: seq<(Uuid, Credential)>, left: set<Uuid>, id: Uuid,
                                     changed: seq<Credential>, now: int)
    requires ReportsOutside(was, report, left, now) && id in left
    requires Distinct(changed) && forall c :: c in changed <==> Lapses(Rows(was, id), c, now)
    ensures ReportsOutside(was, report + Tagged(id, changed), left - {id}, now)
  {
  }

  // ------------------------------------------------------------------
  // the class
  // ------------------------------------------------------------------

  /** Write a record as the row of its own identity and version. */
  function Written(t: Table, c: Credential): Table {
    t[c.identity := Rows(t, c.identity)[c.version := c]]
  }

  /** t after these records were saved one after the other as rows of id. */
  ghost function Overlay(t: Table, id: Uuid, cs: seq<Credential>): Table {
    if cs == [] then t else t[id := Rows(t, id) + LoadBook(cs).creds]
  }

  lemma {:induction false} OverlaySnoc(t: Table, id: Uuid, cs: seq<Credential>, i: nat)
    requires i < |cs| && cs[i].identity == id
    ensures Written(Overlay(t, id, cs[..i]), cs[i]) == Overlay(t, id, cs[..i + 1])
  {
    assert cs[..i + 1][..i] == cs[..i];
    var before, c := LoadBook(cs[..i]).creds, cs[i];
    assert LoadBook(cs[..i + 1]).creds == before[c.version := c];
    assert (Rows(t, id) + before)[c.version := c] == Rows(t, id) + before[c.version := c];
    if i == 0 {
      assert Rows(t, id) + before == Rows(t, id);
    }
  }

  lemma {:induction false} OverlayAll(t: Table, id: Uuid, cs: seq<Credential>, m: Records)
    requires Lists(cs, m) && Keyed(m) && Rows(t, id).Keys <= m.Keys
    ensures Overlay(t, id, cs) == Saved(t, id, m)
  {
    LoadInAnyOrder(m, cs);
    assert Rows(t, id) + m == m;
    if cs == [] {
      assert forall v :: v !in m;
      assert m == map[];
    } else {
      assert cs[0].version in m;
    }
  }

  /** Save every record the engine holds. */
  method SavePublic(t: Table, all: seq<Credential>, ghost id: Uuid, ghost m: Records) returns (staged: Table)
    requires Lists(all, m) && Keyed(m) && Owned(m, id) && Rows(t, id).Keys <= m.Keys
    ensures staged == Saved(t, id, m)
  {
    staged := t;
    for i := 0 to |all|
      invariant staged == Overlay(t, id, all[..i])
    {
      assert all[i] in all;
      OverlaySnoc(t, id, all, i);
      staged := Written(staged, all[i]);
    }
    assert all[..|all|] == all;
    OverlayAll(t, id, all, m);
  }

  method RevokeOne(engine: Engine, c: Credential, now: int) returns (revoked: Credential)
    requires engine.Valid() && c.version in engine.creds && engine.creds[c.version] == c
    modifies engine
    ensures engine.Valid() && engine.creds == old(engine.creds)[c.version := revoked]
    ensures revoked == c.(status := REVOKED)
  {
    var done := engine.Revoke(c.version, now);
    var r := engine.Get(c.version);
    revoked := r.value;
  }

  /** The first i of the listed records have been withdrawn. */
  ghost predicate Withdrawing(m: Records, all: seq<Credential>, i: nat, n: Records) {
    && i <= |all| && n.Keys == m.Keys
    && (forall j :: 0 <= j < |all| ==> all[j].version in m)
    && (forall j :: 0 <= j < i ==> n[all[j].version] == Withdrawn(m)[all[j].version])
    && (forall j :: i <= j < |all| ==> n[all[j].version] == all[j])
  }

  lemma {:induction false} WithdrawingStep(m: Records, all: seq<Credential>, i: nat, n: Records)
    requires Withdrawing(m, all, i, n) && i < |all| && m[all[i].version] == all[i]
    requires forall j, k :: 0 <= j < k < |all| ==> all[j].version < all[k].version
    ensures var c := all[i];
      Withdrawing(m, all, i + 1, if Authenticating(c.status) then n[c.version := c.(status := REVOKED)] else n)
  {
    assert forall j :: 0 <= j < |all| && j != i ==> all[j].version != all[i].version;
  }

  lemma {:induction false} WithdrawingDone(m: Records, all: seq<Credential>, n: Records)
    requires Withdrawing(m, all, |all|, n) && Keyed(m) && forall v :: v in m ==> m[v] in all
    ensures n == Withdrawn(m)
  {
    forall v | v in m ensures n[v] == Withdrawn(m)[v] {
      assert m[v] in all;
      var j :| 0 <= j < |all| && all[j] == m[v];
    }
  }

  lemma {:induction false} WrittenRow(t: Table, id: Uuid, m: Records, c: Credential)
    requires c.identity == id
    ensures Written(t[id := m], c) == t[id := m[c.version := c]]
  {
  }

  /** t with every credential of the loaded engine that can authenticate revoked. */
  method Withdraw(t: Table, engine: Engine, id: Uuid, now: int) returns (staged: Table)
    requires engine.Valid() && id in t && engine.creds == t[id] && Owned(t[id], id)
    modifies engine
    ensures staged == t[id := Withdrawn(t[id])]
  {
    ghost var m := t[id];
    var all := engine.All();
    staged := t;
    for i := 0 to |all|
      invariant engine.Valid() && Withdrawing(m, all, i, engine.creds)
      invariant staged == t[id := engine.creds]
    {
      assert all[i] in all;
      ghost var before := engine.creds;
      WithdrawingStep(m, all, i, before);
      if Authenticating(all[i].status) {
        var revoked := RevokeOne(engine, all[i], now);
        WrittenRow(t, id, before, revoked);
        staged := Written(staged, revoked);
      }
    }
    WithdrawingDone(m, all, engine.creds);
  }

  lemma {:induction false} ProvisionedRow(cfg: Config, t: Table, id: Uuid, c: Credential, now: int)
    requires Healthy(t) && c.identity == id && AfterProvision(cfg, Rows(t, id), c, now).result.Ok?
    ensures var s := Applied(cfg, t, id, Event(now, Provision(c)));
      id in s && c.version in s[id] && s[id][c.version] == Provisioned(cfg, c, now)
  {
    assert c.version in Next(cfg, Rows(t, id), Event(now, Provision(c)));
  }

  class CredentialRegistry {
    const cfg: Config
    /** The hash under which a token is stored. */
    const tokenHash: bytes -> bytes
    var rows: Table
    var clients: set<Uuid>
    var proxies: set<Uuid>
    var tokens: map<bytes, Token>

    ghost predicate Valid()
      reads this
    {
      Healthy(rows)
    }

    function Value(): Store
      reads this
    {
      Store(rows, clients, proxies, tokens)
    }

    constructor (cfg: Config, tokenHash: bytes -> bytes)
      ensures Valid() && this.cfg == cfg && Value() == Store(map[], {}, {}, map[])
    {
      this.cfg, this.tokenHash := cfg, tokenHash;
      rows, clients, proxies, tokens := map[], {}, {}, map[];
    }

    /** The engine holding the rows of id, or nothing when there are none. */
    method LoadEngine(id: Uuid) returns (engine: Engine?)
      requires Valid()
      ensures engine == null <==> Rows(rows, id) == map[]
      ensures engine != null ==>
        && fresh(engine) && engine.Valid() && engine.cfg == cfg && engine.creds == Rows(rows, id)
    {
      var m := Rows(rows, id);
      if m == map[] { return null; }
      var cs := SelectByVersion(m);
      LoadInAnyOrder(m, cs);
      engine := new Engine.Load(cfg, cs);
    }

    /** Run a step inside a transaction and persist the result. */
    method Apply(id: Uuid, e: Event, allowUnknown: bool) returns (r: Result<seq<Credential>, Failure>)
      requires Valid() && OwnOp(e.op, id)
      modifies this`rows
      ensures Valid()
      ensures !allowUnknown && Rows(old(rows), id) == map[] ==>
        rows == old(rows) && r == Raised(UNKNOWN_IDENTITY)
      ensures allowUnknown || Rows(old(rows), id) != map[] ==>
        rows == Applied(cfg, old(rows), id, e) && Answered(cfg, Rows(old(rows), id), e, r)
    {
      var engine := LoadEngine(id);
      if engine == null {
        if !allowUnknown { return Raised(UNKNOWN_IDENTITY); }
        engine := new Engine(cfg);
      }
      ghost var m := Rows(rows, id);
      assert engine.creds == m;
      CommitKeeps(cfg, m, id, e);
      AppliedRows(cfg, rows, id, e, id);
      var changed := Execute(engine, e);
      if changed.Raised? { return Raised(Rotation(changed.error)); }
      var all := engine.All();
      var staged := SavePublic(rows, all, id, Next(cfg, m, e));
      rows := staged;
      r := Ok(changed.value);
    }

    method SubmitSuccessor(id: Uuid, version: int, ed: bytes, x: bytes, sig: bytes, meta: bytes, now: int)
      returns (r: Result<Credential, Failure>)
      requires Valid()
      modifies this`rows
      ensures Valid()
      ensures var c := Generated(id, version, ed, x);
        && rows == Applied(cfg, old(rows), id, Event(now, Submit(c, sig, meta)))
        && (Rows(old(rows), id) == map[] ==> r == Raised(UNKNOWN_IDENTITY))
        && (Rows(old(rows), id) != map[] ==>
              match AfterSubmit(cfg, Rows(old(rows), id), c, sig, meta, now).result
              case Ok(_) => r == Ok(Submitted(cfg, c, now))
              case Raised(code) => r == Raised(Rotation(code)))
    {
      var e := Event(now, Submit(Generated(id, version, ed, x), sig, meta));
      ghost var m := Rows(rows, id);
      assert m == map[] ==> !Succeeds(cfg, m, e);
      var changed := Apply(id, e, false);
      r := if changed.Raised? then Raised(changed.error) else Ok(changed.value[0]);
    }

    method Checkpoint(id: Uuid, now: int) returns (r: Result<seq<Credential>, Failure>)
      requires Valid()
      modifies this`rows
      ensures Valid()
      ensures rows == Applied(cfg, old(rows), id, Event(now, Op.Checkpoint))
      ensures Rows(old(rows), id) == map[] ==> r == Raised(UNKNOWN_IDENTITY)
      ensures Rows(old(rows), id) != map[] ==>
        match AfterCheckpoint(cfg, Rows(old(rows), id), now).result
        case Ok(changed) => r == Ok(changed)
        case Raised(code) => r == Raised(Rotation(code))
    {
      ghost var m := Rows(rows, id);
      assert m == map[] ==> !Succeeds(cfg, m, Event(now, Op.Checkpoint));
      r := Apply(id, Event(now, Op.Checkpoint), false);
    }

    method Rollback(id: Uuid, now: int) returns (r: Result<Credential, Failure>)
      requires Valid()
      modifies this`rows
      ensures Valid()
      ensures rows == Applied(cfg, old(rows), id, Event(now, Op.Rollback))
      ensures Rows(old(rows), id) == map[] ==> r == Raised(UNKNOWN_IDENTITY)
      ensures Rows(old(rows), id) != map[] ==>
        match AfterRollback(Rows(old(rows), id)).result
        case Ok(c) => r == Ok(c)
        case Raised(code) => r == Raised(Rotation(code))
    {
      ghost var m := Rows(rows, id);
      assert m == map[] ==> !Succeeds(cfg, m, Event(now, Op.Rollback));
      var changed := Apply(id, Event(now, Op.Rollback), false);
      r := if changed.Raised? then Raised(changed.error) else Ok(changed.value[0]);
    }

    method Revoke(id: Uuid, version: int, now: int) returns (r: Result<Credential, Failure>)
      requires Valid()
      modifies this`rows
      ensures Valid()
      ensures rows == Applied(cfg, old(rows), id, Event(now, Op.Revoke(version)))
      ensures Rows(old(rows), id) == map[] ==> r == Raised(UNKNOWN_IDENTITY)
      ensures Rows(old(rows), id) != map[] ==>
        match AfterRevoke(Rows(old(rows), id), version).result
        case Ok(c) => r == Ok(c)
        case Raised(code) => r == Raised(Rotation(code))
    {
      var changed := Apply(id, Event(now, Op.Revoke(version)), false);
      r := if changed.Raised? then Raised(changed.error) else Ok(changed.value[0]);
    }

    /** Mark the expired credentials of every identity. */
    method ExpireAll(now: int) returns (expired: seq<(Uuid, Credential)>)
      requires Valid()
      modifies this`rows
      ensures Valid() && rows.Keys == old(rows).Keys
      ensures forall id :: id in rows ==> rows[id] == AfterExpiry(old(rows)[id], now)
      ensures Distinct(expired)
      ensures forall id, c :: (id, c) in expired <==> Lapses(Rows(old(rows), id), c, now)
    {
      expired := [];
      ghost var was := rows;
      var left := set id | id in rows && rows[id] != map[];
      while left != {}
        invariant Valid() && SweptOutside(was, rows, left, now)
        invariant ReportsOutside(was, expired, left, now)
        invariant forall id :: id in left ==> id in was && was[id] != map[]
        decreases |left|
      {
        ghost var some := Pick(left);
        var id :| id in left;
        ghost var before := rows;
        var changed := Apply(id, Event(now, Op.ExpireAll), false);
        SweepOne(cfg, was, before, left, id, now);
        ReportOne(was, expired, left, id, changed.value, now);
        expired := expired + Tagged(id, changed.value);
        left := left - {id};
      }
    }

    method CredentialForAuth(id: Uuid, version: int, now: int) returns (r: Result<Option<Credential>, Failure>)
      requires Valid()
      ensures Rows(rows, id) == map[] ==> r == Raised(UNKNOWN_IDENTITY)
      ensures Rows(rows, id) != map[] ==>
        r == Ok(if Accepts(Rows(rows, id), version, now) then Some(rows[id][version]) else None)
    {
      var engine := LoadEngine(id);
      if engine == null { return Raised(UNKNOWN_IDENTITY); }
      var c := engine.CredentialForAuth(version, now);
      r := Ok(c);
    }

    method IdentityKind(id: Uuid) returns (r: Option<Kind>)
      ensures r == if id in clients then Some(CLIENT) else if id in proxies then Some(PROXY) else None
    {
      if id in clients { return Some(CLIENT); }
      if id in proxies { return Some(PROXY); }
      r := None;
    }

    /** The first transaction of an enrollment: its checks, then the claim of the token. */
    method Claim(id: Uuid, kind: Kind, hash: bytes, now: int) returns (refused: Option<Failure>)
      requires Valid()
      modifies this
      ensures refused == Refusal(old(Value()), id, kind, hash, now)
      ensures Value() == if refused.Some? then old(Value()) else Claimed(old(Value()), id, kind, hash, now)
    {
      if hash !in tokens { return Some(BAD_TOKEN); }
      var row := tokens[hash];
      if row.usedAt.Some? { return Some(TOKEN_USED); }
      if row.expiresAt < now { return Some(TOKEN_EXPIRED); }
      if row.purpose == RECOVER && row.bound != Some(id) { return Some(TOKEN_MISMATCH); }
      var known := id in (if kind == CLIENT then clients else proxies);
      if row.purpose == RECOVER && !known { return Some(UNKNOWN_IDENTITY); }
      if row.purpose == ENROLL && known { return Some(ALREADY_ENROLLED); }
      var engine := LoadEngine(id);
      if row.purpose == RECOVER {
        if engine == null { return Some(UNKNOWN_IDENTITY); }
        assert id in rows;
        var staged := Withdraw(rows, engine, id, now);
        rows := staged;
      } else if engine != null {
        return Some(ALREADY_ENROLLED);
      }
      if kind == CLIENT {
        clients := clients + {id};
      } else {
        proxies := proxies + {id};
      }
      tokens := tokens[hash := row.(usedAt := Some(now))];
      refused := None;
    }

    /** Enroll or recover an identity. given is the caller's time, clock the server's. */
    method Enroll(id: Uuid, kind: Kind, token: bytes, version: int, ed: bytes, x: bytes,
                  given: Option<int>, clock: int)
      returns (r: Result<Credential, Failure>)
      requires Valid()
      modifies this
      ensures Valid()
      ensures var (after, failure) := Enrolled(cfg, old(Value()), id, kind, tokenHash(token), version,
                                               ed, x, OrElse(given, clock));
        && Value() == after
        && (failure.Some? ==> r == Raised(failure.value))
        && (failure.None? ==> r == Ok(Provisioned(cfg, Generated(id, version, ed, x), OrElse(given, clock))))
    {
      var now := OrElse(given, clock);
      var hash := tokenHash(token);
      ghost var s := Value();
      var refused := Claim(id, kind, hash, now);
      if refused.Some? { return Raised(refused.value); }
      ClaimedHealthy(s, id, kind, hash, now);
      if tokens[hash].purpose == ENROLL && version != 1 { return Raised(Rotation(VERSION_ORDER)); }
      var c := Generated(id, version, ed, x);
      if AfterProvision(cfg, Rows(rows, id), c, now).result.Ok? {
        ProvisionedRow(cfg, rows, id, c, now);
      }
      var done := Apply(id, Event(now, Provision(c)), true);
      if done.Raised? { return Raised(done.error); }
      r := Ok(rows[id][version]);
    }
  }
}
