/** The client's own identity: an engine on its own clock, the private keys beside it and the file
    both are saved to; and when it can propose a successor. */
module ClientIdentity {
  import opened Basics
  import opened Credentials
  import opened RotationEngine
  import opened RotationRuns
  import opened Owner

  datatype File = File(records: Records, keys: Keys, enrolled: bool)

  /** Memory and file. */
  datatype Client = Client(records: Records, keys: Keys, enrolled: bool, file: Option<File>)

  datatype Failure =
    | NO_ACTIVE_CREDENTIAL | KEYS_MISSING
    | Escaped(escape: Escape)
    | Rotation(code: Code)

  /** What the session sends the server: the new record and the signature over its payload. */
  datatype Proposal = Proposal(c: Credential, sig: bytes)

  function Stored(c: Client): Client {
    c.(file := Some(File(c.records, c.keys, c.enrolled)))
  }

  /** The client after it started: from its file, or with a first credential when there is none. */
  ghost function AfterStart(setup: Setup, c: Client, g: Fresh, now: int): (Client, Result<(), Failure>) {
    if c.file.None? then
      var first := Generated(setup.id, 1, g.edPublic, g.xPublic);
      match AfterProvision(setup.cfg, c.records, first, now)
      case After(m, Raised(code)) => (c.(records := m), Raised(Rotation(code)))
      case After(m, Ok(_)) =>
        (Stored(c.(records := m, keys := c.keys[1 := (g.edPrivate, g.xPrivate)])), Ok(()))
    else
      var f := c.file.value;
      if f.keys == map[] then (c.(records := f.records, keys := map[]), Raised(KEYS_MISSING))
      else (c.(records := f.records, keys := f.keys, enrolled := f.enrolled), Ok(()))
  }

  /** Propose the version after the ACTIVE one, and submit it to the client's own engine first. */
  ghost function AfterGenerate(setup: Setup, c: Client, g: Fresh, now: int): (Client, Result<Proposal, Failure>) {
    var active := Lookup(c.records, ACTIVE);
    if active.None? then (c, Raised(NO_ACTIVE_CREDENTIAL))
    else if active.value.version !in c.keys then (c, Raised(Escaped(KEY_ERROR)))
    else
      var next := Successor(active.value.identity, active.value, g);
      match OwnPayload(active.value.identity, active.value, g)
      case Raised(e) => (c, Raised(Escaped(e)))
      case Ok(payload) =>
        var sig := setup.sign(c.keys[active.value.version].0, payload);
        match AfterSubmit(setup.cfg, c.records, next, sig, [], now)
        case After(m, Raised(code)) => (c.(records := m), Raised(Rotation(code)))
        case After(m, Ok(_)) =>
          (Stored(c.(records := m, keys := c.keys[next.version := (g.edPrivate, g.xPrivate)])),
           Ok(Proposal(next, sig)))
  }

  /** Promote locally; a refusal is swallowed, and not saved. */
  ghost function AfterLocalCheckpoint(setup: Setup, c: Client, now: int): Client {
    if Lookup(c.records, VALIDATING).None? then c
    else
      match AfterCheckpoint(setup.cfg, c.records, now)
      case After(m, Ok(_)) => Stored(c.(records := m))
      case After(m, Raised(_)) => c.(records := m)
  }

  ghost function AfterLocalRollback(c: Client): (Client, Result<(), Failure>) {
    match AfterRollback(c.records)
    case After(m, Ok(_)) => (Stored(c.(records := m)), Ok(()))
    case After(m, Raised(code)) => (c, Raised(Rotation(code)))
  }

  class Identity {
    const setup: Setup
    var engine: Engine
    var keys: Keys
    var enrolled: bool
    var file: Option<File>

    ghost predicate Valid()
      reads this, engine
    {
      engine.cfg == setup.cfg && engine.Valid() && Window(engine.creds)
    }

    ghost function Value(): Client
      reads this, engine
    {
      Client(engine.creds, keys, enrolled, file)
    }

    /** A client process on the file an earlier one may have left. */
    constructor (setup: Setup, file: Option<File>)
      ensures Valid() && fresh(engine) && this.setup == setup
      ensures Value() == Client(map[], map[], false, file)
    {
      this.setup, this.file, this.keys, this.enrolled := setup, file, map[], false;
      engine := new Engine(setup.cfg);
    }

    method Save()
      requires Valid()
      modifies this`file
      ensures Value() == Stored(old(Value()))
    {
      file := Some(File(engine.creds, keys, enrolled));
    }

    method Load(f: File, cs: seq<Credential>) returns (r: Result<(), Failure>)
      requires Valid() && file == Some(f) && Lists(cs, f.records) && Keyed(f.records)
      modifies this
      ensures fresh(engine) && engine.cfg == setup.cfg && engine.Valid() && (Window(f.records) ==> Valid())
      ensures Value() == if f.keys == map[] then old(Value()).(records := f.records, keys := map[])
                         else old(Value()).(records := f.records, keys := f.keys, enrolled := f.enrolled)
      ensures r == if f.keys == map[] then Raised(KEYS_MISSING) else Ok(())
    {
      LoadInAnyOrder(f.records, cs);
      engine := new Engine.Load(setup.cfg, cs);
      keys := f.keys;
      if keys == map[] { return Raised(KEYS_MISSING); }
      enrolled := f.enrolled;
      r := Ok(());
    }

    /** Load the file, or make the first credential. cs lists the saved records in the order the
        file has them, by version as text. */
    method EnsureLoaded(cs: seq<Credential>, g: Fresh, now: int) returns (r: Result<(), Failure>)
      requires Valid() && (file.Some? ==> Lists(cs, file.value.records) && Keyed(file.value.records))
      modifies this, engine
      ensures engine.cfg == setup.cfg && engine.Valid() && (fresh(engine) || engine == old(engine))
      ensures (old(file).Some? ==> Window(old(file).value.records)) ==> Valid()
      ensures (Value(), r) == AfterStart(setup, old(Value()), g, now)
    {
      if file.Some? {
        r := Load(file.value, cs);
        return;
      }
      var done := ProvisionOn(engine, Generated(setup.id, 1, g.edPublic, g.xPublic), now);
      if done.Raised? { return Raised(Rotation(done.error)); }
      keys := keys[1 := (g.edPrivate, g.xPrivate)];
      Save();
      r := Ok(());
    }

    method Current() returns (r: Result<Credential, Failure>)
      requires Valid()
      ensures r == match Lookup(engine.creds, ACTIVE)
                   case Some(c) => Ok(c)
                   case None => Raised(NO_ACTIVE_CREDENTIAL)
    {
      var c := FindStatus(engine, ACTIVE);
      r := if c.Some? then Ok(c.value) else Raised(NO_ACTIVE_CREDENTIAL);
    }

    method MarkEnrolled()
      requires Valid()
      modifies this
      ensures Valid() && engine == old(engine) && Value() == Stored(old(Value()).(enrolled := true))
    {
      enrolled := true;
      Save();
    }

    method GenerateSuccessor(g: Fresh, now: int) returns (r: Result<Proposal, Failure>)
      requires Valid()
      modifies this, engine
      ensures Valid() && engine == old(engine)
      ensures (Value(), r) == AfterGenerate(setup, old(Value()), g, now)
    {
      var current := Current();
      if current.Raised? { return Raised(current.error); }
      var active := current.value;
      if active.version !in keys { return Raised(Escaped(KEY_ERROR)); }
      var next := Successor(active.identity, active, g);
      var payload := OwnPayload(active.identity, active, g);
      if payload.Raised? { return Raised(Escaped(payload.error)); }
      var sig := setup.sign(keys[active.version].0, payload.value);
      var done := SubmitOn(engine, next, sig, [], now);
      if done.Raised? { return Raised(Rotation(done.error)); }
      keys := keys[next.version := (g.edPrivate, g.xPrivate)];
      Save();
      r := Ok(Proposal(next, sig));
    }

    method Checkpoint(now: int)
      requires Valid()
      modifies this, engine
      ensures Valid() && engine == old(engine)
      ensures Value() == AfterLocalCheckpoint(setup, old(Value()), now)
    {
      var validating := FindStatus(engine, VALIDATING);
      if validating.None? { return; }
      var done := CheckpointOn(engine, now);
      if done.Raised? { return; }
      Save();
    }

    method Rollback(now: int) returns (r: Result<(), Failure>)
      requires Valid()
      modifies this, engine
      ensures Valid() && engine == old(engine)
      ensures (Value(), r) == AfterLocalRollback(old(Value()))
    {
      var done := RollbackOn(engine, now);
      if done.Raised? {
        assert engine.creds == old(engine.creds);
        return Raised(Rotation(done.error));
      }
      Save();
      r := Ok(());
    }

    method ShouldRotate(now: int) returns (r: Result<bool, Failure>)
      requires Valid()
      ensures r == match Lookup(engine.creds, ACTIVE)
                   case Some(c) => Ok(now >= RotateAt(setup.cfg, c, now))
                   case None => Raised(NO_ACTIVE_CREDENTIAL)
    {
      var c := Current();
      r := if c.Ok? then Ok(now >= RotateAt(setup.cfg, c.value, now)) else Raised(c.error);
    }
  }

  // ------------------------------------------------------------------
  // when a successor can be proposed
  // ------------------------------------------------------------------

  /** With an honest key pair, generate_successor succeeds exactly when an ACTIVE credential exists,
      is unexpired, is the highest version known, and nothing is VALIDATING. */
  lemma {:induction false} GenerateIff(setup: Setup, c: Client, g: Fresh, now: int)
    requires Window(c.records) && Genuine(setup, g)
    requires forall v :: Is(c.records, v, ACTIVE) ==>
      && v in c.keys && KeyPair(setup, c.keys[v].0, c.records[v].ed25519)
      && 0 <= v && v + 1 < VERSIONS
    ensures AfterGenerate(setup, c, g, now).1.Ok? <==>
      exists v :: Is(c.records, v, ACTIVE) && !Expired(c.records[v], now)
        && (forall w :: w in c.records ==> w <= v && !Is(c.records, w, VALIDATING))
  {
  }

  /** The client's own moves. */
  datatype Move = Generate(g: Fresh) | Promote | Cancel | Reload

  ghost function Moved(setup: Setup, c: Client, move: Move, now: int): Client {
    match move
    case Generate(g) => AfterGenerate(setup, c, g, now).0
    case Promote => AfterLocalCheckpoint(setup, c, now)
    case Cancel => AfterLocalRollback(c).0
    case Reload => if c.file.None? then c else AfterStart(setup, c, Fresh([], [], [], []), now).0
  }

  ghost function Moves(setup: Setup, c: Client, moves: seq<(Move, int)>): Client
    decreases moves
  {
    if moves == [] then c else Moves(setup, Moved(setup, c, moves[0].0, moves[0].1), moves[1..])
  }

  /** Every recorded version has its private keys, and both belong to its public ones. */
  ghost predicate Held(setup: Setup, keys: Keys, m: Records) {
    forall v :: v in m ==> v in keys && Paired(setup, keys[v], m[v])
  }

  /** In memory and in the file. */
  ghost predicate KeysHeld(setup: Setup, c: Client) {
    && Window(c.records) && Held(setup, c.keys, c.records)
    && (c.file.Some? ==> Window(c.file.value.records) && Held(setup, c.file.value.keys, c.file.value.records))
  }

  lemma {:induction false} HeldStep(setup: Setup, keys: Keys, m: Records, e: Event)
    requires Window(m) && Held(setup, keys, m) && !e.op.Submit? && !e.op.Provision?
    ensures Window(Next(setup.cfg, m, e)) && Held(setup, keys, Next(setup.cfg, m, e))
  {
    var n := Next(setup.cfg, m, e);
    WindowStep(setup.cfg, m, e);
    var x := ChangeOf(setup.cfg, m, e);
    ChangeKeepsVersions(setup.cfg, m, e, n, x);
    assert n.Keys == m.Keys;
  }

  lemma {:induction false} HeldGenerate(setup: Setup, c: Client, g: Fresh, now: int)
    requires KeysHeld(setup, c) && Genuine(setup, g)
    ensures KeysHeld(setup, AfterGenerate(setup, c, g, now).0)
  {
    var r := AfterGenerate(setup, c, g, now).1;
    if r.Ok? {
      var op := Submit(r.value.c, r.value.sig, []);
      WindowStep(setup.cfg, c.records, Event(now, op));
      assert AfterSubmit(setup.cfg, c.records, op.c, op.sig, [], now).records
        == c.records[op.c.version := Submitted(setup.cfg, op.c, now)];
    }
  }

  lemma {:induction false} HeldMove(setup: Setup, c: Client, move: Move, now: int)
    requires KeysHeld(setup, c) && (move.Generate? ==> Genuine(setup, move.g))
    ensures KeysHeld(setup, Moved(setup, c, move, now))
  {
    match move
    case Generate(g) => HeldGenerate(setup, c, g, now);
    case Promote => HeldStep(setup, c.keys, c.records, Event(now, Op.Checkpoint));
    case Cancel => HeldStep(setup, c.keys, c.records, Event(now, Op.Rollback));
    case Reload =>
  }

  /** Over every sequence of proposals, promotions, rollbacks and restarts from the first start on, the
      client holds, in memory and in its file, both private keys of every version it records. */
  lemma {:induction false} KeysStayHeld(setup: Setup, g: Fresh, start: int, moves: seq<(Move, int)>)
    requires Genuine(setup, g)
    requires forall m :: m in moves && m.0.Generate? ==> Genuine(setup, m.0.g)
    ensures KeysHeld(setup, Moves(setup, AfterStart(setup, Client(map[], map[], false, None), g, start).0, moves))
  {
    HeldMoves(setup, AfterStart(setup, Client(map[], map[], false, None), g, start).0, moves);
  }

  lemma {:induction false} HeldMoves(setup: Setup, c: Client, moves: seq<(Move, int)>)
    requires KeysHeld(setup, c) && forall m :: m in moves && m.0.Generate? ==> Genuine(setup, m.0.g)
    ensures KeysHeld(setup, Moves(setup, c, moves))
    decreases moves
  {
    if moves != [] {
      assert moves[0] in moves;
      HeldMove(setup, c, moves[0].0, moves[0].1);
      HeldMoves(setup, Moved(setup, c, moves[0].0, moves[0].1), moves[1..]);
    }
  }

  /** Something above the ACTIVE version is TERMINATED, in memory and in the file. */
  ghost predicate Blocked(m: Records, v: int) {
    Window(m) && Is(m, v, TERMINATED) && (forall w :: Is(m, w, ACTIVE) ==> w < v)
      && forall w :: !Is(m, w, VALIDATING)
  }

  ghost predicate BlockedClient(c: Client, v: int) {
    Blocked(c.records, v) && c.file.Some? && Blocked(c.file.value.records, v)
  }

  lemma {:induction false} BlockedMove(setup: Setup, c: Client, v: int, move: Move, now: int, g: Fresh)
    requires BlockedClient(c, v)
    ensures BlockedClient(Moved(setup, c, move, now), v)
    ensures AfterGenerate(setup, c, g, now).1.Raised?
  {
  }

  /** After a local rollback no sequence of moves, restarts included, ever makes
      generate_successor succeed again. */
  lemma {:induction false} RollbackEndsRotation(setup: Setup, c: Client, moves: seq<(Move, int)>, g: Fresh,
                                                now: int)
    requires Window(c.records) && AfterLocalRollback(c).1.Ok?
    ensures AfterGenerate(setup, Moves(setup, AfterLocalRollback(c).0, moves), g, now).1.Raised?
  {
    var v3 := Lookup(c.records, VALIDATING).value;
    var x := RollbackChanges(setup.cfg, c.records, now);
    ChangeKeepsWindow(setup.cfg, c.records, Event(now, Op.Rollback), AfterRollback(c.records).records, x);
    var n := AfterLocalRollback(c).0;
    forall w ensures !Is(n.records, w, VALIDATING)
      ensures Is(n.records, w, ACTIVE) ==> w < v3.version
    {
      assert Is(n.records, w, VALIDATING) ==> Is(c.records, w, VALIDATING);
      assert Is(n.records, w, ACTIVE) ==> Is(c.records, w, ACTIVE);
      assert Is(c.records, v3.version, VALIDATING);
    }
    StaysBlocked(setup, n, v3.version, moves, g, now);
  }

  lemma {:induction false} StaysBlocked(setup: Setup, c: Client, v: int, moves: seq<(Move, int)>, g: Fresh,
                                        now: int)
    requires BlockedClient(c, v)
    ensures AfterGenerate(setup, Moves(setup, c, moves), g, now).1.Raised?
    decreases moves
  {
    if moves == [] {
      BlockedMove(setup, c, v, Promote, now, g);
    } else {
      BlockedMove(setup, c, v, moves[0].0, moves[0].1, g);
      StaysBlocked(setup, Moved(setup, c, moves[0].0, moves[0].1), v, moves[1..], g, now);
    }
  }

  /** The engine itself would go on: from the same records it accepts the version after the
      terminated one, which the client never proposes. */
  lemma {:induction false} EngineWouldGoOn(cfg: Config, m: Records, a: int, v: int, c: Credential, sig: bytes,
                                           meta: bytes, now: int)
    requires Blocked(m, v) && Is(m, a, ACTIVE) && !Expired(m[a], now) && forall w :: w in m ==> w <= v
    requires c.version == v + 1 && c.identity == m[a].identity && Authorizes(cfg, m[a], c, meta, sig)
    ensures AfterSubmit(cfg, m, c, sig, meta, now).result.Ok?
  {
  }
}
