/** The server's own rotating identity: an engine, the private keys beside it, what of both is on
    disk, and the periodic tick that rotates them. */
module ServerIdentity {
  import opened Basics
  import opened Credentials
  import opened RotationEngine
  import opened RotationRuns
  import opened Owner

  /** Memory (records and keys) and disk (rows and key file). */
  datatype Server = Server(records: Records, keys: Keys, rows: Records, keyFile: Option<Keys>)

  /** What one tick attempted: a submission, a checkpoint, both or neither; or an exception that
      is not a RotationError and escapes it. */
  datatype Tick =
    | Ticked(submit: Option<Result<(), Code>>, checkpoint: Option<Result<(), Code>>)
    | Escaped(error: Escape)

  const IDLE := Ticked(None, None)

  /** Write memory to disk. */
  function Persisted(s: Server): Server {
    s.(rows := s.rows + s.records, keyFile := Some(s.keys))
  }

  /** The server after a submission it signs itself. */
  ghost function AfterOwnSubmit(setup: Setup, s: Server, active: Credential, g: Fresh, now: int)
    : (Server, Result<Result<(), Code>, Escape>)
  {
    if active.version !in s.keys then (s, Raised(KEY_ERROR))
    else
      match OwnPayload(setup.id, active, g)
      case Raised(e) => (s, Raised(e))
      case Ok(payload) =>
        var sig := setup.sign(s.keys[active.version].0, payload);
        match AfterSubmit(setup.cfg, s.records, Successor(setup.id, active, g), sig, [], now)
        case After(m, Raised(code)) => (s.(records := m), Ok(Raised(code)))
        case After(m, Ok(_)) =>
          (Persisted(s.(records := m, keys := s.keys[active.version + 1 := (g.edPrivate, g.xPrivate)])),
           Ok(Ok(())))
  }

  ghost function AfterOwnCheckpoint(setup: Setup, s: Server, now: int): (Server, Result<(), Code>) {
    match AfterCheckpoint(setup.cfg, s.records, now)
    case After(m, Ok(_)) => (Persisted(s.(records := m)), Ok(()))
    case After(m, Raised(code)) => (s.(records := m), Raised(code))
  }

  /** The second half of a tick: promote what is VALIDATING once its deadline has come. */
  ghost function Promotion(setup: Setup, s: Server, submit: Option<Result<(), Code>>, now: int)
    : (Server, Tick)
  {
    var validating := Lookup(s.records, VALIDATING);
    if validating.Some? && now >= OrElse(validating.value.deadline, 0) then
      var (s', r) := AfterOwnCheckpoint(setup, s, now);
      (s', Ticked(submit, Some(r)))
    else (s, Ticked(submit, None))
  }

  /** The server after a tick. */
  ghost function AfterTick(setup: Setup, s: Server, g: Fresh, now: int): (Server, Tick) {
    var active := Lookup(s.records, ACTIVE);
    if active.None? then (s, IDLE)
    else if Lookup(s.records, VALIDATING).None? && now >= RotateAt(setup.cfg, active.value, now) then
      var (s', r) := AfterOwnSubmit(setup, s, active.value, g, now);
      match r
      case Raised(e) => (s', Escaped(e))
      case Ok(Raised(code)) => (s', Ticked(Some(Raised(code)), None))
      case Ok(Ok(_)) => Promotion(setup, s', Some(Ok(())), now)
    else Promotion(setup, s, None, now)
  }

  /** The server after it was started: provisioned when there are no rows, loaded otherwise. */
  ghost function AfterStart(setup: Setup, s: Server, g: Fresh, now: int): (Server, bool) {
    if s.rows == map[] then
      var c := Generated(setup.id, 1, g.edPublic, g.xPublic);
      (Persisted(Server(AfterProvision(setup.cfg, map[], c, now).records, map[1 := (g.edPrivate, g.xPrivate)],
                        s.rows, s.keyFile)), true)
    else if s.keyFile.None? then (s.(records := s.rows), false)
    else (s.(records := s.rows, keys := s.keyFile.value), true)
  }

  class ServerCredential {
    const setup: Setup
    var engine: Engine
    var keys: Keys
    var rows: Records
    var keyFile: Option<Keys>

    ghost predicate Valid()
      reads this, engine
    {
      engine.cfg == setup.cfg && engine.Valid() && Window(engine.creds)
    }

    ghost function Value(): Server
      reads this, engine
    {
      Server(engine.creds, keys, rows, keyFile)
    }

    /** A server process on what an earlier one left on disk. */
    constructor (setup: Setup, rows: Records, keyFile: Option<Keys>)
      ensures Valid() && fresh(engine) && this.setup == setup
      ensures Value() == Server(map[], map[], rows, keyFile)
    {
      this.setup, this.rows, this.keyFile, this.keys := setup, rows, keyFile, map[];
      engine := new Engine(setup.cfg);
    }

    method Persist()
      requires Valid()
      modifies this`rows, this`keyFile
      ensures Value() == Persisted(old(Value()))
    {
      rows := rows + engine.creds;
      keyFile := Some(keys);
    }

    method Load(cs: seq<Credential>)
      requires Valid() && Lists(cs, rows) && Keyed(rows)
      modifies this`engine
      ensures fresh(engine) && engine.cfg == setup.cfg && engine.Valid()
      ensures Value() == old(Value()).(records := rows)
    {
      LoadInAnyOrder(rows, cs);
      engine := new Engine.Load(setup.cfg, cs);
    }

    /** Load what is on disk, or provision the first credential. cs lists the rows by version. */
    method EnsureLoaded(cs: seq<Credential>, g: Fresh, now: int) returns (ok: bool)
      requires Valid() && engine.creds == map[] && keys == map[]
      requires Lists(cs, rows) && Keyed(rows)
      modifies this, engine
      ensures engine.cfg == setup.cfg && engine.Valid() && (Window(old(rows)) ==> Valid())
      ensures fresh(engine) || engine == old(engine)
      ensures (Value(), ok) == AfterStart(setup, old(Value()), g, now)
    {
      if rows == map[] {
        Provision(g, now);
        return true;
      }
      Load(cs);
      if keyFile.None? { return false; }
      keys := keyFile.value;
      ok := true;
    }

    method Provision(g: Fresh, now: int)
      requires Valid() && engine.creds == map[]
      modifies this, engine
      ensures Valid() && engine == old(engine)
      ensures var c := Generated(setup.id, 1, g.edPublic, g.xPublic);
        Value() == Persisted(old(Value()).(records := AfterProvision(setup.cfg, map[], c, now).records,
                                           keys := old(keys)[1 := (g.edPrivate, g.xPrivate)]))
    {
      var c := Generated(setup.id, 1, g.edPublic, g.xPublic);
      var done := ProvisionOn(engine, c, now);
      keys := keys[1 := (g.edPrivate, g.xPrivate)];
      Persist();
    }

    method OwnSubmit(active: Credential, g: Fresh, now: int) returns (r: Result<Result<(), Code>, Escape>)
      requires Valid()
      modifies this, engine
      ensures Valid() && engine == old(engine)
      ensures (Value(), r) == AfterOwnSubmit(setup, old(Value()), active, g, now)
    {
      if active.version !in keys { return Raised(KEY_ERROR); }
      var payload := OwnPayload(setup.id, active, g);
      if payload.Raised? { return Raised(payload.error); }
      var c := Successor(setup.id, active, g);
      var sig := setup.sign(keys[active.version].0, payload.value);
      var done := SubmitOn(engine, c, sig, [], now);
      if done.Raised? { return Ok(Raised(done.error)); }
      keys := keys[active.version + 1 := (g.edPrivate, g.xPrivate)];
      Persist();
      r := Ok(Ok(()));
    }

    method OwnCheckpoint(now: int) returns (r: Result<(), Code>)
      requires Valid()
      modifies this, engine
      ensures Valid() && engine == old(engine)
      ensures (Value(), r) == AfterOwnCheckpoint(setup, old(Value()), now)
    {
      var done := CheckpointOn(engine, now);
      if done.Raised? { return Raised(done.error); }
      Persist();
      r := Ok(());
    }

    /** One periodic tick. */
    method MaybeRotate(g: Fresh, now: int) returns (tick: Tick)
      requires Valid()
      modifies this, engine
      ensures Valid() && engine == old(engine)
      ensures (Value(), tick) == AfterTick(setup, old(Value()), g, now)
    {
      var active := FindStatus(engine, ACTIVE);
      if active.None? { return IDLE; }
      var validating := FindStatus(engine, VALIDATING);
      var submit: Option<Result<(), Code>> := None;
      if validating.None? && now >= RotateAt(setup.cfg, active.value, now) {
        var r := OwnSubmit(active.value, g, now);
        if r.Raised? { return Escaped(r.error); }
        if r.value.Raised? { return Ticked(Some(r.value), None); }
        submit := Some(Ok(()));
        validating := FindStatus(engine, VALIDATING);
      }
      if validating.Some? && now >= OrElse(validating.value.deadline, 0) {
        var done := OwnCheckpoint(now);
        return Ticked(submit, Some(done));
      }
      tick := Ticked(submit, None);
    }
  }
}
