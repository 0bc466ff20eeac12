/** The three rotation exchanges of a client session. The network is a parameter: a reply that
    never came, or the status it carried. */
module ClientSession {
  import opened Basics
  import opened Credentials
  import opened RotationEngine
  import opened RotationRuns
  import opened Owner
  import opened ClientIdentity

  /** What came back for a request: nothing usable, or a status (0 is success). */
  datatype Reply = NoReply | Status(code: int)

  datatype SessionError = OfIdentity(failure: Failure) | NO_REPLY | ROTATE_REJECTED

  datatype Call = Rotating | Promoting | Cancelling

  /** What the client does with the server's status. */
  ghost function Answered(setup: Setup, c: Client, call: Call, ok: bool, now: int)
    : (Client, Result<bool, SessionError>)
  {
    match call
    case Rotating =>
      if ok then (AfterLocalCheckpoint(setup, c, now), Ok(true)) else Reject(c)
    case Promoting =>
      if ok then (AfterLocalCheckpoint(setup, c, now), Ok(true)) else (c, Ok(false))
    case Cancelling =>
      if !ok then (c, Raised(ROTATE_REJECTED))
      else
        match AfterLocalRollback(c)
        case (c', Ok(_)) => (c', Ok(true))
        case (c', Raised(f)) => (c', Raised(OfIdentity(f)))
  }

  /** A refused submission is rolled back before the refusal is raised. */
  ghost function Reject(c: Client): (Client, Result<bool, SessionError>) {
    match AfterLocalRollback(c)
    case (c', Ok(_)) => (c', Raised(ROTATE_REJECTED))
    case (c', Raised(f)) => (c', Raised(OfIdentity(f)))
  }

  /** Signing the request envelope needs the ACTIVE credential and its private keys. */
  ghost function Signable(c: Client): Result<(), Failure> {
    match Lookup(c.records, ACTIVE)
    case None => Raised(NO_ACTIVE_CREDENTIAL)
    case Some(active) => if active.version in c.keys then Ok(()) else Raised(KEYS_MISSING)
  }

  ghost function AfterRotate(setup: Setup, c: Client, g: Fresh, start: int, reply: Reply, end: int)
    : (Client, Result<bool, SessionError>)
  {
    match AfterGenerate(setup, c, g, start)
    case (c', Raised(f)) => (c', Raised(OfIdentity(f)))
    case (c', Ok(_)) =>
      match Signable(c')
      case Raised(f) => (c', Raised(OfIdentity(f)))
      case Ok(_) =>
        if reply.NoReply? then (c', Raised(NO_REPLY))
        else Answered(setup, c', Rotating, reply.code == 0, end)
  }

  ghost function AfterAsking(setup: Setup, c: Client, call: Call, reply: Reply, end: int)
    : (Client, Result<bool, SessionError>)
  {
    match Signable(c)
    case Raised(f) => (c, Raised(OfIdentity(f)))
    case Ok(_) =>
      if reply.NoReply? then (c, Raised(NO_REPLY)) else Answered(setup, c, call, reply.code == 0, end)
  }

  class Session {
    const identity: Identity

    ghost predicate Valid()
      reads this, identity, identity.engine
    {
      identity.Valid()
    }

    constructor (identity: Identity)
      requires identity.Valid()
      ensures this.identity == identity && Valid()
    {
      this.identity := identity;
    }

    method Sign() returns (r: Result<(), Failure>)
      requires Valid()
      ensures r == Signable(identity.Value())
    {
      var current := identity.Current();
      if current.Raised? { return Raised(current.error); }
      r := if current.value.version in identity.keys then Ok(()) else Raised(KEYS_MISSING);
    }

    /** Submit a successor. */
    method Rotate(g: Fresh, start: int, reply: Reply, end: int) returns (r: Result<bool, SessionError>)
      requires Valid()
      modifies identity, identity.engine
      ensures Valid() && identity.engine == old(identity.engine)
      ensures (identity.Value(), r) == AfterRotate(identity.setup, old(identity.Value()), g, start, reply, end)
    {
      var proposed := identity.GenerateSuccessor(g, start);
      if proposed.Raised? { return Raised(OfIdentity(proposed.error)); }
      var signed := Sign();
      if signed.Raised? { return Raised(OfIdentity(signed.error)); }
      if reply.NoReply? { return Raised(NO_REPLY); }
      if reply.code != 0 {
        var done := identity.Rollback(end);
        return Raised(if done.Raised? then OfIdentity(done.error) else ROTATE_REJECTED);
      }
      identity.Checkpoint(end);
      r := Ok(true);
    }

    /** Ask the server to promote; true when it did. */
    method CheckpointRotation(reply: Reply, end: int) returns (r: Result<bool, SessionError>)
      requires Valid()
      modifies identity, identity.engine
      ensures Valid() && identity.engine == old(identity.engine)
      ensures (identity.Value(), r) == AfterAsking(identity.setup, old(identity.Value()), Promoting, reply, end)
    {
      var signed := Sign();
      if signed.Raised? { return Raised(OfIdentity(signed.error)); }
      if reply.NoReply? { return Raised(NO_REPLY); }
      if reply.code != 0 { return Ok(false); }
      identity.Checkpoint(end);
      r := Ok(true);
    }

    /** Ask the server to terminate what is VALIDATING. */
    method RollbackRotation(reply: Reply, end: int) returns (r: Result<bool, SessionError>)
      requires Valid()
      modifies identity, identity.engine
      ensures Valid() && identity.engine == old(identity.engine)
      ensures (identity.Value(), r) == AfterAsking(identity.setup, old(identity.Value()), Cancelling, reply, end)
    {
      var signed := Sign();
      if signed.Raised? { return Raised(OfIdentity(signed.error)); }
      if reply.NoReply? { return Raised(NO_REPLY); }
      if reply.code != 0 { return Raised(ROTATE_REJECTED); }
      var done := identity.Rollback(end);
      r := if done.Raised? then Raised(OfIdentity(done.error)) else Ok(true);
    }
  }
}
