/** The server's handlers for rotation requests, from the decrypted bytes of a request to the step
    tried on the registry. */
module ControlHandlers {
  import opened Basics
  import opened Codec
  import opened Credentials
  import opened Protocol
  import opened RotationEngine
  import opened RotationRuns
  import opened Registry
  import Owner

  datatype RequestError =
    | OfRegistry(failure: Failure)
    | NOT_A_TRANSITION
    | MALFORMED  // a decoding error, which closes the connection

  const SIGNATURE_SIZE := 64

  /** Everything but the last 64 bytes, and those: nothing and everything when there are fewer. */
  function Halves(inner: bytes): (bytes, bytes) {
    if |inner| < SIGNATURE_SIZE then ([], inner)
    else (inner[..|inner| - SIGNATURE_SIZE], inner[|inner| - SIGNATURE_SIZE..])
  }

  /** The step a submission request asks for. */
  function Asked(sender: Uuid, inner: bytes): Result<Op, RequestError> {
    var (payload, sig) := Halves(inner);
    match ParseMessage(TRANSITION, payload)
    case Raised(BAD_TAG) => Raised(NOT_A_TRANSITION)
    case Raised(_) => Raised(MALFORMED)
    case Ok(t) =>
      if t.identity != sender then Raised(OfRegistry(TOKEN_MISMATCH))
      else Ok(Submit(Generated(sender, t.new_, t.ed25519, t.x25519), sig, t.metadata))
  }

  method HandleRotateSubmit(registry: CredentialRegistry, sender: Uuid, inner: bytes, now: int)
    returns (r: Result<(), RequestError>)
    requires registry.Valid()
    modifies registry`rows
    ensures registry.Valid()
    ensures match Asked(sender, inner)
      case Raised(e) => r == Raised(e) && registry.rows == old(registry.rows)
      case Ok(op) =>
        && registry.rows == Applied(registry.cfg, old(registry.rows), sender, Event(now, op))
        && (r.Ok? <==> Succeeds(registry.cfg, Rows(old(registry.rows), sender), Event(now, op)))
  {
    var halves := Halves(inner);
    var parsed := Parse(TRANSITION, halves.0);
    if parsed == Raised(BAD_TAG) { return Raised(NOT_A_TRANSITION); }
    if parsed.Raised? { return Raised(MALFORMED); }
    var t := parsed.value;
    if t.identity != sender { return Raised(OfRegistry(TOKEN_MISMATCH)); }
    var done := registry.SubmitSuccessor(sender, t.new_, t.ed25519, t.x25519, halves.1, t.metadata, now);
    r := if done.Ok? then Ok(()) else Raised(OfRegistry(done.error));
  }

  datatype Action = CHECKPOINT_ACTION | ROLLBACK_ACTION | REVOKE_ACTION

  /** The step an action request asks for: only a revocation reads its body. */
  function AskedAction(action: Action, inner: bytes): Result<Op, RequestError> {
    match action
    case CHECKPOINT_ACTION => Ok(Checkpoint)
    case ROLLBACK_ACTION => Ok(Rollback)
    case REVOKE_ACTION =>
      match ReadField(KU32, inner)
      case Raised(_) => Raised(MALFORMED)
      case Ok((f, _)) => Ok(Revoke(f.n))
  }

  method HandleRotateAction(registry: CredentialRegistry, action: Action, sender: Uuid, inner: bytes, now: int)
    returns (r: Result<(), RequestError>)
    requires registry.Valid()
    modifies registry`rows
    ensures registry.Valid()
    ensures match AskedAction(action, inner)
      case Raised(e) => r == Raised(e) && registry.rows == old(registry.rows)
      case Ok(op) =>
        && registry.rows == Applied(registry.cfg, old(registry.rows), sender, Event(now, op))
        && (r.Ok? <==> Succeeds(registry.cfg, Rows(old(registry.rows), sender), Event(now, op)))
  {
    match action
    case CHECKPOINT_ACTION =>
      var done := registry.Checkpoint(sender, now);
      r := if done.Ok? then Ok(()) else Raised(OfRegistry(done.error));
    case ROLLBACK_ACTION =>
      var done := registry.Rollback(sender, now);
      r := if done.Ok? then Ok(()) else Raised(OfRegistry(done.error));
    case REVOKE_ACTION =>
      var dec := new Decoder(inner);
      ReadFrom([], KU32, inner, [], inner);
      assert [] + [KU32] == [KU32];
      var version := dec.U32();
      if version.Raised? { return Raised(MALFORMED); }
      var done := registry.Revoke(sender, version.value, now);
      r := if done.Ok? then Ok(()) else Raised(OfRegistry(done.error));
  }

  /** What the client sends is what the server tries: the payload it signed, followed by the 64-byte
      signature, asks for the submission of exactly the proposed record with that signature. */
  lemma {:induction false} RequestArrives(id: Uuid, active: Credential, g: Owner.Fresh, payload: bytes, sig: bytes)
    requires Owner.OwnPayload(id, active, g) == Ok(payload) && |sig| == SIGNATURE_SIZE
    ensures Asked(id, payload + sig) == Ok(Submit(Owner.Successor(id, active, g), sig, []))
  {
    assert Halves(payload + sig) == (payload, sig);
    var t := Transition(id, active.version, active.version + 1, g.edPublic, g.xPublic, []);
    assert EncodeMessage(t) == Ok(payload);
    MessageRoundTrip(t, []);
    assert payload + [] == payload;
  }
}
