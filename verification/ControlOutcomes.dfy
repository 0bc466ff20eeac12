/** The rotation requests from the client's bytes to the rows: what a request asks for is the step that
    the two-sided runs serve, and what that step does. */
module ControlOutcomes {
  import opened Basics
  import opened Codec
  import opened Credentials
  import opened RotationEngine
  import opened RotationRuns
  import opened RotationOutcomes
  import opened Owner
  import opened Registry
  import opened ClientIdentity
  import opened ClientSession
  import Protocol
  import ControlHandlers
  import opened ClientServer

  // ------------------------------------------------------------------
  // requests in flight are what the handlers take them for
  // ------------------------------------------------------------------

  /** A proposal as the client makes them: a bare record, a payload that encodes, a 64-byte signature. */
  ghost predicate WellMade(p: Proposal) {
    && p.c == Generated(p.c.identity, p.c.version, p.c.ed25519, p.c.x25519)
    && SuccessorPayload(p.c.identity, p.c.version - 1, p.c.version, p.c.ed25519, p.c.x25519, []).Ok?
    && |p.sig| == ControlHandlers.SIGNATURE_SIZE
  }

  ghost predicate AllWellMade(n: Net) {
    forall i :: Submitting(n, i) ==> WellMade(n.flight[i].p)
  }

  /** Ed25519 signatures are 64 bytes long (section 5.1.6 of RFC 8032). */
  ghost predicate SignsIn64(setup: Setup) {
    forall k, m :: |setup.sign(k, m)| == ControlHandlers.SIGNATURE_SIZE
  }

  lemma {:induction false} StepWellMade(sys: System, n: Net, s: NetStep)
    requires SignsIn64(sys.client) && AllWellMade(n) && Window(n.client.records)
    ensures AllWellMade(Stepped(sys, n, s))
  {
    var m := Stepped(sys, n, s);
    forall i | Submitting(m, i) ensures WellMade(m.flight[i].p) {
      if i in n.flight && m.flight[i] == n.flight[i] {
        assert Submitting(n, i);
      } else {
        var r := AfterGenerate(sys.client, n.client, s.g, s.now).1;
        assert m.flight[i].p == r.value;
      }
    }
  }

  lemma {:induction false} StepsWellMade(sys: System, n: Net, a: int, ss: seq<NetStep>)
    requires SignsIn64(sys.client) && AllWellMade(n) && Inv(n, a) && AllTimely(sys, n, ss)
    ensures AllWellMade(Steps(sys, n, ss))
    decreases ss
  {
    if ss != [] {
      StepWellMade(sys, n, ss[0]);
      var b := StepKeeps(sys, n, a, ss[0]);
      StepsWellMade(sys, Stepped(sys, n, ss[0]), b, ss[1..]);
    }
  }

  /** The bytes the client sends for a request, and the step the server's handler takes them for. */
  ghost function Payload(r: Request): bytes
    requires r.SubmitRequest? ==> WellMade(r.p)
  {
    match r
    case SubmitRequest(p) =>
      SuccessorPayload(p.c.identity, p.c.version - 1, p.c.version, p.c.ed25519, p.c.x25519, []).value + p.sig
    case _ => []
  }

  ghost function Handled(r: Request, sender: Uuid, inner: bytes): Result<Op, ControlHandlers.RequestError> {
    match r
    case SubmitRequest(_) => ControlHandlers.Asked(sender, inner)
    case CheckpointRequest => ControlHandlers.AskedAction(ControlHandlers.CHECKPOINT_ACTION, inner)
    case RollbackRequest => ControlHandlers.AskedAction(ControlHandlers.ROLLBACK_ACTION, inner)
  }

  lemma {:induction false} SubmissionArrives(sender: Uuid, version: int, ed: bytes, x: bytes, payload: bytes,
                                             sig: bytes)
    requires SuccessorPayload(sender, version - 1, version, ed, x, []) == Ok(payload)
    requires |sig| == ControlHandlers.SIGNATURE_SIZE
    ensures ControlHandlers.Asked(sender, payload + sig) == Ok(Submit(Generated(sender, version, ed, x), sig, []))
  {
    var signer, g := Generated(sender, version - 1, [], []), Fresh([], ed, [], x);
    assert OwnPayload(sender, signer, g) == Ok(payload);
    ControlHandlers.RequestArrives(sender, signer, g, payload, sig);
    assert Successor(sender, signer, g) == Generated(sender, version, ed, x);
  }

  lemma {:induction false} HandledAsSent(r: Request, sender: Uuid)
    requires r.SubmitRequest? ==> WellMade(r.p) && r.p.c.identity == sender
    ensures Handled(r, sender, Payload(r)) == Ok(RequestOp(r))
  {
    if r.SubmitRequest? {
      var c := r.p.c;
      var payload := SuccessorPayload(c.identity, c.version - 1, c.version, c.ed25519, c.x25519, []).value;
      SubmissionArrives(sender, c.version, c.ed25519, c.x25519, payload, r.p.sig);
    }
  }

  /** The handlers are the serving of the two-sided runs: in every run, whichever request is still in
      flight, the step tried for the bytes the client sent is the one that Serve commits to the rows, and
      the answer says whether it succeeded. */
  lemma {:induction false} HandlersServe(sys: System, start: Net, ss: seq<NetStep>, id: nat, now: int, t: Table,
                                         sender: Uuid)
    requires SignsIn64(sys.client) && JustEnrolled(start) && AllTimely(sys, start, ss)
    requires var n := Steps(sys, start, ss);
      && Due(n, id) && Healthy(t) && Rows(t, sender) == n.server
      && (Submitting(n, id) ==> n.flight[id].p.c.identity == sender)
    ensures var n := Steps(sys, start, ss);
      && (Submitting(n, id) ==> WellMade(n.flight[id].p))
      && var asked := Handled(n.flight[id], sender, Payload(n.flight[id]));
      && asked.Ok?
      && var e := Event(now, asked.value);
      && Rows(Applied(sys.server, t, sender, e), sender) == Served(sys, n, id, true, now).server
      && var x := Answer(CallOf(n.flight[id]), Succeeds(sys.server, Rows(t, sender), e));
      Served(sys, n, id, true, now).answers == if n.since <= id then n.answers + [x] else n.answers
  {
    EnrolledInv(start);
    StepsWellMade(sys, start, 1, ss);
    var n := Steps(sys, start, ss);
    HandledAsSent(n.flight[id], sender);
    AppliedRows(sys.server, t, sender, Event(now, RequestOp(n.flight[id])), sender);
  }

  /** A submission asked for is always the sender's own, under the last 64 bytes of the request. */
  lemma {:induction false} AskedForItself(sender: Uuid, inner: bytes)
    ensures var asked := ControlHandlers.Asked(sender, inner);
      asked.Ok? ==>
        && |inner| >= 64 && asked.value.Submit? && asked.value.sig == inner[|inner| - 64..]
        && asked.value.c.identity == sender && asked.value.c.status == GENERATED
  {
    if |inner| < 64 {
      assert ReadField(KBlob, []).Raised?;
    }
  }

  /** A payload for another identity is refused, whatever its signature; one for the sender asks for the
      submission of the version, the keys and the metadata it names. */
  lemma {:induction false} PayloadAsksFor(sender: Uuid, other: Uuid, old_: int, new_: int, ed: bytes, x: bytes,
                                          meta: bytes, sig: bytes)
    requires SuccessorPayload(other, old_, new_, ed, x, meta).Ok? && |sig| == 64
    ensures ControlHandlers.Asked(sender, SuccessorPayload(other, old_, new_, ed, x, meta).value + sig) ==
      if other != sender then Raised(ControlHandlers.OfRegistry(TOKEN_MISMATCH))
      else Ok(Submit(Credential(sender, new_, ed, x, GENERATED, 0, None, None, None), sig, meta))
  {
    var t := Protocol.Transition(other, old_, new_, ed, x, meta);
    var payload := SuccessorPayload(other, old_, new_, ed, x, meta).value;
    assert ControlHandlers.Halves(payload + sig) == (payload, sig);
    assert Protocol.EncodeMessage(t) == Ok(payload);
    Protocol.MessageRoundTrip(t, []);
    assert payload + [] == payload;
  }

  // ------------------------------------------------------------------
  // what an action does to the rows
  // ------------------------------------------------------------------

  /** A checkpoint moves every version of the window one status on, a rollback ends only what is VALIDATING,
      a revocation only the version that the body's first four bytes name; refused, they change nothing. */
  lemma {:induction false} ActionOutcome(cfg: Config, m: Records, action: ControlHandlers.Action, inner: bytes,
                                         now: int, v: int)
    requires Window(m) && v in m && ControlHandlers.AskedAction(action, inner).Ok?
    ensures var e := Event(now, ControlHandlers.AskedAction(action, inner).value);
      var (n, done) := (Commit(cfg, m, e), Succeeds(cfg, m, e));
      && v in n && (!done ==> n == m)
      && (match action
          case CHECKPOINT_ACTION =>
            && (done <==>
                  && (exists w :: Is(m, w, VALIDATING) && OrElse(m[w].deadline, 0) <= now && !Expired(m[w], now))
                  && (exists w :: Is(m, w, ACTIVE) && !Expired(m[w], now)))
            && (done ==> n[v].status == match m[v].status
                                        case VALIDATING => ACTIVE
                                        case ACTIVE => FALLBACK
                                        case FALLBACK => TERMINATED
                                        case other => other)
          case ROLLBACK_ACTION =>
            && (done <==> Any(m, VALIDATING))
            && n[v] == (if m[v].status == VALIDATING then m[v].(status := TERMINATED) else m[v])
          case REVOKE_ACTION =>
            && |inner| >= 4 && var w := FromBigEndian(inner[..4]);
            && (done <==> w in m)
            && n[v] == (if v == w then m[v].(status := REVOKED) else m[v]))
  {
    match action
    case CHECKPOINT_ACTION => CheckpointDone(cfg, m, now, v);
    case ROLLBACK_ACTION => RollbackOutcome(m);
    case REVOKE_ACTION => RevokeOutcome(m, FromBigEndian(inner[..4]));
  }

  lemma {:induction false} CheckpointDone(cfg: Config, m: Records, now: int, v: int)
    requires Window(m) && v in m
    ensures var (n, r) := (AfterCheckpoint(cfg, m, now).records, AfterCheckpoint(cfg, m, now).result);
      && (r.Ok? <==>
            && (exists w :: Is(m, w, VALIDATING) && OrElse(m[w].deadline, 0) <= now && !Expired(m[w], now))
            && (exists w :: Is(m, w, ACTIVE) && !Expired(m[w], now)))
      && (r.Ok? ==> v in n && n[v].status == match m[v].status
                                              case VALIDATING => ACTIVE
                                              case ACTIVE => FALLBACK
                                              case FALLBACK => TERMINATED
                                              case other => other)
  {
    var v3, v2 := Lookup(m, VALIDATING), Lookup(m, ACTIVE);
    if v3.Some? {
      assert Is(m, v3.value.version, VALIDATING);
    }
    if v2.Some? {
      assert Is(m, v2.value.version, ACTIVE);
    }
    if AfterCheckpoint(cfg, m, now).result.Ok? {
      var x := CheckpointChanges(cfg, m, now);
      assert m[v].status == ACTIVE ==> Is(m, v, ACTIVE);
      assert m[v].status == VALIDATING ==> Is(m, v, VALIDATING);
    }
  }

  /** Only a revocation can be malformed, and only by having fewer than four bytes. */
  lemma {:induction false} ActionMalformed(action: ControlHandlers.Action, inner: bytes)
    ensures ControlHandlers.AskedAction(action, inner).Raised? <==>
      action == ControlHandlers.REVOKE_ACTION && |inner| < 4
    ensures ControlHandlers.AskedAction(action, inner).Raised? ==>
      ControlHandlers.AskedAction(action, inner) == Raised(ControlHandlers.MALFORMED)
  {
  }
}
