/** Rotation makes progress: when the requests and answers of one rotate and one checkpoint_rotation
    arrive in time, both sides end at the next version. */
module ClientServerProgress {
  import opened Basics
  import opened Credentials
  import opened RotationEngine
  import opened RotationRuns
  import opened Owner
  import Registry
  import opened ClientIdentity
  import opened ClientSession
  import opened ClientServer
  import opened ClientServerLag

  /** Nothing is outstanding on the client's connection. */
  ghost predicate Idle(n: Net) {
    n.waiting.None? && n.answers == [] && forall i :: i in n.flight ==> i < n.since
  }

  /** Both sides are at version a, the client knows nothing newer, nothing is outstanding on its connection
      and it holds both private keys of a; both sides check signatures alike. */
  ghost predicate AtRest(sys: System, n: Net, a: int) {
    && Inv(n, a) && Level(n.server, a) && Idle(n) && a + 1 !in n.client.records
    && 0 <= a && sys.server.verify == sys.client.cfg.verify
    && Paired(sys.client, n.client.keys[a], n.client.records[a])
  }

  /** The successor of a is VALIDATING on both sides, submitted at these times of the two clocks, and the
      client holds both its private keys. */
  ghost predicate Pending(sys: System, n: Net, a: int, clientTime: int, serverTime: int) {
    && Inv(n, a) && Level(n.server, a)
    && Is(n.client.records, a + 1, VALIDATING) && Is(n.server, a + 1, VALIDATING)
    && Paired(sys.client, n.client.keys[a + 1], n.client.records[a + 1])
    && n.client.records[a + 1].deadline == Some(clientTime + sys.client.cfg.Half())
    && n.client.records[a + 1].expiration == Some(clientTime + sys.client.cfg.Validity())
    && n.server[a + 1].deadline == Some(serverTime + sys.server.Half())
    && n.server[a + 1].expiration == Some(serverTime + sys.server.Validity())
  }

  lemma {:induction false} GenerateSucceeds(sys: System, n: Net, a: int, g: Fresh, now: int)
    requires AtRest(sys, n, a) && Genuine(sys.client, g) && !Expired(n.client.records[a], now) && a + 1 < VERSIONS
    ensures var (c, r) := AfterGenerate(sys.client, n.client, g, now);
      var next := Successor(n.client.records[a].identity, n.client.records[a], g);
      && r.Ok? && r.value.c == next
      && Authorizes(sys.server, n.client.records[a], next, [], r.value.sig)
      && a + 1 in c.records && c.records[a + 1] == Submitted(sys.client.cfg, next, now)
      && c.records[a] == n.client.records[a]
      && a + 1 in c.keys && Paired(sys.client, c.keys[a + 1], c.records[a + 1])
  {
    OnlyActive(n.client, a);
    var active := n.client.records[a];
    var next := Successor(active.identity, active, g);
    assert SuccessorPayload(active.identity, a, a + 1, g.edPublic, g.xPublic, []).Ok?;
    var sig := sys.client.sign(n.client.keys[a].0, OwnPayload(active.identity, active, g).value);
    assert Authorizes(sys.client.cfg, active, next, [], sig);
    assert NextAfter(n.client.records, a + 1);
  }

  lemma {:induction false} ServerAccepts(cfg: Config, s: Records, a: int, next: Credential, signer: Credential,
                                         sig: bytes, now: int)
    requires Window(s) && Is(s, a, ACTIVE) && !Expired(s[a], now) && (forall w :: w in s ==> w <= a)
    requires Match(s[a], signer) && Authorizes(cfg, signer, next, [], sig)
    requires next.version == a + 1 && next.identity == signer.identity
    ensures var e := Event(now, Submit(next, sig, []));
      && Registry.Succeeds(cfg, s, e)
      && Registry.Commit(cfg, s, e) == s[a + 1 := Submitted(cfg, next, now)]
  {
    assert Lookup(s, ACTIVE) == Some(s[a]);
    forall w ensures !Is(s, w, VALIDATING) {
      assert Is(s, w, VALIDATING) ==> w in s && w > a;
    }
    assert NextAfter(s, a + 1);
  }

  /** The submission of version a + 1 is in flight and waited for. */
  ghost predicate Requested(sys: System, n: Net, a: int, id: nat, server: Records, active: Credential, sent: int) {
    && Inv(n, a) && n.waiting == Some(Rotating) && n.answers == [] && Submitting(n, id)
    && n.since <= id && (forall i :: i in n.flight ==> i < n.since || i == id)
    && n.server == server && n.client.records[a] == active
    && a + 1 in n.client.records && n.client.records[a + 1] == Submitted(sys.client.cfg, n.flight[id].p.c, sent)
    && Paired(sys.client, n.client.keys[a + 1], n.client.records[a + 1])
    && n.flight[id].p.c.version == a + 1 && n.flight[id].p.c.identity == active.identity
    && Authorizes(sys.server, active, n.flight[id].p.c, [], n.flight[id].p.sig)
  }

  lemma {:induction false} RotateSent(sys: System, n: Net, a: int, g: Fresh, sent: int)
    requires AtRest(sys, n, a) && Genuine(sys.client, g) && !Expired(n.client.records[a], sent) && a + 1 < VERSIONS
    ensures Requested(sys, Stepped(sys, n, Begin(Rotating, g, sent)), a, n.next, n.server, n.client.records[a], sent)
  {
    GenerateSucceeds(sys, n, a, g, sent);
    BeginRotating(sys, n, a, g, sent);
  }

  /** The submission was accepted and its answer is on its way. */
  ghost predicate Accepted(sys: System, n: Net, a: int, server: Records, active: Credential, sent: int, served: int) {
    && Inv(n, a) && Level(n.server, a) && n.waiting == Some(Rotating) && n.answers == [Answer(Rotating, true)]
    && (forall i :: i in n.flight ==> i < n.since) && n.client.records[a] == active
    && Is(n.client.records, a + 1, VALIDATING) && Is(n.server, a + 1, VALIDATING)
    && Paired(sys.client, n.client.keys[a + 1], n.client.records[a + 1])
    && n.client.records[a + 1].deadline == Some(sent + sys.client.cfg.Half())
    && n.client.records[a + 1].expiration == Some(sent + sys.client.cfg.Validity())
    && a in server && n.server[a] == server[a]
    && n.server[a + 1].deadline == Some(served + sys.server.Half())
    && n.server[a + 1].expiration == Some(served + sys.server.Validity())
  }

  lemma {:induction false} ServedAs(sys: System, n: Net, id: nat, now: int, s: Records)
    requires Due(n, id) && n.since <= id
    requires var e := Event(now, RequestOp(n.flight[id]));
      Registry.Succeeds(sys.server, n.server, e) && Registry.Commit(sys.server, n.server, e) == s
    ensures Served(sys, n, id, true, now) ==
      n.(flight := n.flight - {id}, server := s, answers := n.answers + [Answer(CallOf(n.flight[id]), true)])
  {
  }

  lemma {:induction false} SubmissionSucceeds(sys: System, n: Net, a: int, id: nat, server: Records,
                                              active: Credential, sent: int, served: int)
    requires Requested(sys, n, a, id, server, active, sent) && Level(n.server, a) && !Expired(server[a], served)
    ensures var (e, p) := (Event(served, RequestOp(n.flight[id])), n.flight[id].p);
      && Registry.Succeeds(sys.server, n.server, e)
      && Registry.Commit(sys.server, n.server, e) == server[a + 1 := Submitted(sys.server, p.c, served)]
  {
    var p := n.flight[id].p;
    assert forall w :: w in n.server ==> w in n.client.records && w != a + 1;
    ServerAccepts(sys.server, n.server, a, p.c, active, p.sig, served);
  }

  lemma {:induction false} NowAccepted(sys: System, n: Net, m: Net, a: int, id: nat, server: Records,
                                       active: Credential, sent: int, served: int)
    requires Requested(sys, n, a, id, server, active, sent) && Level(n.server, a) && Inv(m, a)
    requires m == n.(flight := n.flight - {id}, answers := [Answer(Rotating, true)],
                     server := server[a + 1 := Submitted(sys.server, n.flight[id].p.c, served)])
    ensures Accepted(sys, m, a, server, active, sent, served)
  {
  }

  lemma {:induction false} RotateServed(sys: System, n: Net, a: int, id: nat, server: Records, active: Credential,
                                        sent: int, served: int)
    requires Requested(sys, n, a, id, server, active, sent) && Level(n.server, a)
    requires !Expired(server[a], served)
    ensures Accepted(sys, Stepped(sys, n, Serve(id, true, served)), a, server, active, sent, served)
  {
    var m := Stepped(sys, n, Serve(id, true, served));
    ServeSubmit(sys, n, a, id, served);
    SubmissionSucceeds(sys, n, a, id, server, active, sent, served);
    ServedAs(sys, n, id, served, server[a + 1 := Submitted(sys.server, n.flight[id].p.c, served)]);
    NowAccepted(sys, n, m, a, id, server, active, sent, served);
  }

  lemma {:induction false} RotateHeard(sys: System, n: Net, a: int, server: Records, active: Credential, sent: int,
                                       served: int, heard: int)
    requires Accepted(sys, n, a, server, active, sent, served) && heard < sent + sys.client.cfg.Half()
    ensures var m := Stepped(sys, n, Hear(true, heard));
      && Pending(sys, m, a, sent, served) && Idle(m)
      && m.client.records[a] == active && m.server[a] == server[a]
  {
    forall b ensures !Ripe(n.client, b, heard) {
      assert Is(n.client.records, b + 1, VALIDATING) ==> b == a;
    }
    var a' := HearPromotes(sys, n, a, heard);
    OnlyActive(n.client, a);
    assert AfterLocalCheckpoint(sys.client, n.client, heard) == n.client;
  }

  lemma {:induction false} ThreeSteps(sys: System, n: Net, x: NetStep, y: NetStep,
                                      z: NetStep)
    ensures Steps(sys, n, [x, y, z]) == Stepped(sys, Stepped(sys, Stepped(sys, n, x), y), z)
  {
    assert [x, y, z][1..] == [y, z] && [y, z][1..] == [z] && [z][1..] == [];
    var n1 := Stepped(sys, n, x);
    var n2 := Stepped(sys, n1, y);
    assert Steps(sys, n2, [z]) == Steps(sys, Stepped(sys, n2, z), []);
    assert Steps(sys, n1, [y, z]) == Steps(sys, n2, [z]);
  }

  /** A rotate whose request and answer arrive leaves the successor VALIDATING on both sides. */
  lemma {:induction false} RotateCompletes(sys: System, n: Net, a: int, g: Fresh, sent: int, served: int, heard: int)
    requires AtRest(sys, n, a) && Genuine(sys.client, g) && a + 1 < VERSIONS
    requires !Expired(n.client.records[a], sent) && !Expired(n.server[a], served)
    requires heard < sent + sys.client.cfg.Half()
    ensures var m := Steps(sys, n, [Begin(Rotating, g, sent), Serve(n.next, true, served), Hear(true, heard)]);
      && Pending(sys, m, a, sent, served) && Idle(m)
      && m.client.records[a] == n.client.records[a] && m.server[a] == n.server[a]
  {
    var x, y, z := Begin(Rotating, g, sent), Serve(n.next, true, served), Hear(true, heard);
    RotateSent(sys, n, a, g, sent);
    RotateServed(sys, Stepped(sys, n, x), a, n.next, n.server, n.client.records[a], sent, served);
    RotateHeard(sys, Stepped(sys, Stepped(sys, n, x), y), a, n.server, n.client.records[a], sent, served, heard);
    ThreeSteps(sys, n, x, y, z);
  }

  lemma {:induction false} CheckpointSent(sys: System, n: Net, a: int, g: Fresh, submitted: int, accepted: int,
                                          sent: int)
    requires Pending(sys, n, a, submitted, accepted) && Idle(n)
    ensures var m := Stepped(sys, n, Begin(Promoting, g, sent));
      && Inv(m, a) && m == Sent(n, CheckpointRequest)
  {
    OnlyActive(n.client, a);
    BeginAsking(sys, n, a, Promoting, g, sent);
  }

  lemma {:induction false} CheckpointSucceeds(cfg: Config, s: Records, a: int, now: int)
    requires Window(s) && Is(s, a, ACTIVE) && !Expired(s[a], now)
    requires Is(s, a + 1, VALIDATING) && !Expired(s[a + 1], now) && OrElse(s[a + 1].deadline, 0) <= now
    ensures var e := Event(now, Checkpoint);
      && Registry.Succeeds(cfg, s, e)
      && a + 1 in Registry.Commit(cfg, s, e)
      && Registry.Commit(cfg, s, e)[a + 1].expiration == s[a + 1].expiration
  {
    assert Lookup(s, ACTIVE) == Some(s[a]);
    assert Lookup(s, VALIDATING) == Some(s[a + 1]);
    var x := CheckpointChanges(cfg, s, now);
  }

  lemma {:induction false} CheckpointServed(sys: System, n: Net, a: int, id: nat, accepted: int, served: int)
    requires Inv(n, a) && Level(n.server, a) && n.waiting == Some(Promoting) && n.answers == []
    requires id in n.flight && n.flight[id] == CheckpointRequest && n.since <= id
    requires forall i :: i in n.flight ==> i < n.since || i == id
    requires Is(n.server, a + 1, VALIDATING) && !Expired(n.server[a], served)
    requires n.server[a + 1].deadline == Some(accepted + sys.server.Half())
    requires n.server[a + 1].expiration == Some(accepted + sys.server.Validity())
    requires accepted + sys.server.Half() <= served < accepted + sys.server.Validity()
    ensures var m := Stepped(sys, n, Serve(id, true, served));
      && Behind(m, a) && m.client == n.client && m.answers == [Answer(Promoting, true)]
      && m.waiting == Some(Promoting) && (forall i :: i in m.flight ==> i < m.since)
      && m.server[a + 1].expiration == n.server[a + 1].expiration
  {
    CheckpointSucceeds(sys.server, n.server, a, served);
    ServeCheckpointRows(sys.server, n, a, served);
    ServeCheckpoint(sys, n, a, id, served);
    ServedAs(sys, n, id, served, Registry.Commit(sys.server, n.server, Event(served, Checkpoint)));
  }

  /** A promotion keeps the private keys, and the public keys and the expiry of what it promotes. */
  lemma {:induction false} PromotedKeeps(setup: Setup, c: Client, a: int, now: int)
    requires ClientAt(c, a) && Ripe(c, a, now)
    ensures var c' := AfterLocalCheckpoint(setup, c, now);
      && Promoted(c, c', a) && c'.keys == c.keys
      && c'.records[a + 1].expiration == c.records[a + 1].expiration
  {
    Checkpoints(setup, c, a, now);
    OnlyActive(c, a);
    var x := CheckpointChanges(setup.cfg, c.records, now);
  }

  lemma {:induction false} FollowedIdle(sys: System, n: Net, a: int, heard: int)
    requires Behind(n, a) && n.answers == [Answer(Promoting, true)] && n.waiting == Some(Promoting)
    requires Ripe(n.client, a, heard) && forall i :: i in n.flight ==> i < n.since
    ensures var m := Stepped(sys, n, Hear(true, heard));
      && Inv(m, a + 1) && Level(m.server, a + 1) && Idle(m) && m.server == n.server
      && Match(m.server[a + 1], m.client.records[a + 1]) && a + 2 !in m.client.records
      && m.client.keys == n.client.keys && Match(m.client.records[a + 1], n.client.records[a + 1])
      && m.client.records[a + 1].expiration == n.client.records[a + 1].expiration
  {
    CatchUpIff(sys, n, a, heard);
    PromotedKeeps(sys.client, n.client, a, heard);
  }

  /** At rest, with the ACTIVE credentials of the two sides dating from these times of their clocks. */
  ghost predicate AtRestSince(sys: System, n: Net, a: int, clientTime: int, serverTime: int) {
    && AtRest(sys, n, a)
    && n.client.records[a].expiration == Some(clientTime + sys.client.cfg.Validity())
    && n.server[a].expiration == Some(serverTime + sys.server.Validity())
  }

  /** A checkpoint_rotation whose request and answer arrive, when both clocks have passed the deadline
      and nothing has expired, brings both sides to the next version, at rest there, so the next
      rotation can begin. */
  lemma {:induction false} PromotionCompletes(sys: System, n: Net, a: int, g: Fresh, submitted: int, accepted: int,
                                              sent: int, served: int, heard: int)
    requires Pending(sys, n, a, submitted, accepted) && Idle(n)
    requires a >= 0 && sys.server.verify == sys.client.cfg.verify
    requires accepted + sys.server.Half() <= served < accepted + sys.server.Validity()
    requires submitted + sys.client.cfg.Half() <= heard < submitted + sys.client.cfg.Validity()
    requires !Expired(n.server[a], served) && !Expired(n.client.records[a], heard)
    ensures var m := Steps(sys, n, [Begin(Promoting, g, sent), Serve(n.next, true, served), Hear(true, heard)]);
      AtRestSince(sys, m, a + 1, submitted, accepted) && Match(m.server[a + 1], m.client.records[a + 1])
  {
    var x, y, z := Begin(Promoting, g, sent), Serve(n.next, true, served), Hear(true, heard);
    CheckpointSent(sys, n, a, g, submitted, accepted, sent);
    CheckpointServed(sys, Stepped(sys, n, x), a, n.next, accepted, served);
    FollowedIdle(sys, Stepped(sys, Stepped(sys, n, x), y), a, heard);
    ThreeSteps(sys, n, x, y, z);
  }

  // ------------------------------------------------------------------
  // rotation after rotation
  // ------------------------------------------------------------------

  /** One whole rotation: the times at which its submission is sent, served and answered, and the same
      for its promotion. */
  datatype Round = Round(g: Fresh, sent: int, served: int, heard: int, asked: int, promoted: int, learned: int)

  ghost function RotateOf(n: Net, r: Round): seq<NetStep> {
    [Begin(Rotating, r.g, r.sent), Serve(n.next, true, r.served), Hear(true, r.heard)]
  }

  ghost function PromoteOf(n: Net, r: Round): seq<NetStep> {
    [Begin(Promoting, r.g, r.asked), Serve(n.next, true, r.promoted), Hear(true, r.learned)]
  }

  ghost function AfterRound(sys: System, n: Net, r: Round): Net {
    var m := Steps(sys, n, RotateOf(n, r));
    Steps(sys, m, PromoteOf(m, r))
  }

  /** Each side, by its own clock, is in time for both exchanges: the successor is submitted and promoted
      before the credential that dates from since expires, and promoted in its own validation window. */
  predicate InTime(cfg: Config, since: int, submitted: int, promoted: int) {
    && submitted < since + cfg.Validity() && promoted < since + cfg.Validity()
    && submitted + cfg.Half() <= promoted < submitted + cfg.Validity()
  }

  predicate RoundInTime(sys: System, clientTime: int, serverTime: int, r: Round) {
    && InTime(sys.client.cfg, clientTime, r.sent, r.learned) && r.heard < r.sent + sys.client.cfg.Half()
    && InTime(sys.server, serverTime, r.served, r.promoted)
  }

  predicate AllInTime(sys: System, clientTime: int, serverTime: int, rs: seq<Round>)
    decreases rs
  {
    rs == [] ||
    (RoundInTime(sys, clientTime, serverTime, rs[0]) && AllInTime(sys, rs[0].sent, rs[0].served, rs[1..]))
  }

  lemma {:induction false} RoundCompletes(sys: System, n: Net, a: int, c: int, s: int, r: Round)
    requires AtRestSince(sys, n, a, c, s) && Genuine(sys.client, r.g) && a + 1 < VERSIONS
    requires RoundInTime(sys, c, s, r)
    ensures AtRestSince(sys, AfterRound(sys, n, r), a + 1, r.sent, r.served)
  {
    RotateCompletes(sys, n, a, r.g, r.sent, r.served, r.heard);
    var m := Steps(sys, n, RotateOf(n, r));
    PromotionCompletes(sys, m, a, r.g, r.sent, r.served, r.asked, r.promoted, r.learned);
  }

  /** Both sides, the version they are at, and the times its credentials date from. */
  datatype Rest = Rest(n: Net, a: int, clientTime: int, serverTime: int)

  /** The states in which both sides are at rest. */
  ghost function Resting(sys: System): iset<Rest> {
    iset x: Rest | AtRestSince(sys, x.n, x.a, x.clientTime, x.serverTime)
  }

  ghost function Onwards(sys: System, x: Rest, r: Round): Rest {
    Rest(AfterRound(sys, x.n, r), x.a + 1, r.sent, r.served)
  }

  ghost function AfterRounds(sys: System, x: Rest, rs: seq<Round>): Rest
    decreases rs
  {
    if rs == [] then x else AfterRounds(sys, Onwards(sys, x, rs[0]), rs[1..])
  }

  lemma {:induction false} RoundKeepsRest(sys: System, x: Rest, r: Round)
    requires x in Resting(sys) && Genuine(sys.client, r.g) && x.a + 1 < VERSIONS
    requires RoundInTime(sys, x.clientTime, x.serverTime, r)
    ensures Onwards(sys, x, r) in Resting(sys)
  {
    RoundCompletes(sys, x.n, x.a, x.clientTime, x.serverTime, r);
  }

  /** Rotation can go on for ever: any number of delivered rotations, each in time by both clocks, brings
      client and server through as many versions, and leaves them at rest with both private keys of the
      ACTIVE version in the client's hands. */
  lemma {:induction false} RoundsComplete(sys: System, x: Rest, rs: seq<Round>)
    requires x in Resting(sys) && AllInTime(sys, x.clientTime, x.serverTime, rs) && x.a + |rs| < VERSIONS
    requires forall r :: r in rs ==> Genuine(sys.client, r.g)
    ensures AfterRounds(sys, x, rs) in Resting(sys) && AfterRounds(sys, x, rs).a == x.a + |rs|
    decreases rs
  {
    if rs != [] {
      var r, rest := rs[0], rs[1..];
      assert r in rs && forall q :: q in rest ==> q in rs;
      RoundKeepsRest(sys, x, r);
      RoundsComplete(sys, Onwards(sys, x, r), rest);
    }
  }
}
