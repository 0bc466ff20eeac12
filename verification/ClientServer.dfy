/** A client and the server's registry rotating together over a network that may lose or delay
    every request and every answer, each on its own clock: they never drift by more than one
    version. */
module ClientServer {
  import opened Basics
  import opened Credentials
  import opened RotationEngine
  import opened RotationRuns
  import opened Owner
  import Registry
  import opened ClientIdentity
  import opened ClientSession

  datatype Request = SubmitRequest(p: Proposal) | CheckpointRequest | RollbackRequest

  /** An answer says what kind of request it belongs to, but not which. */
  datatype Answer = Answer(call: Call, ok: bool)

  /** The client, the server's rows for it, the requests sent but not yet served, and the answers on the
      client's connection that it has not read yet. Requests are numbered; those from since on were sent
      on the connection the client has now. */
  datatype Net = Net(client: Client, server: Records, flight: map<nat, Request>, next: nat, since: nat,
                     waiting: Option<Call>, answers: seq<Answer>)

  /** One step, at any time of either clock. Each connection is served in the order of sending, each
      request at most once, whether or not the client still waits; requests of earlier connections are
      served at any time, and nobody reads their answers. A request whose envelope does not
      authenticate is dropped without an answer. A waiting client takes the next answer there is for its
      own, even one to a request it gave up on; it fails if the answer is of another kind or cannot be
      opened. Discard is another call of the client that reads an answer meant for none of these. */
  datatype NetStep =
    | Begin(call: Call, g: Fresh, now: int)
    | Serve(id: nat, authentic: bool, now: int)
    | Hear(readable: bool, now: int)
    | Discard
    | GiveUp
    | Reconnect

  datatype System = System(client: Setup, server: Config)

  function RequestOp(r: Request): Op {
    match r
    case SubmitRequest(p) => Submit(p.c, p.sig, [])
    case CheckpointRequest => Checkpoint
    case RollbackRequest => Rollback
  }

  function CallOf(r: Request): Call {
    match r
    case SubmitRequest(_) => Rotating
    case CheckpointRequest => Promoting
    case RollbackRequest => Cancelling
  }

  function Sent(n: Net, r: Request): Net {
    n.(flight := n.flight[n.next := r], next := n.next + 1, waiting := Some(CallOf(r)))
  }

  ghost function Begun(sys: System, n: Net, call: Call, g: Fresh, now: int): Net {
    if n.waiting.Some? then n
    else if call == Rotating then
      match AfterGenerate(sys.client, n.client, g, now)
      case (c, Raised(_)) => n.(client := c)
      case (c, Ok(p)) => Sent(n.(client := c), SubmitRequest(p))
    else if Signable(n.client).Raised? then n
    else Sent(n, if call == Promoting then CheckpointRequest else RollbackRequest)
  }

  /** Nothing sent before on its connection is still to be served. */
  predicate Due(n: Net, id: nat) {
    id in n.flight && (n.since <= id ==> forall j :: j in n.flight && n.since <= j ==> id <= j)
  }

  ghost function Served(sys: System, n: Net, id: nat, authentic: bool, now: int): Net {
    if !Due(n, id) then n
    else if !authentic then n.(flight := n.flight - {id})
    else
      var e := Event(now, RequestOp(n.flight[id]));
      var answer := Answer(CallOf(n.flight[id]), Registry.Succeeds(sys.server, n.server, e));
      n.(flight := n.flight - {id}, server := Registry.Commit(sys.server, n.server, e),
         answers := if n.since <= id then n.answers + [answer] else n.answers)
  }

  ghost function Heard(sys: System, n: Net, readable: bool, now: int): Net {
    if n.waiting.None? || n.answers == [] then n
    else
      var m := n.(waiting := None, answers := n.answers[1..]);
      if !readable || n.answers[0].call != n.waiting.value then m
      else m.(client := Answered(sys.client, n.client, n.waiting.value, n.answers[0].ok, now).0)
  }

  ghost function Stepped(sys: System, n: Net, s: NetStep): Net {
    match s
    case Begin(call, g, now) => Begun(sys, n, call, g, now)
    case Serve(id, authentic, now) => Served(sys, n, id, authentic, now)
    case Hear(readable, now) => Heard(sys, n, readable, now)
    case Discard => if n.waiting.Some? || n.answers == [] then n else n.(answers := n.answers[1..])
    case GiveUp => n.(waiting := None)
    case Reconnect =>
      n.(client := Moved(sys.client, n.client, Reload, 0), since := n.next, waiting := None, answers := [])
  }

  ghost function Steps(sys: System, n: Net, ss: seq<NetStep>): Net
    decreases ss
  {
    if ss == [] then n else Steps(sys, Stepped(sys, n, ss[0]), ss[1..])
  }

  /** The next answer is this one, to a client waiting for its kind. */
  predicate Hears(n: Net, call: Call, ok: bool) {
    n.waiting == Some(call) && n.answers != [] && n.answers[0] == Answer(call, ok)
  }

  /** The client's own engine would promote its successor: the deadline has come and neither credential
      has expired. */
  ghost predicate Ripe(c: Client, a: int, now: int) {
    && Is(c.records, a + 1, VALIDATING) && OrElse(c.records[a + 1].deadline, 0) <= now
    && !Expired(c.records[a + 1], now)
    && Is(c.records, a, ACTIVE) && !Expired(c.records[a], now)
  }

  /** The local checkpoint at the end of a successful rotate does not promote what the server has not. */
  ghost predicate Timely(n: Net, s: NetStep) {
    s.Hear? && s.readable && Hears(n, Rotating, true) ==>
      forall a :: Ripe(n.client, a, s.now) ==> Is(n.server, a + 1, ACTIVE)
  }

  ghost predicate AllTimely(sys: System, n: Net, ss: seq<NetStep>)
    decreases ss
  {
    ss == [] || (Timely(n, ss[0]) && AllTimely(sys, Stepped(sys, n, ss[0]), ss[1..]))
  }

  // ------------------------------------------------------------------
  // the invariant
  // ------------------------------------------------------------------

  /** The same credential on both sides; times and status are each side's own. */
  predicate Match(c: Credential, d: Credential) {
    c.identity == d.identity && c.version == d.version && c.ed25519 == d.ed25519 && c.x25519 == d.x25519
  }

  /** The records with version v marked EXPIRED. */
  function Marked(m: Records, v: int): Records
    requires v in m
  {
    m[v := m[v].(status := EXPIRED)]
  }

  /** Version a is ACTIVE at the client, at most its successor is newer, and the file holds the same
      but perhaps for an expiry mark. */
  ghost predicate ClientAt(c: Client, a: int) {
    && Window(c.records) && Is(c.records, a, ACTIVE)
    && (forall w :: w in c.records ==> w <= a + 1)
    && (a + 1 in c.records ==> c.records[a + 1].status in {VALIDATING, EXPIRED, TERMINATED})
    && c.file.Some? && c.file.value.keys == c.keys && c.keys != map[]
    && a in c.keys && (a + 1 in c.records ==> a + 1 in c.keys)
    && (c.file.value.records == c.records
        || (Is(c.file.value.records, a + 1, VALIDATING) && Window(c.file.value.records)
            && c.records == Marked(c.file.value.records, a + 1)))
  }

  /** Both sides agree on the ACTIVE version. */
  ghost predicate Level(s: Records, a: int) {
    Is(s, a, ACTIVE) && (a + 1 in s ==> s[a + 1].status in {VALIDATING, TERMINATED})
  }

  /** The server has promoted the successor, the client has not. */
  ghost predicate Ahead(c: Records, s: Records, a: int) {
    && Is(s, a + 1, ACTIVE) && Is(s, a, FALLBACK)
    && a + 1 in c && c[a + 1].status in {VALIDATING, EXPIRED}
  }

  ghost predicate Known(c: Records, s: Records) {
    forall v :: v in s ==> v in c && Match(s[v], c[v])
  }

  predicate Submitting(n: Net, i: nat) {
    i in n.flight && n.flight[i].SubmitRequest?
  }

  /** A submission in flight is the one of the client's successor, which the server does not have. */
  ghost predicate FlightOk(n: Net, a: int) {
    && (forall i :: i in n.flight ==> i < n.next)
    && (forall i, j :: Submitting(n, i) && Submitting(n, j) ==> i == j)
    && (forall i :: Submitting(n, i) ==>
          && a + 1 !in n.server && a + 1 in n.client.records && n.client.records[a + 1].status != TERMINATED
          && Match(n.flight[i].p.c, n.client.records[a + 1]))
  }

  /** What a client waiting for the answer to a submission knows: that is its latest request, and once it
      is served its answer is the last of all there will be. */
  ghost predicate WaitOk(n: Net, a: int) {
    n.waiting == Some(Rotating) ==>
      && n.since < n.next
      && Is(n.client.records, a + 1, VALIDATING)
      && (a + 1 in n.server ==> Answer(Rotating, true) in n.answers)
      && (forall i :: Submitting(n, i) ==> i == n.next - 1)
      && (forall k :: 0 <= k < |n.answers| && n.answers[k].call == Rotating ==>
            k == |n.answers| - 1 && forall i :: i in n.flight ==> i < n.since)
  }

  /** What unread answers say about both sides: after the answer to a promotion there is none to a
      submission nor to another promotion. */
  ghost predicate AnswersOk(n: Net, a: int) {
    && (Answer(Promoting, true) in n.answers ==> Ahead(n.client.records, n.server, a))
    && (Answer(Cancelling, true) in n.answers ==> Is(n.server, a + 1, TERMINATED))
    && (forall x :: x in n.answers && x.call == Rotating ==> a + 1 in n.client.records)
    && (forall i, j :: 0 <= i < j < |n.answers| && n.answers[i] == Answer(Promoting, true) ==>
          n.answers[j].call != Rotating && n.answers[j] != Answer(Promoting, true))
  }

  ghost predicate Inv(n: Net, a: int) {
    && ClientAt(n.client, a)
    && Window(n.server) && Known(n.client.records, n.server)
    && (Level(n.server, a) || Ahead(n.client.records, n.server, a))
    && (Is(n.client.records, a + 1, TERMINATED) ==>
          a + 1 !in n.server || Is(n.server, a + 1, TERMINATED))
    && n.since <= n.next && FlightOk(n, a) && WaitOk(n, a) && AnswersOk(n, a)
  }

  // ------------------------------------------------------------------
  // the client's side of a step
  // ------------------------------------------------------------------

  lemma {:induction false} OnlyActive(c: Client, a: int)
    requires ClientAt(c, a)
    ensures Lookup(c.records, ACTIVE) == Some(c.records[a])
    ensures Lookup(c.records, VALIDATING) ==
      if Is(c.records, a + 1, VALIDATING) then Some(c.records[a + 1]) else None
  {
  }

  /** The client's records with the successor added. */
  lemma {:induction false} SuccessorAdded(c: Client, c': Client, a: int, n: Credential)
    requires ClientAt(c, a) && n.version == a + 1 && n.status == VALIDATING
    requires NextAfter(c.records, a + 1) && forall v :: !Is(c.records, v, VALIDATING)
    requires c'.records == c.records[a + 1 := n] && c'.keys.Keys == c.keys.Keys + {a + 1}
    requires c'.file == Some(File(c'.records, c'.keys, c'.enrolled))
    ensures ClientAt(c', a)
  {
    AddingKeepsWindow(c.records, n);
    assert a in c'.keys.Keys && a + 1 in c'.keys.Keys;
  }

  lemma {:induction false} Generates(setup: Setup, c: Client, a: int, g: Fresh, now: int)
    requires ClientAt(c, a)
    ensures var (c', r) := AfterGenerate(setup, c, g, now);
      match r
      case Raised(_) => c' == c
      case Ok(p) =>
        && a + 1 !in c.records && ClientAt(c', a) && Is(c'.records, a + 1, VALIDATING)
        && Match(p.c, c'.records[a + 1])
        && (forall w :: w in c.records ==> w in c'.records && c'.records[w] == c.records[w])
  {
    OnlyActive(c, a);
    var r := AfterGenerate(setup, c, g, now).1;
    if r.Ok? {
      var n := Submitted(setup.cfg, r.value.c, now);
      assert NextAfter(c.records, a + 1);
      SuccessorAdded(c, AfterGenerate(setup, c, g, now).0, a, n);
    }
  }

  /** The client's records after an expiry mark or none. */
  ghost predicate Unmoved(c: Client, c': Client, a: int) {
    c'.records == c.records || (Is(c.records, a + 1, VALIDATING) && c'.records == Marked(c.records, a + 1))
  }

  /** The client's records after it promoted version a + 1. */
  ghost predicate Promoted(c: Client, c': Client, a: int) {
    && Is(c.records, a + 1, VALIDATING) && ClientAt(c', a + 1) && a + 2 !in c'.records
    && c'.records.Keys == c.records.Keys
    && forall w :: w in c.records ==> Match(c'.records[w], c.records[w])
  }

  lemma {:induction false} MarkingKeepsWindow(m: Records, v: int)
    requires Window(m) && Is(m, v, VALIDATING)
    ensures Window(Marked(m, v))
  {
    EndingKeepsWindow(m, Marked(m, v));
  }

  lemma {:induction false} Checkpoints(setup: Setup, c: Client, a: int, now: int)
    requires ClientAt(c, a)
    ensures var c' := AfterLocalCheckpoint(setup, c, now);
      if Ripe(c, a, now) then Promoted(c, c', a) else ClientAt(c', a) && Unmoved(c, c', a)
  {
    OnlyActive(c, a);
    if Is(c.records, a + 1, VALIDATING) {
      var m := AfterCheckpoint(setup.cfg, c.records, now);
      if m.result.Ok? {
        var x := CheckpointChanges(setup.cfg, c.records, now);
        ShiftKeepsWindow(setup.cfg, c.records, m.records, now, a, a + 1);
      } else if m.result.error == V3_EXPIRED {
        MarkingKeepsWindow(c.records, a + 1);
      }
    }
  }

  lemma {:induction false} RollsBack(c: Client, a: int)
    requires ClientAt(c, a)
    ensures var (c', r) := AfterLocalRollback(c);
      if Is(c.records, a + 1, VALIDATING) then
        && ClientAt(c', a)
        && c'.records == c.records[a + 1 := c.records[a + 1].(status := TERMINATED)]
      else c' == c
  {
    OnlyActive(c, a);
    if Is(c.records, a + 1, VALIDATING) {
      EndingKeepsWindow(c.records, AfterLocalRollback(c).0.records);
    }
  }

  lemma {:induction false} Reloads(setup: Setup, c: Client, a: int)
    requires ClientAt(c, a)
    ensures var c' := Moved(setup, c, Reload, 0);
      && ClientAt(c', a)
      && (c'.records == c.records || (Is(c'.records, a + 1, VALIDATING) && c.records == Marked(c'.records, a + 1)))
  {
  }

  // ------------------------------------------------------------------
  // every step keeps the invariant
  // ------------------------------------------------------------------

  lemma {:induction false} BeginRotating(sys: System, n: Net, a: int, g: Fresh, now: int)
    requires Inv(n, a) && n.waiting.None?
    ensures Inv(Begun(sys, n, Rotating, g, now), a)
  {
    Generates(sys.client, n.client, a, g, now);
    var (c, r) := AfterGenerate(sys.client, n.client, g, now);
    if r.Ok? {
      var n' := Begun(sys, n, Rotating, g, now);
      assert forall i :: Submitting(n', i) ==> i == n.next;
      assert Known(c.records, n.server);
    }
  }

  lemma {:induction false} BeginAsking(sys: System, n: Net, a: int, call: Call, g: Fresh, now: int)
    requires Inv(n, a) && n.waiting.None? && call != Rotating
    ensures Inv(Begun(sys, n, call, g, now), a)
  {
    var n' := Begun(sys, n, call, g, now);
    assert forall i :: Submitting(n', i) ==> Submitting(n, i);
  }

  /** The registry's rows after serving one request. */
  lemma {:induction false} CommitWindow(cfg: Config, s: Records, e: Event)
    requires Window(s)
    ensures Window(Registry.Commit(cfg, s, e))
  {
    WindowStep(cfg, s, e);
  }

  /** One more answer, of this connection's request or of none. */
  lemma {:induction false} AnswerAdded(n: Net, n': Net, a: int, id: nat, ok: bool)
    requires Inv(n, a) && Due(n, id) && n'.client == n.client
    requires n'.since == n.since && n'.next == n.next && n'.waiting == n.waiting && n'.flight == n.flight - {id}
    requires var x := Answer(CallOf(n.flight[id]), ok);
      && n'.answers == (if n.since <= id then n.answers + [x] else n.answers)
      && (x == Answer(Promoting, true) ==> Answer(Promoting, true) !in n.answers)
    requires Answer(Promoting, true) in n'.answers ==> Ahead(n.client.records, n'.server, a)
    requires Answer(Cancelling, true) in n'.answers ==> Is(n'.server, a + 1, TERMINATED)
    requires a + 1 in n'.server ==> a + 1 in n.server || (Submitting(n, id) && ok)
    ensures WaitOk(n', a) && AnswersOk(n', a)
  {
    assert forall i :: Submitting(n', i) ==> Submitting(n, i);
    assert forall i :: i in n'.flight ==> i in n.flight;
  }

  lemma {:induction false} ServeSubmit(sys: System, n: Net, a: int, id: nat, now: int)
    requires Inv(n, a) && Due(n, id) && Submitting(n, id)
    ensures Inv(Served(sys, n, id, true, now), a)
  {
    var p := n.flight[id].p;
    var e := Event(now, Submit(p.c, p.sig, []));
    CommitWindow(sys.server, n.server, e);
    var x := SubmitChanges(sys.server, n.server, e);
    var n' := Served(sys, n, id, true, now);
    forall i ensures !Submitting(n', i) {
      assert Submitting(n', i) ==> Submitting(n, i) && i != id;
    }
    assert Level(n.server, a);
    assert Known(n.client.records, n'.server);
    assert Level(n'.server, a);
    AnswerAdded(n, n', a, id, Registry.Succeeds(sys.server, n.server, e));
  }

  /** The server's rows after serving a checkpoint: unchanged, or one version ahead of the client. */
  lemma {:induction false} ServeCheckpointRows(cfg: Config, n: Net, a: int, now: int)
    requires Inv(n, a)
    ensures var e := Event(now, Checkpoint);
      var s := Registry.Commit(cfg, n.server, e);
      && Window(s) && Known(n.client.records, s)
      && (!Registry.Succeeds(cfg, n.server, e) ==> s == n.server)
      && (Registry.Succeeds(cfg, n.server, e) ==>
            Level(n.server, a) && Is(n.server, a + 1, VALIDATING) && Ahead(n.client.records, s, a))
      && s.Keys == n.server.Keys
  {
    CommitWindow(cfg, n.server, Event(now, Checkpoint));
    if Registry.Succeeds(cfg, n.server, Event(now, Checkpoint)) {
      var x := CheckpointChanges(cfg, n.server, now);
      assert Is(n.server, x.v3, VALIDATING) && Is(n.server, x.v2, ACTIVE);
      assert x.v3 <= a + 1;
      assert x.v2 == a && x.v3 == a + 1;
    }
  }

  lemma {:induction false} ServeCheckpoint(sys: System, n: Net, a: int, id: nat, now: int)
    requires Inv(n, a) && Due(n, id) && n.flight[id].CheckpointRequest?
    ensures Inv(Served(sys, n, id, true, now), a)
  {
    ServeCheckpointRows(sys.server, n, a, now);
    var n' := Served(sys, n, id, true, now);
    assert forall i :: Submitting(n', i) <==> Submitting(n, i);
    AnswerAdded(n, n', a, id, Registry.Succeeds(sys.server, n.server, Event(now, Checkpoint)));
  }

  /** The server's rows after serving a rollback: unchanged, or with the successor terminated. */
  lemma {:induction false} ServeRollbackRows(cfg: Config, n: Net, a: int, now: int)
    requires Inv(n, a)
    ensures var e := Event(now, Rollback);
      var s := Registry.Commit(cfg, n.server, e);
      && Window(s) && Known(n.client.records, s)
      && (!Registry.Succeeds(cfg, n.server, e) ==> s == n.server)
      && (Registry.Succeeds(cfg, n.server, e) ==>
            Is(n.server, a + 1, VALIDATING) && Level(s, a) && Is(s, a + 1, TERMINATED))
      && s.Keys == n.server.Keys
  {
    CommitWindow(cfg, n.server, Event(now, Rollback));
    if Registry.Succeeds(cfg, n.server, Event(now, Rollback)) {
      var v := Lookup(n.server, VALIDATING).value.version;
      assert Is(n.server, v, VALIDATING);
      assert v <= a + 1;
      assert v == a + 1;
    }
  }

  lemma {:induction false} ServeRollback(sys: System, n: Net, a: int, id: nat, now: int)
    requires Inv(n, a) && Due(n, id) && n.flight[id].RollbackRequest?
    ensures Inv(Served(sys, n, id, true, now), a)
  {
    ServeRollbackRows(sys.server, n, a, now);
    var n' := Served(sys, n, id, true, now);
    assert forall i :: Submitting(n', i) <==> Submitting(n, i);
    AnswerAdded(n, n', a, id, Registry.Succeeds(sys.server, n.server, Event(now, Rollback)));
  }

  lemma {:induction false} ServeKeeps(sys: System, n: Net, a: int, id: nat, authentic: bool, now: int)
    requires Inv(n, a)
    ensures Inv(Served(sys, n, id, authentic, now), a)
  {
    if Due(n, id) {
      if !authentic {
        var n' := Served(sys, n, id, authentic, now);
        assert forall i :: Submitting(n', i) ==> Submitting(n, i);
      } else {
        match n.flight[id]
        case SubmitRequest(p) => ServeSubmit(sys, n, a, id, now);
        case CheckpointRequest => ServeCheckpoint(sys, n, a, id, now);
        case RollbackRequest => ServeRollback(sys, n, a, id, now);
      }
    }
  }

  /** The answers left after one was read say what they said. */
  lemma {:induction false} AnswerRead(n: Net, n': Net, a: int)
    requires AnswersOk(n, a) && n.answers != [] && n'.answers == n.answers[1..] && n'.server == n.server
    requires a + 1 in n.client.records ==> a + 1 in n'.client.records
    requires Ahead(n.client.records, n.server, a) && Answer(Promoting, true) in n'.answers ==>
      Ahead(n'.client.records, n.server, a)
    ensures AnswersOk(n', a)
    ensures forall x :: x in n'.answers ==> x in n.answers
    ensures n.answers[0] == Answer(Promoting, true) ==>
      forall x :: x in n'.answers ==> x.call != Rotating && x != Answer(Promoting, true)
  {
    assert forall k :: 0 <= k < |n'.answers| ==> n'.answers[k] == n.answers[k + 1];
  }

  /** An answer was read, and the client is where it was, but perhaps for an expiry mark. */
  lemma {:induction false} Settled(n: Net, n': Net, a: int)
    requires Inv(n, a) && n.answers != [] && ClientAt(n'.client, a) && Unmoved(n.client, n'.client, a)
    requires n' == n.(client := n'.client, waiting := None, answers := n.answers[1..])
    ensures Inv(n', a)
  {
    assert forall i :: Submitting(n', i) <==> Submitting(n, i);
    AnswerRead(n, n', a);
  }

  /** The client promoted what the server had promoted: both are at the next version. */
  lemma {:induction false} CaughtUp(n: Net, n': Net, a: int)
    requires Inv(n, a) && Ahead(n.client.records, n.server, a) && Promoted(n.client, n'.client, a)
    requires Hears(n, Promoting, true) || Hears(n, Rotating, true)
    requires n' == n.(client := n'.client, waiting := None, answers := n.answers[1..])
    ensures Inv(n', a + 1)
  {
    if n.waiting == Some(Rotating) {
      assert n.answers[0].call == Rotating;
      assert n'.answers == [];
    } else {
      AnswerRead(n, n.(answers := n.answers[1..]), a);
    }
    assert forall i :: Submitting(n', i) ==> Submitting(n, i);
  }

  lemma {:induction false} ActiveMeansAhead(n: Net, a: int)
    requires Inv(n, a) && Is(n.server, a + 1, ACTIVE)
    ensures Ahead(n.client.records, n.server, a)
  {
  }

  /** Hearing of a success that lets the client promote. */
  lemma {:induction false} HearPromotes(sys: System, n: Net, a: int, now: int) returns (a': int)
    requires Inv(n, a) && (Hears(n, Promoting, true) || Hears(n, Rotating, true))
    requires Timely(n, Hear(true, now))
    ensures Inv(Heard(sys, n, true, now), a') && a' == if Ripe(n.client, a, now) then a + 1 else a
  {
    a' := a;
    var n' := Heard(sys, n, true, now);
    Checkpoints(sys.client, n.client, a, now);
    if Ripe(n.client, a, now) {
      if Hears(n, Rotating, true) {
        ActiveMeansAhead(n, a);
      }
      CaughtUp(n, n', a);
      a' := a + 1;
    } else {
      Settled(n, n', a);
    }
  }

  /** The answer to a submission, when it was refused. */
  lemma {:induction false} HearRefused(sys: System, n: Net, a: int, now: int)
    requires Inv(n, a) && Hears(n, Rotating, false)
    ensures Inv(Heard(sys, n, true, now), a)
  {
    var n' := Heard(sys, n, true, now);
    RollsBack(n.client, a);
    assert n.answers[0].call == Rotating;
    assert n'.answers == [];
    assert a + 1 !in n.server;
    assert forall i :: !Submitting(n, i) && !Submitting(n', i);
  }

  lemma {:induction false} HearCancelled(sys: System, n: Net, a: int, now: int)
    requires Inv(n, a) && Hears(n, Cancelling, true)
    ensures Inv(Heard(sys, n, true, now), a)
  {
    var n' := Heard(sys, n, true, now);
    assert n.answers[0] in n.answers;
    assert forall i :: Submitting(n', i) <==> Submitting(n, i);
    RollsBack(n.client, a);
    AnswerRead(n, n', a);
  }

  /** The answer read changes nothing: it is a refusal, of another kind, or not readable. */
  lemma {:induction false} HearNothing(n: Net, a: int)
    requires Inv(n, a) && n.answers != []
    ensures Inv(n.(waiting := None, answers := n.answers[1..]), a)
  {
    Settled(n, n.(waiting := None, answers := n.answers[1..]), a);
  }

  lemma {:induction false} HearKeeps(sys: System, n: Net, a: int, readable: bool, now: int) returns (a': int)
    requires Inv(n, a) && Timely(n, Hear(readable, now))
    ensures Inv(Heard(sys, n, readable, now), a') && a <= a' <= a + 1
  {
    a' := a;
    if n.waiting.Some? && n.answers != [] {
      if readable && (Hears(n, Promoting, true) || Hears(n, Rotating, true)) {
        a' := HearPromotes(sys, n, a, now);
      } else if readable && Hears(n, Rotating, false) {
        HearRefused(sys, n, a, now);
      } else if readable && Hears(n, Cancelling, true) {
        HearCancelled(sys, n, a, now);
      } else {
        HearNothing(n, a);
      }
    }
  }

  lemma {:induction false} ReconnectKeeps(sys: System, n: Net, a: int)
    requires Inv(n, a)
    ensures Inv(Stepped(sys, n, Reconnect), a)
  {
    Reloads(sys.client, n.client, a);
    var n' := Stepped(sys, n, Reconnect);
    assert forall i :: Submitting(n', i) <==> Submitting(n, i);
  }

  lemma {:induction false} GiveUpKeeps(sys: System, n: Net, a: int)
    requires Inv(n, a)
    ensures Inv(Stepped(sys, n, GiveUp), a)
  {
    var n' := Stepped(sys, n, GiveUp);
    assert forall i :: Submitting(n', i) <==> Submitting(n, i);
  }

  lemma {:induction false} StepKeeps(sys: System, n: Net, a: int, s: NetStep) returns (a': int)
    requires Inv(n, a) && Timely(n, s)
    ensures Inv(Stepped(sys, n, s), a') && a <= a' <= a + 1
  {
    a' := a;
    match s
    case Begin(call, g, now) =>
      if n.waiting.None? {
        if call == Rotating {
          BeginRotating(sys, n, a, g, now);
        } else {
          BeginAsking(sys, n, a, call, g, now);
        }
      }
    case Serve(id, authentic, now) => ServeKeeps(sys, n, a, id, authentic, now);
    case Hear(readable, now) => a' := HearKeeps(sys, n, a, readable, now);
    case Discard =>
      if n.waiting.None? && n.answers != [] {
        HearNothing(n, a);
      }
    case GiveUp => GiveUpKeeps(sys, n, a);
    case Reconnect => ReconnectKeeps(sys, n, a);
  }

  lemma {:induction false} StepsKeep(sys: System, n: Net, a: int, ss: seq<NetStep>) returns (a': int)
    requires Inv(n, a) && AllTimely(sys, n, ss)
    ensures Inv(Steps(sys, n, ss), a') && a <= a'
    decreases ss
  {
    if ss == [] {
      a' := a;
    } else {
      var b := StepKeeps(sys, n, a, ss[0]);
      a' := StepsKeep(sys, Stepped(sys, n, ss[0]), b, ss[1..]);
    }
  }

  // ------------------------------------------------------------------
  // the theorems
  // ------------------------------------------------------------------

  /** A client that just enrolled: the same first credential on both sides, nothing in flight. */
  ghost predicate JustEnrolled(n: Net) {
    && n.client.records.Keys == {1} && Is(n.client.records, 1, ACTIVE) && n.client.records[1].version == 1
    && n.server.Keys == {1} && Is(n.server, 1, ACTIVE) && Match(n.server[1], n.client.records[1])
    && 1 in n.client.keys
    && n.client.file == Some(File(n.client.records, n.client.keys, n.client.enrolled))
    && n.flight == map[] && n.since <= n.next && n.waiting.None? && n.answers == []
  }

  lemma {:induction false} EnrolledInv(n: Net)
    requires JustEnrolled(n)
    ensures Inv(n, 1)
  {
  }

  /** No drift: in every run, over every interleaving, loss and delay, with both clocks arbitrary,
      the client has an ACTIVE credential and its private keys, the server knows that version with
      identical keys and has it ACTIVE, or FALLBACK with the next version ACTIVE; and the server
      never knows a version or a key the client does not. */
  lemma {:induction false} NeverDrifts(sys: System, n: Net, ss: seq<NetStep>) returns (a: int)
    requires JustEnrolled(n) && AllTimely(sys, n, ss)
    ensures var m := Steps(sys, n, ss);
      && Is(m.client.records, a, ACTIVE) && a in m.client.keys
      && (forall v :: Is(m.client.records, v, ACTIVE) ==> v == a)
      && a in m.server && Match(m.server[a], m.client.records[a])
      && (Is(m.server, a, ACTIVE) || (Is(m.server, a, FALLBACK) && Is(m.server, a + 1, ACTIVE)))
      && (forall v :: v in m.server ==>
            v in m.client.records && Match(m.server[v], m.client.records[v]) && v <= a + 1)
  {
    EnrolledInv(n);
    a := StepsKeep(sys, n, 1, ss);
  }

  /** Hearing that its submission was accepted, a client promotes a version that is not ACTIVE at the
      server if and only if its clock has reached its own deadline, neither of its two credentials has
      expired, and the server has not promoted that version itself. */
  lemma {:induction false} LateRotateDrifts(sys: System, n: Net, a: int, now: int)
    requires Inv(n, a) && Hears(n, Rotating, true)
    ensures var m := Heard(sys, n, true, now);
      Is(m.client.records, a + 1, ACTIVE) && !Is(m.server, a + 1, ACTIVE) <==>
        Ripe(n.client, a, now) && !Is(n.server, a + 1, ACTIVE)
    ensures Ripe(n.client, a, now) ==> Is(Heard(sys, n, true, now).client.records, a + 1, ACTIVE)
  {
    Checkpoints(sys.client, n.client, a, now);
  }

  /** So the condition on the runs is exact: a step keeps the invariant, at some version, if and only if
      it is timely. */
  lemma {:induction false} KeptIffTimely(sys: System, n: Net, a: int, s: NetStep)
    requires Inv(n, a)
    ensures Timely(n, s) <==> exists b :: Inv(Stepped(sys, n, s), b)
  {
    if Timely(n, s) {
      var b := StepKeeps(sys, n, a, s);
    } else {
      var c :| Ripe(n.client, c, s.now) && !Is(n.server, c + 1, ACTIVE);
      assert c == a;
      LateRotateDrifts(sys, n, a, s.now);
      var m := Stepped(sys, n, s);
      forall b ensures !Inv(m, b) {
        assert Is(m.client.records, a + 1, ACTIVE);
        assert Inv(m, b) ==> b == a + 1;
      }
    }
  }
}
