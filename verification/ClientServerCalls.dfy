/** The session's calls are steps of the two-sided runs, and a bound on the time a rotate takes makes
    its runs timely. */
module ClientServerCalls {
  import opened Basics
  import opened Credentials
  import opened RotationEngine
  import opened RotationRuns
  import opened Owner
  import opened ClientIdentity
  import opened ClientSession
  import opened ClientServer

  // ------------------------------------------------------------------
  // the session's calls
  // ------------------------------------------------------------------

  /** What the server does leaves the client and its wait alone. */
  lemma {:induction false} ServingLeavesClient(sys: System, n: Net, serves: seq<NetStep>)
    requires forall s :: s in serves ==> s.Serve?
    ensures var m := Steps(sys, n, serves); m.client == n.client && m.waiting == n.waiting
    decreases serves
  {
    if serves != [] {
      assert serves[0] in serves;
      assert forall s :: s in serves[1..] ==> s in serves;
      ServingLeavesClient(sys, Stepped(sys, n, serves[0]), serves[1..]);
    }
  }

  /** What the client is left with after a call, given the reply: it hears the next answer when that is of
      the right kind and carried the status; it gives up, or hears an answer of another kind or one that
      cannot be opened, when nothing usable came. */
  ghost predicate EndsAs(sys: System, n: Net, reply: Reply, end: int, c: Client) {
    && (n.waiting.None? ==> n.client == c)
    && (n.waiting.Some? && reply.Status? && Hears(n, n.waiting.value, reply.code == 0) ==>
          Stepped(sys, n, Hear(true, end)).client == c)
    && (n.waiting.Some? && reply.NoReply? ==>
          && Stepped(sys, n, GiveUp).client == c
          && Stepped(sys, n, Hear(false, end)).client == c
          && (n.answers != [] && n.answers[0].call != n.waiting.value ==> Stepped(sys, n, Hear(true, end)).client == c))
  }

  lemma {:induction false} EndsWaiting(sys: System, n: Net, call: Call, reply: Reply, end: int, c: Client)
    requires n.waiting == Some(call)
    requires c == if reply.NoReply? then n.client else Answered(sys.client, n.client, call, reply.code == 0, end).0
    ensures EndsAs(sys, n, reply, end, c)
  {
  }

  lemma {:induction false} RotateSigns(sys: System, n: Net, a: int, g: Fresh, start: int)
    requires Inv(n, a) && AfterGenerate(sys.client, n.client, g, start).1.Ok?
    ensures Signable(AfterGenerate(sys.client, n.client, g, start).0).Ok?
  {
    Generates(sys.client, n.client, a, g, start);
    OnlyActive(AfterGenerate(sys.client, n.client, g, start).0, a);
  }

  /** A rotate is the beginning of a rotation, whatever the server does meanwhile with any request, and
      then the hearing of the next answer, or giving up. */
  lemma {:induction false} RotateIsSteps(sys: System, n: Net, a: int, g: Fresh, start: int,
                                         serves: seq<NetStep>, reply: Reply, end: int)
    requires Inv(n, a) && n.waiting.None? && forall s :: s in serves ==> s.Serve?
    ensures EndsAs(sys, Steps(sys, Stepped(sys, n, Begin(Rotating, g, start)), serves), reply, end,
                   AfterRotate(sys.client, n.client, g, start, reply, end).0)
  {
    var n1 := Stepped(sys, n, Begin(Rotating, g, start));
    ServingLeavesClient(sys, n1, serves);
    if AfterGenerate(sys.client, n.client, g, start).1.Ok? {
      RotateSigns(sys, n, a, g, start);
      EndsWaiting(sys, Steps(sys, n1, serves), Rotating, reply, end,
                  AfterRotate(sys.client, n.client, g, start, reply, end).0);
    }
  }

  /** Likewise for checkpoint_rotation and rollback_rotation. */
  lemma {:induction false} AskingIsSteps(sys: System, n: Net, a: int, call: Call, g: Fresh, start: int,
                                         serves: seq<NetStep>, reply: Reply, end: int)
    requires Inv(n, a) && n.waiting.None? && call != Rotating && forall s :: s in serves ==> s.Serve?
    ensures Stepped(sys, n, Begin(call, g, start)).waiting.Some?
    ensures EndsAs(sys, Steps(sys, Stepped(sys, n, Begin(call, g, start)), serves), reply, end,
                   AfterAsking(sys.client, n.client, call, reply, end).0)
  {
    OnlyActive(n.client, a);
    var n1 := Stepped(sys, n, Begin(call, g, start));
    ServingLeavesClient(sys, n1, serves);
    EndsWaiting(sys, Steps(sys, n1, serves), call, reply, end, AfterAsking(sys.client, n.client, call, reply, end).0);
  }

  /** What the calls return. checkpoint_rotation is true exactly when the answer it read says that the
      server's step succeeded, false exactly when it says that it failed, and raises exactly when there is
      no answer to read. */
  lemma {:induction false} CheckpointReturnsAnswer(sys: System, n: Net, a: int, reply: Reply, end: int)
    requires Inv(n, a)
    ensures var r := AfterAsking(sys.client, n.client, Promoting, reply, end).1;
      && (r == Ok(true) <==> reply.Status? && reply.code == 0)
      && (r == Ok(false) <==> reply.Status? && reply.code != 0)
      && (r.Raised? <==> reply.NoReply?)
      && (r.Raised? ==> r == Raised(NO_REPLY))
  {
    OnlyActive(n.client, a);
  }

  /** rollback_rotation returns when the server rolled back and the client's own successor was there to end;
      it raises the client's own refusal when it was not, and otherwise the server's. */
  lemma {:induction false} RollbackReturnsAnswer(sys: System, n: Net, a: int, reply: Reply, end: int)
    requires Inv(n, a)
    ensures var r := AfterAsking(sys.client, n.client, Cancelling, reply, end).1;
      && Decides(Unless(reply.Status?, NO_REPLY,
                 Unless(reply.Status? && reply.code == 0, ROTATE_REJECTED,
                 Unless(Is(n.client.records, a + 1, VALIDATING), OfIdentity(Rotation(NO_VALIDATING)), None))), r)
      && r != Ok(false)
  {
    OnlyActive(n.client, a);
  }

  /** rotate returns exactly when a proposal could be made and the server accepted it. */
  lemma {:induction false} RotateReturnsAnswer(sys: System, n: Net, a: int, g: Fresh, start: int, reply: Reply,
                                               end: int)
    requires Inv(n, a)
    ensures var (made, r) := (AfterGenerate(sys.client, n.client, g, start).1,
                              AfterRotate(sys.client, n.client, g, start, reply, end).1);
      && (made.Raised? ==> r == Raised(OfIdentity(made.error)))
      && (made.Ok? ==> Decides(Unless(reply.Status?, NO_REPLY,
                               Unless(reply.Status? && reply.code == 0, ROTATE_REJECTED, None)), r))
      && r != Ok(false)
  {
    if AfterGenerate(sys.client, n.client, g, start).1.Ok? {
      RotateSigns(sys, n, a, g, start);
      Generates(sys.client, n.client, a, g, start);
      OnlyActive(AfterGenerate(sys.client, n.client, g, start).0, a);
    }
  }

  // ------------------------------------------------------------------
  // the client's private keys
  // ------------------------------------------------------------------

  lemma {:induction false} StepHoldsKeys(sys: System, n: Net, s: NetStep)
    requires KeysHeld(sys.client, n.client) && (s.Begin? ==> Genuine(sys.client, s.g))
    ensures KeysHeld(sys.client, Stepped(sys, n, s).client)
  {
    match s
    case Begin(call, g, now) => HeldMove(sys.client, n.client, Generate(g), now);
    case Hear(readable, now) =>
      HeldMove(sys.client, n.client, Promote, now);
      HeldMove(sys.client, n.client, Cancel, now);
    case Reconnect => HeldMove(sys.client, n.client, Reload, 0);
    case _ =>
  }

  /** In every run whatever, timely or not, the client holds both private keys of every version it
      records, in memory and in its file. */
  lemma {:induction false} RunHoldsKeys(sys: System, n: Net, ss: seq<NetStep>)
    requires KeysHeld(sys.client, n.client) && forall s :: s in ss && s.Begin? ==> Genuine(sys.client, s.g)
    ensures KeysHeld(sys.client, Steps(sys, n, ss).client)
    decreases ss
  {
    if ss != [] {
      assert ss[0] in ss;
      StepHoldsKeys(sys, n, ss[0]);
      RunHoldsKeys(sys, Stepped(sys, n, ss[0]), ss[1..]);
    }
  }

  // ------------------------------------------------------------------
  // prompt runs
  // ------------------------------------------------------------------

  /** When the rotation the client waits for began. */
  function LatestStart(n: Net, sent: int, s: NetStep): int {
    if s.Begin? && s.call == Rotating && n.waiting.None? then s.now else sent
  }

  /** Every rotate that hears its answer does so less than T/2 after it began, by the client's clock. */
  ghost predicate AllPrompt(sys: System, n: Net, sent: int, ss: seq<NetStep>)
    decreases ss
  {
    ss == [] ||
    (&& (ss[0].Hear? && n.waiting == Some(Rotating) ==> ss[0].now < sent + sys.client.cfg.Half())
     && AllPrompt(sys, Stepped(sys, n, ss[0]), LatestStart(n, sent, ss[0]), ss[1..]))
  }

  /** While the client waits for a rotation, its successor dates from the beginning of that. */
  ghost predicate DatedFrom(sys: System, n: Net, a: int, sent: int) {
    n.waiting == Some(Rotating) ==>
      Is(n.client.records, a + 1, VALIDATING)
      && n.client.records[a + 1].deadline == Some(sent + sys.client.cfg.Half())
  }

  lemma {:induction false} PromptIsTimely(sys: System, n: Net, a: int, sent: int, s: NetStep)
    requires Inv(n, a) && DatedFrom(sys, n, a, sent)
    requires s.Hear? && n.waiting == Some(Rotating) ==> s.now < sent + sys.client.cfg.Half()
    ensures Timely(n, s)
  {
    if s.Hear? {
      assert forall b :: Ripe(n.client, b, s.now) ==> b == a;
    }
  }

  lemma {:induction false} BeginDates(sys: System, n: Net, a: int, sent: int, s: NetStep)
    requires Inv(n, a) && s.Begin? && n.waiting.None?
    ensures DatedFrom(sys, Stepped(sys, n, s), a, LatestStart(n, sent, s))
  {
    if s.call == Rotating && AfterGenerate(sys.client, n.client, s.g, s.now).1.Ok? {
      Generates(sys.client, n.client, a, s.g, s.now);
      OnlyActive(n.client, a);
    }
  }

  lemma {:induction false} StaysDated(sys: System, n: Net, a: int, sent: int, s: NetStep) returns (a': int)
    requires Inv(n, a) && DatedFrom(sys, n, a, sent) && Timely(n, s)
    ensures Inv(Stepped(sys, n, s), a') && DatedFrom(sys, Stepped(sys, n, s), a', LatestStart(n, sent, s))
  {
    a' := StepKeeps(sys, n, a, s);
    if s.Begin? && n.waiting.None? {
      BeginDates(sys, n, a, sent, s);
      var m := Stepped(sys, n, s);
      assert Is(m.client.records, a', ACTIVE);
      BeginKeepsVersion(sys, n, a, s);
    } else if n.waiting.Some? && (s.Serve? || s.Begin? || (s.Hear? && n.answers == [])) {
      assert Stepped(sys, n, s).client == n.client;
    }
  }

  lemma {:induction false} BeginKeepsVersion(sys: System, n: Net, a: int, s: NetStep)
    requires Inv(n, a) && s.Begin? && n.waiting.None?
    ensures Is(Stepped(sys, n, s).client.records, a, ACTIVE)
  {
    if s.call == Rotating {
      Generates(sys.client, n.client, a, s.g, s.now);
    }
  }

  lemma {:induction false} PromptRun(sys: System, n: Net, a: int, sent: int, ss: seq<NetStep>)
    requires Inv(n, a) && DatedFrom(sys, n, a, sent) && AllPrompt(sys, n, sent, ss)
    ensures AllTimely(sys, n, ss)
    decreases ss
  {
    if ss != [] {
      PromptIsTimely(sys, n, a, sent, ss[0]);
      var b := StaysDated(sys, n, a, sent, ss[0]);
      PromptRun(sys, Stepped(sys, n, ss[0]), b, LatestStart(n, sent, ss[0]), ss[1..]);
    }
  }

  /** No drift for prompt clients: when every rotate that hears its answer does so less than T/2 after it
      began, client and server never drift, over every interleaving, loss and delay, and whatever the
      difference between the two clocks. */
  lemma {:induction false} PromptNeverDrifts(sys: System, n: Net, ss: seq<NetStep>) returns (a: int)
    requires JustEnrolled(n) && AllPrompt(sys, n, 0, ss)
    ensures var m := Steps(sys, n, ss);
      && Is(m.client.records, a, ACTIVE) && a in m.client.keys
      && a in m.server && Match(m.server[a], m.client.records[a])
      && (Is(m.server, a, ACTIVE) || (Is(m.server, a, FALLBACK) && Is(m.server, a + 1, ACTIVE)))
  {
    EnrolledInv(n);
    PromptRun(sys, n, 1, 0, ss);
    a := NeverDrifts(sys, n, ss);
  }
}
