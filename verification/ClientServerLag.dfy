/** A client that has fallen one version behind the server: when it still catches up, and when it never
    does. */
module ClientServerLag {
  import opened Basics
  import opened Credentials
  import opened RotationEngine
  import opened RotationRuns
  import opened Owner
  import Registry
  import opened ClientIdentity
  import opened ClientSession
  import opened ClientServer

  /** An unread answer would let the client promote: one to a promotion, whoever still waits for it, or
      the next one, to a submission the client waits for. */
  ghost predicate CatchingUp(n: Net) {
    Answer(Promoting, true) in n.answers || Hears(n, Rotating, true)
  }

  /** The server has promoted the successor, the client has not. */
  ghost predicate Behind(n: Net, a: int) {
    Inv(n, a) && Ahead(n.client.records, n.server, a)
  }

  /** And no unread answer would let the client follow. */
  ghost predicate LeftBehind(n: Net, a: int) {
    Behind(n, a) && !CatchingUp(n)
  }

  /** The answer the client is about to read for its own would let it promote. */
  predicate Follows(n: Net) {
    Hears(n, Promoting, true) || Hears(n, Rotating, true)
  }

  // ------------------------------------------------------------------
  // catching up and losing the answer
  // ------------------------------------------------------------------

  /** There is only one such answer. */
  lemma {:induction false} TakenLast(n: Net, a: int)
    requires Inv(n, a) && n.answers != []
    requires n.answers[0] == Answer(Promoting, true) || Hears(n, Rotating, true)
    ensures Answer(Promoting, true) !in n.answers[1..]
  {
    AnswerRead(n, n.(answers := n.answers[1..]), a);
    if Hears(n, Rotating, true) {
      assert n.answers[0].call == Rotating;
      assert n.answers[1..] == [];
    }
  }

  /** Reading such an answer for its own, a client one version behind catches up if and only if it still
      has its successor VALIDATING, its clock has reached its own deadline and neither of its two
      credentials has expired; otherwise it is left behind. */
  lemma {:induction false} CatchUpIff(sys: System, n: Net, a: int, now: int)
    requires Behind(n, a) && Follows(n)
    ensures if Ripe(n.client, a, now) then Inv(Heard(sys, n, true, now), a + 1) && Level(n.server, a + 1)
            else LeftBehind(Heard(sys, n, true, now), a)
  {
    var m := Heard(sys, n, true, now);
    Checkpoints(sys.client, n.client, a, now);
    if Ripe(n.client, a, now) {
      CaughtUp(n, m, a);
      assert a + 2 !in n.server by {
        assert forall v :: v in n.server ==> v <= a + 1;
      }
    } else {
      Settled(n, m, a);
      TakenLast(n, a);
    }
  }

  lemma {:induction false} ReconnectLeaves(sys: System, n: Net, a: int)
    requires Behind(n, a)
    ensures LeftBehind(Stepped(sys, n, Reconnect), a)
  {
    ReconnectKeeps(sys, n, a);
    Reloads(sys.client, n.client, a);
  }

  lemma {:induction false} GiveUpLeaves(sys: System, n: Net, a: int)
    requires Behind(n, a)
    ensures LeftBehind(Stepped(sys, n, GiveUp), a) <==> Answer(Promoting, true) !in n.answers
  {
    GiveUpKeeps(sys, n, a);
  }

  /** The answer to a promotion is read, but not for that. */
  lemma {:induction false} ReadAway(sys: System, n: Net, a: int, readable: bool, now: int)
    requires Behind(n, a) && n.answers != [] && n.answers[0] == Answer(Promoting, true)
    ensures n.waiting.None? ==> LeftBehind(Stepped(sys, n, Discard), a)
    ensures n.waiting.Some? && !(readable && n.waiting.value == Promoting) ==>
      LeftBehind(Stepped(sys, n, Hear(readable, now)), a)
  {
    HearNothing(n, a);
    TakenLast(n, a);
  }

  /** How it is lost: by reconnecting; by giving up on it, when it is the answer to a submission; and by
      reading the answer to a promotion in another call, or not being able to open it. Merely giving up
      on a promotion loses nothing yet: the next checkpoint_rotation may still read its answer. */
  lemma {:induction false} LostAnswerLeavesBehind(sys: System, n: Net, a: int, readable: bool, now: int)
    requires Behind(n, a)
    ensures LeftBehind(Stepped(sys, n, Reconnect), a)
    ensures LeftBehind(Stepped(sys, n, GiveUp), a) <==> Answer(Promoting, true) !in n.answers
    ensures n.answers != [] && n.answers[0] == Answer(Promoting, true) ==>
      && (n.waiting.None? ==> LeftBehind(Stepped(sys, n, Discard), a))
      && (n.waiting.Some? && !(readable && n.waiting.value == Promoting) ==>
            LeftBehind(Stepped(sys, n, Hear(readable, now)), a))
  {
    ReconnectLeaves(sys, n, a);
    GiveUpLeaves(sys, n, a);
    if n.answers != [] && n.answers[0] == Answer(Promoting, true) {
      ReadAway(sys, n, a, readable, now);
    }
  }

  // ------------------------------------------------------------------
  // what every other step leaves alone
  // ------------------------------------------------------------------

  /** Neither side has moved, and no answer to hope for has come. */
  ghost predicate Unmoving(n: Net, m: Net, a: int) {
    Behind(m, a) && m.client == n.client && m.server == n.server && (CatchingUp(m) ==> CatchingUp(n))
  }

  lemma {:induction false} BehindServe(sys: System, n: Net, a: int, id: nat, authentic: bool, now: int)
    requires Behind(n, a)
    ensures Unmoving(n, Served(sys, n, id, authentic, now), a)
  {
    ServeKeeps(sys, n, a, id, authentic, now);
    if Due(n, id) && authentic {
      forall v ensures !Is(n.server, v, VALIDATING) {
        assert Is(n.server, a + 1, ACTIVE);
      }
      assert !Submitting(n, id);
      assert !Registry.Succeeds(sys.server, n.server, Event(now, RequestOp(n.flight[id])));
    }
  }

  lemma {:induction false} BehindBegin(sys: System, n: Net, a: int, call: Call, g: Fresh, now: int)
    requires Behind(n, a)
    ensures Unmoving(n, Begun(sys, n, call, g, now), a)
  {
    if n.waiting.None? {
      if call == Rotating {
        Generates(sys.client, n.client, a, g, now);
      } else {
        BeginAsking(sys, n, a, call, g, now);
      }
    }
  }

  lemma {:induction false} BehindRead(n: Net, a: int)
    requires Behind(n, a) && n.answers != []
    ensures Unmoving(n, n.(waiting := None, answers := n.answers[1..]), a)
  {
    HearNothing(n, a);
    assert forall x :: x in n.answers[1..] ==> x in n.answers;
  }

  lemma {:induction false} BehindHear(sys: System, n: Net, a: int, readable: bool, now: int)
    requires Behind(n, a) && !(readable && Follows(n))
    ensures Unmoving(n, Heard(sys, n, readable, now), a)
  {
    if n.waiting.Some? && n.answers != [] {
      assert n.answers[0] in n.answers;
      assert !Hears(n, Rotating, false) && !Hears(n, Cancelling, true);
      BehindRead(n, a);
    }
  }

  lemma {:induction false} BehindStep(sys: System, n: Net, a: int, s: NetStep)
    requires Behind(n, a) && s != Reconnect && !(s.Hear? && s.readable && Follows(n))
    ensures Unmoving(n, Stepped(sys, n, s), a)
  {
    match s
    case Serve(id, authentic, now) => BehindServe(sys, n, a, id, authentic, now);
    case Begin(call, g, now) => BehindBegin(sys, n, a, call, g, now);
    case Hear(readable, now) => BehindHear(sys, n, a, readable, now);
    case Discard => if n.waiting.None? && n.answers != [] { BehindRead(n, a); }
    case GiveUp => GiveUpKeeps(sys, n, a);
  }

  // ------------------------------------------------------------------
  // left behind for good
  // ------------------------------------------------------------------

  lemma {:induction false} LeftBehindStep(sys: System, n: Net, a: int, s: NetStep)
    requires LeftBehind(n, a)
    ensures LeftBehind(Stepped(sys, n, s), a)
  {
    if s == Reconnect {
      ReconnectLeaves(sys, n, a);
    } else {
      BehindStep(sys, n, a, s);
    }
  }

  /** The lag of one version is permanent: once the server has promoted and no unread answer would let
      the client follow, no later step, at any time of either clock, ever moves the client off its old
      version, which at the server is only in FALLBACK. */
  lemma {:induction false} LagIsPermanent(sys: System, n: Net, a: int, ss: seq<NetStep>)
    requires LeftBehind(n, a)
    ensures LeftBehind(Steps(sys, n, ss), a)
    decreases ss
  {
    if ss != [] {
      LeftBehindStep(sys, n, a, ss[0]);
      LagIsPermanent(sys, Stepped(sys, n, ss[0]), a, ss[1..]);
    }
  }

  /** A client that would promote at no time at all does not catch up either. */
  lemma {:induction false} NeverRipe(sys: System, n: Net, a: int, ss: seq<NetStep>)
    requires Behind(n, a) && forall now :: !Ripe(n.client, a, now)
    ensures Behind(Steps(sys, n, ss), a)
    decreases ss
  {
    if ss != [] {
      var s, m := ss[0], Stepped(sys, n, ss[0]);
      if s == Reconnect {
        ReconnectLeaves(sys, n, a);
        LagIsPermanent(sys, m, a, ss[1..]);
      } else if s.Hear? && s.readable && Follows(n) {
        CatchUpIff(sys, n, a, s.now);
        LagIsPermanent(sys, m, a, ss[1..]);
      } else {
        BehindStep(sys, n, a, s);
        NeverRipe(sys, m, a, ss[1..]);
      }
    }
  }

  // ------------------------------------------------------------------
  // the way to catch up
  // ------------------------------------------------------------------

  lemma {:induction false} OneMore(sys: System, n: Net, s: NetStep, ss: seq<NetStep>)
    ensures Steps(sys, n, [s] + ss) == Steps(sys, Stepped(sys, n, s), ss)
  {
    assert ([s] + ss)[1..] == ss;
  }

  /** A checkpoint_rotation that reads the answer at once. */
  lemma {:induction false} AskAndFollow(sys: System, n: Net, a: int, now: int) returns (ss: seq<NetStep>)
    requires Behind(n, a) && Ripe(n.client, a, now) && n.waiting.None?
    requires n.answers != [] && n.answers[0] == Answer(Promoting, true)
    ensures Inv(Steps(sys, n, ss), a + 1)
  {
    var x, y := Begin(Promoting, Fresh([], [], [], []), now), Hear(true, now);
    OnlyActive(n.client, a);
    BehindStep(sys, n, a, x);
    var m := Stepped(sys, n, x);
    assert Hears(m, Promoting, true);
    CatchUpIff(sys, m, a, now);
    OneMore(sys, m, y, []);
    OneMore(sys, n, x, [y]);
    ss := [x] + [y];
  }

  /** The answers before it are read away first. */
  lemma {:induction false} DiscardAndFollow(sys: System, n: Net, a: int, now: int) returns (ss: seq<NetStep>)
    requires Behind(n, a) && Ripe(n.client, a, now) && n.waiting.None? && Answer(Promoting, true) in n.answers
    ensures Inv(Steps(sys, n, ss), a + 1)
    decreases |n.answers|
  {
    if n.answers[0] == Answer(Promoting, true) {
      ss := AskAndFollow(sys, n, a, now);
    } else {
      BehindStep(sys, n, a, Discard);
      var rest := DiscardAndFollow(sys, Stepped(sys, n, Discard), a, now);
      OneMore(sys, n, Discard, rest);
      ss := [Discard] + rest;
    }
  }

  lemma {:induction false} WayToCatchUp(sys: System, n: Net, a: int, now: int) returns (ss: seq<NetStep>)
    requires Behind(n, a) && Ripe(n.client, a, now) && CatchingUp(n)
    ensures Inv(Steps(sys, n, ss), a + 1)
  {
    if Hears(n, Rotating, true) {
      CatchUpIff(sys, n, a, now);
      OneMore(sys, n, Hear(true, now), []);
      ss := [Hear(true, now)] + [];
    } else {
      BehindStep(sys, n, a, GiveUp);
      var rest := DiscardAndFollow(sys, Stepped(sys, n, GiveUp), a, now);
      OneMore(sys, n, GiveUp, rest);
      ss := [GiveUp] + rest;
    }
  }

  /** The run brings the client to the next version. */
  ghost predicate MovesOn(sys: System, n: Net, a: int, ss: seq<NetStep>) {
    Is(Steps(sys, n, ss).client.records, a + 1, ACTIVE)
  }

  /** Exactly when the lag can end: some continuation brings a client one version behind to the server's
      version if and only if an unread answer would let it promote and there is a time at which it
      would. */
  lemma {:induction false} LagEndsIff(sys: System, n: Net, a: int)
    requires Behind(n, a)
    ensures (exists ss :: MovesOn(sys, n, a, ss)) <==>
      CatchingUp(n) && exists now :: Ripe(n.client, a, now)
  {
    if CatchingUp(n) && exists now :: Ripe(n.client, a, now) {
      var now :| Ripe(n.client, a, now);
      var ss := WayToCatchUp(sys, n, a, now);
      assert MovesOn(sys, n, a, ss);
    } else {
      forall ss ensures !MovesOn(sys, n, a, ss) {
        if CatchingUp(n) {
          NeverRipe(sys, n, a, ss);
        } else {
          LagIsPermanent(sys, n, a, ss);
        }
        assert Inv(Steps(sys, n, ss), a);
      }
    }
  }
}
