/** Length-prefixed frames over a byte stream that recv may cut anywhere, and the relay that copies
    frames from one stream to another. */
module Framing {
  import opened Basics
  import opened Codec

  datatype Frame = Frame(channel: int, payload: bytes)

  datatype FrameError = FRAME_TOO_LARGE | CLOSED_BY_PEER | IO_FAILED | UNENCODABLE

  const MAX_FRAME_SIZE := 64 * 1024 * 1024
  const FRAME_HEADER_SIZE := 5

  /** A frame that can be sent. */
  predicate Fits(f: Frame) {
    0 <= f.channel < 0x100 && |f.payload| <= MAX_FRAME_SIZE
  }

  /** A frame on the wire: a channel byte and the payload, its length in front. */
  function Bytes(f: Frame): bytes
    requires Fits(f)
  {
    BigEndian(f.channel, 1) + BigEndian(|f.payload|, 4) + f.payload
  }

  predicate AllFit(fs: seq<Frame>) {
    forall f :: f in fs ==> Fits(f)
  }

  function Join(fs: seq<Frame>): bytes
    requires AllFit(fs)
  {
    if fs == [] then [] else Bytes(fs[0]) + Join(fs[1..])
  }

  /** The first frame of a stream and what follows it. */
  function ParseFrame(s: bytes): (r: Result<(Frame, bytes), FrameError>)
    ensures r.Ok? ==> Fits(r.value.0) && |r.value.1| < |s|
  {
    if |s| < FRAME_HEADER_SIZE then Raised(CLOSED_BY_PEER)
    else
      var channel, size := FromBigEndian(s[..1]), FromBigEndian(s[1..5]);
      BigEndianCanonical(s[..1]);
      if size > MAX_FRAME_SIZE then Raised(FRAME_TOO_LARGE)
      else if |s| < 5 + size then Raised(CLOSED_BY_PEER)
      else
        Powers();
        Ok((Frame(channel, s[5..5 + size]), s[5 + size..]))
  }

  /** Every frame of a stream, and why there is no next one. */
  function Frames(s: bytes): (r: (seq<Frame>, FrameError))
    ensures AllFit(r.0)
    decreases |s|
  {
    match ParseFrame(s)
    case Raised(e) => ([], e)
    case Ok((f, rest)) =>
      var (fs, e) := Frames(rest);
      ([f] + fs, e)
  }

  // ------------------------------------------------------------------
  // the stream of a list of frames
  // ------------------------------------------------------------------

  lemma {:induction false} HeaderBack(f: Frame, tail: bytes)
    requires Fits(f)
    ensures var s := Bytes(f) + tail;
      |s| >= 5 && FromBigEndian(s[..1]) == f.channel && FromBigEndian(s[1..5]) == |f.payload|
      && s[5..] == f.payload + tail
  {
    Powers();
    var a, b := BigEndian(f.channel, 1), BigEndian(|f.payload|, 4);
    var s := Bytes(f) + tail;
    assert s == a + (b + (f.payload + tail));
    assert s[..1] == a && s[1..5] == b && s[5..] == f.payload + tail;
    BigEndianRoundTrip(f.channel, 1);
    BigEndianRoundTrip(|f.payload|, 4);
  }

  lemma {:induction false} FrameBack(f: Frame, tail: bytes)
    requires Fits(f)
    ensures ParseFrame(Bytes(f) + tail) == Ok((f, tail))
  {
    HeaderBack(f, tail);
    var s := Bytes(f) + tail;
    var n := |f.payload|;
    assert s[5..5 + n] == s[5..][..n] == f.payload;
    assert s[5 + n..] == s[5..][n..] == tail;
  }

  /** A frame cut short is no frame. */
  lemma {:induction false} FrameCut(f: Frame, n: nat)
    requires Fits(f) && n < |Bytes(f)|
    ensures ParseFrame(Bytes(f)[..n]) == Raised(CLOSED_BY_PEER)
  {
    HeaderBack(f, []);
    assert Bytes(f) + [] == Bytes(f);
    if n >= 5 {
      var s := Bytes(f)[..n];
      assert s[..1] == Bytes(f)[..1] && s[1..5] == Bytes(f)[1..5];
    }
  }

  lemma {:induction false} JoinCons(f: Frame, fs: seq<Frame>)
    requires Fits(f) && AllFit(fs)
    ensures AllFit([f] + fs) && Join([f] + fs) == Bytes(f) + Join(fs)
  {
  }

  lemma {:induction false} NextFrame(s: bytes, f: Frame, rest: bytes)
    requires ParseFrame(s) == Ok((f, rest))
    ensures Frames(s) == ([f] + Frames(rest).0, Frames(rest).1)
  {
  }

  /** k frames of the stream end within its first n bytes, and no more. */
  ghost predicate Whole(fs: seq<Frame>, n: nat, k: nat)
    requires AllFit(fs)
  {
    k <= |fs| && |Join(fs[..k])| <= n && (k < |fs| ==> n < |Join(fs[..k + 1])|)
  }

  lemma {:induction false} WholeCons(f: Frame, rest: seq<Frame>, m: nat, j: nat)
    requires Fits(f) && AllFit(rest) && Whole(rest, m, j)
    ensures AllFit([f] + rest) && Whole([f] + rest, |Bytes(f)| + m, j + 1)
    ensures ([f] + rest)[..j + 1] == [f] + rest[..j]
  {
    var fs := [f] + rest;
    assert fs[..j + 1] == [f] + rest[..j];
    JoinCons(f, rest[..j]);
    if j < |rest| {
      assert fs[..j + 2] == [f] + rest[..j + 1];
      JoinCons(f, rest[..j + 1]);
    }
  }

  lemma {:induction false} NoneWhole(f: Frame, rest: seq<Frame>, n: nat)
    requires Fits(f) && AllFit(rest) && n < |Bytes(f)|
    ensures AllFit([f] + rest) && Whole([f] + rest, n, 0)
  {
  }

  /** Reassembly, whole or truncated: the stream of a list of frames cut after n bytes holds exactly
      the frames that end within those bytes, then the peer's closing; never a partial frame. */
  lemma {:induction false} CutStream(fs: seq<Frame>, n: nat) returns (k: nat)
    requires AllFit(fs) && n <= |Join(fs)|
    ensures Whole(fs, n, k) && Frames(Join(fs)[..n]) == (fs[..k], CLOSED_BY_PEER)
  {
    if fs == [] {
      k := 0;
    } else {
      var f, rest := fs[0], fs[1..];
      assert f in fs;
      assert fs == [f] + rest;
      var size := |Bytes(f)|;
      if n < size {
        k := 0;
        assert Join(fs)[..n] == Bytes(f)[..n];
        FrameCut(f, n);
        NoneWhole(f, rest, n);
      } else {
        var j := CutStream(rest, n - size);
        var tail := Join(rest)[..n - size];
        assert Join(fs)[..n] == Bytes(f) + tail;
        FrameBack(f, tail);
        NextFrame(Bytes(f) + tail, f, tail);
        WholeCons(f, rest, n - size, j);
        k := j + 1;
      }
    }
  }

  /** Successive reads give back exactly the frames that were sent. */
  lemma {:induction false} StreamRoundTrip(fs: seq<Frame>)
    requires AllFit(fs)
    ensures Frames(Join(fs)) == (fs, CLOSED_BY_PEER)
  {
    var k := CutStream(fs, |Join(fs)|);
    assert Join(fs)[..|Join(fs)|] == Join(fs);
    if k < |fs| {
      JoinGrows(fs, k + 1);
    }
    assert fs[..|fs|] == fs;
  }

  lemma {:induction false} JoinGrows(fs: seq<Frame>, k: nat)
    requires AllFit(fs) && k <= |fs|
    ensures Join(fs[..k]) <= Join(fs)
  {
    if k > 0 {
      assert fs[0] in fs;
      assert fs[..k] == [fs[0]] + fs[1..][..k - 1];
      JoinCons(fs[0], fs[1..][..k - 1]);
      JoinGrows(fs[1..], k - 1);
    }
  }

  // ------------------------------------------------------------------
  // sockets
  // ------------------------------------------------------------------

  /** One end of a connection: the bytes still to arrive, in order, and the bytes sent. recv returns
      any non-empty piece of what is there; an unreliable connection may fail at any call. */
  class Socket {
    const reliable: bool
    var incoming: bytes
    var outgoing: bytes

    constructor (incoming: bytes, reliable: bool)
      ensures this.incoming == incoming && this.outgoing == [] && this.reliable == reliable
    {
      this.incoming, this.outgoing, this.reliable := incoming, [], reliable;
    }

    /** recv(n): at most n bytes, none only at the end of the stream. */
    method Recv(n: nat) returns (r: Result<bytes, FrameError>)
      requires n > 0
      modifies this`incoming
      ensures r.Ok? ==> old(incoming) == r.value + incoming && |r.value| <= n
      ensures r.Ok? && r.value == [] ==> old(incoming) == []
      ensures r.Raised? ==> !reliable && r.error == IO_FAILED && incoming == old(incoming)
    {
      if !reliable {
        if * { return Raised(IO_FAILED); }
      }
      if incoming == [] { return Ok([]); }
      var k: nat :| 1 <= k <= n && k <= |incoming|;
      r := Ok(incoming[..k]);
      incoming := incoming[k..];
    }

    /** sendall: everything, or an error after some of it. */
    method SendAll(data: bytes) returns (r: Result<(), FrameError>)
      modifies this`outgoing
      ensures r.Ok? ==> outgoing == old(outgoing) + data
      ensures r.Raised? ==>
        && !reliable && r.error == IO_FAILED
        && exists k :: 0 <= k <= |data| && outgoing == old(outgoing) + data[..k]
    {
      if !reliable {
        if * {
          var k: nat :| 0 <= k <= |data|;
          outgoing := outgoing + data[..k];
          return Raised(IO_FAILED);
        }
      }
      outgoing := outgoing + data;
      r := Ok(());
    }
  }

  method SendFrame(sock: Socket, f: Frame) returns (r: Result<(), FrameError>)
    modifies sock`outgoing
    ensures r.Ok? ==> Fits(f) && sock.outgoing == old(sock.outgoing) + Bytes(f)
    ensures r == Raised(FRAME_TOO_LARGE) <==> |f.payload| > MAX_FRAME_SIZE
    ensures !Fits(f) ==> sock.outgoing == old(sock.outgoing)
    ensures Fits(f) && r.Raised? ==>
      && !sock.reliable
      && exists k :: 0 <= k <= |Bytes(f)| && sock.outgoing == old(sock.outgoing) + Bytes(f)[..k]
  {
    if |f.payload| > MAX_FRAME_SIZE { return Raised(FRAME_TOO_LARGE); }
    if !(0 <= f.channel < 0x100) { return Raised(UNENCODABLE); }
    r := sock.SendAll(Bytes(f));
  }

  /** Exactly n bytes, however recv splits them. */
  method RecvExact(sock: Socket, n: nat) returns (r: Result<bytes, FrameError>)
    modifies sock`incoming
    ensures r.Ok? ==> |r.value| == n && old(sock.incoming) == r.value + sock.incoming
    ensures r == Raised(CLOSED_BY_PEER) ==> |old(sock.incoming)| < n
    ensures r.Raised? ==> r.error == CLOSED_BY_PEER || (r.error == IO_FAILED && !sock.reliable)
  {
    var chunks: bytes := [];
    while |chunks| < n
      invariant |chunks| <= n && old(sock.incoming) == chunks + sock.incoming
      decreases n - |chunks|
    {
      var part := sock.Recv(n - |chunks|);
      if part.Raised? { return Raised(part.error); }
      if part.value == [] { return Raised(CLOSED_BY_PEER); }
      chunks := chunks + part.value;
    }
    r := Ok(chunks);
  }

  /** The next frame. Only the bytes decide, not how they arrived; on a reliable connection the
      outcome is that of ParseFrame in every case. */
  method RecvFrame(sock: Socket) returns (r: Result<Frame, FrameError>)
    modifies sock`incoming
    ensures r.Ok? ==> ParseFrame(old(sock.incoming)) == Ok((r.value, sock.incoming))
    ensures r.Raised? ==>
      || ParseFrame(old(sock.incoming)) == Raised(r.error)
      || (r.error == IO_FAILED && !sock.reliable)
  {
    ghost var s := sock.incoming;
    var header := RecvExact(sock, FRAME_HEADER_SIZE);
    if header.Raised? { return Raised(header.error); }
    var h := header.value;
    assert s[..1] == h[..1] && s[1..5] == h[1..5] && s[5..] == sock.incoming;
    var channel, size := FromBigEndian(h[..1]), FromBigEndian(h[1..5]);
    if size > MAX_FRAME_SIZE { return Raised(FRAME_TOO_LARGE); }
    ghost var mid := sock.incoming;
    var payload := RecvExact(sock, size);
    if payload.Raised? { return Raised(payload.error); }
    assert s[5..5 + size] == mid[..size] && s[5 + size..] == mid[size..];
    r := Ok(Frame(channel, payload.value));
  }

  // ------------------------------------------------------------------
  // relaying
  // ------------------------------------------------------------------

  lemma {:induction false} JoinSnoc(fs: seq<Frame>, f: Frame)
    requires AllFit(fs) && Fits(f)
    ensures AllFit(fs + [f]) && Join(fs + [f]) == Join(fs) + Bytes(f)
  {
    if fs == [] {
      assert fs + [f] == [f] && [f][1..] == [];
      assert Join([f]) == Bytes(f) + [];
    } else {
      assert fs[0] in fs;
      JoinSnoc(fs[1..], f);
      assert fs + [f] == [fs[0]] + (fs[1..] + [f]);
      JoinCons(fs[0], fs[1..] + [f]);
      Assoc(Bytes(fs[0]), Join(fs[1..]), Bytes(f));
    }
  }

  /** The frames of the source are those done and those still to come. */
  ghost predicate Copying(all: seq<Frame>, done: seq<Frame>, s: bytes) {
    all == done + Frames(s).0
  }

  lemma {:induction false} CopyOne(all: seq<Frame>, done: seq<Frame>, s: bytes, f: Frame, rest: bytes)
    requires AllFit(all) && AllFit(done) && Copying(all, done, s) && ParseFrame(s) == Ok((f, rest))
    ensures AllFit(done + [f]) && Copying(all, done + [f], rest)
    ensures Join(done + [f]) == Join(done) + Bytes(f) && Join(done + [f]) <= Join(all)
  {
    NextFrame(s, f, rest);
    JoinSnoc(done, f);
    assert done + ([f] + Frames(rest).0) == (done + [f]) + Frames(rest).0;
    CopiedPrefix(all, done + [f], rest);
  }

  lemma {:induction false} CopiedPrefix(all: seq<Frame>, done: seq<Frame>, s: bytes)
    requires AllFit(all) && AllFit(done) && Copying(all, done, s)
    ensures Join(done) <= Join(all) && (Frames(s).0 == [] ==> Join(done) == Join(all))
  {
    JoinGrows(all, |done|);
    assert all[..|done|] == done;
    if Frames(s).0 == [] {
      assert done + [] == done;
    }
  }

  /** A send that failed after k bytes. */
  lemma {:induction false} CutSend(before: bytes, added: bytes, b: bytes, k: nat, whole: bytes)
    requires k <= |b| && added + b <= whole
    ensures before + added + b[..k] == before + (added + b[..k]) && added + b[..k] <= whole
  {
    assert added + b[..k] == (added + b)[..|added| + k];
  }

  /** Copy frames until either side closes. What is added to the destination is a prefix of the
      source's frames, whole but perhaps for a last one cut by a failing send; all of them when both
      connections are reliable. */
  method Pump(src: Socket, dst: Socket) returns (ghost added: bytes)
    requires src != dst
    modifies src`incoming, dst`outgoing
    ensures dst.outgoing == old(dst.outgoing) + added
    ensures added <= Join(Frames(old(src.incoming)).0)
    ensures src.reliable && dst.reliable ==> added == Join(Frames(old(src.incoming)).0)
  {
    ghost var all := Frames(src.incoming).0;
    ghost var done: seq<Frame> := [];
    added := [];
    while true
      invariant AllFit(done) && Copying(all, done, src.incoming) && added == Join(done)
      invariant dst.outgoing == old(dst.outgoing) + added
      decreases |src.incoming|
    {
      ghost var s := src.incoming;
      CopiedPrefix(all, done, s);
      var f := RecvFrame(src);
      if f.Raised? { return; }
      CopyOne(all, done, s, f.value, src.incoming);
      var ok := SendFrame(dst, f.value);
      if ok.Raised? {
        ghost var k :| 0 <= k <= |Bytes(f.value)|
          && dst.outgoing == old(dst.outgoing) + added + Bytes(f.value)[..k];
        CutSend(old(dst.outgoing), added, Bytes(f.value), k, Join(all));
        added := added + Bytes(f.value)[..k];
        return;
      }
      Assoc(old(dst.outgoing), added, Bytes(f.value));
      done := done + [f.value];
      added := Join(done);
    }
  }

  /** One stream relays another: it holds a prefix of its frames, the last perhaps cut. */
  ghost predicate Relays(from: bytes, to: bytes) {
    to <= Join(Frames(from).0)
  }

  /** Hops chain: through any number of relays, each cut anywhere, what can be read at the end is a
      prefix, in order, of the frames that were sent. */
  lemma {:induction false} ChainDeliversPrefix(sent: seq<Frame>, hops: seq<bytes>)
    requires AllFit(sent) && hops != [] && hops[0] <= Join(sent)
    requires forall i :: 0 <= i < |hops| - 1 ==> Relays(hops[i], hops[i + 1])
    ensures Frames(hops[|hops| - 1]).0 <= sent
    decreases |hops|
  {
    var front, last := hops[..|hops| - 1], hops[|hops| - 1];
    if front == [] {
      var k := CutStream(sent, |last|);
      assert last == Join(sent)[..|last|];
    } else {
      assert forall i :: 0 <= i < |front| - 1 ==> Relays(front[i], front[i + 1]);
      ChainDeliversPrefix(sent, front);
      var before := front[|front| - 1];
      assert Relays(hops[|hops| - 2], last) && hops[|hops| - 2] == before;
      var fs := Frames(before).0;
      var k := CutStream(fs, |last|);
      assert last == Join(fs)[..|last|];
    }
  }
}
