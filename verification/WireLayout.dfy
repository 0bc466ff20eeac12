/** The wire format byte by byte: the value of every integer's bytes, and which part of a message,
    an envelope, a snapshot or a frame sits where. */
module WireLayout {
  import opened Basics
  import opened Codec
  import opened RotationEngine
  import opened Envelopes
  import opened Protocol
  import Snapshots
  import Framing

  // ------------------------------------------------------------------
  // integers
  // ------------------------------------------------------------------

  /** Digit j of n to the base 256, the lowest being digit 0. */
  function Digit(n: nat, j: nat): nat {
    if j == 0 then n % 256 else Digit(n / 256, j - 1)
  }

  /** Integers are big-endian: the highest digit comes first. */
  lemma {:induction false} ByteOf(n: nat, k: nat, i: nat)
    requires i < k
    ensures BigEndian(n, k)[i] as int == Digit(n, k - 1 - i)
    decreases k
  {
    if i < k - 1 {
      ByteOf(n / 256, k - 1, i);
      assert BigEndian(n, k)[i] == BigEndian(n / 256, k - 1)[i];
    }
  }

  const TWO64 := 0x1_0000_0000_0000_0000

  /** Signed integers are two's complement on eight bytes: their value modulo 2^64. */
  lemma {:induction false} TwosComplement(n: int)
    requires Field.I64(n).InRange()
    ensures |FieldBytes(Field.I64(n))| == 8 && FromBigEndian(FieldBytes(Field.I64(n))) == n % TWO64
  {
    Powers();
    BigEndianRoundTrip(Unsigned64(n), 8);
    assert n < 0 ==> n % TWO64 == n + TWO64;
  }

  // ------------------------------------------------------------------
  // parts
  // ------------------------------------------------------------------

  function Joined(parts: seq<bytes>): bytes {
    if parts == [] then [] else parts[0] + Joined(parts[1..])
  }

  /** Where part i begins: after the parts before it. */
  function Offset(parts: seq<bytes>, i: nat): nat
    requires i <= |parts|
  {
    if i == 0 then 0 else |parts[0]| + Offset(parts[1..], i - 1)
  }

  lemma {:induction false} PartAt(parts: seq<bytes>, i: nat)
    requires i < |parts|
    ensures var at := Offset(parts, i);
      at + |parts[i]| <= |Joined(parts)| && Joined(parts)[at..at + |parts[i]|] == parts[i]
    decreases i
  {
    if i > 0 {
      PartAt(parts[1..], i - 1);
      var at := Offset(parts[1..], i - 1);
      var rest, b := Joined(parts[1..]), parts[i];
      assert (parts[0] + rest)[|parts[0]| + at..|parts[0]| + at + |b|] == rest[at..at + |b|];
    }
  }

  /** A part of a message: an unsigned integer of some width, a signed one on eight bytes, bytes or text
      with their length in four bytes in front, an identifier behind a byte 1 or seventeen zeros, or plain
      bytes. */
  datatype Part =
    | Int(n: int, width: nat)
    | Signed(n: int)
    | Counted(b: bytes)
    | Flagged(id: Option<Uuid>)
    | Plain(b: bytes)

  function Render(p: Part): bytes {
    match p
    case Int(n, width) => if n >= 0 then BigEndian(n, width) else []
    case Signed(n) => BigEndian(n % TWO64, 8)
    case Counted(b) => BigEndian(|b|, 4) + b
    case Flagged(Some(u)) => [1] + u
    case Flagged(None) => seq(17, _ => 0)
    case Plain(b) => b
  }

  function Rendered(parts: seq<Part>): (bs: seq<bytes>)
    ensures |bs| == |parts| && forall i :: 0 <= i < |parts| ==> bs[i] == Render(parts[i])
  {
    if parts == [] then [] else [Render(parts[0])] + Rendered(parts[1..])
  }

  function PartOf(f: Field): Part {
    match f
    case U8(n) => Int(n, 1)
    case U16(n) => Int(n, 2)
    case U32(n) => Int(n, 4)
    case U64(n) => Int(n, 8)
    case I64(n) => Signed(n)
    case Blob(b) => Counted(b)
    case Text(b) => Counted(b)
    case Id(id) => Flagged(id)
    case Raw(b) => Plain(b)
  }

  lemma {:induction false} Wrapped(n: int)
    requires -0x8000_0000_0000_0000 <= n < 0x8000_0000_0000_0000
    ensures Unsigned64(n) == n % TWO64
  {
    assert n < 0 ==> n % TWO64 == n + TWO64;
  }

  lemma {:induction false} FieldPart(f: Field)
    requires f.InRange()
    ensures FieldBytes(f) == Render(PartOf(f))
  {
    if f.I64? {
      Wrapped(f.n);
    }
  }

  /** Fields that are these parts encode to them, one after the other. */
  lemma {:induction false} ConcatParts(fs: seq<Field>, parts: seq<Part>)
    requires AllInRange(fs) && |parts| == |fs| && forall i :: 0 <= i < |fs| ==> PartOf(fs[i]) == parts[i]
    ensures Concat(fs) == Joined(Rendered(parts))
  {
    if fs != [] {
      FieldPart(fs[0]);
      ConcatParts(fs[1..], parts[1..]);
    }
  }

  // ------------------------------------------------------------------
  // messages
  // ------------------------------------------------------------------

  function Layout(m: Message): seq<Part> {
    match m
    case Aad(sender, recipient, request, version, timestamp, nonce, index) =>
      [Counted([83, 73, 72, 45, 65, 65, 68, 45, 49]), Flagged(Some(sender)), Flagged(Some(recipient)),
       Flagged(Some(request)), Int(version, 4), Signed(timestamp), Counted(nonce), Int(index, 8)]
    case Transition(identity, old_, new_, ed, x, meta) =>
      [Counted([83, 73, 72, 45, 83, 85, 67, 67, 45, 49]), Flagged(Some(identity)), Int(old_, 4), Int(new_, 4),
       Counted(ed), Counted(x), Counted(meta)]
    case Request(op, object_, fileType, fileSize, about) =>
      [Int(op, 1), Flagged(object_), Counted(fileType), Int(fileSize, 8), Counted(about)]
    case Response(status, message, object_, fileType, fileSize, integrity, version, ed, x, sig, prev) =>
      [Int(status, 1), Counted(message), Flagged(object_), Counted(fileType), Int(fileSize, 8), Counted(integrity),
       Int(version, 4), Counted(ed), Counted(x), Counted(sig), Int(prev, 4)]
    case Control(ctype, body) => [Int(ctype, 1), Counted(body)]
    case Entry(identity, version, status, ed, x, createdAt, deadline, activation, expiration) =>
      [Flagged(Some(identity)), Int(version, 4), Int(status, 1), Counted(ed), Counted(x), Signed(createdAt),
       Signed(deadline), Signed(activation), Signed(expiration)]
    case Enrollment(kind, token, version, ed, x) =>
      [Int(kind, 1), Counted(token), Int(version, 4), Counted(ed), Counted(x)]
    case Encrypted(version, ephemeral, nonce, ciphertext) =>
      [Int(version, 4), Counted(ephemeral), Counted(nonce), Counted(ciphertext)]
    case Chunk(version, object_, index, ephemeral, ciphertext) =>
      [Int(version, 4), Flagged(Some(object_)), Int(index, 8), Counted(ephemeral), Counted(ciphertext)]
    case KeyInfo(version, ed, x, prev, sig) => [Int(version, 4), Counted(ed), Counted(x), Int(prev, 4), Counted(sig)]
    case EnrollResponse(status, message, info) => [Int(status, 1), Counted(message), Counted(info)]
  }

  ghost predicate Agree(m: Message) {
    var fs, parts := FieldsOf(m), Layout(m);
    |parts| == |fs| && forall i :: 0 <= i < |fs| ==> PartOf(fs[i]) == parts[i]
  }

  lemma {:induction false} AadParts(m: Message)
    requires m.Aad?
    ensures Agree(m)
  {
    var fs, parts := FieldsOf(m), Layout(m);
    assert |fs| == |parts| == 8;
    assert PartOf(fs[0]) == parts[0];
    assert PartOf(fs[1]) == parts[1];
    assert PartOf(fs[2]) == parts[2];
    assert PartOf(fs[3]) == parts[3];
    assert PartOf(fs[4]) == parts[4];
    assert PartOf(fs[5]) == parts[5];
    assert PartOf(fs[6]) == parts[6];
    assert PartOf(fs[7]) == parts[7];
  }

  lemma {:induction false} TransitionParts(m: Message)
    requires m.Transition?
    ensures Agree(m)
  {
    var fs, parts := FieldsOf(m), Layout(m);
    assert |fs| == |parts| == 7;
    assert PartOf(fs[0]) == parts[0];
    assert PartOf(fs[1]) == parts[1];
    assert PartOf(fs[2]) == parts[2];
    assert PartOf(fs[3]) == parts[3];
    assert PartOf(fs[4]) == parts[4];
    assert PartOf(fs[5]) == parts[5];
    assert PartOf(fs[6]) == parts[6];
  }

  lemma {:induction false} ResponseParts(m: Message)
    requires m.Response?
    ensures Agree(m)
  {
    var fs, parts := FieldsOf(m), Layout(m);
    assert |fs| == |parts| == 11;
    assert PartOf(fs[0]) == parts[0];
    assert PartOf(fs[1]) == parts[1];
    assert PartOf(fs[2]) == parts[2];
    assert PartOf(fs[3]) == parts[3];
    assert PartOf(fs[4]) == parts[4];
    assert PartOf(fs[5]) == parts[5];
    assert PartOf(fs[6]) == parts[6];
    assert PartOf(fs[7]) == parts[7];
    assert PartOf(fs[8]) == parts[8];
    assert PartOf(fs[9]) == parts[9];
    assert PartOf(fs[10]) == parts[10];
  }

  lemma {:induction false} EntryParts(m: Message)
    requires m.Entry?
    ensures Agree(m)
  {
    var fs, parts := FieldsOf(m), Layout(m);
    assert |fs| == |parts| == 9;
    assert PartOf(fs[0]) == parts[0];
    assert PartOf(fs[1]) == parts[1];
    assert PartOf(fs[2]) == parts[2];
    assert PartOf(fs[3]) == parts[3];
    assert PartOf(fs[4]) == parts[4];
    assert PartOf(fs[5]) == parts[5];
    assert PartOf(fs[6]) == parts[6];
    assert PartOf(fs[7]) == parts[7];
    assert PartOf(fs[8]) == parts[8];
  }

  lemma {:induction false} ShortParts(m: Message)
    requires !m.Aad? && !m.Transition? && !m.Response? && !m.Entry?
    ensures Agree(m)
  {
    var fs, parts := FieldsOf(m), Layout(m);
    assert |fs| == |parts| <= 5;
    assert PartOf(fs[0]) == parts[0] && PartOf(fs[1]) == parts[1];
    assert |fs| > 2 ==> PartOf(fs[2]) == parts[2];
    assert |fs| > 3 ==> PartOf(fs[3]) == parts[3];
    assert |fs| > 4 ==> PartOf(fs[4]) == parts[4];
  }

  lemma {:induction false} AllAgree(m: Message)
    ensures Agree(m)
  {
    match m
    case Aad(_, _, _, _, _, _, _) => AadParts(m);
    case Transition(_, _, _, _, _, _) => TransitionParts(m);
    case Response(_, _, _, _, _, _, _, _, _, _, _) => ResponseParts(m);
    case Entry(_, _, _, _, _, _, _, _, _) => EntryParts(m);
    case _ => ShortParts(m);
  }

  /** Every message is its parts, in this order and with these widths; PartAt says where each begins. */
  lemma {:induction false} MessageLayout(m: Message)
    requires EncodeMessage(m).Ok?
    ensures EncodeMessage(m).value == Joined(Rendered(Layout(m)))
  {
    AllAgree(m);
    ConcatParts(FieldsOf(m), Layout(m));
  }

  // ------------------------------------------------------------------
  // envelopes, snapshots, frames
  // ------------------------------------------------------------------

  function HeaderLayout(e: Envelope): seq<Part> {
    [Int(e.version, 1), Int(e.msgType, 1), Plain(e.sender), Plain(e.recipient), Plain(e.requestId),
     Int(e.credentialVersion, 4), Signed(e.timestamp), Plain(Pad12(e.nonce)), Int(|e.payload|, 4)]
  }

  /** What is signed is the header's parts and the payload; the signature follows. */
  lemma {:induction false} SignedLayout(e: Envelope)
    requires SignedBytes(e).Ok?
    ensures SignedBytes(e).value == Joined(Rendered(HeaderLayout(e))) + e.payload
    ensures EncodeEnvelope(e).value == Joined(Rendered(HeaderLayout(e))) + e.payload + e.signature
  {
    ConcatParts(HeaderFields(e), HeaderLayout(e));
  }

  /** A short nonce is padded with zeros, a long one cut. */
  lemma {:induction false} NoncePart(b: bytes, i: nat)
    requires i < 12
    ensures |Pad12(b)| == 12 && Pad12(b)[i] == if i < |b| then b[i] else 0
  {
  }

  /** A snapshot is the number of its entries on four bytes, and every entry with its length in front. */
  lemma {:induction false} SnapshotLayout(es: seq<Message>, bs: seq<bytes>)
    requires Snapshots.EncodeSnapshot(es).Ok?
    requires |bs| == |es| && forall i :: 0 <= i < |es| ==> EncodeMessage(es[i]) == Ok(bs[i])
    ensures Snapshots.EncodeSnapshot(es).value == Joined(Rendered([Int(|es|, 4)] + AllCounted(bs)))
  {
    var fs := [Field.U32(|es|)] + Snapshots.EntryBlobs(es).value;
    BlobParts(es, bs);
    ConcatParts(fs, [Int(|es|, 4)] + AllCounted(bs));
  }

  function AllCounted(bs: seq<bytes>): (parts: seq<Part>)
    ensures |parts| == |bs| && forall i :: 0 <= i < |bs| ==> parts[i] == Counted(bs[i])
  {
    if bs == [] then [] else [Counted(bs[0])] + AllCounted(bs[1..])
  }

  lemma {:induction false} BlobParts(es: seq<Message>, bs: seq<bytes>)
    requires Snapshots.EntryBlobs(es).Ok?
    requires |bs| == |es| && forall i :: 0 <= i < |es| ==> EncodeMessage(es[i]) == Ok(bs[i])
    ensures var blobs := Snapshots.EntryBlobs(es).value;
      |blobs| == |es| && forall i :: 0 <= i < |es| ==> PartOf(blobs[i]) == Counted(bs[i])
  {
    forall i | 0 <= i < |es|
      ensures |Snapshots.EntryBlobs(es).value| == |es| && PartOf(Snapshots.EntryBlobs(es).value[i]) == Counted(bs[i])
    {
      Snapshots.BlobAt(es, i);
    }
    if es != [] {
      Snapshots.BlobAt(es, 0);
    }
  }

  /** Why bytes do not begin with a frame: no whole header, a length over the limit, or less than that
      length behind it. */
  lemma {:induction false} FrameRefusal(s: bytes)
    ensures var size := if |s| >= 5 then FromBigEndian(s[1..5]) else 0;
      Decides(Unless(|s| >= 5, Framing.CLOSED_BY_PEER,
              Unless(size <= 64 * 1024 * 1024, Framing.FRAME_TOO_LARGE,
              Unless(|s| >= 5 + size, Framing.CLOSED_BY_PEER, None))), Framing.ParseFrame(s))
  {
  }

  /** How reading a field fails: its bytes are not all there, or they are and are not UTF-8. */
  lemma {:induction false} ReadRefusal(k: Kind, data: bytes)
    ensures var size := match k
                        case KU8 => 1
                        case KU16 => 2
                        case KU32 => 4
                        case KU64 => 8
                        case KI64 => 8
                        case KBlob => 4 + (if |data| >= 4 then FromBigEndian(data[..4]) else 0)
                        case KText => 4 + (if |data| >= 4 then FromBigEndian(data[..4]) else 0)
                        case KId => 17
                        case KRaw(n) => n;
      Decides(Unless(|data| >= size, TRUNCATED,
              Unless(k == KText && |data| >= size >= 4 ==> Utf8(data[4..size]), NOT_UTF8, None)), ReadField(k, data))
  {
    if (k == KBlob || k == KText) && |data| >= 4 {
      var n := FromBigEndian(data[..4]);
      if |data| >= 4 + n {
        assert data[4..][..n] == data[4..4 + n];
      }
    }
  }

  /** A frame is its channel in one byte, the payload's length in four, and the payload. */
  lemma {:induction false} FrameLayout(f: Framing.Frame)
    requires Framing.Fits(f)
    ensures Framing.Bytes(f) == Joined([[f.channel as byte], Render(Int(|f.payload|, 4)), f.payload])
  {
    var size := Render(Int(|f.payload|, 4));
    assert BigEndian(f.channel, 1) == [f.channel as byte];
    assert [f.payload][1..] == [] && [size, f.payload][1..] == [f.payload];
    assert Joined([f.payload]) == f.payload + [];
    assert Joined([size, f.payload]) == size + f.payload;
    assert [[f.channel as byte], size, f.payload][1..] == [size, f.payload];
  }
}
