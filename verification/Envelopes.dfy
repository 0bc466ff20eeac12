/** The signed envelope: a fixed header, the payload it announces and a signature over both. */
module Envelopes {
  import opened Basics
  import opened Codec

  datatype Envelope = Envelope(
    version: int,
    msgType: int,
    sender: Uuid,
    recipient: Uuid,
    requestId: Uuid,
    credentialVersion: int,
    timestamp: int,
    nonce: bytes,
    payload: bytes,
    signature: bytes)

  datatype EnvelopeError = TOO_SHORT | BAD_VERSION | PAYLOAD_TRUNCATED | BAD_SIGNATURE_SIZE

  const VERSION := 1
  const HEADER_SIZE := 78
  const SIGNATURE_SIZE := 64
  const NONCE_SIZE := 12

  const HEADER_KINDS: seq<Kind> := [KU8, KU8, KRaw(16), KRaw(16), KRaw(16), KU32, KI64, KRaw(12), KU32]

  /** What the format 12s writes: longer strings are cut, shorter ones padded with zeros. */
  function Pad12(b: bytes): (r: bytes)
    ensures |r| == 12
    ensures r == b <==> |b| == 12
  {
    if |b| >= 12 then b[..12] else b + seq(12 - |b|, _ => 0 as byte)
  }

  function HeaderFields(e: Envelope): (fs: seq<Field>)
    ensures Kinds(fs) == HEADER_KINDS
  {
    [Field.U8(e.version), Field.U8(e.msgType), Field.Raw(e.sender), Field.Raw(e.recipient),
     Field.Raw(e.requestId), Field.U32(e.credentialVersion), Field.I64(e.timestamp),
     Field.Raw(Pad12(e.nonce)), Field.U32(|e.payload|)]
  }

  /** The bytes the signature covers. */
  function SignedBytes(e: Envelope): Result<bytes, CodecError> {
    var header :- Encode(HeaderFields(e));
    Ok(header + e.payload)
  }

  function EncodeEnvelope(e: Envelope): Result<bytes, CodecError> {
    var signed :- SignedBytes(e);
    Ok(signed + e.signature)
  }

  /** The envelope with a signature over its own bytes. */
  function Sign(e: Envelope, sign: bytes -> bytes): Result<Envelope, CodecError> {
    var signed :- SignedBytes(e);
    Ok(e.(signature := sign(signed)))
  }

  /** Python's slice: ends past the end are cut off. */
  function Slice(data: bytes, from: nat, to: int): bytes
    requires from <= |data|
  {
    if to <= from then [] else if to <= |data| then data[from..to] else data[from..]
  }

  // ------------------------------------------------------------------
  // fields of fixed size
  // ------------------------------------------------------------------

  function Size(k: Kind): Option<nat> {
    match k
    case KU8 => Some(1)
    case KU16 => Some(2)
    case KU32 => Some(4)
    case KU64 => Some(8)
    case KI64 => Some(8)
    case KBlob => None
    case KText => None
    case KId => Some(17)
    case KRaw(n) => Some(n)
  }

  predicate Fixed(ks: seq<Kind>) {
    ks == [] || (Size(ks[0]).Some? && ks[0] != KId && Fixed(ks[1..]))
  }

  function Total(ks: seq<Kind>): nat
    requires Fixed(ks)
  {
    if ks == [] then 0 else Size(ks[0]).value + Total(ks[1..])
  }

  lemma {:induction false} FieldSize(f: Field)
    requires f.InRange() && Size(f.KindOf()).Some?
    ensures |FieldBytes(f)| == Size(f.KindOf()).value
  {
  }

  lemma {:induction false} ConcatSize(fs: seq<Field>)
    requires AllInRange(fs) && Fixed(Kinds(fs))
    ensures |Concat(fs)| == Total(Kinds(fs))
  {
    if fs != [] {
      assert fs[0].KindOf() == Kinds(fs)[0];
      FieldSize(fs[0]);
      assert Kinds(fs[1..]) == Kinds(fs)[1..];
      ConcatSize(fs[1..]);
    }
  }

  /** Enough bytes are always readable as fields of fixed size, and in one way only. */
  lemma {:induction false} DecodeFixed(ks: seq<Kind>, data: bytes)
    requires Fixed(ks) && |data| >= Total(ks)
    ensures Decode(ks, data).Ok? && |Decode(ks, data).value.1| == |data| - Total(ks)
    ensures TidyAll(ks, data)
  {
    if ks != [] {
      DecodeFixed(ks[1..], ReadField(ks[0], data).value.1);
    }
  }

  lemma {:induction false} PrefixTotal()
    ensures Fixed([KU8, KU8, KRaw(16)]) && Total([KU8, KU8, KRaw(16)]) == 18
    ensures Fixed([KU8]) && Total([KU8]) == 1
  {
  }

  lemma {:induction false} HeaderTotal()
    ensures Fixed(HEADER_KINDS) && Total(HEADER_KINDS) == HEADER_SIZE
  {
  }

  // ------------------------------------------------------------------
  // parsing
  // ------------------------------------------------------------------

  lemma {:induction false} HeaderDecodes(data: bytes)
    requires |data| == HEADER_SIZE
    ensures Decode(HEADER_KINDS, data).Ok?
    ensures var (fs, rest) := Decode(HEADER_KINDS, data).value;
      rest == [] && |fs| == 9 && AllInRange(fs) && Concat(fs) == data
  {
    HeaderTotal();
    DecodeFixed(HEADER_KINDS, data);
    Canonical(HEADER_KINDS, data);
    var (fs, rest) := Decode(HEADER_KINDS, data).value;
    assert Concat(fs) + [] == Concat(fs);
    assert |fs| == |Kinds(fs)|;
  }

  /** The header's fields, as struct.unpack gives them. */
  function Header(data: bytes): (fs: seq<Field>)
    requires |data| >= HEADER_SIZE
    ensures Decode(HEADER_KINDS, data[..HEADER_SIZE]) == Ok((fs, []))
    ensures Kinds(fs) == HEADER_KINDS && |fs| == 9
    ensures AllInRange(fs) && Concat(fs) == data[..HEADER_SIZE]
  {
    HeaderDecodes(data[..HEADER_SIZE]);
    Decode(HEADER_KINDS, data[..HEADER_SIZE]).value.0
  }

  /** Envelopes that survive the wire: those the parser can return. */
  predicate Sendable(e: Envelope) {
    && e.version == VERSION && |e.nonce| == NONCE_SIZE && |e.signature| == SIGNATURE_SIZE
    && AllInRange(HeaderFields(e))
  }

  function FieldsToEnvelope(fs: seq<Field>, payload: bytes, signature: bytes): (e: Envelope)
    requires Kinds(fs) == HEADER_KINDS
    ensures |payload| == fs[8].n ==> HeaderFields(e) == fs
    ensures |e.nonce| == 12
  {
    assert forall i :: 0 <= i < 9 ==> fs[i].KindOf() == HEADER_KINDS[i];
    var e := Envelope(fs[0].n, fs[1].n, fs[2].b, fs[3].b, fs[4].b, fs[5].n, fs[6].n, fs[7].b, payload, signature);
    assert |payload| == fs[8].n ==> HeaderFields(e) == fs;
    e
  }

  function ParseEnvelope(data: bytes): (r: Result<Envelope, EnvelopeError>)
    ensures r.Ok? ==> Sendable(r.value)
  {
    if |data| < HEADER_SIZE + SIGNATURE_SIZE then Raised(TOO_SHORT)
    else
      var fs := Header(data);
      assert forall i :: 0 <= i < 9 ==> fs[i].KindOf() == HEADER_KINDS[i];
      if fs[0].n != VERSION then Raised(BAD_VERSION)
      else
        var size := fs[8].n;
        assert fs[8].InRange();
        var payload := Slice(data, HEADER_SIZE, HEADER_SIZE + size);
        if |payload| != size then Raised(PAYLOAD_TRUNCATED)
        else
          var signature := Slice(data, HEADER_SIZE + size, |data|);
          if |signature| != SIGNATURE_SIZE then Raised(BAD_SIGNATURE_SIZE)
          else Ok(FieldsToEnvelope(fs, payload, signature))
  }

  /** Proxy routing: the recipient and the message type, without parsing the rest. */
  function RecipientOf(data: bytes): Result<Uuid, EnvelopeError> {
    if |data| < HEADER_SIZE then Raised(TOO_SHORT) else Ok(data[18..34])
  }

  function MsgTypeOf(data: bytes): Result<int, EnvelopeError> {
    if |data| < HEADER_SIZE then Raised(TOO_SHORT) else Ok(data[1] as int)
  }

  // ------------------------------------------------------------------
  // the bijection
  // ------------------------------------------------------------------

  lemma {:induction false} EncodedHeader(e: Envelope, tail: bytes)
    requires AllInRange(HeaderFields(e))
    ensures |Concat(HeaderFields(e))| == HEADER_SIZE
    ensures |tail| >= SIGNATURE_SIZE ==> Header(Concat(HeaderFields(e)) + tail) == HeaderFields(e)
  {
    HeaderTotal();
    var fs := HeaderFields(e);
    ConcatSize(fs);
    var data := Concat(fs) + tail;
    assert data[..HEADER_SIZE] == Concat(fs);
    PrefixFree(fs, []);
    assert Concat(fs) + [] == Concat(fs);
  }

  /** parse undoes encode for exactly the envelopes of version 1 with a nonce of 12 bytes and a
      signature of 64; every encodable envelope else comes back changed or not at all. */
  lemma {:induction false} ParseEncode(e: Envelope)
    requires EncodeEnvelope(e).Ok?
    ensures ParseEnvelope(EncodeEnvelope(e).value) == Ok(e) <==>
      e.version == VERSION && |e.nonce| == NONCE_SIZE && |e.signature| == SIGNATURE_SIZE
  {
    if e.version == VERSION && |e.nonce| == NONCE_SIZE && |e.signature| == SIGNATURE_SIZE {
      var fs := HeaderFields(e);
      var data := EncodeEnvelope(e).value;
      Assoc(Concat(fs), e.payload, e.signature);
      EncodedHeader(e, e.payload + e.signature);
      assert Slice(data, HEADER_SIZE, HEADER_SIZE + |e.payload|) == e.payload;
      assert Slice(data, HEADER_SIZE + |e.payload|, |data|) == e.signature;
    }
  }

  /** encode undoes parse on every accepted byte string, so no two byte strings parse alike. */
  lemma {:induction false} EncodeParse(data: bytes)
    requires ParseEnvelope(data).Ok?
    ensures EncodeEnvelope(ParseEnvelope(data).value) == Ok(data)
  {
    var e := ParseEnvelope(data).value;
    var fs := Header(data);
    assert HeaderFields(e) == fs;
    assert data == data[..HEADER_SIZE] + e.payload + e.signature;
  }

  lemma {:induction false} HeaderFieldsInjective(e: Envelope, f: Envelope)
    requires |e.nonce| == NONCE_SIZE && |f.nonce| == NONCE_SIZE
    requires HeaderFields(e) == HeaderFields(f) && e.payload == f.payload
    ensures f == e.(signature := f.signature)
  {
  }

  /** A signature binds every field: envelopes with nonces of 12 bytes that have the same signed bytes
      differ at most in the signature, and signing does not change the bytes that are signed. */
  lemma {:induction false} SignatureBinds(e: Envelope, f: Envelope, sign: bytes -> bytes)
    requires |e.nonce| == NONCE_SIZE && |f.nonce| == NONCE_SIZE
    requires SignedBytes(e).Ok? && SignedBytes(e) == SignedBytes(f)
    ensures f == e.(signature := f.signature)
    ensures Sign(e, sign) == Ok(e.(signature := sign(SignedBytes(e).value)))
    ensures SignedBytes(Sign(e, sign).value) == SignedBytes(e)
  {
    EncodingInjective(HeaderFields(e), HeaderFields(f), e.payload, f.payload);
    HeaderFieldsInjective(e, f);
    assert HeaderFields(Sign(e, sign).value) == HeaderFields(e);
  }

  lemma {:induction false} ConcatHead(fs: seq<Field>)
    requires AllInRange(fs) && fs != []
    ensures AllInRange(fs[1..]) && Concat(fs) == FieldBytes(fs[0]) + Concat(fs[1..])
  {
  }

  lemma {:induction false} AppendInRange(fs: seq<Field>, gs: seq<Field>)
    requires AllInRange(fs) && AllInRange(gs)
    ensures AllInRange(fs + gs)
  {
  }

  lemma {:induction false} ConcatAppend(fs: seq<Field>, gs: seq<Field>)
    requires AllInRange(fs) && AllInRange(gs)
    ensures AllInRange(fs + gs) && Concat(fs + gs) == Concat(fs) + Concat(gs)
  {
    AppendInRange(fs, gs);
    if fs == [] {
      assert fs + gs == gs;
      assert Concat(fs) + Concat(gs) == Concat(gs);
    } else {
      ConcatHead(fs);
      ConcatHead(fs + gs);
      assert (fs + gs)[1..] == fs[1..] + gs;
      ConcatAppend(fs[1..], gs);
      Assoc(FieldBytes(fs[0]), Concat(fs[1..]), Concat(gs));
    }
  }

  lemma {:induction false} Middle(a: bytes, b: bytes, c: bytes)
    ensures (a + (b + c))[|a|..|a| + |b|] == b
  {
  }

  /** Field i of fixed size sits at the sum of the sizes before it. */
  lemma {:induction false} FieldAt(fs: seq<Field>, i: nat)
    requires AllInRange(fs) && i < |fs| && Fixed(Kinds(fs[..i]))
    ensures var at := Total(Kinds(fs[..i])); var b := FieldBytes(fs[i]);
      at + |b| <= |Concat(fs)| && Concat(fs)[at..at + |b|] == b
  {
    var front, f, tail := fs[..i], fs[i], fs[i + 1..];
    assert fs == front + ([f] + tail);
    ConcatAppend(front, [f] + tail);
    ConcatCons(f, tail);
    ConcatSize(front);
    Middle(Concat(front), FieldBytes(f), Concat(tail));
  }

  /** Where the message type and the recipient sit in the header. */
  lemma {:induction false} HeaderSlices(fs: seq<Field>, header: bytes)
    requires AllInRange(fs) && Kinds(fs) == HEADER_KINDS && header == Concat(fs) && |header| == HEADER_SIZE
    ensures FieldBytes(fs[1]) == header[1..2]
    ensures FieldBytes(fs[3]) == header[18..34]
  {
    PrefixTotal();
    assert fs[1].KindOf() == HEADER_KINDS[1] && fs[3].KindOf() == HEADER_KINDS[3];
    assert Kinds(fs[..1]) == [KU8];
    FieldAt(fs, 1);
    FieldSize(fs[1]);
    assert Kinds(fs[..3]) == [KU8, KU8, KRaw(16)];
    FieldAt(fs, 3);
    FieldSize(fs[3]);
  }

  lemma {:induction false} PrefixTotal74()
    ensures Fixed([KU8, KU8, KRaw(16), KRaw(16), KRaw(16), KU32, KI64, KRaw(12)])
    ensures Total([KU8, KU8, KRaw(16), KRaw(16), KRaw(16), KU32, KI64, KRaw(12)]) == 74
  {
  }

  /** Where the version and the payload's size sit. */
  lemma {:induction false} EdgeSlices(fs: seq<Field>, header: bytes)
    requires AllInRange(fs) && Kinds(fs) == HEADER_KINDS && header == Concat(fs) && |header| == HEADER_SIZE
    ensures FieldBytes(fs[0]) == header[..1] && FieldBytes(fs[8]) == header[74..78]
  {
    assert fs[0].KindOf() == HEADER_KINDS[0] && fs[8].KindOf() == HEADER_KINDS[8];
    assert Kinds(fs[..0]) == [];
    FieldAt(fs, 0);
    FieldSize(fs[0]);
    PrefixTotal74();
    assert Kinds(fs[..8]) == [KU8, KU8, KRaw(16), KRaw(16), KRaw(16), KU32, KI64, KRaw(12)];
    FieldAt(fs, 8);
    FieldSize(fs[8]);
  }

  /** Why a byte string is no envelope: too short for header and signature, another version, or not as
      long as its header says. */
  lemma {:induction false} ParseRefusal(data: bytes)
    ensures var size := if |data| >= HEADER_SIZE then FromBigEndian(data[74..78]) else 0;
      Decides(Unless(|data| >= 142, TOO_SHORT,
              Unless(|data| >= 142 && data[0] == 1, BAD_VERSION,
              Unless(|data| >= 78 + size, PAYLOAD_TRUNCATED,
              Unless(|data| == 142 + size, BAD_SIGNATURE_SIZE, None)))), ParseEnvelope(data))
  {
    if |data| >= 142 {
      var fs := Header(data);
      EdgeSlices(fs, data[..HEADER_SIZE]);
      assert fs[0].KindOf() == HEADER_KINDS[0] && fs[8].KindOf() == HEADER_KINDS[8];
      assert data[..HEADER_SIZE][..1] == [data[0]] && data[..HEADER_SIZE][74..78] == data[74..78];
      ByteBack(fs[0].n, data[0]);
      Powers();
      BigEndianRoundTrip(fs[8].n, 4);
    }
  }

  lemma {:induction false} ByteBack(n: nat, b: byte)
    requires n < 256 && BigEndian(n, 1) == [b]
    ensures b as int == n
  {
    assert BigEndian(n, 1)[0] == (n % 256) as byte;
  }

  lemma {:induction false} HeaderBytes(fs: seq<Field>, data: bytes)
    requires |data| >= HEADER_SIZE && fs == Header(data)
    ensures fs[1].U8? && fs[3].Raw? && fs[1].n == data[1] as int && fs[3].b == data[18..34]
  {
    HeaderSlices(fs, data[..HEADER_SIZE]);
    assert fs[1].KindOf() == HEADER_KINDS[1] && fs[3].KindOf() == HEADER_KINDS[3];
    assert data[..HEADER_SIZE][1..2] == [data[1]];
    assert data[..HEADER_SIZE][18..34] == data[18..34];
    ByteBack(fs[1].n, data[1]);
  }

  /** The routing shortcuts agree with the full parse wherever that succeeds. */
  lemma {:induction false} ShortcutsAgree(data: bytes)
    requires ParseEnvelope(data).Ok?
    ensures RecipientOf(data) == Ok(ParseEnvelope(data).value.recipient)
    ensures MsgTypeOf(data) == Ok(ParseEnvelope(data).value.msgType)
  {
    HeaderBytes(Header(data), data);
  }
}
