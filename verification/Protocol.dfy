/** The messages of the protocol, each a list of fields; text is its UTF-8 bytes. */
module Protocol {
  import opened Basics
  import opened Codec
  import opened Envelopes
  import opened RotationEngine

  datatype Message =
    | Aad(sender: Uuid, recipient: Uuid, requestId: Uuid, credentialVersion: int, timestamp: int,
          nonce: bytes, chunkIndex: int)
    | Transition(identity: Uuid, old_: int, new_: int, ed25519: bytes, x25519: bytes, metadata: bytes)
    | Request(op: int, object_: Option<Uuid>, fileType: bytes, fileSize: int, about: bytes)
    | Response(status: int, message: bytes, object_: Option<Uuid>, fileType: bytes, fileSize: int,
               integrity: bytes, keyVersion: int, ed25519: bytes, x25519: bytes, signature: bytes,
               prevVersion: int)
    | Control(ctype: int, body: bytes)
    | Entry(identity: Uuid, version: int, status: int, ed25519: bytes, x25519: bytes, createdAt: int,
            deadline: int, activation: int, expiration: int)
    | Enrollment(kind: int, token: bytes, version: int, ed25519: bytes, x25519: bytes)
    | Encrypted(recipientVersion: int, ephemeral: bytes, nonce: bytes, ciphertext: bytes)
    | Chunk(recipientVersion: int, chunkOf: Uuid, chunkIndex: int, ephemeral: bytes, ciphertext: bytes)
    | KeyInfo(version: int, ed25519: bytes, x25519: bytes, prevVersion: int, signature: bytes)
    | EnrollResponse(status: int, message: bytes, keyInfo: bytes)

  /** Which kind of message a byte string is read as. */
  datatype Form =
    | AAD | TRANSITION | REQUEST | RESPONSE | CONTROL | ENTRY | ENROLLMENT | ENCRYPTED | CHUNK | KEY_INFO
    | ENROLL_RESPONSE

  datatype ParseError = TRUNCATED_INPUT | TRAILING_DATA | BAD_TAG | BAD_TEXT

  const AAD_TAG: bytes := [83, 73, 72, 45, 65, 65, 68, 45, 49]

  function FormOf(m: Message): Form {
    match m
    case Aad(_, _, _, _, _, _, _) => AAD
    case Transition(_, _, _, _, _, _) => TRANSITION
    case Request(_, _, _, _, _) => REQUEST
    case Response(_, _, _, _, _, _, _, _, _, _, _) => RESPONSE
    case Control(_, _) => CONTROL
    case Entry(_, _, _, _, _, _, _, _, _) => ENTRY
    case Enrollment(_, _, _, _, _) => ENROLLMENT
    case Encrypted(_, _, _, _) => ENCRYPTED
    case Chunk(_, _, _, _, _) => CHUNK
    case KeyInfo(_, _, _, _, _) => KEY_INFO
    case EnrollResponse(_, _, _) => ENROLL_RESPONSE
  }

  function KindsOf(form: Form): seq<Kind> {
    match form
    case AAD => [KBlob, KId, KId, KId, KU32, KI64, KBlob, KU64]
    case TRANSITION => [KBlob, KId, KU32, KU32, KBlob, KBlob, KBlob]
    case REQUEST => [KU8, KId, KText, KU64, KText]
    case RESPONSE => [KU8, KText, KId, KText, KU64, KText, KU32, KBlob, KBlob, KBlob, KU32]
    case CONTROL => [KU8, KBlob]
    case ENTRY => [KId, KU32, KU8, KBlob, KBlob, KI64, KI64, KI64, KI64]
    case ENROLLMENT => [KU8, KText, KU32, KBlob, KBlob]
    case ENCRYPTED => [KU32, KBlob, KBlob, KBlob]
    case CHUNK => [KU32, KId, KU64, KBlob, KBlob]
    case KEY_INFO => [KU32, KBlob, KBlob, KU32, KBlob]
    case ENROLL_RESPONSE => [KU8, KText, KBlob]
  }

  function AadFields(sender: Uuid, recipient: Uuid, requestId: Uuid, version: int, timestamp: int, nonce: bytes,
                     index: int): (fs: seq<Field>)
    ensures Kinds(fs) == KindsOf(AAD)
  {
    [Field.Blob(AAD_TAG), Field.Id(Some(sender)), Field.Id(Some(recipient)), Field.Id(Some(requestId)),
     Field.U32(version), Field.I64(timestamp), Field.Blob(nonce), Field.U64(index)]
  }

  function ResponseFields(m: Message): (fs: seq<Field>)
    requires m.Response?
    ensures Kinds(fs) == KindsOf(RESPONSE)
  {
    [Field.U8(m.status), Field.Text(m.message), Field.Id(m.object_), Field.Text(m.fileType), Field.U64(m.fileSize),
     Field.Text(m.integrity), Field.U32(m.keyVersion), Field.Blob(m.ed25519), Field.Blob(m.x25519),
     Field.Blob(m.signature), Field.U32(m.prevVersion)]
  }

  function FieldsOf(m: Message): (fs: seq<Field>)
    ensures Kinds(fs) == KindsOf(FormOf(m))
  {
    match m
    case Aad(s, r, q, v, t, n, i) =>
      AadFields(s, r, q, v, t, n, i)
    case Transition(id, o, n, ed, x, meta) => SuccessorFields(id, o, n, ed, x, meta)
    case Request(op, id, ft, fs, meta) =>
      [Field.U8(op), Field.Id(id), Field.Text(ft), Field.U64(fs), Field.Text(meta)]
    case Response(_, _, _, _, _, _, _, _, _, _, _) => ResponseFields(m)
    case Control(c, b) => [Field.U8(c), Field.Blob(b)]
    case Entry(id, v, st, ed, x, c, d, a, e) =>
      [Field.Id(Some(id)), Field.U32(v), Field.U8(st), Field.Blob(ed), Field.Blob(x), Field.I64(c), Field.I64(d),
       Field.I64(a), Field.I64(e)]
    case Enrollment(k, t, v, ed, x) => [Field.U8(k), Field.Text(t), Field.U32(v), Field.Blob(ed), Field.Blob(x)]
    case Encrypted(v, eph, n, ct) => [Field.U32(v), Field.Blob(eph), Field.Blob(n), Field.Blob(ct)]
    case Chunk(v, id, i, eph, ct) =>
      [Field.U32(v), Field.Id(Some(id)), Field.U64(i), Field.Blob(eph), Field.Blob(ct)]
    case KeyInfo(v, ed, x, pv, sig) => [Field.U32(v), Field.Blob(ed), Field.Blob(x), Field.U32(pv), Field.Blob(sig)]
    case EnrollResponse(st, msg, k) => [Field.U8(st), Field.Text(msg), Field.Blob(k)]
  }

  function EncodeMessage(m: Message): Result<bytes, CodecError> {
    Encode(FieldsOf(m))
  }

  /** An absent identifier read where one is required becomes the zero one. */
  function OrZero(id: Option<Uuid>): Uuid {
    if id.Some? then id.value else ZERO16
  }

  lemma {:induction false} KindsAt(fs: seq<Field>, ks: seq<Kind>)
    requires Kinds(fs) == ks
    ensures |fs| == |ks| && forall i :: 0 <= i < |fs| ==> fs[i].KindOf() == ks[i]
  {
  }

  function AadOf(fs: seq<Field>): (m: Message)
    requires Kinds(fs) == KindsOf(AAD)
    ensures FormOf(m) == AAD
  {
    KindsAt(fs, KindsOf(AAD));
    Aad(OrZero(fs[1].id), OrZero(fs[2].id), OrZero(fs[3].id), fs[4].n, fs[5].n, fs[6].b, fs[7].n)
  }

  function ResponseOf(fs: seq<Field>): (m: Message)
    requires Kinds(fs) == KindsOf(RESPONSE)
    ensures FormOf(m) == RESPONSE
  {
    KindsAt(fs, KindsOf(RESPONSE));
    Response(fs[0].n, fs[1].b, fs[2].id, fs[3].b, fs[4].n, fs[5].b, fs[6].n, fs[7].b, fs[8].b, fs[9].b, fs[10].n)
  }

  function EntryOf(fs: seq<Field>): (m: Message)
    requires Kinds(fs) == KindsOf(ENTRY)
    ensures FormOf(m) == ENTRY
  {
    KindsAt(fs, KindsOf(ENTRY));
    Entry(OrZero(fs[0].id), fs[1].n, fs[2].n, fs[3].b, fs[4].b, fs[5].n, fs[6].n, fs[7].n, fs[8].n)
  }

  function MessageOf(form: Form, fs: seq<Field>): (m: Message)
    requires Kinds(fs) == KindsOf(form)
    ensures FormOf(m) == form
  {
    KindsAt(fs, KindsOf(form));
    match form
    case AAD => AadOf(fs)
    case TRANSITION => Transition(OrZero(fs[1].id), fs[2].n, fs[3].n, fs[4].b, fs[5].b, fs[6].b)
    case REQUEST => Request(fs[0].n, fs[1].id, fs[2].b, fs[3].n, fs[4].b)
    case RESPONSE => ResponseOf(fs)
    case CONTROL => Control(fs[0].n, fs[1].b)
    case ENTRY => EntryOf(fs)
    case ENROLLMENT => Enrollment(fs[0].n, fs[1].b, fs[2].n, fs[3].b, fs[4].b)
    case ENCRYPTED => Encrypted(fs[0].n, fs[1].b, fs[2].b, fs[3].b)
    case CHUNK => Chunk(fs[0].n, OrZero(fs[1].id), fs[2].n, fs[3].b, fs[4].b)
    case KEY_INFO => KeyInfo(fs[0].n, fs[1].b, fs[2].b, fs[3].n, fs[4].b)
    case ENROLL_RESPONSE => EnrollResponse(fs[0].n, fs[1].b, fs[2].b)
  }

  lemma {:induction false} MessageBack(m: Message)
    ensures MessageOf(FormOf(m), FieldsOf(m)) == m
  {
  }

  /** Only the two encrypted wrappers refuse bytes after the last field. */
  predicate Strict(form: Form) {
    form == ENCRYPTED || form == CHUNK
  }

  /** What a failed read means to the caller. */
  function ReadError(e: CodecError): ParseError {
    if e == NOT_UTF8 then BAD_TEXT else TRUNCATED_INPUT
  }

  /** What parsing a byte string as a kind of message gives. */
  function ParseMessage(form: Form, data: bytes): Result<Message, ParseError> {
    if form == TRANSITION && ReadField(KBlob, data).Ok? && ReadField(KBlob, data).value.0.b != SUCCESSOR_TAG
    then Raised(BAD_TAG)
    else
      match Decode(KindsOf(form), data)
      case Raised(e) => Raised(ReadError(e))
      case Ok((fs, rest)) =>
        if Strict(form) && rest != [] then Raised(TRAILING_DATA) else Ok(MessageOf(form, fs))
  }

  /** Prefix-free, for every kind of message: parsing an encoding followed by anything gives the
      message back, or for the two strict kinds refuses what follows. */
  lemma {:induction false} MessageRoundTrip(m: Message, rest: bytes)
    requires EncodeMessage(m).Ok?
    ensures Decode(KindsOf(FormOf(m)), EncodeMessage(m).value + rest) == Ok((FieldsOf(m), rest))
    ensures ParseMessage(FormOf(m), EncodeMessage(m).value + rest) ==
      if Strict(FormOf(m)) && rest != [] then Raised(TRAILING_DATA) else Ok(m)
  {
    PrefixFree(FieldsOf(m), rest);
    MessageBack(m);
  }

  /** Injective, for every kind of message: equal encodings, even as prefixes, mean equal messages,
      so AAD and successor payloads bind every one of their fields. */
  lemma {:induction false} MessageInjective(m: Message, n: Message, r: bytes, t: bytes)
    requires EncodeMessage(m).Ok? && EncodeMessage(n).Ok? && FormOf(m) == FormOf(n)
    requires EncodeMessage(m).value + r == EncodeMessage(n).value + t
    ensures m == n && r == t
  {
    EncodingInjective(FieldsOf(m), FieldsOf(n), r, t);
    MessageBack(m);
    MessageBack(n);
  }

  /** Why a byte string is not a message of a kind: a successor payload under another tag, a field that
      runs past the end, text that is not UTF-8, or bytes left behind one of the two encrypted wrappers. */
  lemma {:induction false} ParseRefusal(form: Form, data: bytes)
    ensures var r := ParseMessage(form, data);
      && (r == Raised(BAD_TAG) <==>
            && form == TRANSITION && ReadField(KBlob, data).Ok?
            && ReadField(KBlob, data).value.0 != Field.Blob(SUCCESSOR_TAG))
      && (r != Raised(BAD_TAG) ==>
            && (r == Raised(BAD_TEXT) <==> Decode(KindsOf(form), data) == Raised(NOT_UTF8))
            && (r == Raised(TRUNCATED_INPUT) <==> Decode(KindsOf(form), data) == Raised(TRUNCATED))
            && (r == Raised(TRAILING_DATA) <==>
                  (form == ENCRYPTED || form == CHUNK)
                  && Decode(KindsOf(form), data).Ok? && Decode(KindsOf(form), data).value.1 != []))
  {
    DecodeError(KindsOf(form), data);
  }

  lemma {:induction false} DecodeError(ks: seq<Kind>, data: bytes)
    ensures Decode(ks, data).Raised? ==> Decode(ks, data).error in {TRUNCATED, NOT_UTF8}
  {
    if ks != [] && ReadField(ks[0], data).Ok? {
      DecodeError(ks[1..], ReadField(ks[0], data).value.1);
    }
  }

  lemma {:induction false} FirstField(ks: seq<Kind>, data: bytes, n: nat)
    requires 0 < n <= |ks| && Decode(ks[..n], data).Ok?
    ensures ReadField(ks[0], data).Ok? && Decode(ks[..n], data).value.0[0] == ReadField(ks[0], data).value.0
    ensures Decode(ks, data).Ok? ==> Decode(ks, data).value.0[0] == ReadField(ks[0], data).value.0
  {
  }

  /** Forms in which an identifier has to be there; elsewhere it may be absent. */
  predicate NeedsIds(form: Form) {
    form == ENTRY || form == CHUNK || form == TRANSITION
  }

  /** A field as the encoder writes back what was parsed from it. */
  function Filled(form: Form, f: Field): Field {
    if NeedsIds(form) && f == Field.Id(None) then Field.Id(Some(ZERO16)) else f
  }

  ghost predicate FillsBack(form: Form, fs: seq<Field>)
    requires Kinds(fs) == KindsOf(form)
  {
    var gs := FieldsOf(MessageOf(form, fs));
    |gs| == |fs| && forall i :: 0 <= i < |fs| ==> gs[i] == Filled(form, fs[i])
  }

  lemma {:induction false} ResponseBack(fs: seq<Field>)
    requires Kinds(fs) == KindsOf(RESPONSE)
    ensures FillsBack(RESPONSE, fs)
  {
    KindsAt(fs, KindsOf(RESPONSE));
    var gs := FieldsOf(MessageOf(RESPONSE, fs));
    assert |gs| == |fs| == 11;
    assert gs[0] == Filled(RESPONSE, fs[0]);
    assert gs[1] == Filled(RESPONSE, fs[1]);
    assert gs[2] == Filled(RESPONSE, fs[2]);
    assert gs[3] == Filled(RESPONSE, fs[3]);
    assert gs[4] == Filled(RESPONSE, fs[4]);
    assert gs[5] == Filled(RESPONSE, fs[5]);
    assert gs[6] == Filled(RESPONSE, fs[6]);
    assert gs[7] == Filled(RESPONSE, fs[7]);
    assert gs[8] == Filled(RESPONSE, fs[8]);
    assert gs[9] == Filled(RESPONSE, fs[9]);
    assert gs[10] == Filled(RESPONSE, fs[10]);
  }

  lemma {:induction false} EntryBack(fs: seq<Field>)
    requires Kinds(fs) == KindsOf(ENTRY)
    ensures FillsBack(ENTRY, fs)
  {
    KindsAt(fs, KindsOf(ENTRY));
    var gs := FieldsOf(MessageOf(ENTRY, fs));
    assert MessageOf(ENTRY, fs) == EntryOf(fs);
    assert |gs| == |fs| == 9;
    assert gs[0] == Filled(ENTRY, fs[0]);
    assert gs[1] == Filled(ENTRY, fs[1]);
    assert gs[2] == Filled(ENTRY, fs[2]);
    assert gs[3] == Filled(ENTRY, fs[3]);
    assert gs[4] == Filled(ENTRY, fs[4]);
    assert gs[5] == Filled(ENTRY, fs[5]);
    assert gs[6] == Filled(ENTRY, fs[6]);
    assert gs[7] == Filled(ENTRY, fs[7]);
    assert gs[8] == Filled(ENTRY, fs[8]);
  }

  lemma {:induction false} TransitionBack(fs: seq<Field>)
    requires Kinds(fs) == KindsOf(TRANSITION) && fs[0].b == SUCCESSOR_TAG
    ensures FillsBack(TRANSITION, fs)
  {
    KindsAt(fs, KindsOf(TRANSITION));
    var gs := FieldsOf(MessageOf(TRANSITION, fs));
    assert |gs| == |fs| == 7;
    assert gs[0] == Filled(TRANSITION, fs[0]);
    assert gs[1] == Filled(TRANSITION, fs[1]);
    assert gs[2] == Filled(TRANSITION, fs[2]);
    assert gs[3] == Filled(TRANSITION, fs[3]);
    assert gs[4] == Filled(TRANSITION, fs[4]);
    assert gs[5] == Filled(TRANSITION, fs[5]);
    assert gs[6] == Filled(TRANSITION, fs[6]);
  }

  lemma {:induction false} RequestAndChunkBack(form: Form, fs: seq<Field>)
    requires (form == REQUEST || form == CHUNK) && Kinds(fs) == KindsOf(form)
    ensures FillsBack(form, fs)
  {
    KindsAt(fs, KindsOf(form));
    var gs := FieldsOf(MessageOf(form, fs));
    assert |gs| == |fs| == 5;
    assert gs[0] == fs[0] && gs[1] == Filled(form, fs[1]) && gs[2] == fs[2] && gs[3] == fs[3] && gs[4] == fs[4];
  }

  lemma {:induction false} ShortFormsBack(form: Form, fs: seq<Field>)
    requires form in {CONTROL, ENROLLMENT, ENCRYPTED, KEY_INFO, ENROLL_RESPONSE} && Kinds(fs) == KindsOf(form)
    ensures FillsBack(form, fs)
  {
    KindsAt(fs, KindsOf(form));
    var gs := FieldsOf(MessageOf(form, fs));
    match form
    case CONTROL => assert |gs| == 2 && gs[0] == fs[0] && gs[1] == fs[1];
    case ENROLL_RESPONSE => assert |gs| == 3 && gs[0] == fs[0] && gs[1] == fs[1] && gs[2] == fs[2];
    case ENCRYPTED => assert |gs| == 4 && gs[0] == fs[0] && gs[1] == fs[1] && gs[2] == fs[2] && gs[3] == fs[3];
    case ENROLLMENT =>
      assert |gs| == 5 && gs[0] == fs[0] && gs[1] == fs[1] && gs[2] == fs[2] && gs[3] == fs[3] && gs[4] == fs[4];
    case KEY_INFO =>
      assert |gs| == 5 && gs[0] == fs[0] && gs[1] == fs[1] && gs[2] == fs[2] && gs[3] == fs[3] && gs[4] == fs[4];
    case _ => assert false;
  }

  lemma {:induction false} FieldsBack(form: Form, fs: seq<Field>)
    requires Kinds(fs) == KindsOf(form) && form != AAD && (form == TRANSITION ==> fs[0].b == SUCCESSOR_TAG)
    ensures FillsBack(form, fs)
  {
    match form
    case RESPONSE => ResponseBack(fs);
    case ENTRY => EntryBack(fs);
    case TRANSITION => TransitionBack(fs);
    case REQUEST => RequestAndChunkBack(form, fs);
    case CHUNK => RequestAndChunkBack(form, fs);
    case _ => ShortFormsBack(form, fs);
  }

  /** Of all fields of these kinds, only the decoded ones encode to data, and only if data spells
      its identifiers the encoder's way. */
  lemma {:induction false} Reencodes(ks: seq<Kind>, data: bytes, fs: seq<Field>, gs: seq<Field>)
    requires Decode(ks, data) == Ok((fs, [])) && Kinds(gs) == ks
    ensures Encode(gs) == Ok(data) <==> TidyAll(ks, data) && gs == fs
  {
    Canonical(ks, data);
    assert Concat(fs) + [] == Concat(fs);
    if Encode(gs) == Ok(data) {
      PrefixFree(gs, []);
      assert Concat(gs) + [] == Concat(gs);
    }
  }

  lemma {:induction false} FilledSame(form: Form, fs: seq<Field>, gs: seq<Field>)
    requires |gs| == |fs| && forall i :: 0 <= i < |fs| ==> gs[i] == Filled(form, fs[i])
    ensures gs == fs <==> !(NeedsIds(form) && Field.Id(None) in fs)
  {
  }

  /** Canonical: an accepted byte string with nothing left over is the encoding of the message it
      parses to, exactly when its identifiers are spelled the encoder's way and none that the form
      requires is absent. */
  lemma {:induction false} MessageCanonical(form: Form, data: bytes)
    requires form != AAD && ParseMessage(form, data).Ok? && Decode(KindsOf(form), data).value.1 == []
    ensures EncodeMessage(ParseMessage(form, data).value) == Ok(data) <==>
      TidyAll(KindsOf(form), data) && !(NeedsIds(form) && Field.Id(None) in Decode(KindsOf(form), data).value.0)
  {
    var ks := KindsOf(form);
    var fs := Decode(ks, data).value.0;
    if form == TRANSITION {
      assert ks[..|ks|] == ks;
      FirstField(ks, data, |ks|);
    }
    FieldsBack(form, fs);
    var gs := FieldsOf(MessageOf(form, fs));
    FilledSame(form, fs, gs);
    Reencodes(ks, data, fs, gs);
  }

  // ------------------------------------------------------------------
  // what is signed in one role is never valid in another
  // ------------------------------------------------------------------

  lemma {:induction false} TaggedStart(tag: bytes, fs: seq<Field>, rest: bytes)
    requires AllInRange(fs) && fs != [] && fs[0] == Field.Blob(tag) && |tag| < 256
    ensures |Concat(fs) + rest| >= 4
    ensures (Concat(fs) + rest)[0] == 0 && (Concat(fs) + rest)[3] as int == |tag|
  {
    var n := |tag|;
    assert BigEndian(n / 256 / 256 / 256, 1) == [0];
    assert BigEndian(n / 256 / 256, 2) == [0, 0];
    assert BigEndian(n / 256, 3) == [0, 0, 0];
    assert BigEndian(n, 4) == [0, 0, 0] + [n as byte];
    assert FieldBytes(fs[0]) == BigEndian(n, 4) + tag;
  }

  lemma {:induction false} VersionStart(e: Envelope, rest: bytes)
    requires e.version == VERSION && SignedBytes(e).Ok?
    ensures |SignedBytes(e).value + rest| > 0 && (SignedBytes(e).value + rest)[0] == 1
  {
  }

  /** The bytes an envelope's signature covers, a successor payload and the AAD of an encryption are
      never the same, nor a prefix of one another: no signature made in one role verifies in
      another. */
  lemma {:induction false} RolesDisjoint(e: Envelope, aad: Message, transition: Message, r: bytes, t: bytes)
    requires e.version == VERSION && SignedBytes(e).Ok?
    requires aad.Aad? && EncodeMessage(aad).Ok? && transition.Transition? && EncodeMessage(transition).Ok?
    ensures SignedBytes(e).value + r != EncodeMessage(aad).value + t
    ensures SignedBytes(e).value + r != EncodeMessage(transition).value + t
    ensures EncodeMessage(aad).value + r != EncodeMessage(transition).value + t
  {
    VersionStart(e, r);
    TaggedStart(AAD_TAG, FieldsOf(aad), r);
    TaggedStart(AAD_TAG, FieldsOf(aad), t);
    TaggedStart(SUCCESSOR_TAG, FieldsOf(transition), t);
  }

  // ------------------------------------------------------------------
  // the parser
  // ------------------------------------------------------------------

  /** Read fields one after the other; the first must hold the tag when one is given. */
  method ReadFields(dec: Decoder, ks: seq<Kind>, tag: Option<bytes>) returns (r: Result<seq<Field>, ParseError>)
    requires dec.Valid() && dec.asked == [] && dec.taken == []
    requires tag.Some? ==> ks != [] && ks[0] == KBlob
    modifies dec
    ensures r == TaggedDecode(ks, tag, dec.data)
    ensures r.Ok? ==> dec.Valid() && dec.asked == ks && dec.taken == r.value
  {
    var fs: seq<Field> := [];
    for i := 0 to |ks|
      invariant dec.Valid() && dec.asked == ks[..i] && dec.taken == fs
      invariant i > 0 ==> ReadField(ks[0], dec.data).Ok?
      invariant i > 0 && tag.Some? ==> ReadField(ks[0], dec.data).value.0.b == tag.value
    {
      assert ks[..i] + [ks[i]] == ks[..i + 1];
      var f := dec.Next(ks[i]);
      if f.Raised? {
        assert ks[..i + 1] <= ks;
        Unread(ks, dec.data, i);
        return Raised(ReadError(f.error));
      }
      fs := fs + [f.value];
      FirstField(ks, dec.data, i + 1);
      if tag.Some? && i == 0 && f.value.b != tag.value { return Raised(BAD_TAG); }
    }
    assert ks[..|ks|] == ks;
    r := Ok(fs);
  }

  /** What a field by field reading of ks gives, when the first has to hold the tag. */
  function TaggedDecode(ks: seq<Kind>, tag: Option<bytes>, data: bytes): Result<seq<Field>, ParseError>
    requires tag.Some? ==> ks != [] && ks[0] == KBlob
  {
    if tag.Some? && ReadField(KBlob, data).Ok? && ReadField(KBlob, data).value.0.b != tag.value then Raised(BAD_TAG)
    else
      match Decode(ks, data)
      case Raised(e) => Raised(ReadError(e))
      case Ok((fs, _)) => Ok(fs)
  }

  /** A reading that fails at its first field has found no field at all. */
  lemma {:induction false} Unread(ks: seq<Kind>, data: bytes, i: nat)
    requires i < |ks| && Decode(ks, data).Raised?
    requires i == 0 ==> Decode([ks[0]], data).Raised?
    ensures i == 0 ==> ReadField(ks[0], data).Raised?
  {
  }

  function TagOf(form: Form): Option<bytes> {
    if form == TRANSITION then Some(SUCCESSOR_TAG) else None
  }

  /** Read a message off the front of data, one field after the other. */
  method Parse(form: Form, data: bytes) returns (r: Result<Message, ParseError>)
    ensures r == ParseMessage(form, data)
  {
    var dec := new Decoder(data);
    assert form == TRANSITION ==> KindsOf(form)[0] == KBlob;
    var fs := ReadFields(dec, KindsOf(form), TagOf(form));
    if fs.Raised? { return Raised(fs.error); }
    if Strict(form) {
      var eof := dec.Eof();
      if !eof { return Raised(TRAILING_DATA); }
    }
    r := Ok(MessageOf(form, fs.value));
  }
}
