/** Registry snapshots: a counted list of encoded entries of any length, written and read in a
    loop. */
module Snapshots {
  import opened Basics
  import opened Codec
  import opened Protocol

  predicate AllEntries(es: seq<Message>) {
    forall e :: e in es ==> e.Entry?
  }

  /** The fields of a snapshot: a count, then each encoded entry. */
  function EntryBlobs(es: seq<Message>): Result<seq<Field>, CodecError> {
    if es == [] then Ok([])
    else
      var b :- EncodeMessage(es[0]);
      var rest :- EntryBlobs(es[1..]);
      Ok([Field.Blob(b)] + rest)
  }

  function EncodeSnapshot(es: seq<Message>): Result<bytes, CodecError> {
    var blobs :- EntryBlobs(es);
    Encode([Field.U32(|es|)] + blobs)
  }

  /** Read n entries off the front of data. */
  function ParseEntries(n: nat, data: bytes): Result<(seq<Message>, bytes), ParseError>
    decreases n, data
  {
    if n == 0 then Ok(([], data))
    else
      match ReadField(KBlob, data)
      case Raised(_) => Raised(TRUNCATED_INPUT)
      case Ok((f, rest)) =>
        var e :- ParseMessage(ENTRY, f.b);
        var (es, rest') :- ParseEntries(n - 1, rest);
        Ok(([e] + es, rest'))
  }

  function ParseSnapshot(data: bytes): Result<seq<Message>, ParseError> {
    match ReadField(KU32, data)
    case Raised(_) => Raised(TRUNCATED_INPUT)
    case Ok((f, rest)) =>
      var (es, rest') :- ParseEntries(if f.n >= 0 then f.n else 0, rest);
      if rest' == [] then Ok(es) else Raised(TRAILING_DATA)
  }

  lemma {:induction false} BlobsCons(es: seq<Message>) returns (b: bytes, blobs: seq<Field>)
    requires es != [] && EntryBlobs(es).Ok?
    ensures EncodeMessage(es[0]) == Ok(b) && EntryBlobs(es[1..]) == Ok(blobs)
    ensures EntryBlobs(es).value == [Field.Blob(b)] + blobs
  {
    b, blobs := EncodeMessage(es[0]).value, EntryBlobs(es[1..]).value;
  }

  lemma {:induction false} BlobCount(es: seq<Message>)
    requires EntryBlobs(es).Ok?
    ensures |EntryBlobs(es).value| == |es|
  {
    if es != [] {
      BlobCount(es[1..]);
    }
  }

  lemma {:induction false} BlobAt(es: seq<Message>, i: nat)
    requires i < |es| && EntryBlobs(es).Ok?
    ensures |EntryBlobs(es).value| == |es| && EncodeMessage(es[i]).Ok?
    ensures EntryBlobs(es).value[i] == Field.Blob(EncodeMessage(es[i]).value)
  {
    var b, blobs := BlobsCons(es);
    BlobCount(es);
    if i > 0 {
      BlobAt(es[1..], i - 1);
    }
  }

  lemma {:induction false} EntryReadBack(e: Message, tail: bytes)
    requires e.Entry? && EncodeMessage(e).Ok? && Field.Blob(EncodeMessage(e).value).InRange()
    ensures var b := EncodeMessage(e).value;
      ReadField(KBlob, FieldBytes(Field.Blob(b)) + tail) == Ok((Field.Blob(b), tail))
      && ParseMessage(ENTRY, b) == Ok(e)
  {
    var b := EncodeMessage(e).value;
    FieldRoundTrip(Field.Blob(b), tail);
    MessageRoundTrip(e, []);
    assert b + [] == b;
  }

  lemma {:induction false} OneMoreBack(e: Message, b: bytes, es: seq<Message>, tail: bytes, rest: bytes,
                                       all: seq<Message>, data: bytes)
    requires e.Entry? && EncodeMessage(e) == Ok(b) && Field.Blob(b).InRange()
    requires ParseEntries(|es|, tail) == Ok((es, rest))
    requires all == [e] + es && data == FieldBytes(Field.Blob(b)) + tail
    ensures ParseEntries(|all|, data) == Ok((all, rest))
  {
    EntryReadBack(e, tail);
  }

  lemma {:induction false} TailInRange(f: Field, fs: seq<Field>)
    requires AllInRange([f] + fs)
    ensures f.InRange() && AllInRange(fs)
  {
    assert ([f] + fs)[0] == f;
    assert forall i :: 0 <= i < |fs| ==> fs[i] == ([f] + fs)[i + 1];
  }

  lemma {:induction false} EntriesBack(es: seq<Message>, rest: bytes)
    requires AllEntries(es) && EntryBlobs(es).Ok? && AllInRange(EntryBlobs(es).value)
    ensures ParseEntries(|es|, Concat(EntryBlobs(es).value) + rest) == Ok((es, rest))
  {
    if es == [] {
      assert [] + rest == rest;
    } else {
      assert es[0] in es;
      var b, blobs := BlobsCons(es);
      TailInRange(Field.Blob(b), blobs);
      EntriesBack(es[1..], rest);
      ConcatCons(Field.Blob(b), blobs);
      Assoc(FieldBytes(Field.Blob(b)), Concat(blobs), rest);
      assert [es[0]] + es[1..] == es;
      OneMoreBack(es[0], b, es[1..], Concat(blobs) + rest, rest, es, Concat([Field.Blob(b)] + blobs) + rest);
    }
  }

  /** Registry snapshots of any length round trip, and followed by anything else are refused. */
  lemma {:induction false} SnapshotRoundTrip(es: seq<Message>, rest: bytes)
    requires AllEntries(es) && EncodeSnapshot(es).Ok?
    ensures ParseSnapshot(EncodeSnapshot(es).value + rest) == if rest == [] then Ok(es) else Raised(TRAILING_DATA)
  {
    var blobs := EntryBlobs(es).value;
    var all := [Field.U32(|es|)] + blobs;
    assert all[0] == Field.U32(|es|) && all[1..] == blobs;
    assert AllInRange(blobs) by {
      assert forall i :: 0 <= i < |blobs| ==> blobs[i] == all[i + 1];
    }
    ConcatCons(Field.U32(|es|), blobs);
    Assoc(FieldBytes(Field.U32(|es|)), Concat(blobs), rest);
    FieldRoundTrip(Field.U32(|es|), Concat(blobs) + rest);
    EntriesBack(es, rest);
  }

  /** Write one entry, length first. */
  method PutEntry(enc: Encoder, e: Message) returns (done: Result<(), CodecError>)
    requires enc.Valid()
    modifies enc
    ensures done.Ok? <==> EncodeMessage(e).Ok? && Field.Blob(EncodeMessage(e).value).InRange()
    ensures done.Ok? ==> enc.Valid() && enc.fields == old(enc.fields) + [Field.Blob(EncodeMessage(e).value)]
  {
    var b := EncodeMessage(e);
    if b.Raised? { return Raised(b.error); }
    done := enc.Blob(b.value);
  }

  lemma {:induction false} OneMoreBlob(es: seq<Message>, i: nat, f: Field)
    requires i < |es| && EntryBlobs(es[..i]).Ok? && EncodeMessage(es[i]).Ok?
    ensures EntryBlobs(es[..i + 1]).Ok?
    ensures [f] + EntryBlobs(es[..i + 1]).value ==
      [f] + EntryBlobs(es[..i]).value + [Field.Blob(EncodeMessage(es[i]).value)]
  {
    BlobsSnoc(es, i);
    Assoc([f], EntryBlobs(es[..i]).value, [Field.Blob(EncodeMessage(es[i]).value)]);
  }

  method BuildSnapshot(es: seq<Message>) returns (r: Result<bytes, CodecError>)
    requires AllEntries(es)
    ensures r == EncodeSnapshot(es)
  {
    var enc := new Encoder();
    var done := enc.U32(|es|);
    if done.Raised? {
      TooMany(es);
      return Raised(OUT_OF_RANGE);
    }
    for i := 0 to |es|
      invariant enc.Valid() && fresh(enc) && EntryBlobs(es[..i]).Ok?
      invariant enc.fields == [Field.U32(|es|)] + EntryBlobs(es[..i]).value
    {
      done := PutEntry(enc, es[i]);
      if done.Raised? {
        NoSnapshot(es, i);
        return Raised(OUT_OF_RANGE);
      }
      OneMoreBlob(es, i, Field.U32(|es|));
    }
    assert es[..|es|] == es;
    var bytes_ := enc.Finish();
    r := Ok(bytes_);
  }

  lemma {:induction false} TooMany(es: seq<Message>)
    requires !Field.U32(|es|).InRange()
    ensures EncodeSnapshot(es) == Raised(OUT_OF_RANGE)
  {
    if EntryBlobs(es).Ok? {
      assert ([Field.U32(|es|)] + EntryBlobs(es).value)[0] == Field.U32(|es|);
    } else {
      BlobsRaise(es);
    }
  }

  lemma {:induction false} BlobsRaise(es: seq<Message>)
    requires EntryBlobs(es).Raised?
    ensures EntryBlobs(es).error == OUT_OF_RANGE
  {
    if EncodeMessage(es[0]).Ok? {
      BlobsRaise(es[1..]);
    }
  }

  lemma {:induction false} BlobsSnoc(es: seq<Message>, i: nat)
    requires i < |es|
    ensures EntryBlobs(es[..i + 1]) ==
      match EntryBlobs(es[..i])
      case Raised(e) => Raised(e)
      case Ok(fs) =>
        match EncodeMessage(es[i])
        case Raised(e) => Raised(e)
        case Ok(b) => Ok(fs + [Field.Blob(b)])
    decreases i
  {
    if i > 0 {
      assert es[1..][..i] == es[..i + 1][1..] && es[1..][..i - 1] == es[..i][1..];
      BlobsSnoc(es[1..], i - 1);
      if EncodeMessage(es[0]).Ok? && EntryBlobs(es[..i]).Ok? && EncodeMessage(es[i]).Ok? {
        var x, fs, y := Field.Blob(EncodeMessage(es[0]).value), EntryBlobs(es[..i][1..]).value,
                        Field.Blob(EncodeMessage(es[i]).value);
        assert [x] + (fs + [y]) == ([x] + fs) + [y];
      }
    } else {
      assert es[..1][1..] == [];
      assert forall x: Field :: [x] + [] == [] + [x];
    }
  }

  /** One entry that cannot be written makes the whole snapshot fail. */
  lemma {:induction false} NoSnapshot(es: seq<Message>, i: nat)
    requires i < |es|
    requires EncodeMessage(es[i]).Raised? || !Field.Blob(EncodeMessage(es[i]).value).InRange()
    ensures EncodeSnapshot(es) == Raised(OUT_OF_RANGE)
  {
    if EntryBlobs(es).Ok? {
      BlobAt(es, i);
      assert ([Field.U32(|es|)] + EntryBlobs(es).value)[i + 1] == EntryBlobs(es).value[i];
    } else {
      BlobsRaise(es);
    }
  }

  function Prepend(es: seq<Message>, r: Result<(seq<Message>, bytes), ParseError>)
    : Result<(seq<Message>, bytes), ParseError>
  {
    match r
    case Raised(e) => Raised(e)
    case Ok((fs, rest)) => Ok((es + fs, rest))
  }

  lemma {:induction false} PrependNone(r: Result<(seq<Message>, bytes), ParseError>)
    ensures Prepend([], r) == r
  {
    if r.Ok? {
      assert [] + r.value.0 == r.value.0;
    }
  }

  lemma {:induction false} PrependOne(es: seq<Message>, e: Message, r: Result<(seq<Message>, bytes), ParseError>)
    ensures Prepend(es, Prepend([e], r)) == Prepend(es + [e], r)
  {
    if r.Ok? {
      assert es + ([e] + r.value.0) == (es + [e]) + r.value.0;
    }
  }

  /** Read n entries from where the decoder stands. */
  method ReadEntries(dec: Decoder, n: nat) returns (r: Result<seq<Message>, ParseError>)
    requires dec.Valid()
    modifies dec
    ensures match ParseEntries(n, old(dec.data[dec.off..]))
      case Ok((es, rest)) => r == Ok(es) && dec.Valid() && dec.data[dec.off..] == rest
      case Raised(e) => r == Raised(e)
  {
    var es: seq<Message> := [];
    ghost var whole := ParseEntries(n, dec.data[dec.off..]);
    PrependNone(whole);
    for i := 0 to n
      invariant dec.Valid()
      invariant whole == Prepend(es, ParseEntries(n - i, dec.data[dec.off..]))
    {
      ghost var from := dec.data[dec.off..];
      ReadFrom(dec.asked, KBlob, dec.data, dec.taken, from);
      var b := dec.Blob();
      if b.Raised? { return Raised(TRUNCATED_INPUT); }
      var e := Parse(ENTRY, b.value);
      if e.Raised? { return Raised(e.error); }
      ParseOne(n - i, from, e.value, b.value, dec.data[dec.off..]);
      PrependOne(es, e.value, ParseEntries(n - i - 1, dec.data[dec.off..]));
      es := es + [e.value];
    }
    LastEntries(es, dec.data[dec.off..]);
    r := Ok(es);
  }

  lemma {:induction false} ParseOne(n: nat, data: bytes, e: Message, b: bytes, mid: bytes)
    requires n > 0 && ReadField(KBlob, data) == Ok((Field.Blob(b), mid)) && ParseMessage(ENTRY, b) == Ok(e)
    ensures ParseEntries(n, data) == Prepend([e], ParseEntries(n - 1, mid))
  {
  }

  lemma {:induction false} LastEntries(es: seq<Message>, rest: bytes)
    ensures Prepend(es, ParseEntries(0, rest)) == Ok((es, rest))
  {
    assert es + [] == es;
  }

  method ReadSnapshot(data: bytes) returns (r: Result<seq<Message>, ParseError>)
    ensures r == ParseSnapshot(data)
  {
    var dec := new Decoder(data);
    ReadFrom([], KU32, data, [], data);
    var count := dec.U32();
    if count.Raised? { return Raised(TRUNCATED_INPUT); }
    var es := ReadEntries(dec, count.value);
    if es.Raised? { return Raised(es.error); }
    var eof := dec.Eof();
    if !eof { return Raised(TRAILING_DATA); }
    r := Ok(es.value);
  }
}
