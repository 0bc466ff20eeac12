/** The canonical binary encoding: big-endian integers, length-prefixed byte strings and text, and
    optional identifiers, written by an Encoder and read back by a Decoder.

    A structure is a list of fields. Encode and Decode are the specification of both classes;
    the theorems about them hold for every list of fields, hence for every message. */
module Codec {
  import opened Basics

  datatype CodecError = OUT_OF_RANGE | TRUNCATED | NOT_UTF8

  datatype Kind = KU8 | KU16 | KU32 | KU64 | KI64 | KBlob | KText | KId | KRaw(size: nat)

  datatype Field =
    | U8(n: int) | U16(n: int) | U32(n: int) | U64(n: int) | I64(n: int)
    | Blob(b: bytes)
    | Text(b: bytes)
    | Id(id: Option<Uuid>)
    | Raw(b: bytes)
  {
    function KindOf(): Kind {
      match this
      case U8(_) => KU8
      case U16(_) => KU16
      case U32(_) => KU32
      case U64(_) => KU64
      case I64(_) => KI64
      case Blob(_) => KBlob
      case Text(_) => KText
      case Id(_) => KId
      case Raw(b) => KRaw(|b|)
    }

    /** What struct.pack accepts, and for text the bytes some string encodes to; everything else
        raises. */
    predicate InRange() {
      match this
      case U8(n) => 0 <= n < 0x100
      case U16(n) => 0 <= n < 0x1_0000
      case U32(n) => 0 <= n < 0x1_0000_0000
      case U64(n) => 0 <= n < 0x1_0000_0000_0000_0000
      case I64(n) => -0x8000_0000_0000_0000 <= n < 0x8000_0000_0000_0000
      case Blob(b) => |b| < 0x1_0000_0000
      case Text(b) => |b| < 0x1_0000_0000 && Utf8(b)
      case Id(_) => true
      case Raw(_) => true
    }
  }

  // ------------------------------------------------------------------
  // big-endian integers
  // ------------------------------------------------------------------

  function Pow256(k: nat): nat {
    if k == 0 then 1 else 256 * Pow256(k - 1)
  }

  function BigEndian(n: nat, k: nat): (b: bytes)
    ensures |b| == k
    decreases n, k
  {
    if k == 0 then [] else BigEndian(n / 256, k - 1) + [(n % 256) as byte]
  }

  function FromBigEndian(b: bytes): (n: nat) {
    if b == [] then 0 else 256 * FromBigEndian(b[..|b| - 1]) + b[|b| - 1] as int
  }

  lemma {:induction false} BigEndianRoundTrip(n: nat, k: nat)
    requires n < Pow256(k)
    ensures FromBigEndian(BigEndian(n, k)) == n
    decreases k
  {
    if k > 0 {
      BigEndianRoundTrip(n / 256, k - 1);
      assert BigEndian(n, k)[..k - 1] == BigEndian(n / 256, k - 1);
    }
  }

  lemma {:induction false} BigEndianCanonical(b: bytes)
    ensures FromBigEndian(b) < Pow256(|b|) && BigEndian(FromBigEndian(b), |b|) == b
  {
    if b != [] {
      var front, last := b[..|b| - 1], b[|b| - 1] as int;
      BigEndianCanonical(front);
      var n := FromBigEndian(b);
      assert n / 256 == FromBigEndian(front) && n % 256 == last;
      assert b == front + [b[|b| - 1]];
    }
  }

  lemma {:induction false} Powers()
    ensures Pow256(1) == 0x100 && Pow256(2) == 0x1_0000 && Pow256(4) == 0x1_0000_0000
    ensures Pow256(8) == 0x1_0000_0000_0000_0000
  {
  }

  /** Two's complement on eight bytes. */
  function Unsigned64(n: int): (u: int)
    requires -0x8000_0000_0000_0000 <= n < 0x8000_0000_0000_0000
    ensures 0 <= u < 0x1_0000_0000_0000_0000 && Signed64(u) == n
  {
    if n < 0 then n + 0x1_0000_0000_0000_0000 else n
  }

  function Signed64(u: int): int {
    if u < 0x8000_0000_0000_0000 then u else u - 0x1_0000_0000_0000_0000
  }

  // ------------------------------------------------------------------
  // text
  // ------------------------------------------------------------------

  predicate Continues(b: byte) {
    0x80 <= b < 0xC0
  }

  /** The size of the well-formed character at the front of b, or 0 when there is none (section 4 of
      RFC 3629): no overlong form, no surrogate, nothing past U+10FFFF. */
  function CharSize(b: bytes): (n: nat)
    requires b != []
    ensures n <= |b|
  {
    var lead := b[0];
    if lead < 0x80 then 1
    else if 0xC2 <= lead < 0xE0 && |b| >= 2 && Continues(b[1]) then 2
    else if 0xE0 <= lead < 0xF0 && |b| >= 3 && Continues(b[1]) && Continues(b[2])
            && (lead == 0xE0 ==> b[1] >= 0xA0) && (lead == 0xED ==> b[1] < 0xA0) then 3
    else if 0xF0 <= lead < 0xF5 && |b| >= 4 && Continues(b[1]) && Continues(b[2]) && Continues(b[3])
            && (lead == 0xF0 ==> b[1] >= 0x90) && (lead == 0xF4 ==> b[1] < 0x90) then 4
    else 0
  }

  /** The bytes decode as UTF-8. */
  predicate Utf8(b: bytes) {
    b == [] || (CharSize(b) > 0 && Utf8(b[CharSize(b)..]))
  }

  // ------------------------------------------------------------------
  // one field
  // ------------------------------------------------------------------

  const ZERO16: bytes := [0, 0, 0, 0, 0, 0, 0, 0, 0, 0, 0, 0, 0, 0, 0, 0]

  function FieldBytes(f: Field): (b: bytes)
    requires f.InRange()
  {
    match f
    case U8(n) => BigEndian(n, 1)
    case U16(n) => BigEndian(n, 2)
    case U32(n) => BigEndian(n, 4)
    case U64(n) => BigEndian(n, 8)
    case I64(n) => BigEndian(Unsigned64(n), 8)
    case Blob(b) => BigEndian(|b|, 4) + b
    case Text(b) => BigEndian(|b|, 4) + b
    case Id(id) => if id.None? then [0] + ZERO16 else [1] + id.value
    case Raw(b) => b
  }

  function SplitAt(data: bytes, n: nat): Result<(bytes, bytes), CodecError> {
    if |data| < n then Raised(TRUNCATED) else Ok((data[..n], data[n..]))
  }

  function TakeInt(data: bytes, n: nat): Result<(nat, bytes), CodecError> {
    var (b, rest) :- SplitAt(data, n);
    Ok((FromBigEndian(b), rest))
  }

  /** Read one field of the given kind off the front of data. Any non-zero flag byte makes an
      identifier present, and the padding of an absent one is not looked at. */
  function ReadField(k: Kind, data: bytes): (r: Result<(Field, bytes), CodecError>)
    ensures r.Ok? ==> r.value.0.KindOf() == k
  {
    match k
    case KU8 => var (n, rest) :- TakeInt(data, 1); Ok((U8(n), rest))
    case KU16 => var (n, rest) :- TakeInt(data, 2); Ok((U16(n), rest))
    case KU32 => var (n, rest) :- TakeInt(data, 4); Ok((U32(n), rest))
    case KU64 => var (n, rest) :- TakeInt(data, 8); Ok((U64(n), rest))
    case KI64 => var (n, rest) :- TakeInt(data, 8); Ok((I64(Signed64(n)), rest))
    case KBlob =>
      var (n, rest) :- TakeInt(data, 4);
      var (b, rest') :- SplitAt(rest, n);
      Ok((Blob(b), rest'))
    case KText =>
      var (n, rest) :- TakeInt(data, 4);
      var (b, rest') :- SplitAt(rest, n);
      if Utf8(b) then Ok((Text(b), rest')) else Raised(NOT_UTF8)
    case KId =>
      var (flag, rest) :- TakeInt(data, 1);
      var (b, rest') :- SplitAt(rest, 16);
      Ok((Id(if flag == 0 then None else Some(b)), rest'))
    case KRaw(n) => var (b, rest) :- SplitAt(data, n); Ok((Raw(b), rest))
  }

  lemma {:induction false} TakeBack(b: bytes, rest: bytes)
    ensures SplitAt(b + rest, |b|) == Ok((b, rest))
  {
  }

  lemma {:induction false} TakeIntBack(n: nat, k: nat, rest: bytes)
    requires n < Pow256(k)
    ensures TakeInt(BigEndian(n, k) + rest, k) == Ok((n, rest))
  {
    BigEndianRoundTrip(n, k);
    TakeBack(BigEndian(n, k), rest);
  }

  lemma {:induction false} BlobBack(b: bytes, rest: bytes)
    requires |b| < 0x1_0000_0000
    ensures ReadField(KBlob, BigEndian(|b|, 4) + b + rest) == Ok((Blob(b), rest))
    ensures Utf8(b) ==> ReadField(KText, BigEndian(|b|, 4) + b + rest) == Ok((Text(b), rest))
  {
    Powers();
    Assoc(BigEndian(|b|, 4), b, rest);
    TakeIntBack(|b|, 4, b + rest);
    TakeBack(b, rest);
  }

  lemma {:induction false} IdBack(flag: byte, body: Uuid, rest: bytes)
    ensures ReadField(KId, [flag] + body + rest) ==
      Ok((Id(if flag == 0 then None else Some(body)), rest))
  {
    Powers();
    assert BigEndian(flag as int, 1) == [flag];
    Assoc([flag], body, rest);
    TakeIntBack(flag as int, 1, body + rest);
    TakeBack(body, rest);
  }

  lemma {:induction false} FieldRoundTrip(f: Field, rest: bytes)
    requires f.InRange()
    ensures ReadField(f.KindOf(), FieldBytes(f) + rest) == Ok((f, rest))
  {
    match f
    case U8(n) => Powers(); TakeIntBack(n, 1, rest);
    case U16(n) => Powers(); TakeIntBack(n, 2, rest);
    case U32(n) => Powers(); TakeIntBack(n, 4, rest);
    case U64(n) => Powers(); TakeIntBack(n, 8, rest);
    case I64(n) => Powers(); TakeIntBack(Unsigned64(n), 8, rest);
    case Blob(b) => BlobBack(b, rest);
    case Text(b) => BlobBack(b, rest);
    case Id(id) => if id.None? { IdBack(0, ZERO16, rest); } else { IdBack(1, id.value, rest); }
    case Raw(b) => TakeBack(b, rest);
  }

  /** The front of data is what the encoder writes: only identifiers have other spellings. */
  predicate Tidy(k: Kind, data: bytes) {
    k == KId && |data| >= 17 ==> data[0] == 1 || (data[0] == 0 && data[1..17] == ZERO16)
  }

  lemma {:induction false} TakeIntCanonical(data: bytes, k: nat)
    requires TakeInt(data, k).Ok?
    ensures var (n, rest) := TakeInt(data, k).value;
      n < Pow256(k) && BigEndian(n, k) + rest == data && rest == data[k..]
  {
    BigEndianCanonical(data[..k]);
    assert data == data[..k] + data[k..];
  }

  lemma {:induction false} IdCanonical(data: bytes)
    requires ReadField(KId, data).Ok?
    ensures var (f, rest) := ReadField(KId, data).value;
      && (FieldBytes(f) + rest == data <==> Tidy(KId, data))
      && |FieldBytes(f)| + |rest| == |data|
  {
    TakeIntCanonical(data, 1);
    var (flag, mid) := TakeInt(data, 1).value;
    assert BigEndian(flag, 1) == [(flag % 256) as byte];
    Powers();
    assert data[0] as int == flag;
    assert mid[..16] == data[1..17] && mid[16..] == data[17..];
    var (f, rest) := ReadField(KId, data).value;
    var spelled := FieldBytes(f) + rest;
    assert data == [data[0]] + data[1..17] + data[17..];
    assert spelled[0] == (if flag == 0 then 0 else 1);
    assert spelled[1..17] == if flag == 0 then ZERO16 else data[1..17];
    assert spelled[17..] == data[17..];
    assert spelled == [spelled[0]] + spelled[1..17] + spelled[17..];
  }

  lemma {:induction false} FieldCanonical(k: Kind, data: bytes)
    requires ReadField(k, data).Ok?
    ensures var (f, rest) := ReadField(k, data).value;
      && f.InRange()
      && (FieldBytes(f) + rest == data <==> Tidy(k, data))
      && |FieldBytes(f)| + |rest| == |data|
  {
    Powers();
    match k
    case KU8 => TakeIntCanonical(data, 1);
    case KU16 => TakeIntCanonical(data, 2);
    case KU32 => TakeIntCanonical(data, 4);
    case KU64 => TakeIntCanonical(data, 8);
    case KI64 => TakeIntCanonical(data, 8);
    case KBlob =>
      TakeIntCanonical(data, 4);
      var (n, mid) := TakeInt(data, 4).value;
      assert data == BigEndian(n, 4) + mid[..n] + mid[n..];
    case KText =>
      TakeIntCanonical(data, 4);
      var (n, mid) := TakeInt(data, 4).value;
      assert data == BigEndian(n, 4) + mid[..n] + mid[n..];
    case KId => IdCanonical(data);
    case KRaw(n) => assert data == data[..n] + data[n..];
  }

  // ------------------------------------------------------------------
  // lists of fields
  // ------------------------------------------------------------------

  predicate AllInRange(fs: seq<Field>) {
    forall i :: 0 <= i < |fs| ==> fs[i].InRange()
  }

  function Kinds(fs: seq<Field>): (ks: seq<Kind>)
    ensures |ks| == |fs| && forall i :: 0 <= i < |fs| ==> ks[i] == fs[i].KindOf()
  {
    seq(|fs|, i requires 0 <= i < |fs| => fs[i].KindOf())
  }

  function Concat(fs: seq<Field>): bytes
    requires AllInRange(fs)
  {
    if fs == [] then [] else FieldBytes(fs[0]) + Concat(fs[1..])
  }

  /** What a chain of encoder calls returns, or raises. */
  function Encode(fs: seq<Field>): Result<bytes, CodecError> {
    if AllInRange(fs) then Ok(Concat(fs)) else Raised(OUT_OF_RANGE)
  }

  /** What a chain of decoder calls of these kinds returns, with the bytes left over. */
  function Decode(ks: seq<Kind>, data: bytes): (r: Result<(seq<Field>, bytes), CodecError>)
    ensures r.Ok? ==> Kinds(r.value.0) == ks
  {
    if ks == [] then Ok(([], data))
    else
      var (f, rest) :- ReadField(ks[0], data);
      var (fs, rest') :- Decode(ks[1..], rest);
      Ok(([f] + fs, rest'))
  }

  lemma {:induction false} ConcatCons(f: Field, fs: seq<Field>)
    requires f.InRange() && AllInRange(fs)
    ensures AllInRange([f] + fs) && Concat([f] + fs) == FieldBytes(f) + Concat(fs)
  {
  }

  lemma {:induction false} DecodeCons(k: Kind, ks: seq<Kind>, data: bytes)
    requires ReadField(k, data).Ok?
    ensures Decode([k] + ks, data) ==
      var (f, mid) := ReadField(k, data).value;
      match Decode(ks, mid)
      case Ok((fs, rest)) => Ok(([f] + fs, rest))
      case Raised(e) => Raised(e)
  {
  }

  lemma {:induction false} KindsCons(f: Field, fs: seq<Field>)
    ensures Kinds([f] + fs) == [f.KindOf()] + Kinds(fs)
  {
  }

  lemma {:induction false} PrefixFreeCons(f: Field, fs: seq<Field>, rest: bytes)
    requires f.InRange() && AllInRange(fs) && Decode(Kinds(fs), Concat(fs) + rest) == Ok((fs, rest))
    ensures AllInRange([f] + fs)
    ensures Decode(Kinds([f] + fs), Concat([f] + fs) + rest) == Ok(([f] + fs, rest))
  {
    ConcatCons(f, fs);
    KindsCons(f, fs);
    Assoc(FieldBytes(f), Concat(fs), rest);
    var mid := Concat(fs) + rest;
    FieldRoundTrip(f, mid);
    DecodeCons(f.KindOf(), Kinds(fs), FieldBytes(f) + mid);
  }

  /** Prefix-free: decoding an encoding followed by anything gives back the fields and leaves
      exactly what followed. */
  lemma {:induction false} PrefixFree(fs: seq<Field>, rest: bytes)
    requires AllInRange(fs)
    ensures Decode(Kinds(fs), Concat(fs) + rest) == Ok((fs, rest))
  {
    if fs == [] {
      assert [] + rest == rest;
    } else {
      PrefixFree(fs[1..], rest);
      PrefixFreeCons(fs[0], fs[1..], rest);
      assert [fs[0]] + fs[1..] == fs;
    }
  }

  /** Injective: two lists of fields of the same kinds with a common encoding are the same,
      even when other bytes follow. */
  lemma {:induction false} EncodingInjective(fs: seq<Field>, gs: seq<Field>, r: bytes, t: bytes)
    requires AllInRange(fs) && AllInRange(gs) && Kinds(fs) == Kinds(gs)
    requires Concat(fs) + r == Concat(gs) + t
    ensures fs == gs && r == t
  {
    PrefixFree(fs, r);
    PrefixFree(gs, t);
  }

  /** Every identifier met while reading ks off data is spelled as the encoder spells it. */
  predicate TidyAll(ks: seq<Kind>, data: bytes)
    requires Decode(ks, data).Ok?
  {
    ks == [] || (Tidy(ks[0], data) && TidyAll(ks[1..], ReadField(ks[0], data).value.1))
  }

  lemma {:induction false} CanonicalCons(k: Kind, data: bytes, tail: bytes)
    requires ReadField(k, data).Ok?
    ensures var (f, mid) := ReadField(k, data).value;
      && f.InRange()
      && (FieldBytes(f) + tail == data <==> tail == mid && Tidy(k, data))
      && |FieldBytes(f)| + |mid| == |data|
  {
    FieldCanonical(k, data);
    var (f, mid) := ReadField(k, data).value;
    if FieldBytes(f) + tail == data {
      FieldRoundTrip(f, tail);
    }
  }

  /** Canonical: what was decoded re-encodes to the same bytes exactly when no identifier was
      spelled in another way than the encoder's. */
  lemma {:induction false} Canonical(ks: seq<Kind>, data: bytes)
    requires Decode(ks, data).Ok?
    ensures AllInRange(Decode(ks, data).value.0)
    ensures var (fs, rest) := Decode(ks, data).value;
      && |Concat(fs)| + |rest| == |data|
      && (Concat(fs) + rest == data <==> TidyAll(ks, data))
  {
    if ks == [] {
      assert [] + data == data;
    } else {
      var k, tail := ks[0], ks[1..];
      var f, mid := ReadField(k, data).value.0, ReadField(k, data).value.1;
      Canonical(tail, mid);
      var fs, rest := Decode(tail, mid).value.0, Decode(tail, mid).value.1;
      assert Decode(ks, data) == Ok(([f] + fs, rest));
      CanonicalCons(k, data, Concat(fs) + rest);
      ConcatCons(f, fs);
      Assoc(FieldBytes(f), Concat(fs), rest);
    }
  }

  /** Appending one field appends its bytes. */
  lemma {:induction false} ConcatSnoc(fs: seq<Field>, f: Field)
    requires AllInRange(fs) && f.InRange()
    ensures AllInRange(fs + [f]) && Concat(fs + [f]) == Concat(fs) + FieldBytes(f)
  {
    if fs == [] {
      assert [f][1..] == [];
      assert fs + [f] == [f];
    } else {
      ConcatSnoc(fs[1..], f);
      ConcatCons(fs[0], fs[1..] + [f]);
      assert fs + [f] == [fs[0]] + (fs[1..] + [f]);
      Assoc(FieldBytes(fs[0]), Concat(fs[1..]), FieldBytes(f));
    }
  }

  /** Reading one more kind continues where the others stopped. */
  lemma {:induction false} DecodeSnoc(ks: seq<Kind>, k: Kind, data: bytes)
    requires Decode(ks, data).Ok?
    ensures Decode(ks + [k], data) ==
      var (fs, rest) := Decode(ks, data).value;
      match ReadField(k, rest)
      case Ok((f, rest')) => Ok((fs + [f], rest'))
      case Raised(e) => Raised(e)
  {
    var (fs, rest) := Decode(ks, data).value;
    if ks == [] {
      assert ks + [k] == [k] && [k][1..] == [];
      assert forall f: Field :: [f] + [] == [] + [f];
    } else {
      assert (ks + [k])[1..] == ks[1..] + [k];
      var (f0, mid) := ReadField(ks[0], data).value;
      var (fs0, _) := Decode(ks[1..], mid).value;
      DecodeSnoc(ks[1..], k, mid);
      assert forall f: Field :: [f0] + (fs0 + [f]) == ([f0] + fs0) + [f];
    }
  }

  /** One read of the decoder, seen from where it stood. */
  lemma {:induction false} ReadFrom(asked: seq<Kind>, k: Kind, data: bytes, taken: seq<Field>, from: bytes)
    requires Decode(asked, data) == Ok((taken, from))
    ensures match Decode(asked + [k], data)
      case Ok((fs, rest)) => fs != [] && ReadField(k, from) == Ok((fs[|fs| - 1], rest))
      case Raised(e) => ReadField(k, from) == Raised(e)
  {
    DecodeSnoc(asked, k, data);
  }

  /** Once a chain of reads has raised, asking for more raises the same. */
  lemma {:induction false} DecodeRaises(ks: seq<Kind>, more: seq<Kind>, data: bytes)
    requires Decode(ks, data).Raised?
    ensures Decode(ks + more, data) == Raised(Decode(ks, data).error)
  {
    if ReadField(ks[0], data).Ok? {
      assert (ks + more)[1..] == ks[1..] + more;
      DecodeRaises(ks[1..], more, ReadField(ks[0], data).value.1);
    }
  }

  // ------------------------------------------------------------------
  // the two classes
  // ------------------------------------------------------------------

  class Encoder {
    var buf: bytes
    /** The fields written so far. */
    ghost var fields: seq<Field>

    ghost predicate Valid()
      reads this
    {
      AllInRange(fields) && buf == Concat(fields)
    }

    constructor ()
      ensures Valid() && fields == []
    {
      buf, fields := [], [];
    }

    ghost method Wrote(f: Field)
      requires f.InRange() && AllInRange(fields) && buf == Concat(fields) + FieldBytes(f)
      modifies this`fields
      ensures Valid() && fields == old(fields) + [f]
    {
      ConcatSnoc(fields, f);
      fields := fields + [f];
    }

    method U8(v: int) returns (r: Result<(), CodecError>)
      requires Valid()
      modifies this
      ensures r.Ok? <==> Field.U8(v).InRange()
      ensures Valid() && fields == if r.Ok? then old(fields) + [Field.U8(v)] else old(fields)
    {
      if !(0 <= v < 0x100) { return Raised(OUT_OF_RANGE); }
      buf := buf + BigEndian(v, 1);
      Wrote(Field.U8(v));
      r := Ok(());
    }

    method U16(v: int) returns (r: Result<(), CodecError>)
      requires Valid()
      modifies this
      ensures r.Ok? <==> Field.U16(v).InRange()
      ensures Valid() && fields == if r.Ok? then old(fields) + [Field.U16(v)] else old(fields)
    {
      if !(0 <= v < 0x1_0000) { return Raised(OUT_OF_RANGE); }
      buf := buf + BigEndian(v, 2);
      Wrote(Field.U16(v));
      r := Ok(());
    }

    method U32(v: int) returns (r: Result<(), CodecError>)
      requires Valid()
      modifies this
      ensures r.Ok? <==> Field.U32(v).InRange()
      ensures Valid() && fields == if r.Ok? then old(fields) + [Field.U32(v)] else old(fields)
    {
      if !(0 <= v < 0x1_0000_0000) { return Raised(OUT_OF_RANGE); }
      buf := buf + BigEndian(v, 4);
      Wrote(Field.U32(v));
      r := Ok(());
    }

    method U64(v: int) returns (r: Result<(), CodecError>)
      requires Valid()
      modifies this
      ensures r.Ok? <==> Field.U64(v).InRange()
      ensures Valid() && fields == if r.Ok? then old(fields) + [Field.U64(v)] else old(fields)
    {
      if !(0 <= v < 0x1_0000_0000_0000_0000) { return Raised(OUT_OF_RANGE); }
      buf := buf + BigEndian(v, 8);
      Wrote(Field.U64(v));
      r := Ok(());
    }

    method I64(v: int) returns (r: Result<(), CodecError>)
      requires Valid()
      modifies this
      ensures r.Ok? <==> Field.I64(v).InRange()
      ensures Valid() && fields == if r.Ok? then old(fields) + [Field.I64(v)] else old(fields)
    {
      if !(-0x8000_0000_0000_0000 <= v < 0x8000_0000_0000_0000) { return Raised(OUT_OF_RANGE); }
      buf := buf + BigEndian(Unsigned64(v), 8);
      Wrote(Field.I64(v));
      r := Ok(());
    }

    method Blob(b: bytes) returns (r: Result<(), CodecError>)
      requires Valid()
      modifies this
      ensures r.Ok? <==> Field.Blob(b).InRange()
      ensures Valid() && fields == if r.Ok? then old(fields) + [Field.Blob(b)] else old(fields)
    {
      if |b| >= 0x1_0000_0000 { return Raised(OUT_OF_RANGE); }
      assert buf + BigEndian(|b|, 4) + b == buf + (BigEndian(|b|, 4) + b);
      buf := buf + BigEndian(|b|, 4);
      buf := buf + b;
      Wrote(Field.Blob(b));
      r := Ok(());
    }

    /** b is what the string encodes to. */
    method Text(b: bytes) returns (r: Result<(), CodecError>)
      requires Valid() && Utf8(b)
      modifies this
      ensures r.Ok? <==> Field.Text(b).InRange()
      ensures Valid() && fields == if r.Ok? then old(fields) + [Field.Text(b)] else old(fields)
    {
      if |b| >= 0x1_0000_0000 { return Raised(OUT_OF_RANGE); }
      assert buf + BigEndian(|b|, 4) + b == buf + (BigEndian(|b|, 4) + b);
      buf := buf + BigEndian(|b|, 4);
      buf := buf + b;
      Wrote(Field.Text(b));
      r := Ok(());
    }

    method Id(id: Option<Uuid>)
      requires Valid()
      modifies this
      ensures Valid() && fields == old(fields) + [Field.Id(id)]
    {
      if id.None? {
        buf := buf + ([0] + ZERO16);
      } else {
        buf := buf + ([1] + id.value);
      }
      Wrote(Field.Id(id));
    }

    method Finish() returns (b: bytes)
      requires Valid()
      ensures Encode(fields) == Ok(b)
    {
      b := buf;
    }
  }

  class Decoder {
    const data: bytes
    var off: nat
    /** The kinds read so far and the fields they gave. */
    ghost var asked: seq<Kind>
    ghost var taken: seq<Field>

    ghost predicate Valid()
      reads this
    {
      off <= |data| && Decode(asked, data) == Ok((taken, data[off..]))
    }

    constructor (data: bytes)
      ensures Valid() && this.data == data && asked == [] && taken == []
    {
      this.data := data;
      off, asked, taken := 0, [], [];
      new;
      assert data[0..] == data;
    }

    method Take(n: nat) returns (r: Result<bytes, CodecError>)
      requires off <= |data|
      modifies this`off
      ensures off <= |data|
      ensures match SplitAt(data[old(off)..], n)
        case Ok((b, rest)) => r == Ok(b) && data[off..] == rest
        case Raised(e) => r == Raised(e) && off == old(off)
    {
      if |data| - off < n { return Raised(TRUNCATED); }
      r := Ok(data[off..off + n]);
      assert data[off..][..n] == data[off..off + n] && data[off..][n..] == data[off + n..];
      off := off + n;
    }

    /** Record the outcome of one read. */
    ghost method Asked(k: Kind, from: bytes)
      requires Decode(asked, data) == Ok((taken, from))
      requires off <= |data|
      requires ReadField(k, from).Ok? ==> data[off..] == ReadField(k, from).value.1
      modifies this`asked, this`taken
      ensures ReadField(k, from).Ok? ==>
        Valid() && taken == old(taken) + [ReadField(k, from).value.0] && asked == old(asked) + [k]
      ensures ReadField(k, from).Raised? ==>
        forall ks :: old(asked) + [k] <= ks ==> Decode(ks, data) == Raised(ReadField(k, from).error)
    {
      DecodeSnoc(asked, k, data);
      if ReadField(k, from).Ok? {
        taken := taken + [ReadField(k, from).value.0];
        asked := asked + [k];
      } else {
        ghost var now := asked + [k];
        forall ks | now <= ks ensures Decode(ks, data) == Raised(ReadField(k, from).error) {
          DecodeRaises(now, ks[|now|..], data);
          assert ks == now + ks[|now|..];
        }
      }
    }

    /** What every read promises: on success the field is recorded, on failure every longer
        list of kinds raises as well. */
    twostate predicate Read(k: Kind, new r: Result<Field, CodecError>)
      reads this
    {
      && (r.Ok? ==> Valid() && asked == old(asked) + [k] && taken == old(taken) + [r.value]
                    && r.value.KindOf() == k)
      && (r.Raised? ==> forall ks :: old(asked) + [k] <= ks ==> Decode(ks, data) == Raised(r.error))
    }

    method U8() returns (r: Result<int, CodecError>)
      requires Valid()
      modifies this
      ensures Read(KU8, if r.Ok? then Ok(Field.U8(r.value)) else Raised(r.error))
    {
      ghost var from := data[off..];
      var b := Take(1);
      Asked(KU8, from);
      r := if b.Ok? then Ok(FromBigEndian(b.value)) else Raised(b.error);
    }

    method U16() returns (r: Result<int, CodecError>)
      requires Valid()
      modifies this
      ensures Read(KU16, if r.Ok? then Ok(Field.U16(r.value)) else Raised(r.error))
    {
      ghost var from := data[off..];
      var b := Take(2);
      Asked(KU16, from);
      r := if b.Ok? then Ok(FromBigEndian(b.value)) else Raised(b.error);
    }

    method U32() returns (r: Result<int, CodecError>)
      requires Valid()
      modifies this
      ensures Read(KU32, if r.Ok? then Ok(Field.U32(r.value)) else Raised(r.error))
    {
      ghost var from := data[off..];
      var b := Take(4);
      Asked(KU32, from);
      r := if b.Ok? then Ok(FromBigEndian(b.value)) else Raised(b.error);
    }

    method U64() returns (r: Result<int, CodecError>)
      requires Valid()
      modifies this
      ensures Read(KU64, if r.Ok? then Ok(Field.U64(r.value)) else Raised(r.error))
    {
      ghost var from := data[off..];
      var b := Take(8);
      Asked(KU64, from);
      r := if b.Ok? then Ok(FromBigEndian(b.value)) else Raised(b.error);
    }

    method I64() returns (r: Result<int, CodecError>)
      requires Valid()
      modifies this
      ensures Read(KI64, if r.Ok? then Ok(Field.I64(r.value)) else Raised(r.error))
    {
      ghost var from := data[off..];
      var b := Take(8);
      Asked(KI64, from);
      r := if b.Ok? then Ok(Signed64(FromBigEndian(b.value))) else Raised(b.error);
    }

    method Blob() returns (r: Result<bytes, CodecError>)
      requires Valid()
      modifies this
      ensures Read(KBlob, if r.Ok? then Ok(Field.Blob(r.value)) else Raised(r.error))
    {
      ghost var from := data[off..];
      var n := Take(4);
      var b := Raised(TRUNCATED);
      if n.Ok? {
        b := Take(FromBigEndian(n.value));
      }
      Asked(KBlob, from);
      r := b;
    }

    method Text() returns (r: Result<bytes, CodecError>)
      requires Valid()
      modifies this
      ensures Read(KText, if r.Ok? then Ok(Field.Text(r.value)) else Raised(r.error))
    {
      ghost var from := data[off..];
      var n := Take(4);
      var b := Raised(TRUNCATED);
      if n.Ok? {
        b := Take(FromBigEndian(n.value));
      }
      Asked(KText, from);
      r := if b.Ok? && !Utf8(b.value) then Raised(NOT_UTF8) else b;
    }

    method Id() returns (r: Result<Option<Uuid>, CodecError>)
      requires Valid()
      modifies this
      ensures Read(KId, if r.Ok? then Ok(Field.Id(r.value)) else Raised(r.error))
    {
      ghost var from := data[off..];
      var flag := Take(1);
      var b := Raised(TRUNCATED);
      if flag.Ok? {
        b := Take(16);
      }
      Asked(KId, from);
      r := if b.Raised? then Raised(b.error)
           else Ok(if FromBigEndian(flag.value) == 0 then None else Some(b.value));
    }

    /** Read a field of the given kind. */
    method Next(k: Kind) returns (r: Result<Field, CodecError>)
      requires Valid()
      modifies this
      ensures Read(k, r)
    {
      match k
      case KU8 => var n := U8(); r := if n.Ok? then Ok(Field.U8(n.value)) else Raised(n.error);
      case KU16 => var n := U16(); r := if n.Ok? then Ok(Field.U16(n.value)) else Raised(n.error);
      case KU32 => var n := U32(); r := if n.Ok? then Ok(Field.U32(n.value)) else Raised(n.error);
      case KU64 => var n := U64(); r := if n.Ok? then Ok(Field.U64(n.value)) else Raised(n.error);
      case KI64 => var n := I64(); r := if n.Ok? then Ok(Field.I64(n.value)) else Raised(n.error);
      case KBlob => var b := Blob(); r := if b.Ok? then Ok(Field.Blob(b.value)) else Raised(b.error);
      case KText => var b := Text(); r := if b.Ok? then Ok(Field.Text(b.value)) else Raised(b.error);
      case KId => var id := Id(); r := if id.Ok? then Ok(Field.Id(id.value)) else Raised(id.error);
      case KRaw(size) => r := RawBytes(size);
    }

    method RawBytes(size: nat) returns (r: Result<Field, CodecError>)
      requires Valid()
      modifies this
      ensures Read(KRaw(size), r)
    {
      ghost var from := data[off..];
      var b := Take(size);
      Asked(KRaw(size), from);
      r := if b.Ok? then Ok(Field.Raw(b.value)) else Raised(b.error);
    }

    method Eof() returns (r: bool)
      requires Valid()
      ensures r <==> Decode(asked, data) == Ok((taken, []))
    {
      assert data[off..] == [] <==> off == |data|;
      r := off == |data|;
    }
  }
}
