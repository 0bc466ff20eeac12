/** What passes for text on the wire: exactly the bytes that some string encodes to in UTF-8
    (section 3 of RFC 3629). */
module TextEncoding {
  import opened Basics
  import opened Codec

  /** A Unicode scalar value: any code point but a surrogate. */
  predicate Scalar(u: int) {
    0 <= u < 0xD800 || 0xE000 <= u < 0x11_0000
  }

  function CharBytes(u: int): bytes
    requires Scalar(u)
  {
    if u < 0x80 then [u as byte]
    else if u < 0x800 then [(0xC0 + u / 64) as byte, (0x80 + u % 64) as byte]
    else if u < 0x1_0000 then
      [(0xE0 + u / 64 / 64) as byte, (0x80 + u / 64 % 64) as byte, (0x80 + u % 64) as byte]
    else
      [(0xF0 + u / 64 / 64 / 64) as byte, (0x80 + u / 64 / 64 % 64) as byte, (0x80 + u / 64 % 64) as byte,
       (0x80 + u % 64) as byte]
  }

  predicate AllScalars(us: seq<int>) {
    forall i :: 0 <= i < |us| ==> Scalar(us[i])
  }

  /** The UTF-8 encoding of a string. */
  function TextBytes(us: seq<int>): bytes
    requires AllScalars(us)
  {
    if us == [] then [] else CharBytes(us[0]) + TextBytes(us[1..])
  }

  /** One more continuation byte of a character. */
  function More(u: int, b: byte): int {
    u * 64 + (b as int - 0x80)
  }

  lemma {:induction false} MoreSplits(u: int, b: byte)
    requires Continues(b)
    ensures More(u, b) / 64 == u && More(u, b) % 64 == b as int - 0x80
  {
  }

  /** The character at the front of b. */
  function CharOf(b: bytes): int
    requires b != [] && CharSize(b) > 0
  {
    var n := CharSize(b);
    if n == 1 then b[0] as int
    else if n == 2 then More(b[0] as int - 0xC0, b[1])
    else if n == 3 then More(More(b[0] as int - 0xE0, b[1]), b[2])
    else More(More(More(b[0] as int - 0xF0, b[1]), b[2]), b[3])
  }

  lemma {:induction false} TwoDecode(b: bytes)
    requires b != [] && CharSize(b) == 2
    ensures Scalar(CharOf(b)) && CharBytes(CharOf(b)) == b[..2]
  {
    MoreSplits(b[0] as int - 0xC0, b[1]);
    assert 0x80 <= CharOf(b) < 0x800;
  }

  lemma {:induction false} ThreeDecode(b: bytes)
    requires b != [] && CharSize(b) == 3
    ensures Scalar(CharOf(b)) && CharBytes(CharOf(b)) == b[..3]
  {
    var x := b[0] as int - 0xE0;
    MoreSplits(x, b[1]);
    MoreSplits(More(x, b[1]), b[2]);
    assert 0x800 <= CharOf(b) < 0x1_0000 && Scalar(CharOf(b));
  }

  lemma {:induction false} FourDecode(b: bytes)
    requires b != [] && CharSize(b) == 4
    ensures Scalar(CharOf(b)) && CharBytes(CharOf(b)) == b[..4]
  {
    var x := b[0] as int - 0xF0;
    var y := More(x, b[1]);
    MoreSplits(x, b[1]);
    MoreSplits(y, b[2]);
    MoreSplits(More(y, b[2]), b[3]);
    assert 0x1_0000 <= CharOf(b) < 0x11_0000;
  }

  lemma {:induction false} CharDecodes(b: bytes)
    requires b != [] && CharSize(b) > 0
    ensures Scalar(CharOf(b)) && CharBytes(CharOf(b)) == b[..CharSize(b)]
  {
    match CharSize(b)
    case 1 =>
    case 2 => TwoDecode(b);
    case 3 => ThreeDecode(b);
    case _ => FourDecode(b);
  }

  lemma {:induction false} CharEncodes(u: int, rest: bytes)
    requires Scalar(u)
    ensures CharSize(CharBytes(u) + rest) == |CharBytes(u)| > 0
  {
    var b := CharBytes(u) + rest;
    assert forall i :: 0 <= i < |CharBytes(u)| ==> b[i] == CharBytes(u)[i];
  }

  lemma {:induction false} TextIsUtf8(us: seq<int>)
    requires AllScalars(us)
    ensures Utf8(TextBytes(us))
  {
    if us != [] {
      TextIsUtf8(us[1..]);
      CharEncodes(us[0], TextBytes(us[1..]));
      var b := TextBytes(us);
      assert b[CharSize(b)..] == TextBytes(us[1..]);
    }
  }

  lemma {:induction false} Utf8IsText(b: bytes) returns (us: seq<int>)
    requires Utf8(b)
    ensures AllScalars(us) && TextBytes(us) == b
  {
    if b == [] {
      us := [];
    } else {
      var rest := Utf8IsText(b[CharSize(b)..]);
      CharDecodes(b);
      us := [CharOf(b)] + rest;
      assert us[1..] == rest;
      assert b == b[..CharSize(b)] + b[CharSize(b)..];
    }
  }

  /** Text is accepted exactly when it is the encoding of some string. */
  lemma {:induction false} Utf8Iff(b: bytes)
    ensures Utf8(b) <==> exists us :: AllScalars(us) && TextBytes(us) == b
  {
    if Utf8(b) {
      var us := Utf8IsText(b);
    } else if exists us :: AllScalars(us) && TextBytes(us) == b {
      var us :| AllScalars(us) && TextBytes(us) == b;
      TextIsUtf8(us);
    }
  }
}
