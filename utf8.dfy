/** UTF-8 as defined by RFC 3629: the encoding of Unicode scalar values into bytes, and a decoder
    that, like the .NET decoder behind `Encoding.UTF8.GetString`, replaces each maximal ill-formed
    subpart of its input with U+FFFD instead of failing. */
module Utf8 {

  type Byte = b: int | 0 <= b < 0x100

  /** Code points that are not surrogates: the values a decoded string can hold. */
  type Scalar = c: int | 0 <= c < 0xD800 || 0xE000 <= c <= 0x10FFFF

  /** U+FFFD REPLACEMENT CHARACTER */
  const Replacement: Scalar := 0xFFFD

  predicate IsContinuation(b: Byte) {
    0x80 <= b <= 0xBF
  }

  /** The one to four bytes of a scalar value (RFC 3629, section 3): the lead byte carries the
      high bits, each continuation byte the next six. */
  function EncodeScalar(c: Scalar): (bs: seq<Byte>)
    ensures 1 <= |bs| <= 4
  {
    if c < 0x80 then [c as Byte]
    else if c < 0x800 then [(0xC0 + c / 64) as Byte, (0x80 + c % 64) as Byte]
    else if c < 0x10000 then
      [(0xE0 + c / 64 / 64) as Byte, (0x80 + c / 64 % 64) as Byte, (0x80 + c % 64) as Byte]
    else
      [(0xF0 + c / 64 / 64 / 64) as Byte, (0x80 + c / 64 / 64 % 64) as Byte,
       (0x80 + c / 64 % 64) as Byte, (0x80 + c % 64) as Byte]
  }

  function Encode(s: seq<Scalar>): (bs: seq<Byte>)
    ensures |s| <= |bs| <= 4 * |s|
  {
    if s == [] then [] else EncodeScalar(s[0]) + Encode(s[1..])
  }

  /** The length of the sequence a byte starts, or 0 when it cannot start one. */
  function SequenceLength(b: Byte): nat {
    if b < 0x80 then 1
    else if 0xC2 <= b <= 0xDF then 2
    else if 0xE0 <= b <= 0xEF then 3
    else if 0xF0 <= b <= 0xF4 then 4
    else 0
  }

  /** The range the second byte of a sequence must fall in, which excludes overlong forms,
      surrogates and values above U+10FFFF (the table of RFC 3629, section 4). */
  function SecondLow(lead: Byte): Byte {
    if lead == 0xE0 then 0xA0 else if lead == 0xF0 then 0x90 else 0x80
  }

  function SecondHigh(lead: Byte): Byte {
    if lead == 0xED then 0x9F else if lead == 0xF4 then 0x8F else 0xBF
  }

  /** The bits decoded so far followed by the six payload bits of a continuation byte. */
  function Append6(high: int, cont: Byte): int {
    high * 64 + (cont as int - 0x80)
  }

  /** One step of decoding: either a well-formed sequence of `len` bytes encoding `cp`, or an
      ill-formed maximal subpart of `len` bytes that decodes to U+FFFD. */
  datatype Step = Step(ok: bool, cp: Scalar, len: nat)

  function DecodeStep(b: seq<Byte>): (st: Step)
    requires b != []
    ensures 1 <= st.len <= |b| && st.len <= 4
    ensures !st.ok ==> st.cp == Replacement
  {
    var n := SequenceLength(b[0]);
    var b0 := b[0] as int;
    if n == 1 then Step(true, b0, 1)
    else if n == 0 then Step(false, Replacement, 1)
    else if |b| < 2 || !(SecondLow(b[0]) <= b[1] <= SecondHigh(b[0])) then Step(false, Replacement, 1)
    else if n == 2 then Step(true, Append6(b0 - 0xC0, b[1]), 2)
    else if |b| < 3 || !IsContinuation(b[2]) then Step(false, Replacement, 2)
    else if n == 3 then Step(true, Append6(Append6(b0 - 0xE0, b[1]), b[2]), 3)
    else if |b| < 4 || !IsContinuation(b[3]) then Step(false, Replacement, 3)
    else Step(true, Append6(Append6(Append6(b0 - 0xF0, b[1]), b[2]), b[3]), 4)
  }

  /** Lossy decoding: every byte sequence decodes, ill-formed parts to U+FFFD. */
  function Decode(b: seq<Byte>): (s: seq<Scalar>)
    ensures |s| <= |b|
    ensures s == [] <==> b == []
    decreases |b|
  {
    if b == [] then [] else [DecodeStep(b).cp] + Decode(b[DecodeStep(b).len..])
  }

  /** Well-formed UTF-8: decoding never has to substitute U+FFFD. */
  predicate Valid(b: seq<Byte>)
    decreases |b|
  {
    b == [] || (DecodeStep(b).ok && Valid(b[DecodeStep(b).len..]))
  }

  /** Splitting off six payload bits and appending them again changes nothing. */
  lemma Split6(v: int)
    requires v >= 0
    ensures 0x80 <= 0x80 + v % 64 <= 0xBF
    ensures Append6(v / 64, (0x80 + v % 64) as Byte) == v
  {
  }

  lemma Join6(high: int, cont: Byte)
    requires IsContinuation(cont)
    ensures Append6(high, cont) / 64 == high && Append6(high, cont) % 64 == cont - 0x80
  {
  }

  /** Decoding the bytes of one scalar value gives that value back and consumes exactly them. */
  lemma DecodeStepOfEncoded(c: Scalar, rest: seq<Byte>)
    ensures EncodeScalar(c) + rest != []
    ensures DecodeStep(EncodeScalar(c) + rest) == Step(true, c, |EncodeScalar(c)|)
  {
    var b := EncodeScalar(c) + rest;
    if c < 0x80 {
    } else if c < 0x800 {
      Split6(c);
      assert b[0] == 0xC0 + c / 64 && b[1] == 0x80 + c % 64;
    } else if c < 0x10000 {
      Split6(c);
      Split6(c / 64);
      assert b[0] == 0xE0 + c / 64 / 64 && b[1] == 0x80 + c / 64 % 64 && b[2] == 0x80 + c % 64;
      assert c / 64 / 64 == 0 ==> c / 64 % 64 >= 0x20;
      assert c / 64 / 64 == 0xD ==> c / 64 % 64 < 0x20;
    } else {
      Split6(c);
      Split6(c / 64);
      Split6(c / 64 / 64);
      assert b[0] == 0xF0 + c / 64 / 64 / 64 && b[1] == 0x80 + c / 64 / 64 % 64;
      assert b[2] == 0x80 + c / 64 % 64 && b[3] == 0x80 + c % 64;
      assert c / 64 / 64 / 64 == 0 ==> c / 64 / 64 % 64 >= 0x10;
      assert c / 64 / 64 / 64 == 4 ==> c / 64 / 64 % 64 < 0x10;
    }
  }

  /** A well-formed step consumed exactly the encoding of the scalar value it produced. */
  lemma EncodedOfDecodeStep(b: seq<Byte>)
    requires b != [] && DecodeStep(b).ok
    ensures EncodeScalar(DecodeStep(b).cp) == b[..DecodeStep(b).len]
  {
    var n := SequenceLength(b[0]);
    if n == 2 {
      Join6(b[0] - 0xC0, b[1]);
    } else if n == 3 {
      Join6(b[0] - 0xE0, b[1]);
      Join6(Append6(b[0] - 0xE0, b[1]), b[2]);
    } else if n == 4 {
      Join6(b[0] - 0xF0, b[1]);
      Join6(Append6(b[0] - 0xF0, b[1]), b[2]);
      Join6(Append6(Append6(b[0] - 0xF0, b[1]), b[2]), b[3]);
    }
  }

  /** Encoding then decoding is the identity, and what encoding produces is well-formed. */
  lemma {:induction false} DecodeEncode(s: seq<Scalar>)
    ensures Decode(Encode(s)) == s
    ensures Valid(Encode(s))
  {
    if s != [] {
      var b := Encode(s);
      DecodeStepOfEncoded(s[0], Encode(s[1..]));
      assert b[|EncodeScalar(s[0])|..] == Encode(s[1..]);
      DecodeEncode(s[1..]);
    }
  }

  /** Decoding then encoding gives well-formed bytes back unchanged. */
  lemma {:induction false} EncodeDecode(b: seq<Byte>)
    requires Valid(b)
    ensures Encode(Decode(b)) == b
    decreases |b|
  {
    if b != [] {
      var st := DecodeStep(b);
      var tail := Decode(b[st.len..]);
      assert Decode(b) == [st.cp] + tail;
      assert ([st.cp] + tail)[0] == st.cp && ([st.cp] + tail)[1..] == tail;
      assert Encode(Decode(b)) == EncodeScalar(st.cp) + Encode(tail);
      EncodedOfDecodeStep(b);
      EncodeDecode(b[st.len..]);
      assert b == b[..st.len] + b[st.len..];
    }
  }

  /** Passing bytes through a decode and a re-encode preserves them exactly when they are
      well-formed UTF-8. */
  lemma RoundTripIffValid(b: seq<Byte>)
    ensures Encode(Decode(b)) == b <==> Valid(b)
  {
    if Valid(b) {
      EncodeDecode(b);
    } else {
      DecodeEncode(Decode(b));
    }
  }

  /** A second decode and re-encode changes nothing more: the first one already produced
      well-formed bytes that decode to the same text. */
  lemma ReencodeIsStable(b: seq<Byte>)
    ensures Valid(Encode(Decode(b)))
    ensures Decode(Encode(Decode(b))) == Decode(b)
  {
    DecodeEncode(Decode(b));
  }

  /** An ill-formed byte does not survive: 0xFF comes back as the three bytes of U+FFFD. */
  lemma InvalidByteIsReplaced()
    ensures Encode(Decode([0xFF])) == [0xEF, 0xBF, 0xBD]
  {
  }
}
