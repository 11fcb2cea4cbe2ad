/** Bytes are UTF-8 exactly when they are the encoding of some text. */
module Utf8 {
  import opened SseFrames

  /** A Unicode scalar value: a code point that is no surrogate. */
  predicate IsScalar(c: nat) {
    c < 0xD800 || 0xE000 <= c < 0x11_0000
  }

  type Scalar = c: nat | c < 0xD800 || 0xE000 <= c < 0x11_0000

  function Tail(c: nat): Byte {
    ByteAt(0x80, c % 64)
  }

  function ByteAt(high: nat, low: nat): Byte
    requires high + low < 256
  {
    high + low
  }

  /** The one to four bytes of a scalar value. */
  function Encoded(c: Scalar): seq<Byte> {
    if c < 0x80 then [ByteAt(0, c)]
    else if c < 0x800 then [ByteAt(0xC0, c / 64), Tail(c)]
    else if c < 0x1_0000 then [ByteAt(0xE0, c / 4096), Tail(c / 64), Tail(c)]
    else [ByteAt(0xF0, c / 262144), Tail(c / 4096), Tail(c / 64), Tail(c)]
  }

  function EncodedAll(cs: seq<Scalar>): seq<Byte> {
    if cs == [] then [] else Encoded(cs[0]) + EncodedAll(cs[1..])
  }

  /** The value of the character at the front. */
  function ScalarAt(s: seq<Byte>): nat
    requires CharLen(s) > 0
  {
    var n := CharLen(s);
    if n == 1 then s[0]
    else if n == 2 then Bits(s[0], 0xC0) * 64 + Bits(s[1], 0x80)
    else if n == 3 then Bits(s[0], 0xE0) * 4096 + Bits(s[1], 0x80) * 64 + Bits(s[2], 0x80)
    else Bits(s[0], 0xF0) * 262144 + Bits(s[1], 0x80) * 4096 + Bits(s[2], 0x80) * 64 + Bits(s[3], 0x80)
  }

  function Bits(b: Byte, high: nat): nat
    requires high <= b
  {
    b as int - high
  }

  lemma TwoBytes(a: nat, b: nat)
    requires b < 64
    ensures (a * 64 + b) / 64 == a && (a * 64 + b) % 64 == b
  {
  }

  lemma ThreeBytes(a: nat, b: nat, c: nat)
    requires b < 64 && c < 64
    ensures var v := a * 4096 + b * 64 + c; v / 4096 == a && v / 64 % 64 == b && v % 64 == c
  {
    TwoBytes(a * 64 + b, c);
    TwoBytes(a, b);
  }

  lemma FourBytes(a: nat, b: nat, c: nat, d: nat)
    requires b < 64 && c < 64 && d < 64
    ensures var v := a * 262144 + b * 4096 + c * 64 + d;
            v / 262144 == a && v / 4096 % 64 == b && v / 64 % 64 == c && v % 64 == d
  {
    ThreeBytes(a * 64 + b, c, d);
    TwoBytes(a, b);
  }

  lemma FrontIsEncoded(s: seq<Byte>)
    requires CharLen(s) > 0
    ensures IsScalar(ScalarAt(s)) && s[..CharLen(s)] == Encoded(ScalarAt(s))
  {
    var n := CharLen(s);
    if n == 2 {
      TwoBytes(Bits(s[0], 0xC0), Bits(s[1], 0x80));
    } else if n == 3 {
      ThreeBytes(Bits(s[0], 0xE0), Bits(s[1], 0x80), Bits(s[2], 0x80));
    } else if n == 4 {
      FourBytes(Bits(s[0], 0xF0), Bits(s[1], 0x80), Bits(s[2], 0x80), Bits(s[3], 0x80));
    }
  }

  lemma EncodedIsFront(c: Scalar, rest: seq<Byte>)
    ensures CharLen(Encoded(c) + rest) == |Encoded(c)|
  {
    var all := Encoded(c) + rest;
    assert forall i :: 0 <= i < |Encoded(c)| ==> all[i] == Encoded(c)[i];
  }

  lemma {:induction false} EncodedTextIsUtf8(cs: seq<Scalar>)
    ensures IsUtf8(EncodedAll(cs))
  {
    if cs != [] {
      EncodedTextIsUtf8(cs[1..]);
      EncodedIsFront(cs[0], EncodedAll(cs[1..]));
      assert EncodedAll(cs)[|Encoded(cs[0])|..] == EncodedAll(cs[1..]);
    }
  }

  lemma OneMoreChar(s: seq<Byte>, more: seq<Scalar>)
    requires CharLen(s) > 0 && IsScalar(ScalarAt(s)) && s[..CharLen(s)] == Encoded(ScalarAt(s))
    requires s[CharLen(s)..] == EncodedAll(more)
    ensures s == EncodedAll([ScalarAt(s)] + more)
  {
    assert ([ScalarAt(s)] + more)[1..] == more && s == s[..CharLen(s)] + s[CharLen(s)..];
  }

  lemma {:induction false} Utf8IsEncodedText(s: seq<Byte>) returns (cs: seq<Scalar>)
    requires IsUtf8(s)
    ensures s == EncodedAll(cs)
    decreases |s|
  {
    if s == [] {
      cs := [];
    } else {
      var more := Utf8IsEncodedText(s[CharLen(s)..]);
      FrontIsEncoded(s);
      cs := [ScalarAt(s)] + more;
      OneMoreChar(s, more);
    }
  }

  /** The bytes pass exactly when they encode some text of scalar values. */
  lemma Utf8MeansEncoded(s: seq<Byte>)
    ensures IsUtf8(s) <==> exists cs: seq<Scalar> :: s == EncodedAll(cs)
  {
    if IsUtf8(s) {
      var cs := Utf8IsEncodedText(s);
    }
    if cs: seq<Scalar> :| s == EncodedAll(cs) {
      EncodedTextIsUtf8(cs);
    }
  }
}
