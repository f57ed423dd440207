/** UTF-8 text is the encoding of characters (section 3 of RFC 3629), and nothing else passes the
    well-formedness test. */
module Utf8Text {
  import opened Bytes

  /** A code point outside the surrogates. */
  type scalar = c: int | 0 <= c < 0xD800 || 0xE000 <= c < 0x11_0000

  function EncodeChar(c: scalar): (bs: seq<byte>)
    ensures 1 <= |bs| <= 4
  {
    if c < 0x80 then [c]
    else if c < 0x800 then [0xC0 + c / 0x40, 0x80 + c % 0x40]
    else if c < 0x1_0000 then [0xE0 + c / 0x1000, 0x80 + c / 0x40 % 0x40, 0x80 + c % 0x40]
    else [0xF0 + c / 0x4_0000, 0x80 + c / 0x1000 % 0x40, 0x80 + c / 0x40 % 0x40, 0x80 + c % 0x40]
  }

  function EncodeText(cs: seq<scalar>): seq<byte> {
    if cs == [] then [] else EncodeChar(cs[0]) + EncodeText(cs[1..])
  }

  lemma CharLength(c: scalar, rest: seq<byte>)
    ensures Utf8CharLength(EncodeChar(c) + rest) == |EncodeChar(c)|
  {
    var bs := EncodeChar(c);
    assert forall i :: 0 <= i < |bs| ==> (bs + rest)[i] == bs[i];
  }

  /** Every encoded text is valid. */
  lemma {:induction false} EncodedIsValid(cs: seq<scalar>)
    ensures ValidUtf8(EncodeText(cs))
  {
    if cs != [] {
      EncodedIsValid(cs[1..]);
      CharLength(cs[0], EncodeText(cs[1..]));
      var bs := EncodeText(cs);
      assert bs[|EncodeChar(cs[0])|..] == EncodeText(cs[1..]);
    }
  }

  function DecodeChar(bs: seq<byte>): (c: scalar)
    requires Utf8CharLength(bs) > 0
  {
    var n := Utf8CharLength(bs);
    if n == 1 then bs[0] as int
    else if n == 2 then (bs[0] as int - 0xC0) * 0x40 + bs[1] as int - 0x80
    else if n == 3 then (bs[0] as int - 0xE0) * 0x1000 + (bs[1] as int - 0x80) * 0x40 + bs[2] as int - 0x80
    else
      (bs[0] as int - 0xF0) * 0x4_0000 + (bs[1] as int - 0x80) * 0x1000 + (bs[2] as int - 0x80) * 0x40
      + bs[3] as int - 0x80
  }

  lemma Digits(high: nat, low: nat)
    requires low < 0x40
    ensures (high * 0x40 + low) / 0x40 == high && (high * 0x40 + low) % 0x40 == low
  {
  }

  lemma TwoEncode(a: byte, b: byte)
    requires 0xC2 <= a < 0xE0 && Continuation(b)
    ensures var c := (a as int - 0xC0) * 0x40 + b as int - 0x80;
            0x80 <= c < 0x800 && EncodeChar(c) == [a, b]
  {
    Digits(a - 0xC0, b - 0x80);
  }

  lemma ThreeEncode(a: byte, b: byte, c: byte)
    requires 0xE0 <= a < 0xF0 && Continuation(b) && Continuation(c)
    requires (a == 0xE0 ==> b >= 0xA0) && (a == 0xED ==> b < 0xA0)
    ensures var d := (a as int - 0xE0) * 0x1000 + (b as int - 0x80) * 0x40 + c as int - 0x80;
            (0x800 <= d < 0xD800 || 0xE000 <= d < 0x1_0000) && EncodeChar(d) == [a, b, c]
  {
    var high := (a as int - 0xE0) * 0x40 + (b as int - 0x80);
    Digits(a - 0xE0, b - 0x80);
    Digits(high, c - 0x80);
  }

  lemma FourEncode(a: byte, b: byte, c: byte, d: byte)
    requires 0xF0 <= a < 0xF5 && Continuation(b) && Continuation(c) && Continuation(d)
    requires (a == 0xF0 ==> b >= 0x90) && (a == 0xF4 ==> b < 0x90)
    ensures var e := (a as int - 0xF0) * 0x4_0000 + (b as int - 0x80) * 0x1000 + (c as int - 0x80) * 0x40
              + d as int - 0x80;
            0x1_0000 <= e < 0x11_0000 && EncodeChar(e) == [a, b, c, d]
  {
    var top := (a as int - 0xF0) * 0x40 + (b as int - 0x80);
    var high := top * 0x40 + (c as int - 0x80);
    Digits(a - 0xF0, b - 0x80);
    Digits(top, c - 0x80);
    Digits(high, d - 0x80);
  }

  lemma CharEncodes(bs: seq<byte>)
    requires Utf8CharLength(bs) > 0
    ensures EncodeChar(DecodeChar(bs)) == bs[..Utf8CharLength(bs)]
  {
    var n := Utf8CharLength(bs);
    if n == 1 {
      assert bs[..1] == [bs[0]];
    } else if n == 2 {
      TwoEncode(bs[0], bs[1]);
      assert bs[..2] == [bs[0], bs[1]];
    } else if n == 3 {
      ThreeEncode(bs[0], bs[1], bs[2]);
      assert bs[..3] == [bs[0], bs[1], bs[2]];
    } else {
      FourEncode(bs[0], bs[1], bs[2], bs[3]);
      assert bs[..4] == [bs[0], bs[1], bs[2], bs[3]];
    }
  }

  lemma TextSnoc(c: scalar, cs: seq<scalar>)
    ensures EncodeText([c] + cs) == EncodeChar(c) + EncodeText(cs)
  {
    assert ([c] + cs)[1..] == cs;
  }

  function DecodeText(bs: seq<byte>): seq<scalar>
    requires ValidUtf8(bs)
  {
    if bs == [] then [] else [DecodeChar(bs)] + DecodeText(bs[Utf8CharLength(bs)..])
  }

  lemma DecodeStep(bs: seq<byte>)
    requires ValidUtf8(bs) && bs != []
    ensures ValidUtf8(bs[Utf8CharLength(bs)..])
    ensures DecodeText(bs) == [DecodeChar(bs)] + DecodeText(bs[Utf8CharLength(bs)..])
  {
  }

  /** Valid bytes are the encoding of the characters they decode to. */
  lemma {:induction false} ValidIsEncoded(bs: seq<byte>)
    requires ValidUtf8(bs)
    ensures EncodeText(DecodeText(bs)) == bs
  {
    if bs != [] {
      var n := Utf8CharLength(bs);
      DecodeStep(bs);
      CharEncodes(bs);
      ValidIsEncoded(bs[n..]);
      Joined(bs, n, DecodeChar(bs), DecodeText(bs[n..]));
    }
  }

  lemma Joined(bs: seq<byte>, n: nat, c: scalar, cs: seq<scalar>)
    requires n <= |bs| && EncodeChar(c) == bs[..n] && EncodeText(cs) == bs[n..]
    ensures EncodeText([c] + cs) == bs
  {
    TextSnoc(c, cs);
    assert bs == bs[..n] + bs[n..];
  }

  /** The bytes of a text are exactly the encodings of characters. */
  lemma ValidExactly(bs: seq<byte>)
    ensures ValidUtf8(bs) <==> exists cs :: EncodeText(cs) == bs
  {
    if ValidUtf8(bs) {
      ValidIsEncoded(bs);
    }
    if cs :| EncodeText(cs) == bs {
      EncodedIsValid(cs);
    }
  }
}
