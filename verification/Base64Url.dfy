/** Unpadded base64url (sections 3.2 and 5 of RFC 4648), as the Go standard library's
    `RawURLEncoding` provides it: spare bits of the last character are ignored on decoding. */
module Base64Url {
  import opened Names
  import opened Packbits

  function Digit(v: int): (c: char)
    requires 0 <= v < 64
  {
    if v < 26 then (65 + v) as char
    else if v < 52 then (71 + v) as char
    else if v < 62 then (v - 4) as char
    else if v == 62 then '-' else '_'
  }

  function DigitValue(c: char): (r: Option<int>)
    ensures r.Some? ==> 0 <= r.value < 64
  {
    if 'A' <= c <= 'Z' then Some(c as int - 65)
    else if 'a' <= c <= 'z' then Some(c as int - 71)
    else if '0' <= c <= '9' then Some(c as int + 4)
    else if c == '-' then Some(62)
    else if c == '_' then Some(63)
    else None
  }

  lemma DigitRoundTrip(v: int)
    requires 0 <= v < 64
    ensures DigitValue(Digit(v)) == Some(v)
    ensures Digit(v) != ' ' && Digit(v) != '%'
  {}

  function EncodedLen(n: nat): nat { (n * 8 + 5) / 6 }

  type sextet = v: int | 0 <= v < 64

  /** Three bytes make four six-bit values; the spare bits of the last value are zero. */
  function Sextets(b: seq<byte>): (v: seq<sextet>)
    ensures |v| == EncodedLen(|b|)
  {
    if |b| == 0 then []
    else if |b| == 1 then [b[0] / 4, b[0] % 4 * 16]
    else if |b| == 2 then [b[0] / 4, b[0] % 4 * 16 + b[1] / 16, b[1] % 16 * 4]
    else [b[0] / 4, b[0] % 4 * 16 + b[1] / 16, b[1] % 16 * 4 + b[2] / 64, b[2] % 64] + Sextets(b[3..])
  }

  function FirstByte(v0: sextet, v1: sextet): byte { (v0 as int) * 4 + (v1 as int) / 16 }
  function SecondByte(v1: sextet, v2: sextet): byte { (v1 as int) % 16 * 16 + (v2 as int) / 4 }
  function ThirdByte(v2: sextet, v3: sextet): byte { (v2 as int) % 4 * 64 + v3 as int }

  function Bytes(v: seq<sextet>): Option<seq<byte>>
  {
    if |v| == 0 then Some([])
    else if |v| == 1 then None
    else if |v| == 2 then Some([FirstByte(v[0], v[1])])
    else if |v| == 3 then Some([FirstByte(v[0], v[1]), SecondByte(v[1], v[2])])
    else Prepended([FirstByte(v[0], v[1]), SecondByte(v[1], v[2]), ThirdByte(v[2], v[3])], Bytes(v[4..]))
  }

  function Encoded(b: seq<byte>): string
  {
    var v := Sextets(b);
    seq(|v|, i requires 0 <= i < |v| => Digit(v[i]))
  }

  predicate AllDigits(s: string) { forall i :: 0 <= i < |s| ==> DigitValue(s[i]).Some? }

  function Decoded(s: string): Option<seq<byte>>
  {
    if !AllDigits(s) then None
    else Bytes(seq(|s|, i requires 0 <= i < |s| => DigitValue(s[i]).value))
  }

  lemma QuadRoundTrip(b0: byte, b1: byte, b2: byte)
    ensures FirstByte(b0 / 4, b0 % 4 * 16 + b1 / 16) == b0
    ensures SecondByte(b0 % 4 * 16 + b1 / 16, b1 % 16 * 4 + b2 / 64) == b1
    ensures ThirdByte(b1 % 16 * 4 + b2 / 64, b2 % 64) == b2
  {}

  lemma OneByteRoundTrip(b0: byte)
    ensures Bytes(Sextets([b0])) == Some([b0])
  {
    QuadRoundTrip(b0, 0, 0);
    var v0: sextet, v1: sextet := b0 / 4, b0 % 4 * 16;
    assert Sextets([b0]) == [v0, v1];
    assert Bytes([v0, v1]) == Some([FirstByte(v0, v1)]);
  }

  lemma TwoBytesRoundTrip(b0: byte, b1: byte)
    ensures Bytes(Sextets([b0, b1])) == Some([b0, b1])
  {
    QuadRoundTrip(b0, b1, 0);
    var v0: sextet, v1: sextet, v2: sextet := b0 / 4, b0 % 4 * 16 + b1 / 16, b1 % 16 * 4;
    assert Sextets([b0, b1]) == [v0, v1, v2];
    assert Bytes([v0, v1, v2]) == Some([FirstByte(v0, v1), SecondByte(v1, v2)]);
  }

  lemma {:induction false} SextetsRoundTrip(b: seq<byte>)
    ensures Bytes(Sextets(b)) == Some(b)
  {
    if |b| == 1 {
      OneByteRoundTrip(b[0]);
      assert b == [b[0]];
    } else if |b| == 2 {
      TwoBytesRoundTrip(b[0], b[1]);
      assert b == [b[0], b[1]];
    } else if |b| >= 3 {
      var v, rest := Sextets(b), Sextets(b[3..]);
      QuadRoundTrip(b[0], b[1], b[2]);
      SextetsRoundTrip(b[3..]);
      assert v[4..] == rest;
      assert Bytes(v) == Prepended([b[0], b[1], b[2]], Bytes(rest));
      assert b == [b[0], b[1], b[2]] + b[3..];
    }
  }

  lemma Base64RoundTrip(b: seq<byte>)
    ensures Decoded(Encoded(b)) == Some(b)
    ensures forall c <- Encoded(b) :: c != ' ' && c != '%'
    ensures |Encoded(b)| == EncodedLen(|b|)
  {
    var v, s := Sextets(b), Encoded(b);
    forall i | 0 <= i < |s|
      ensures DigitValue(s[i]) == Some(v[i]) && s[i] != ' ' && s[i] != '%'
    {
      DigitRoundTrip(v[i]);
    }
    assert seq(|s|, i requires 0 <= i < |s| => DigitValue(s[i]).value) == v;
    SextetsRoundTrip(b);
  }
}
