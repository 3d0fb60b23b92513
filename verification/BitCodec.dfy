/** Saved visibility vectors: `src/go/img/serialize.go`. */
module BitCodec {
  import opened Names
  import opened Powers
  import opened Packbits
  import opened Base64Url

  // ---------- packing eight booleans into a byte ----------

  /** The first boolean ends up in the highest bit used; fewer than eight stay unshifted. */
  function BitsValue(bits: seq<bool>): (v: nat)
  {
    if bits == [] then 0
    else 2 * BitsValue(bits[..|bits| - 1]) + (if bits[|bits| - 1] then 1 else 0)
  }

  lemma {:induction false} BitsValueBound(bits: seq<bool>)
    ensures BitsValue(bits) < Pow2(|bits|)
  {
    if bits != [] {
      BitsValueBound(bits[..|bits| - 1]);
    }
  }

  /** `v << 1` in eight bits. */
  function DoubledByte(v: byte): byte { (2 * (v as int)) % 256 }

  /** The byte `v << k` keeps the low `8 - k` bits, moved up. */
  function ShiftLeft(v: byte, k: nat): byte
    decreases k
  {
    if k == 0 then v else ShiftLeft(DoubledByte(v), k - 1)
  }

  predicate TopBit(v: byte) { v >= 128 }

  /** Reading the top bit and shifting, `n` times. */
  function TopBits(v: byte, n: nat): (r: seq<bool>)
    ensures |r| == n
    decreases n
  {
    if n == 0 then [] else [TopBit(v)] + TopBits(DoubledByte(v), n - 1)
  }

  lemma {:induction false} BitsValueHead(bits: seq<bool>)
    requires bits != []
    ensures BitsValue(bits) == (if bits[0] then Pow2(|bits| - 1) else 0) + BitsValue(bits[1..])
  {
    if |bits| > 1 {
      var front := bits[..|bits| - 1];
      BitsValueHead(front);
      assert bits[1..][..|bits| - 2] == front[1..];
    } else {
      assert bits[..0] == [] && bits[1..] == [];
    }
  }

  lemma SmallBitsValue(bits: seq<bool>)
    requires |bits| <= 8
    ensures BitsValue(bits) < 256
  {
    BitsValueBound(bits);
    Pow2Monotone(|bits|, 8);
    Pow2OfByte();
  }

  lemma {:induction false} Pow2Monotone(m: nat, n: nat)
    requires m <= n
    ensures Pow2(m) <= Pow2(n)
  {
    if m < n { Pow2Monotone(m, n - 1); }
  }

  lemma BitsValueSnoc(bits: seq<bool>, b: bool)
    ensures BitsValue(bits + [b]) == 2 * BitsValue(bits) + (if b then 1 else 0)
  {
    assert (bits + [b])[..|bits|] == bits;
  }

  function Zeros(n: nat): (z: seq<bool>)
    ensures |z| == n
  {
    seq(n, _ => false)
  }

  /** Shifting a partial byte up appends zero bits. */
  lemma {:induction false} ShiftLeftAppends(bits: seq<bool>, k: nat)
    requires |bits| + k <= 8
    ensures BitsValue(bits) < 256 && BitsValue(bits + Zeros(k)) < 256
    ensures ShiftLeft(BitsValue(bits), k) == BitsValue(bits + Zeros(k))
    decreases k
  {
    hide *;
    SmallBitsValue(bits);
    SmallBitsValue(bits + Zeros(k));
    ShiftOnce(BitsValue(bits), k);
    if k == 0 {
      NoZeros(bits);
    } else {
      SnocIsDoubled(bits);
      OneZeroMore(bits, k);
      ShiftLeftAppends(bits + [false], k - 1);
    }
  }

  lemma SnocIsDoubled(bits: seq<bool>)
    requires |bits| < 8
    ensures BitsValue(bits) < 256 && BitsValue(bits + [false]) < 256
    ensures DoubledByte(BitsValue(bits)) == BitsValue(bits + [false])
  {
    hide BitsValue, DoubledByte;
    SmallBitsValue(bits);
    SmallBitsValue(bits + [false]);
    BitsValueSnoc(bits, false);
    SmallDouble(BitsValue(bits));
  }

  lemma SmallDouble(v: byte)
    requires 2 * (v as int) < 256
    ensures DoubledByte(v) as int == 2 * (v as int)
  {}

  lemma NoZeros(bits: seq<bool>)
    ensures bits + Zeros(0) == bits
  {}

  lemma ShiftOnce(v: byte, k: nat)
    ensures ShiftLeft(v, k) == if k == 0 then v else ShiftLeft(DoubledByte(v), k - 1)
  {}

  lemma OneZeroMore(bits: seq<bool>, k: nat)
    requires k > 0
    ensures bits + [false] + Zeros(k - 1) == bits + Zeros(k)
  {}

  lemma Pow2OfByte()
    ensures Pow2(7) == 128 && Pow2(8) == 256
  {
    assert Pow2(4) == 16;
  }

  lemma TopBitArithmetic(x: int, tail: nat, b: bool)
    requires tail < 128 && x == tail + (if b then 128 else 0)
    ensures 0 <= x < 256 && TopBit(x) == b && DoubledByte(x) as int == 2 * tail
  {}

  /** The top bit of a full byte is its first boolean; shifting drops it. */
  lemma NextTopBit(w: seq<bool>)
    requires |w| == 8
    ensures BitsValue(w) < 256 && BitsValue(w[1..] + [false]) < 256
    ensures TopBit(BitsValue(w)) == w[0]
    ensures DoubledByte(BitsValue(w)) == BitsValue(w[1..] + [false])
  {
    var tail := w[1..];
    BitsValueHead(w);
    BitsValueBound(tail);
    Pow2OfByte();
    BitsValueSnoc(tail, false);
    TopBitArithmetic(BitsValue(w), BitsValue(tail), w[0]);
  }

  /** Reading a full byte from the top gives its bits in order. */
  lemma {:induction false} TopBitsOfByte(w: seq<bool>, n: nat)
    requires |w| == 8 && n <= 8
    ensures BitsValue(w) < 256 && TopBits(BitsValue(w), n) == w[..n]
    decreases n
  {
    NextTopBit(w);
    if n > 0 {
      var next := w[1..] + [false];
      TopBitsOfByte(next, n - 1);
      assert w[..n] == [w[0]] + next[..n - 1];
    }
  }

  /** Aligning a partial byte and reading it from the top gives the booleans back. */
  lemma TopBitsOfBitsValue(bits: seq<bool>)
    requires |bits| <= 8
    ensures BitsValue(bits) < 256
    ensures TopBits(ShiftLeft(BitsValue(bits), 8 - |bits|), |bits|) == bits
  {
    hide BitsValue, ShiftLeft, TopBits;
    var full := bits + Zeros(8 - |bits|);
    ShiftLeftAppends(bits, 8 - |bits|);
    TopBitsOfByte(full, |bits|);
    assert full[..|bits|] == bits;
  }

  // ---------- the bit vector ----------

  function ByteOf(bits: seq<bool>): (v: byte)
    requires |bits| <= 8
    ensures v as int == BitsValue(bits)
  {
    SmallBitsValue(bits);
    BitsValue(bits)
  }

  /** Whole bytes of eight booleans, then one for the remainder, if any. */
  function PackedBits(bits: seq<bool>): seq<byte>
  {
    if bits == [] then []
    else if |bits| < 8 then [ByteOf(bits)]
    else [ByteOf(bits[..8])] + PackedBits(bits[8..])
  }

  lemma {:induction false} PackedBitsLength(bits: seq<bool>)
    ensures |PackedBits(bits)| == (|bits| + 7) / 8
  {
    if |bits| >= 8 { PackedBitsLength(bits[8..]); }
  }

  lemma {:induction false} PackedBitsAppend(a: seq<bool>, b: seq<bool>, k: nat)
    requires |a| == 8 * k
    ensures PackedBits(a + b) == PackedBits(a) + PackedBits(b)
    decreases k
  {
    if k == 0 {
      assert a + b == b;
    } else {
      var ab := a + b;
      assert ab[..8] == a[..8] && ab[8..] == a[8..] + b;
      PackedBitsAppend(a[8..], b, k - 1);
      assert PackedBits(ab) == [ByteOf(a[..8])] + PackedBits(ab[8..]);
      assert PackedBits(a) == [ByteOf(a[..8])] + PackedBits(a[8..]);
    }
  }

  function Header(n: nat): seq<byte>
    requires n < 0x1_0000
  {
    [n % 256, n / 256]
  }

  /** A saved state `s` of the vector `bits`, as anyone who decodes it sees it. */
  ghost predicate Saves(s: string, bits: seq<bool>)
  {
    && |bits| < 0x1_0000
    && Decoded(s).Some?
    && Unpacked(Decoded(s).value) == Some(Header(|bits|) + PackedBits(bits))
  }

  /** What the packing loop has in `buf` and `v` after `i` booleans: `d - 2` whole bytes
      are stored and `v` holds the booleans since. */
  ghost predicate PackedSoFar(bits: seq<bool>, buf: seq<byte>, d: nat, v: byte, i: nat)
  {
    && 2 <= d <= |buf| == 2 + |PackedBits(bits)|
    && 8 * (d - 2) <= i < 8 * (d - 2) + 8
    && i <= |bits|
    && buf[2..d] == PackedBits(bits[..8 * (d - 2)])
    && v == BitsValue(bits[8 * (d - 2)..i])
  }

  lemma NextBit(bits: seq<bool>, start: nat, i: nat)
    requires start <= i < |bits| && i - start < 8
    ensures BitsValue(bits[start..i + 1]) == 2 * BitsValue(bits[start..i]) + (if bits[i] then 1 else 0)
    ensures BitsValue(bits[start..i + 1]) < 256
  {
    assert bits[start..i + 1][..i - start] == bits[start..i];
    SmallBitsValue(bits[start..i + 1]);
  }

  lemma NextByte(bits: seq<bool>, k: nat)
    requires 8 * k + 8 <= |bits|
    ensures PackedBits(bits[..8 * k + 8]) == PackedBits(bits[..8 * k]) + [ByteOf(bits[8 * k..8 * k + 8])]
  {
    var word := bits[8 * k..8 * k + 8];
    assert bits[..8 * k + 8] == bits[..8 * k] + word;
    PackedBitsAppend(bits[..8 * k], word, k);
    assert word[..8] == word && word[8..] == [];
  }

  lemma LastByte(bits: seq<bool>, k: nat)
    requires 8 * k <= |bits| < 8 * k + 8
    ensures PackedBits(bits) == PackedBits(bits[..8 * k]) + if 8 * k == |bits| then [] else [ByteOf(bits[8 * k..])]
  {
    assert bits == bits[..8 * k] + bits[8 * k..];
    PackedBitsAppend(bits[..8 * k], bits[8 * k..], k);
  }

  lemma PackedStep(bits: seq<bool>, buf: seq<byte>, d: nat, v: byte, i: nat)
    requires i < |bits| && PackedSoFar(bits, buf, d, v, i)
    ensures 2 <= d <= |buf| && (i % 8 == 7 <==> i == 8 * (d - 2) + 7)
    ensures 2 * (v as int) < 256
    ensures
      var next := 2 * (v as int) + if bits[i] then 1 else 0;
      && next < 256
      && (i % 8 != 7 ==> PackedSoFar(bits, buf, d, next, i + 1))
      && (i % 8 == 7 ==> d < |buf| && PackedSoFar(bits, buf[d := next], d + 1, 0, i + 1))
  {
    var start := 8 * (d - 2);
    NextBit(bits, start, i);
    PackedBitsLength(bits);
    hide PackedBits, BitsValue;
    if i == start + 7 {
      ByteDone(bits, buf, d, v, i);
    }
  }

  lemma ByteDone(bits: seq<bool>, buf: seq<byte>, d: nat, v: byte, i: nat)
    requires i < |bits| && PackedSoFar(bits, buf, d, v, i) && i == 8 * (d - 2) + 7
    requires d < |buf| && BitsValue(bits[8 * (d - 2)..i + 1]) < 256
    ensures PackedSoFar(bits, buf[d := BitsValue(bits[8 * (d - 2)..i + 1])], d + 1, 0, i + 1)
  {
    hide PackedBits, BitsValue;
    var next := BitsValue(bits[8 * (d - 2)..i + 1]);
    NextByte(bits, d - 2);
    NoBits(bits, i + 1);
    assert buf[d := next][2..d + 1] == buf[2..d] + [next];
  }

  lemma NoBits(bits: seq<bool>, i: nat)
    requires i <= |bits|
    ensures BitsValue(bits[i..i]) == 0
  {}

  lemma PackedEnd(bits: seq<bool>, buf: seq<byte>, d: nat, v: byte)
    requires PackedSoFar(bits, buf, d, v, |bits|)
    ensures 2 <= d <= |buf|
    ensures d == |buf| ==> buf[2..d] == PackedBits(bits)
    ensures d < |buf| ==> d + 1 == |buf| && buf[2..d] + [v] == PackedBits(bits)
  {
    hide PackedBits, BitsValue;
    assert bits[8 * (d - 2)..|bits|] == bits[8 * (d - 2)..];
    LastByte(bits, d - 2);
  }

  method PackBits(bits: seq<bool>) returns (buf: seq<byte>)
    requires |bits| < 0x1_0000
    ensures |buf| >= 2 && buf[..2] == Header(|bits|) && buf[2..] == PackedBits(bits)
  {
    hide PackedBits, BitsValue, PackedSoFar;
    buf := Header(|bits|) + seq((|bits| + 7) / 8, _ => 0);
    var v: byte := 0;
    var d := 2;
    PackedStart(bits, buf);
    for i := 0 to |bits|
      invariant |buf| >= 2 && buf[..2] == Header(|bits|)
      invariant 2 <= d && PackedSoFar(bits, buf, d, v, i)
    {
      PackedStep(bits, buf, d, v, i);
      v := DoubledByte(v);
      if bits[i] {
        v := v + 1;
      }
      if i % 8 == 7 {
        buf := buf[d := v];
        v := 0;
        d := d + 1;
      }
    }
    PackedEnd(bits, buf, d, v);
    if d < |buf| {
      ghost var whole := buf[2..d];
      buf := buf[d := v];
      assert buf[2..] == whole + [v];
    }
  }

  lemma PackedStart(bits: seq<bool>, buf: seq<byte>)
    requires |buf| == 2 + (|bits| + 7) / 8
    ensures PackedSoFar(bits, buf, 2, 0, 0)
  {
    PackedBitsLength(bits);
    assert buf[2..2] == PackedBits(bits[..0]);
  }

  method SerializeBits(bits: seq<bool>) returns (r: Option<string>)
    ensures r.Some? <==> |bits| <= 0xffff
    ensures r.Some? ==> Saves(r.value, bits) && ' ' !in r.value
  {
    if |bits| > 0xffff {
      return None;
    }
    var buf := PackBits(bits);
    assert buf == Header(|bits|) + PackedBits(bits);
    var packed := Packbits.Encode(buf);
    Base64RoundTrip(packed);
    return Some(Encoded(packed));
  }

  // ---------- reading the vector back ----------

  /** Fills `vec` from the packed bytes: eight booleans a byte while eight are left, then the
      remaining ones from the last byte moved up. */
  function Filled(vec: seq<bool>, i: nat, bytes: seq<byte>): (r: seq<bool>)
    requires i <= |vec|
    ensures |r| == |vec|
    decreases |bytes|
  {
    if bytes == [] then vec
    else if i + 7 < |vec| then
      Filled(vec[..i] + TopBits(bytes[0], 8) + vec[i + 8..], i + 8, bytes[1..])
    else
      Filled(vec[..i] + TopBits(ShiftLeft(bytes[0], 8 - (|vec| - i)), |vec| - i), |vec|, bytes[1..])
  }

  lemma FillWholeByte(vec: seq<bool>, i: nat, bits: seq<bool>)
    requires i + |bits| == |vec| && |bits| >= 8
    ensures Filled(vec, i, PackedBits(bits)) == Filled(vec[..i] + bits[..8] + vec[i + 8..], i + 8, PackedBits(bits[8..]))
  {
    var word, packed := bits[..8], PackedBits(bits);
    TopBitsOfByte(word, 8);
    assert packed[0] == BitsValue(word) && packed[1..] == PackedBits(bits[8..]);
    assert word[..8] == word;
  }

  lemma FillPartialByte(vec: seq<bool>, i: nat, bits: seq<bool>)
    requires i + |bits| == |vec| && 0 < |bits| < 8
    ensures Filled(vec, i, PackedBits(bits)) == vec[..i] + bits
  {
    TopBitsOfBitsValue(bits);
    assert PackedBits(bits) == [BitsValue(bits)];
    assert [BitsValue(bits)][1..] == [];
  }

  lemma SpliceWholeByte(vec: seq<bool>, i: nat, bits: seq<bool>)
    requires i + |bits| == |vec| && |bits| >= 8
    ensures (vec[..i] + bits[..8] + vec[i + 8..])[..i + 8] + bits[8..] == vec[..i] + bits
  {
    assert (vec[..i] + bits[..8] + vec[i + 8..])[..i + 8] == vec[..i] + bits[..8];
  }

  /** Filling from the packed form of `bits` overwrites everything with `bits`. */
  lemma {:induction false} FilledFromPacked(vec: seq<bool>, i: nat, bits: seq<bool>)
    requires i + |bits| == |vec|
    ensures Filled(vec, i, PackedBits(bits)) == vec[..i] + bits
    decreases |bits|
  {
    if bits == [] {
      assert vec[..i] + bits == vec;
    } else if |bits| < 8 {
      FillPartialByte(vec, i, bits);
    } else {
      FillWholeByte(vec, i, bits);
      var next := vec[..i] + bits[..8] + vec[i + 8..];
      FilledFromPacked(next, i + 8, bits[8..]);
      SpliceWholeByte(vec, i, bits);
    }
  }

  /** A decoded buffer shorter than its two-byte header makes the source panic. */
  datatype Outcome<+T> = Ok(value: T) | Failed | Panics

  function DecodedBuffer(s: string): Option<seq<byte>>
  {
    match Decoded(s) case None => None case Some(b) => Unpacked(b)
  }

  function HeaderLength(buf: seq<byte>): nat
    requires |buf| >= 2
  {
    buf[0] as int + 256 * (buf[1] as int)
  }

  method DeserializeBits(s: string) returns (r: Option<seq<byte>>)
    ensures r == DecodedBuffer(s)
  {
    match Decoded(s)
    case None => return None;
    case Some(b) => r := Packbits.Decode(b);
  }

  /** Decoding a saved vector restores exactly that vector, whatever it overwrites. */
  lemma SavedIsRestored(s: string, bits: seq<bool>, vec: seq<bool>)
    requires Saves(s, bits) && |vec| == |bits|
    ensures
      var buf := DecodedBuffer(s);
      && buf.Some? && |buf.value| >= 2
      && HeaderLength(buf.value) == |bits|
      && Filled(vec, 0, buf.value[2..]) == bits
  {
    var buf := DecodedBuffer(s).value;
    assert buf[0] == |bits| % 256 && buf[1] == |bits| / 256;
    assert buf[2..] == PackedBits(bits);
    FilledFromPacked(vec, 0, bits);
    assert vec[..0] + bits == bits;
  }

  lemma SavedLength(s: string, bits: seq<bool>)
    requires Saves(s, bits)
    ensures
      var buf := DecodedBuffer(s).value;
      |buf| == 2 + (|bits| + 7) / 8 && HeaderLength(buf) == |bits|
  {
    PackedBitsLength(bits);
    SavedIsRestored(s, bits, bits);
  }

  /** The inner loop that reads the last, partial byte. */
  method FillTail(b0: seq<bool>, i0: nat, v0: byte) returns (b: seq<bool>)
    requires i0 <= |b0|
    ensures b == b0[..i0] + TopBits(v0, |b0| - i0)
  {
    hide TopBits;
    b := b0;
    var i, v := i0, v0;
    while i < |b|
      invariant i0 <= i <= |b| == |b0|
      invariant b[..i] + TopBits(v, |b| - i) == b0[..i0] + TopBits(v0, |b| - i0)
    {
      ghost var before := b[..i];
      b := b[i := TopBit(v)];
      assert b[..i + 1] == before + [TopBit(v)];
      NextTopBits(v, |b| - i);
      v := DoubledByte(v);
      i := i + 1;
    }
    NextTopBits(v, 0);
    assert b[..i] == b;
  }

  lemma NextTopBits(v: byte, n: nat)
    ensures TopBits(v, n) == if n == 0 then [] else [TopBit(v)] + TopBits(DoubledByte(v), n - 1)
  {}

  method DeserializeBitsAsBool(s: string) returns (r: Outcome<seq<bool>>)
    ensures DecodedBuffer(s).None? <==> r.Failed?
    ensures DecodedBuffer(s).Some? && |DecodedBuffer(s).value| < 2 <==> r.Panics?
    ensures r.Ok? ==>
      var buf := DecodedBuffer(s).value;
      r.value == Filled(Zeros(HeaderLength(buf)), 0, buf[2..])
  {
    var decoded := DeserializeBits(s);
    if decoded.None? {
      return Failed;
    }
    var buf := decoded.value;
    if |buf| < 2 {
      return Panics;
    }
    var b := Zeros(HeaderLength(buf));
    var i: nat := 0;
    for d := 2 to |buf|
      invariant i <= |b|
      invariant Filled(b, i, buf[d..]) == Filled(Zeros(HeaderLength(buf)), 0, buf[2..])
    {
      var v := buf[d];
      assert buf[d..][1..] == buf[d + 1..];
      if i + 7 < |b| {
        b := b[..i] + TopBits(v, 8) + b[i + 8..];
        i := i + 8;
        continue;
      }
      b := FillTail(b, i, ShiftLeft(v, 8 - (|b| - i)));
      i := |b|;
    }
    return Ok(b);
  }

  /** `deserializeBitsAsBool` undoes `serializeBits` for every vector it accepts. */
  method RoundTrip(bits: seq<bool>) returns (r: Outcome<seq<bool>>)
    requires |bits| <= 0xffff
    ensures r == Ok(bits)
  {
    var s := SerializeBits(bits);
    SavedIsRestored(s.value, bits, Zeros(|bits|));
    r := DeserializeBitsAsBool(s.value);
  }

  /** Two vectors saved as the same text are the same vector. */
  lemma SavesInjective(s: string, a: seq<bool>, b: seq<bool>)
    requires Saves(s, a) && Saves(s, b)
    ensures a == b
  {
    SavedIsRestored(s, a, a);
    SavedIsRestored(s, b, b);
    SavedIsRestored(s, b, a);
  }
}
