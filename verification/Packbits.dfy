/** Run-length coding of `src/go/img/internal/packbits/packbits.go`. */
module Packbits {
  import opened Names

  type byte = x: int | 0 <= x < 256

  // ---------- the format ----------

  function Repeat(c: byte, n: nat): (r: seq<byte>)
    ensures |r| == n
    ensures forall k :: 0 <= k < n ==> r[k] == c
  {
    seq(n, _ => c)
  }

  function Prepended(front: seq<byte>, r: Option<seq<byte>>): Option<seq<byte>>
  {
    match r case None => None case Some(t) => Some(front + t)
  }

  lemma PrependedNothing(r: Option<seq<byte>>)
    ensures Prepended([], r) == r
  {
    if r.Some? {
      assert [] + r.value == r.value;
    }
  }

  lemma PrependedTwice(a: seq<byte>, b: seq<byte>, r: Option<seq<byte>>)
    ensures Prepended(a, Prepended(b, r)) == Prepended(a + b, r)
  {
    if r.Some? {
      assert a + (b + r.value) == a + b + r.value;
    }
  }

  function BlockLength(header: byte): (n: nat)
    ensures n > 1
  {
    if header < 128 then 2 else 257 - header
  }

  /** A header below 128 repeats the next byte that many times; any other header `h` is
      followed by `256 - h` literal bytes. */
  function BlockBytes(s: seq<byte>): seq<byte>
    requires |s| > 0 && |s| >= BlockLength(s[0])
  {
    if s[0] < 128 then Repeat(s[1], s[0]) else s[1..BlockLength(s[0])]
  }

  /** The bytes a packed sequence stands for, unless its last block is cut short. */
  function Unpacked(s: seq<byte>): Option<seq<byte>>
    decreases |s|
  {
    if s == [] then Some([])
    else if |s| < BlockLength(s[0]) then None
    else Prepended(BlockBytes(s), Unpacked(s[BlockLength(s[0])..]))
  }

  /** Well-formed packed sequences may be concatenated. */
  lemma {:induction false} UnpackedAppend(s: seq<byte>, t: seq<byte>)
    requires Unpacked(s).Some?
    ensures Unpacked(s + t) == Prepended(Unpacked(s).value, Unpacked(t))
    decreases |s|
  {
    if s == [] {
      assert s + t == t;
      PrependedNothing(Unpacked(t));
    } else {
      var k := BlockLength(s[0]);
      var rest := s[k..];
      assert (s + t)[k..] == rest + t;
      UnpackedAppend(rest, t);
      assert BlockBytes(s + t) == BlockBytes(s);
      PrependedTwice(BlockBytes(s), Unpacked(rest).value, Unpacked(t));
    }
  }

  /** A single block, as the encoder writes it. */
  lemma OneBlock(s: seq<byte>)
    requires |s| > 0 && |s| == BlockLength(s[0])
    ensures Unpacked(s) == Some(BlockBytes(s))
  {
    assert s[|s|..] == [];
    assert BlockBytes(s) + [] == BlockBytes(s);
  }

  lemma RunBlock(c: byte, n: nat)
    requires n < 128
    ensures Unpacked([n, c]) == Some(Repeat(c, n))
  {
    OneBlock([n, c]);
  }

  lemma LiteralBlock(lit: seq<byte>)
    requires 1 <= |lit| <= 128
    ensures Unpacked([256 - |lit|] + lit) == Some(lit)
  {
    hide Unpacked, Repeat;
    var s: seq<byte> := [256 - |lit|] + lit;
    assert s[0] == 256 - |lit| && BlockLength(s[0]) == |s|;
    OneBlock(s);
    assert s[1..|s|] == lit;
  }

  // ---------- Decode ----------

  method AppendRepeated(r0: seq<byte>, c: byte, n0: nat) returns (r: seq<byte>)
    ensures r == r0 + Repeat(c, n0)
  {
    r := r0;
    var n := n0;
    while n > 0
      invariant 0 <= n <= n0
      invariant r == r0 + Repeat(c, n0 - n)
    {
      r := r + [c];
      n := n - 1;
    }
  }

  /** One block further on, `k` is where the block at `i` ends and `bytes` what it stands for. */
  lemma BlockAt(b: seq<byte>, i: nat, k: nat, bytes: seq<byte>, r: seq<byte>)
    requires i < |b| && k == i + BlockLength(b[i])
    requires k <= |b| ==> bytes == if b[i] < 128 then Repeat(b[i + 1], b[i]) else b[i + 1..k]
    ensures k > |b| ==> Unpacked(b[i..]).None?
    ensures k <= |b| ==> Prepended(r, Unpacked(b[i..])) == Prepended(r + bytes, Unpacked(b[k..]))
  {
    var rest := b[i..];
    if k <= |b| {
      assert rest[k - i..] == b[k..];
      assert BlockBytes(rest) == bytes;
      PrependedTwice(r, bytes, Unpacked(b[k..]));
    }
  }

  /** One turn of the decoding loop: the grown output and the start of the next block. */
  method DecodeBlock(b: seq<byte>, i0: nat, out: seq<byte>) returns (r: Option<(seq<byte>, nat)>)
    requires i0 < |b|
    ensures r.None? ==> Unpacked(b[i0..]).None?
    ensures r.Some? ==>
      && i0 < r.value.1 <= |b|
      && Prepended(out, Unpacked(b[i0..])) == Prepended(r.value.0, Unpacked(b[r.value.1..]))
  {
    hide Unpacked, Repeat, Prepended;
    var c := b[i0];
    var i := i0 + 1;
    if c < 128 {
      if i >= |b| {
        BlockAt(b, i0, i0 + 2, [], out);
        return None;
      }
      BlockAt(b, i0, i + 1, Repeat(b[i], c), out);
      var grown := AppendRepeated(out, b[i], c);
      return Some((grown, i + 1));
    } else {
      var n := 256 - c;
      if i + n > |b| {
        BlockAt(b, i0, i + n, [], out);
        return None;
      }
      BlockAt(b, i0, i + n, b[i..i + n], out);
      return Some((out + b[i..i + n], i + n));
    }
  }

  method Decode(b: seq<byte>) returns (r: Option<seq<byte>>)
    ensures r == Unpacked(b)
  {
    var out: seq<byte> := [];
    var i := 0;
    assert b[0..] == b;
    PrependedNothing(Unpacked(b));
    while i < |b|
      invariant 0 <= i <= |b|
      invariant Unpacked(b) == Prepended(out, Unpacked(b[i..]))
    {
      var block := DecodeBlock(b, i, out);
      if block.None? {
        return None;
      }
      out, i := block.value.0, block.value.1;
    }
    assert b[i..] == [] && out + [] == out;
    return Some(out);
  }

  // ---------- Encode ----------

  /** Everything up to `pos` has been written, and `r` is not too long for it: a literal
      segment may cost two thirds of a byte too much, a run always pays that back. */
  ghost predicate Written(b: seq<byte>, r: seq<byte>, pos: nat, literal: bool)
  {
    && pos <= |b|
    && Unpacked(r) == Some(b[..pos])
    && 3 * |r| <= 4 * pos + (if literal then 2 else 0)
  }

  ghost predicate AllEqual(b: seq<byte>, from: nat, to: nat, c: byte)
  {
    from <= to <= |b| && forall k :: from <= k < to ==> b[k] == c
  }

  /** Appends the run `b[pos..i]` in blocks of at most 127. */
  method AppendRun(r0: seq<byte>, b: seq<byte>, pos0: nat, i: nat, c: byte, ghost literal: bool) returns (r: seq<byte>)
    requires pos0 + 2 <= i && AllEqual(b, pos0, i, c)
    requires Written(b, r0, pos0, literal)
    ensures Written(b, r, i, false)
  {
    hide Unpacked;
    r := r0;
    var pos := pos0;
    while i - pos > 127
      invariant pos0 <= pos < i
      invariant Unpacked(r) == Some(b[..pos])
      invariant 3 * |r| <= 4 * pos + 2
      invariant pos > pos0 ==> 3 * |r| + 6 <= 4 * pos
    {
      AppendedRun(r, b, pos, pos + 127, c);
      r := r + [127, c];
      pos := pos + 127;
    }
    if i - pos > 0 {
      AppendedRun(r, b, pos, i, c);
      r := r + [i - pos, c];
    }
  }

  lemma AppendedRun(r: seq<byte>, b: seq<byte>, pos: nat, next: nat, c: byte)
    requires pos < next && next - pos < 128 && AllEqual(b, pos, next, c)
    requires Unpacked(r) == Some(b[..pos])
    ensures Unpacked(r + [next - pos, c]) == Some(b[..next])
  {
    RunBlock(c, next - pos);
    hide Unpacked;
    UnpackedAppend(r, [next - pos, c]);
    RepeatIsRun(b, pos, next, c);
  }

  lemma RepeatIsRun(b: seq<byte>, pos: nat, next: nat, c: byte)
    requires AllEqual(b, pos, next, c)
    ensures b[..pos] + Repeat(c, next - pos) == b[..next]
  {}

  lemma AppendedLiteral(r: seq<byte>, b: seq<byte>, pos: nat, next: nat)
    requires pos < next <= |b| && next - pos <= 128
    requires Unpacked(r) == Some(b[..pos])
    ensures Unpacked(r + ([256 - (next - pos)] + b[pos..next])) == Some(b[..next])
  {
    hide Unpacked;
    LiteralBlock(b[pos..next]);
    UnpackedAppend(r, [256 - (next - pos)] + b[pos..next]);
    assert b[..pos] + b[pos..next] == b[..next];
  }

  /** Appends `b[pos..i]` in literal blocks of at most 128; the header is `byte(-int8(n))`,
      which is 128 both for the full block and for the wrapped `int8(128)`. */
  method AppendLiteral(r0: seq<byte>, b: seq<byte>, pos0: nat, i: nat) returns (r: seq<byte>)
    requires pos0 < i <= |b|
    requires Written(b, r0, pos0, false)
    ensures Written(b, r, i, true)
  {
    hide Unpacked;
    r := r0;
    var pos := pos0;
    while i - pos > 128
      invariant pos0 <= pos < i
      invariant Unpacked(r) == Some(b[..pos])
      invariant 3 * |r| <= 4 * pos
    {
      AppendedLiteral(r, b, pos, pos + 128);
      r := r + ([128] + b[pos..pos + 128]);
      pos := pos + 128;
    }
    if i - pos > 0 {
      AppendedLiteral(r, b, pos, i);
      r := r + ([NegatedInt8(i - pos)] + b[pos..i]);
    }
  }

  /** `byte(-int8(n))` for a block length: `int8` wraps 128 to -128, whose negation wraps again. */
  function NegatedInt8(n: nat): (h: byte)
    requires 1 <= n <= 128
    ensures h == 256 - n
  {
    var asInt8 := if n < 128 then n else n - 256;
    var negated := if asInt8 == -128 then -128 else -asInt8;
    negated % 256
  }

  /** Decoding gives the input back, and the output is at most a third longer plus one byte. */
  method Encode(b: seq<byte>) returns (r: seq<byte>)
    ensures Unpacked(r) == Some(b)
    ensures 3 * |r| <= 4 * |b| + 2
  {
    if |b| == 0 {
      return [];
    } else if |b| == 1 {
      LiteralBlock(b);
      assert [255, b[0]] == [255] + b;
      return [255, b[0]];
    } else if |b| == 2 {
      if b[0] == b[1] {
        RunBlock(b[0], 2);
        assert Repeat(b[0], 2) == b;
        return [2, b[0]];
      }
      LiteralBlock(b);
      assert [254, b[0], b[1]] == [254] + b;
      return [254, b[0], b[1]];
    }
    r := [];
    assert b[..0] == [];
    hide Unpacked, Repeat;
    var pos, i := 0, 1;
    var c: byte := 0;
    ghost var literal := false;
    while i < |b|
      invariant 0 <= pos < i <= |b|
      invariant Written(b, r, pos, literal)
      invariant literal && pos == i - 1 ==> i < |b| && b[i - 1] == b[i]
      invariant i < |b| ==> pos == i - 1
      invariant i == |b| && b[i - 2] == b[i - 1] ==> pos <= i - 2 && AllEqual(b, pos, i, c)
      invariant i == |b| && b[i - 2] != b[i - 1] ==> !literal
    {
      var repeated := b[i - 1] == b[i];
      if repeated {
        c := b[i];
        while i < |b|
          invariant pos < i <= |b|
          invariant i == |b| ==> i >= pos + 2
          invariant AllEqual(b, pos, i, c)
          invariant i == pos + 1 ==> i < |b| && b[i] == c
        {
          if c == b[i] {
            i := i + 1;
            continue;
          }
          r := AppendRun(r, b, pos, i, c, literal);
          literal := false;
          pos := i;
          i := i + 1;
          break;
        }
      } else {
        while i < |b|
          invariant pos < i <= |b|
          invariant !literal && Written(b, r, pos, false)
          invariant i == pos + 1 ==> i < |b| && b[i - 1] != b[i]
          invariant forall k :: pos < k < i ==> b[k - 1] != b[k]
        {
          if b[i - 1] != b[i] {
            i := i + 1;
            continue;
          }
          i := i - 1;
          r := AppendLiteral(r, b, pos, i);
          literal := true;
          pos := i;
          i := i + 1;
          break;
        }
      }
    }
    if pos != i {
      var repeated := b[i - 2] == b[i - 1];
      if repeated {
        r := AppendRun(r, b, pos, i, c, literal);
      } else {
        r := AppendLiteral(r, b, pos, i);
      }
    }
    assert b[..|b|] == b;
  }
}
