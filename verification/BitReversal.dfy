/** The bit-reversal stage of the FFT: `makeipt` and `bitrv2` of `src/c/3rd/fft/fftsg.c`.
    The float array holds complex numbers as pairs; its element type is left open. */
module BitReversal {
  import opened Powers

  // ---------- reversal of the low bits of a number ----------

  /** The `bits` low bits of `i` in opposite order. */
  function Rev(bits: nat, i: nat): nat
  {
    if bits == 0 then 0 else (i % 2) * Pow2(bits - 1) + Rev(bits - 1, i / 2)
  }

  lemma {:induction false} RevBound(bits: nat, i: nat)
    ensures Rev(bits, i) < Pow2(bits)
  {
    if bits > 0 {
      RevBound(bits - 1, i / 2);
      assert i % 2 == 0 || i % 2 == 1;
    }
  }

  /** A low field below a high one. */
  function Up(low: nat, size: nat, high: nat): nat { low + size * high }

  /** A field of low bits becomes a field of high bits, each reversed on its own. */
  lemma {:induction false} RevFields(p: nat, q: nat, x: nat, y: nat)
    requires x < Pow2(p)
    ensures Rev(p + q, x + Pow2(p) * y) == Rev(q, y) + Pow2(q) * Rev(p, x)
  {
    if p == 0 {
      NoField(q, x, y);
    } else {
      var h, i := Pow2(p - 1), x + Pow2(p) * y;
      Halves(x, h, y);
      assert Rev(p, x) == x % 2 * h + Rev(p - 1, x / 2);
      assert Rev(p + q, i) == i % 2 * Pow2(p + q - 1) + Rev(p + q - 1, i / 2);
      RevFields(p - 1, q, x / 2, y);
      Pow2Add(p - 1, q);
      hide Rev, Pow2;
      Distribute(x % 2, h, Pow2(q), Rev(p - 1, x / 2));
    }
  }

  lemma NoField(q: nat, x: nat, y: nat)
    requires x < Pow2(0)
    ensures Rev(q, x + Pow2(0) * y) == Rev(q, y) + Pow2(q) * Rev(0, x)
  {
    assert x == 0 && Pow2(0) * y == y && Rev(0, x) == 0;
  }

  lemma Halves(x: nat, h: nat, y: nat)
    ensures (x + 2 * h * y) % 2 == x % 2 && (x + 2 * h * y) / 2 == x / 2 + h * y
  {
    var k := h * y;
    assert 2 * h * y == 2 * k;
  }

  lemma Distribute(b: int, h: int, w: int, r: int)
    ensures b * (h * w) + w * r == w * (b * h + r)
  {}

  lemma RevOne(d: nat)
    requires d < 2
    ensures Rev(1, d) == d
  {
    assert Rev(0, d / 2) == 0 && Pow2(0) == 1;
  }

  /** A field of high bits becomes a field of low bits. */
  lemma RevTopBit(bits: nat, x: nat, d: nat)
    requires x < Pow2(bits) && d < 2
    ensures Rev(bits + 1, x + Pow2(bits) * d) == d + 2 * Rev(bits, x)
  {
    RevFields(bits, 1, x, d);
    RevOne(d);
    assert Pow2(1) == 2 * Pow2(0);
  }

  lemma RevUnfold(bits: nat, i: nat)
    requires bits > 0 && i < Pow2(bits)
    ensures Rev(bits, i) == Up(Rev(bits - 1, i / 2), Pow2(bits - 1), i % 2) && i / 2 < Pow2(bits - 1)
    ensures i == Up(i % 2, 2, i / 2) && Pow2(1) == 2
  {
    assert Pow2(1) == 2 * Pow2(0);
  }

  /** Reversing twice gives the number back. */
  lemma {:induction false} RevTwice(bits: nat, i: nat)
    requires i < Pow2(bits)
    ensures Rev(bits, Rev(bits, i)) == i
  {
    hide *;
    if bits > 0 {
      var n, d := bits - 1, i % 2;
      RevUnfold(bits, i);
      var x := Rev(n, i / 2);
      RevTwice(n, i / 2);
      RevBound(n, i / 2);
      assert Rev(bits, i) == Up(x, Pow2(n), d);
      RevUp(n, 1, x, d);
      RevOne(d);
    } else {
      RevNone(i);
    }
  }

  lemma RevNone(i: nat)
    ensures Rev(0, i) == 0 && Pow2(0) == 1
  {}

  // ---------- the table ----------

  /** Level `e` of the table: entry `m + k` holds `8 * m * rev(k)`, where `m = 2^e`. */
  ghost predicate LevelOk(ip: seq<int>, e: nat)
  {
    && 2 * Pow2(e) <= |ip|
    && forall k: nat :: k < Pow2(e) ==> ip[Pow2(e) + k] == 8 * (Pow2(e) * Rev(e, k))
  }

  /** The exponent of the last level that `makeipt(nw)` fills. */
  function TopLevel(nw: nat): (e: nat)
    ensures e >= 1
  {
    if nw > 32 then 1 + TopLevel(nw / 4) else 1
  }

  lemma LevelOne(ip: seq<int>)
    requires |ip| >= 4 && ip[2] == 0 && ip[3] == 16
    ensures LevelOk(ip, 1)
  {
    assert Pow2(1) == 2 && Rev(1, 0) == 0;
    RevOne(1);
    RevOne(0);
  }

  /** Doubling: the lower half of the next level is even, the upper half odd. */
  lemma Double(e: nat, k: nat, v: int)
    requires k < Pow2(e) && v == 8 * (Pow2(e) * Rev(e, k))
    ensures 4 * v == 8 * (Pow2(e + 1) * Rev(e + 1, k))
    ensures 4 * v + 16 * Pow2(e) == 8 * (Pow2(e + 1) * Rev(e + 1, Pow2(e) + k))
  {
    hide Rev;
    var m, r := Pow2(e), Rev(e, k);
    RevTopBit(e, k, 0);
    RevTopBit(e, k, 1);
    assert Pow2(e + 1) == 2 * m;
    DoubleProduct(m, r);
  }

  lemma DoubleProduct(m: int, r: int)
    ensures (2 * m) * (2 * r) == 4 * (m * r)
    ensures (2 * m) * (1 + 2 * r) == 4 * (m * r) + 2 * m
  {}

  lemma NextLevel(ip: seq<int>, next: seq<int>, e: nat, m: nat)
    requires LevelOk(ip, e) && |next| == |ip| && m == Pow2(e) && 4 * m <= |ip|
    requires forall j :: m <= j < 2 * m ==> next[m + j] == 4 * ip[j]
    requires forall j :: m <= j < 2 * m ==> next[2 * m + j] == 4 * ip[j] + 16 * m
    ensures LevelOk(next, e + 1)
  {
    var f := e + 1;
    assert Pow2(f) == 2 * m;
    forall k: nat | k < 2 * m
      ensures next[2 * m + k] == 8 * (Pow2(f) * Rev(f, k))
    {
      var h := if k < m then k else k - m;
      Double(e, h, ip[m + h]);
      assert next[m + (m + h)] == 4 * ip[m + h];
      assert next[2 * m + (m + h)] == 4 * ip[m + h] + 16 * m;
    }
  }

  ghost predicate LevelsOk(ip: seq<int>, top: nat)
  {
    forall e :: 1 <= e <= top ==> LevelOk(ip, e)
  }

  /** A level survives when only later entries change. */
  lemma LevelKept(ip: seq<int>, next: seq<int>, e: nat, top: nat)
    requires e <= top && LevelOk(ip, e) && |next| == |ip| && 2 * Pow2(top) <= |ip|
    requires ip[..2 * Pow2(top)] == next[..2 * Pow2(top)]
    ensures LevelOk(next, e)
  {
    Pow2Add(e, top - e);
    assert Pow2(e) * Pow2(top - e) >= Pow2(e);
    forall j | 0 <= j < 2 * Pow2(top)
      ensures next[j] == ip[j]
    {
      assert next[..2 * Pow2(top)][j] == ip[..2 * Pow2(top)][j];
    }
  }

  lemma {:induction false} TopLevelSquare(nw: nat)
    requires nw > 32
    ensures 2 * (Pow2(TopLevel(nw)) * Pow2(TopLevel(nw))) <= nw
  {
    var q := Pow2(TopLevel(nw / 4));
    assert Pow2(TopLevel(nw)) == 2 * q;
    assert (2 * q) * (2 * q) == 4 * (q * q);
    if nw / 4 > 32 {
      TopLevelSquare(nw / 4);
    } else {
      assert q == 2 by {
        assert TopLevel(nw / 4) == 1 && Pow2(1) == 2 * Pow2(0);
      }
    }
  }

  /** The documented length of the work area, `2 + sqrt(2 * nw)`, leaves room for every level. */
  lemma DocumentedRoom(len: nat, nw: nat)
    requires nw >= 2 && len >= 2 && (len - 2) * (len - 2) >= 2 * nw
    ensures 2 * Pow2(TopLevel(nw)) <= len
  {
    var m := Pow2(TopLevel(nw));
    if nw > 32 {
      TopLevelSquare(nw);
      assert (2 * m) * (2 * m) == 4 * (m * m);
      SquareRoot(2 * m, len - 2);
    } else {
      assert m == 2 * Pow2(0);
      SquareRoot(2, len - 2);
    }
  }

  lemma SquareRoot(a: nat, b: nat)
    requires a * a <= b * b
    ensures a <= b
  {
    if b < a {
      MulGap(b, b, a);
      MulGap(a, b, a);
    }
  }

  lemma LaterIsLarger(d: nat, e: nat)
    requires d <= e
    ensures Pow2(d) <= Pow2(e)
  {
    Pow2Add(d, e - d);
    assert Pow2(d) * Pow2(e - d) >= Pow2(d);
  }

  /** Fills every level, each from the one before. */
  method MakeIpt(nw: nat, ip: array<int>)
    requires 2 * Pow2(TopLevel(nw)) <= ip.Length
    modifies ip
    ensures LevelsOk(ip[..], TopLevel(nw))
    ensures ip[..2] == old(ip[..2])
  {
    LaterIsLarger(1, TopLevel(nw));
    assert Pow2(1) == 2 * Pow2(0);
    ip[2] := 0;
    ip[3] := 16;
    LevelOne(ip[..]);
    var m: nat, l: nat := 2, nw;
    ghost var e := 1;
    while l > 32
      invariant e >= 1 && m == Pow2(e)
      invariant e - 1 + TopLevel(l) == TopLevel(nw)
      invariant LevelsOk(ip[..], e)
      invariant ip[..2] == old(ip[..2])
      decreases l
    {
      LaterIsLarger(e + 1, TopLevel(nw));
      FillLevel(ip, m, e);
      m, l, e := 2 * m, l / 4, e + 1;
    }
  }

  /** One pass of the outer loop. */
  method FillLevel(ip: array<int>, m: nat, ghost e: nat)
    requires e >= 1 && m == Pow2(e) && 4 * m <= ip.Length && LevelsOk(ip[..], e)
    modifies ip
    ensures LevelsOk(ip[..], e + 1)
    ensures ip[..2] == old(ip[..2])
  {
    ghost var before := ip[..];
    assert LevelOk(before, e);
    var m2 := 2 * m;
    var q := 8 * m2;
    for j := m to m2
      invariant ip[..m2] == before[..m2]
      invariant forall i :: m <= i < j ==> ip[m + i] == 4 * before[i]
      invariant forall i :: m <= i < j ==> ip[m2 + i] == 4 * before[i] + 16 * m
    {
      var p := 4 * ip[j];
      assert ip[..m2][j] == before[..m2][j];
      ip[m + j] := p;
      ip[m2 + j] := p + q;
    }
    NextLevel(before, ip[..], e, m);
    forall d | 1 <= d <= e + 1
      ensures LevelOk(ip[..], d)
    {
      if d <= e {
        LevelKept(before, ip[..], d, e);
      }
    }
    assert ip[..2] == ip[..m2][..2] && before[..2] == before[..m2][..2];
  }

  // ---------- the fields of an index ----------

  /** Index `b + 2*j + 2*m*c + 2*m*W*r + 2*m*m*W*d` of a complex number, where `m = 2^e`, `W = 2^w` and
      `k` is the reversal of `r`. */
  datatype Fields = Fields(b: nat, j: nat, c: nat, k: nat, d: nat)

  ghost predicate Within(f: Fields, e: nat, w: nat)
  {
    f.b < 2 && f.j < Pow2(e) && f.c < Pow2(w) && f.k < Pow2(e) && f.d < 2
  }

  function Bits(e: nat, w: nat): nat { 2 * e + w + 2 }

  function Index(f: Fields, e: nat, w: nat): nat
  {
    Up(f.b, 2, Up(f.j, Pow2(e), Up(f.c, Pow2(w), Up(Rev(e, f.k), Pow2(e), f.d))))
  }

  function Quot(i: nat, a: nat): nat
    requires a > 0
  {
    i / a
  }

  function Rem(i: nat, a: nat): (r: nat)
    requires a > 0
    ensures r < a
  {
    i % a
  }

  function FieldsOf(i: nat, e: nat, w: nat): Fields
  {
    var x := Quot(i, 2);
    var y := Quot(x, Pow2(e));
    var z := Quot(y, Pow2(w));
    Fields(Rem(i, 2), Rem(x, Pow2(e)), Rem(y, Pow2(w)), Rev(e, Rem(z, Pow2(e))), Quot(z, Pow2(e)))
  }

  function Mirror(f: Fields, w: nat): Fields
  {
    Fields(f.d, f.k, Rev(w, f.c), f.j, f.b)
  }

  lemma Split(i: nat, a: nat)
    requires a > 0
    ensures i == Up(Rem(i, a), a, Quot(i, a))
  {}

  lemma {:induction false} MulGap(a: nat, q: nat, p: nat)
    requires q < p
    ensures a * q + a <= a * p
    decreases p
  {
    assert a * p == a * (p - 1) + a;
    if q < p - 1 {
      MulGap(a, q, p - 1);
    }
  }

  lemma UniqueSplit(a: nat, q: nat, r: nat, p: nat, s: nat)
    requires r < a && s < a && r + a * q == s + a * p
    ensures q == p && r == s
  {
    if q < p {
      MulGap(a, q, p);
    } else if p < q {
      MulGap(a, p, q);
    }
  }

  lemma SplitOf(x: nat, a: nat, y: nat)
    requires x < a
    ensures Quot(Up(x, a, y), a) == y && Rem(Up(x, a, y), a) == x
  {
    hide Quot, Rem;
    var i := Up(x, a, y);
    Split(i, a);
    UniqueSplit(a, Quot(i, a), Rem(i, a), y, x);
  }

  lemma QuotBelow(i: nat, a: nat, b: nat)
    requires a > 0 && i < a * b
    ensures Quot(i, a) < b
  {
    hide Quot, Rem;
    Split(i, a);
    var q := Quot(i, a);
    if q > b {
      MulGap(a, b, q);
    }
  }

  lemma FieldsOfIndex(f: Fields, e: nat, w: nat)
    requires Within(f, e, w)
    ensures FieldsOf(Index(f, e, w), e, w) == f
  {
    hide Pow2, Rev, Quot, Rem, Up;
    var m, r := Pow2(e), Rev(e, f.k);
    RevBound(e, f.k);
    RevTwice(e, f.k);
    SplitOf(r, m, f.d);
    var z := Up(r, m, f.d);
    SplitOf(f.c, Pow2(w), z);
    var y := Up(f.c, Pow2(w), z);
    SplitOf(f.j, m, y);
    SplitOf(f.b, 2, Up(f.j, m, y));
  }

  lemma IndexOfFields(i: nat, e: nat, w: nat)
    requires i < Pow2(Bits(e, w))
    ensures Within(FieldsOf(i, e, w), e, w) && Index(FieldsOf(i, e, w), e, w) == i
  {
    hide Pow2, Rev, Quot, Rem, Up;
    var m := Pow2(e);
    var x := Quot(i, 2);
    var y := Quot(x, m);
    var z := Quot(y, Pow2(w));
    RevBound(e, Rem(z, m));
    RevTwice(e, Rem(z, m));
    SizeInFields(e, w);
    QuotBelow(i, 2, m * (Pow2(w) * (m * 2)));
    QuotBelow(x, m, Pow2(w) * (m * 2));
    QuotBelow(y, Pow2(w), m * 2);
    QuotBelow(z, m, 2);
    Split(i, 2);
    Split(x, m);
    Split(y, Pow2(w));
    Split(z, m);
  }

  lemma SizeInFields(e: nat, w: nat)
    ensures Pow2(Bits(e, w)) == 2 * (Pow2(e) * (Pow2(w) * (Pow2(e) * 2)))
  {
    Pow2Add(e, w + (e + 1));
    Pow2Add(w, e + 1);
    assert Pow2(e + 1) == Pow2(e) * 2;
    assert Bits(e, w) == 1 + (e + (w + (e + 1)));
  }

  /** The reversed index has its fields in opposite order. */
  lemma RevIndex(f: Fields, e: nat, w: nat)
    requires Within(f, e, w)
    ensures Rev(Bits(e, w), Index(f, e, w)) == Index(Mirror(f, w), e, w)
  {
    hide Pow2, Rev, Up;
    var m, v, r := Pow2(e), Pow2(w), Rev(e, f.k);
    RevBound(e, f.k);
    RevTwice(e, f.k);
    var z := Up(r, m, f.d);
    var y := Up(f.c, v, z);
    var x := Up(f.j, m, y);
    PowersInFields(e, w);
    RevUp(e, 1, r, f.d);
    RevUp(w, e + 1, f.c, z);
    RevUp(e, w + (e + 1), f.j, y);
    RevUp(1, e + (w + (e + 1)), f.b, x);
    RevOne(f.d);
    RevOne(f.b);
    Nest(f.d, f.k, Rev(w, f.c), Rev(e, f.j), f.b, m, v, Pow2(e + 1), Pow2(w + (e + 1)), Pow2(e + (w + (e + 1))));
  }

  lemma RevUp(p: nat, q: nat, x: nat, y: nat)
    requires x < Pow2(p)
    ensures Rev(p + q, Up(x, Pow2(p), y)) == Up(Rev(q, y), Pow2(q), Rev(p, x))
  {
    hide Pow2, Rev;
    RevFields(p, q, x, y);
  }

  lemma PowersInFields(e: nat, w: nat)
    ensures Pow2(1) == 2 && Pow2(e + 1) == 2 * Pow2(e)
    ensures Pow2(w + (e + 1)) == Pow2(w) * Pow2(e + 1) && Pow2(e + (w + (e + 1))) == Pow2(e) * Pow2(w + (e + 1))
    ensures Bits(e, w) == 1 + (e + (w + (e + 1)))
  {
    assert Pow2(1) == 2 * Pow2(0);
    Pow2Add(e, w + (e + 1));
    Pow2Add(w, e + 1);
  }

  lemma Nest(d: nat, k: nat, c: nat, j: nat, b: nat, m: nat, w: nat, p: nat, q: nat, t: nat)
    requires p == 2 * m && q == w * p && t == m * q
    ensures Up(Up(Up(Up(d, 2, k), p, c), q, j), t, b) == Up(d, 2, Up(k, m, Up(c, w, Up(j, m, b))))
  {
    TwiceTimes(m, c);
    Times(m, c, w * (j + m * b));
    Times(w, j, m * b);
    Times(m, w * j, w * (m * b));
    Doubled(w, m, j);
    Regrouped(m, q, b);
    Doubled(w, m, b);
    Doubled(m, m, w * b);
    Regrouped(w, m, b);
    Regrouped(m, w, b);
  }

  lemma Times(a: nat, x: nat, y: nat)
    ensures a * (x + y) == a * x + a * y
  {}

  lemma Doubled(w: nat, m: nat, x: nat)
    ensures (w * (2 * m)) * x == 2 * (m * (w * x))
    ensures m * (2 * x) == 2 * (m * x)
  {
    var y := w * x;
    assert (w * (2 * m)) * x == (2 * m) * y;
  }

  lemma Regrouped(a: nat, b: nat, c: nat)
    ensures (a * b) * c == a * (b * c) && a * b == b * a
  {}

  // ---------- exchanging pairs ----------

  /** Two floats at `j1` exchanged with two floats at `k1`. */
  ghost predicate Exchanged<T>(s: seq<T>, t: seq<T>, j1: nat, k1: nat)
    requires j1 + 1 < |s| && k1 + 1 < |s|
  {
    && |t| == |s|
    && t[j1] == s[k1] && t[j1 + 1] == s[k1 + 1] && t[k1] == s[j1] && t[k1 + 1] == s[j1 + 1]
    && forall i :: 0 <= i < |s| && i != j1 && i != j1 + 1 && i != k1 && i != k1 + 1 ==> t[i] == s[i]
  }

  /** Complex number `i` of `t` is complex number `x` of `s`. */
  ghost predicate Same<T>(t: seq<T>, i: nat, s: seq<T>, x: nat)
    requires 2 * i + 1 < |t| && 2 * x + 1 < |s|
  {
    t[2 * i] == s[2 * x] && t[2 * i + 1] == s[2 * x + 1]
  }

  /** `t` is `s` with the complex numbers below `2^bits` in bit-reversed order. */
  ghost predicate IsReversed<T>(t: seq<T>, s: seq<T>, bits: nat)
    requires 2 * Pow2(bits) <= |s|
  {
    && |t| == |s|
    && (forall i: nat :: i < Pow2(bits) ==> ReversedAt(t, s, bits, i))
    && t[2 * Pow2(bits)..] == s[2 * Pow2(bits)..]
  }

  ghost predicate ReversedAt<T>(t: seq<T>, s: seq<T>, bits: nat, i: nat)
    requires |s| == |t| && 2 * Pow2(bits) <= |s| && i < Pow2(bits)
  {
    Same(t, i, s, (RevBound(bits, i); Rev(bits, i)))
  }

  lemma {:induction false} ReversedTwiceIsSame<T>(s: seq<T>, t: seq<T>, u: seq<T>, bits: nat)
    requires 2 * Pow2(bits) <= |s| && IsReversed(t, s, bits) && IsReversed(u, t, bits)
    ensures u == s
  {
    hide Rev, Pow2;
    forall i | 0 <= i < |s|
      ensures u[i] == s[i]
    {
      if i < 2 * Pow2(bits) {
        var x: nat := i / 2;
        RevTwice(bits, x);
        RevBound(bits, x);
        assert ReversedAt(u, t, bits, x) && ReversedAt(t, s, bits, Rev(bits, x));
      } else {
        assert u[2 * Pow2(bits)..][i - 2 * Pow2(bits)] == s[2 * Pow2(bits)..][i - 2 * Pow2(bits)];
      }
    }
  }

  datatype Code = Code(b: nat, c: nat, d: nat)

  function CodeOf(f: Fields): Code { Code(f.b, f.c, f.d) }

  datatype Shape = Shape(e: nat, w: nat)

  /** In the loop round for `k` and `j`, after the exchanges for the codes in `done`. */
  ghost predicate Moved(f: Fields, w: nat, k: nat, j: nat, done: set<Code>)
  {
    || (f.j < k && f.k < k)
    || (f.j == k && f.k < j) || (f.k == k && f.j < j)
    || (f.j == j && f.k == k && CodeOf(f) in done)
    || (f.j == k && f.k == j && CodeOf(Mirror(f, w)) in done)
  }

  ghost predicate Partial<T>(was: seq<T>, now: seq<T>, e: nat, w: nat, k: nat, j: nat, done: set<Code>)
  {
    && |now| == |was| && 2 * Pow2(Bits(e, w)) <= |was|
    && now[2 * Pow2(Bits(e, w))..] == was[2 * Pow2(Bits(e, w))..]
    && forall i: nat :: i < Pow2(Bits(e, w)) ==> PartialAt(was, now, e, w, k, j, done, i)
  }

  ghost predicate PartialAt<T>(was: seq<T>, now: seq<T>, e: nat, w: nat, k: nat, j: nat, done: set<Code>, i: nat)
    requires |now| == |was| && 2 * Pow2(Bits(e, w)) <= |was| && i < Pow2(Bits(e, w))
  {
    if Moved(FieldsOf(i, e, w), w, k, j, done) then ReversedAt(now, was, Bits(e, w), i) else Same(now, i, was, i)
  }

  lemma IndexBelow(f: Fields, e: nat, w: nat)
    requires Within(f, e, w)
    ensures Index(f, e, w) < Pow2(Bits(e, w))
  {
    hide Pow2, Rev;
    var m, r := Pow2(e), Rev(e, f.k);
    RevBound(e, f.k);
    SizeInFields(e, w);
    UpBelow(r, m, f.d, 2);
    UpBelow(f.c, Pow2(w), Up(r, m, f.d), m * 2);
    UpBelow(f.j, m, Up(f.c, Pow2(w), Up(r, m, f.d)), Pow2(w) * (m * 2));
    UpBelow(f.b, 2, Up(f.j, m, Up(f.c, Pow2(w), Up(r, m, f.d))), m * (Pow2(w) * (m * 2)));
  }

  lemma UpBelow(low: nat, size: nat, high: nat, top: nat)
    requires low < size && high < top
    ensures Up(low, size, high) < size * top
  {
    MulGap(size, high, top);
  }

  /** Exchanging a number with its mirror image puts both in their final places. */
  lemma ExchangeStep<T>(was: seq<T>, now: seq<T>, next: seq<T>, e: nat, w: nat, f: Fields, done: set<Code>)
    requires Within(f, e, w) && Within(Mirror(f, w), e, w) && f.j <= f.k
    requires Partial(was, now, e, w, f.k, f.j, done)
    requires CodeOf(f) !in done
    requires f.j == f.k ==> CodeOf(Mirror(f, w)) !in done && CodeOf(Mirror(f, w)) != CodeOf(f)
    requires Index(f, e, w) < Pow2(Bits(e, w)) && Index(Mirror(f, w), e, w) < Pow2(Bits(e, w))
    requires Exchanged(now, next, 2 * Index(f, e, w), 2 * Index(Mirror(f, w), e, w))
    ensures Partial(was, next, e, w, f.k, f.j, done + {CodeOf(f)})
  {
    hide Pow2, Rev, Bits, Index, FieldsOf;
    var n, g := Pow2(Bits(e, w)), Mirror(f, w);
    var x, y := Index(f, e, w), Index(g, e, w);
    MirrorTwice(f, e, w);
    RevIndex(f, e, w);
    RevIndex(g, e, w);
    FieldsOfIndex(f, e, w);
    FieldsOfIndex(g, e, w);
    assert PartialAt(was, now, e, w, f.k, f.j, done, x) && PartialAt(was, now, e, w, f.k, f.j, done, y);
    assert f != g;
    forall i: nat | i < n
      ensures PartialAt(was, next, e, w, f.k, f.j, done + {CodeOf(f)}, i)
    {
      if i != x && i != y {
        var h := FieldsOf(i, e, w);
        IndexOfFields(i, e, w);
        MirrorTwice(h, e, w);
        assert h != f && h != g;
        assert Moved(h, w, f.k, f.j, done + {CodeOf(f)}) <==> Moved(h, w, f.k, f.j, done) by {
          MovedElsewhere(h, f, e, w, done);
        }
        assert PartialAt(was, now, e, w, f.k, f.j, done, i);
        assert next[2 * i] == now[2 * i] && next[2 * i + 1] == now[2 * i + 1];
      }
    }
    assert forall i :: 2 * n <= i < |was| ==> next[i] == now[i];
  }

  lemma MirrorTwice(f: Fields, e: nat, w: nat)
    requires Within(f, e, w)
    ensures Within(Mirror(f, w), e, w) && Mirror(Mirror(f, w), w) == f
  {
    RevBound(w, f.c);
    RevTwice(w, f.c);
  }

  lemma MovedElsewhere(h: Fields, f: Fields, e: nat, w: nat, done: set<Code>)
    requires Within(h, e, w) && Within(f, e, w) && h != f && h != Mirror(f, w)
    ensures Moved(h, w, f.k, f.j, done + {CodeOf(f)}) <==> Moved(h, w, f.k, f.j, done)
  {
    MirrorTwice(h, e, w);
  }

  // ---------- the loop body, exchange by exchange ----------

  /** What the loop body knows about its variables: `j1` and `k1` start at the numbers of this round
      whose other fields are zero, `nm` steps the field `c` and `nh` the field `d`. */
  ghost predicate Round(e: nat, w: nat, k: nat, j: nat, j1: int, k1: int, nm: int, nh: int)
  {
    && j <= k < Pow2(e) && 1 <= w <= 2
    && nm == 4 * Pow2(e) && nh == nm * (Pow2(w) * Pow2(e))
    && j1 == 4 * j + Pow2(w) / 2 * (8 * (Pow2(e) * Rev(e, k)))
    && k1 == 4 * k + Pow2(w) / 2 * (8 * (Pow2(e) * Rev(e, j)))
  }

  lemma IndexLinear(f: Fields, e: nat, w: nat)
    requires w >= 1
    ensures 2 * Index(f, e, w) == 4 * f.j + Pow2(w) / 2 * (8 * (Pow2(e) * Rev(e, f.k)))
      + 2 * f.b + (4 * Pow2(e)) * f.c + (4 * Pow2(e)) * (Pow2(w) * Pow2(e)) * f.d
  {
    hide Rev;
    var m, s, r := Pow2(e), Pow2(w - 1), Rev(e, f.k);
    assert Pow2(w) == 2 * s && Pow2(w) / 2 == s;
    hide Pow2;
    LinearForm(f.b, f.j, f.c, f.d, m, s, r);
  }

  lemma LinearForm(b: nat, j: nat, c: nat, d: nat, m: nat, s: nat, r: nat)
    ensures 2 * Up(b, 2, Up(j, m, Up(c, 2 * s, Up(r, m, d)))) ==
      4 * j + s * (8 * (m * r)) + 2 * b + (4 * m) * c + (4 * m) * (2 * s * m) * d
  {
    assert 2 * s * (r + m * d) == 2 * (s * r) + 2 * (s * (m * d));
    assert m * (c + (2 * (s * r) + 2 * (s * (m * d)))) == m * c + 2 * (m * (s * r)) + 2 * (m * (s * (m * d)));
    assert s * (8 * (m * r)) == 8 * (m * (s * r));
    assert (4 * m) * (2 * s * m) * d == 8 * (m * (s * (m * d)));
    assert (4 * m) * c == 4 * (m * c);
  }

  lemma RevTwoBits()
    ensures Rev(2, 0) == 0 && Rev(2, 1) == 2 && Rev(2, 2) == 1 && Rev(2, 3) == 3 && Rev(1, 0) == 0 && Rev(1, 1) == 1
    ensures Pow2(2) == 4 && Pow2(1) == 2
  {
    assert Pow2(0) == 1 && Pow2(1) == 2 && Pow2(2) == 4;
    assert forall i :: Rev(0, i) == 0;
    assert Rev(1, 0) == 0 && Rev(1, 1) == 1;
    assert Rev(2, 0) == 0 && Rev(2, 1) == 2 && Rev(2, 2) == 1 && Rev(2, 3) == 3;
  }

  /** The four assignments that exchange two complex numbers. */
  method Exchange<T>(a: array<T>, j1: int, k1: int)
    requires 0 <= j1 && j1 + 1 < a.Length && 0 <= k1 && k1 + 1 < a.Length
    requires k1 + 1 < j1 || j1 + 1 < k1
    modifies a
    ensures Exchanged(old(a[..]), a[..], j1, k1)
  {
    var xr, xi, yr, yi := a[j1], a[j1 + 1], a[k1], a[k1 + 1];
    a[j1] := yr;
    a[j1 + 1] := yi;
    a[k1] := xr;
    a[k1 + 1] := xi;
  }

  /** One exchange of the round: the numbers with fields `b`, `c`, `d` and their mirror images. */
  method Step<T>(a: array<T>, j1: int, k1: int, ghost was: seq<T>, ghost e: nat, ghost w: nat, ghost k: nat, ghost j: nat,
                 ghost done: set<Code>, ghost code: Code, ghost back: Code, ghost j0: int, ghost k0: int, ghost nm: int,
                 ghost nh: int)
    requires Round(e, w, k, j, j0, k0, nm, nh)
    requires code.b < 2 && code.c < Pow2(w) && code.d < 2 && back == Code(code.d, Rev(w, code.c), code.b)
    requires j1 == j0 + 2 * code.b + nm * code.c + nh * code.d
    requires k1 == k0 + 2 * back.b + nm * back.c + nh * back.d
    requires code !in done && (j == k ==> back !in done && back != code)
    requires Partial(was, a[..], e, w, k, j, done)
    modifies a
    ensures Partial(was, a[..], e, w, k, j, done + {code})
  {
    StepPlaces(j1, k1, e, w, k, j, code, back, j0, k0, nm, nh);
    assert j <= k;
    hide *;
    ExchangeFields(a, j1, k1, was, e, w, Fields(code.b, j, code.c, k, code.d), done, code);
  }

  method ExchangeFields<T>(a: array<T>, j1: int, k1: int, ghost was: seq<T>, ghost e: nat, ghost w: nat, ghost f: Fields,
                           ghost done: set<Code>, ghost code: Code)
    requires Within(f, e, w) && Within(Mirror(f, w), e, w) && f.j <= f.k && CodeOf(f) == code
    requires 2 * Index(f, e, w) == j1 && 2 * Index(Mirror(f, w), e, w) == k1 && j1 != k1
    requires Index(f, e, w) < Pow2(Bits(e, w)) && Index(Mirror(f, w), e, w) < Pow2(Bits(e, w))
    requires Partial(was, a[..], e, w, f.k, f.j, done) && code !in done
    requires f.j == f.k ==> CodeOf(Mirror(f, w)) !in done && CodeOf(Mirror(f, w)) != code
    modifies a
    ensures Partial(was, a[..], e, w, f.k, f.j, done + {code})
  {
    hide *;
    PartialLength(was, a[..], e, w, f.k, f.j, done);
    ghost var now := a[..];
    Exchange(a, j1, k1);
    ExchangeStep(was, now, a[..], e, w, f, done);
  }

  /** The two places of an exchange are those of two numbers that are each other's mirror image. */
  lemma StepPlaces(j1: int, k1: int, e: nat, w: nat, k: nat, j: nat, code: Code, back: Code, j0: int, k0: int, nm: int, nh: int)
    requires Round(e, w, k, j, j0, k0, nm, nh)
    requires code.b < 2 && code.c < Pow2(w) && code.d < 2 && back == Code(code.d, Rev(w, code.c), code.b)
    requires j1 == j0 + 2 * code.b + nm * code.c + nh * code.d
    requires k1 == k0 + 2 * back.b + nm * back.c + nh * back.d
    requires j == k ==> back != code
    ensures var f := Fields(code.b, j, code.c, k, code.d);
      var g := Mirror(f, w);
      && Within(f, e, w) && Within(g, e, w) && CodeOf(g) == back
      && 2 * Index(f, e, w) == j1 && 2 * Index(g, e, w) == k1 && j1 != k1
      && Index(f, e, w) < Pow2(Bits(e, w)) && Index(g, e, w) < Pow2(Bits(e, w))
  {
    hide Pow2, Rev, Index, FieldsOf;
    var f := Fields(code.b, j, code.c, k, code.d);
    var g := Mirror(f, w);
    MirrorTwice(f, e, w);
    IndexLinear(f, e, w);
    IndexLinear(g, e, w);
    IndexBelow(f, e, w);
    IndexBelow(g, e, w);
    assert f != g;
    FieldsOfIndex(f, e, w);
    FieldsOfIndex(g, e, w);
  }

  lemma PartialLength<T>(was: seq<T>, now: seq<T>, e: nat, w: nat, k: nat, j: nat, done: set<Code>)
    requires Partial(was, now, e, w, k, j, done)
    ensures 2 * Pow2(Bits(e, w)) <= |was| == |now|
  {}

  function LowCodes(): (r: set<Code>)
    ensures forall x <- r :: x.b == 0
  {
    {Code(0, 0, 0), Code(0, 1, 0), Code(0, 2, 0), Code(0, 3, 0), Code(0, 0, 1), Code(0, 1, 1), Code(0, 2, 1), Code(0, 3, 1)}
  }

  /** The first eight exchanges of one round when `l == 8`: the numbers with an even index. */
  method HalfBlock8<T>(a: array<T>, start: int, mirror: int, nm: int, nh: int, ghost was: seq<T>, ghost e: nat, ghost k: nat, ghost j: nat)
    returns (j1: int, k1: int)
    requires Round(e, 2, k, j, start, mirror, nm, nh) && j < k
    requires Partial(was, a[..], e, 2, k, j, {})
    modifies a
    ensures Partial(was, a[..], e, 2, k, j, LowCodes())
    ensures j1 == start + nh && k1 == mirror + 2
  {
    hide Partial, Round, Pow2, Rev;
    RevTwoBits();
    ghost var j0, k0, done: set<Code> := start, mirror, {};
    j1, k1 := start, mirror;
    Step(a, j1, k1, was, e, 2, k, j, done, Code(0, 0, 0), Code(0, 0, 0), j0, k0, nm, nh);
    done := done + {Code(0, 0, 0)};
    j1, k1 := j1 + nm, k1 + 2 * nm;
    Step(a, j1, k1, was, e, 2, k, j, done, Code(0, 1, 0), Code(0, 2, 0), j0, k0, nm, nh);
    done := done + {Code(0, 1, 0)};
    j1, k1 := j1 + nm, k1 - nm;
    Step(a, j1, k1, was, e, 2, k, j, done, Code(0, 2, 0), Code(0, 1, 0), j0, k0, nm, nh);
    done := done + {Code(0, 2, 0)};
    j1, k1 := j1 + nm, k1 + 2 * nm;
    Step(a, j1, k1, was, e, 2, k, j, done, Code(0, 3, 0), Code(0, 3, 0), j0, k0, nm, nh);
    done := done + {Code(0, 3, 0)};
    j1, k1 := j1 + nh, k1 + 2;
    Step(a, j1, k1, was, e, 2, k, j, done, Code(0, 3, 1), Code(1, 3, 0), j0, k0, nm, nh);
    done := done + {Code(0, 3, 1)};
    j1, k1 := j1 - nm, k1 - 2 * nm;
    Step(a, j1, k1, was, e, 2, k, j, done, Code(0, 2, 1), Code(1, 1, 0), j0, k0, nm, nh);
    done := done + {Code(0, 2, 1)};
    j1, k1 := j1 - nm, k1 + nm;
    Step(a, j1, k1, was, e, 2, k, j, done, Code(0, 1, 1), Code(1, 2, 0), j0, k0, nm, nh);
    done := done + {Code(0, 1, 1)};
    j1, k1 := j1 - nm, k1 - 2 * nm;
    Step(a, j1, k1, was, e, 2, k, j, done, Code(0, 0, 1), Code(1, 0, 0), j0, k0, nm, nh);
    done := done + {Code(0, 0, 1)};
    assert done == LowCodes();
  }

  /** The sixteen exchanges of one round when `l == 8`. */
  method Block8<T>(a: array<T>, start: int, mirror: int, nm: int, nh: int, ghost was: seq<T>, ghost e: nat, ghost k: nat, ghost j: nat)
    requires Round(e, 2, k, j, start, mirror, nm, nh) && j < k
    requires Partial(was, a[..], e, 2, k, j, {})
    modifies a
    ensures Partial(was, a[..], e, 2, k, j + 1, {})
  {
    hide Partial, Round, Pow2, Rev, LowCodes;
    RevTwoBits();
    ghost var j0, k0, done: set<Code> := start, mirror, LowCodes();
    var j1, k1 := HalfBlock8(a, start, mirror, nm, nh, was, e, k, j);
    j1, k1 := j1 + 2, k1 + nh;
    Step(a, j1, k1, was, e, 2, k, j, done, Code(1, 0, 1), Code(1, 0, 1), j0, k0, nm, nh);
    done := done + {Code(1, 0, 1)};
    j1, k1 := j1 + nm, k1 + 2 * nm;
    Step(a, j1, k1, was, e, 2, k, j, done, Code(1, 1, 1), Code(1, 2, 1), j0, k0, nm, nh);
    done := done + {Code(1, 1, 1)};
    j1, k1 := j1 + nm, k1 - nm;
    Step(a, j1, k1, was, e, 2, k, j, done, Code(1, 2, 1), Code(1, 1, 1), j0, k0, nm, nh);
    done := done + {Code(1, 2, 1)};
    j1, k1 := j1 + nm, k1 + 2 * nm;
    Step(a, j1, k1, was, e, 2, k, j, done, Code(1, 3, 1), Code(1, 3, 1), j0, k0, nm, nh);
    done := done + {Code(1, 3, 1)};
    j1, k1 := j1 - nh, k1 - 2;
    Step(a, j1, k1, was, e, 2, k, j, done, Code(1, 3, 0), Code(0, 3, 1), j0, k0, nm, nh);
    done := done + {Code(1, 3, 0)};
    j1, k1 := j1 - nm, k1 - 2 * nm;
    Step(a, j1, k1, was, e, 2, k, j, done, Code(1, 2, 0), Code(0, 1, 1), j0, k0, nm, nh);
    done := done + {Code(1, 2, 0)};
    j1, k1 := j1 - nm, k1 + nm;
    Step(a, j1, k1, was, e, 2, k, j, done, Code(1, 1, 0), Code(0, 2, 1), j0, k0, nm, nh);
    done := done + {Code(1, 1, 0)};
    j1, k1 := j1 - nm, k1 - 2 * nm;
    Step(a, j1, k1, was, e, 2, k, j, done, Code(1, 0, 0), Code(0, 0, 1), j0, k0, nm, nh);
    done := done + {Code(1, 0, 0)};
    AllCodes(done);
    BlockDone(was, a[..], e, 2, k, j, done);
  }

  lemma AllCodes(done: set<Code>)
    requires done >= LowCodes()
    requires forall c: nat :: c < 4 ==> Code(1, c, 0) in done && Code(1, c, 1) in done
    ensures forall c: nat :: c < 4 ==> HasAll(done, c)
  {
    forall c: nat | c < 4
      ensures HasAll(done, c)
    {
      assert c == 0 || c == 1 || c == 2 || c == 3;
    }
  }

  /** The eight exchanges of one round when `l == 4`. */
  method Block4<T>(a: array<T>, start: int, mirror: int, nm: int, nh: int, ghost was: seq<T>, ghost e: nat, ghost k: nat, ghost j: nat)
    requires Round(e, 1, k, j, start, mirror, nm, nh) && j < k
    requires Partial(was, a[..], e, 1, k, j, {})
    modifies a
    ensures Partial(was, a[..], e, 1, k, j + 1, {})
  {
    hide Partial, Round, Pow2, Rev;
    RevTwoBits();
    ghost var j0, k0, done: set<Code> := start, mirror, {};
    var j1, k1 := start, mirror;
    Step(a, j1, k1, was, e, 1, k, j, done, Code(0, 0, 0), Code(0, 0, 0), j0, k0, nm, nh);
    done := done + {Code(0, 0, 0)};
    j1, k1 := j1 + nm, k1 + nm;
    Step(a, j1, k1, was, e, 1, k, j, done, Code(0, 1, 0), Code(0, 1, 0), j0, k0, nm, nh);
    done := done + {Code(0, 1, 0)};
    j1, k1 := j1 + nh, k1 + 2;
    Step(a, j1, k1, was, e, 1, k, j, done, Code(0, 1, 1), Code(1, 1, 0), j0, k0, nm, nh);
    done := done + {Code(0, 1, 1)};
    j1, k1 := j1 - nm, k1 - nm;
    Step(a, j1, k1, was, e, 1, k, j, done, Code(0, 0, 1), Code(1, 0, 0), j0, k0, nm, nh);
    done := done + {Code(0, 0, 1)};
    j1, k1 := j1 + 2, k1 + nh;
    Step(a, j1, k1, was, e, 1, k, j, done, Code(1, 0, 1), Code(1, 0, 1), j0, k0, nm, nh);
    done := done + {Code(1, 0, 1)};
    j1, k1 := j1 + nm, k1 + nm;
    Step(a, j1, k1, was, e, 1, k, j, done, Code(1, 1, 1), Code(1, 1, 1), j0, k0, nm, nh);
    done := done + {Code(1, 1, 1)};
    j1, k1 := j1 - nh, k1 - 2;
    Step(a, j1, k1, was, e, 1, k, j, done, Code(1, 1, 0), Code(0, 1, 1), j0, k0, nm, nh);
    done := done + {Code(1, 1, 0)};
    j1, k1 := j1 - nm, k1 - nm;
    Step(a, j1, k1, was, e, 1, k, j, done, Code(1, 0, 0), Code(0, 0, 1), j0, k0, nm, nh);
    done := done + {Code(1, 0, 0)};
    BlockDone(was, a[..], e, 1, k, j, done);
  }

  /** The six exchanges after the inner loop when `l == 8`. */
  method Diagonal8<T>(a: array<T>, mirror: int, nm: int, nh: int, ghost was: seq<T>, ghost e: nat, ghost k: nat)
    requires Round(e, 2, k, k, mirror, mirror, nm, nh)
    requires Partial(was, a[..], e, 2, k, k, {})
    modifies a
    ensures Partial(was, a[..], e, 2, k + 1, 0, {})
  {
    hide Partial, Round, Pow2, Rev;
    RevTwoBits();
    ghost var j0, k0, done: set<Code> := mirror, mirror, {};
    var j1, k1 := mirror + 2, mirror + nh;
    Step(a, j1, k1, was, e, 2, k, k, done, Code(1, 0, 0), Code(0, 0, 1), j0, k0, nm, nh);
    done := done + {Code(1, 0, 0)};
    j1, k1 := j1 + nm, k1 + 2 * nm;
    Step(a, j1, k1, was, e, 2, k, k, done, Code(1, 1, 0), Code(0, 2, 1), j0, k0, nm, nh);
    done := done + {Code(1, 1, 0)};
    j1, k1 := j1 + nm, k1 - nm;
    Step(a, j1, k1, was, e, 2, k, k, done, Code(1, 2, 0), Code(0, 1, 1), j0, k0, nm, nh);
    done := done + {Code(1, 2, 0)};
    j1, k1 := j1 - 2, k1 - nh;
    Step(a, j1, k1, was, e, 2, k, k, done, Code(0, 2, 0), Code(0, 1, 0), j0, k0, nm, nh);
    done := done + {Code(0, 2, 0)};
    j1, k1 := j1 + nh + 2, k1 + nh + 2;
    Step(a, j1, k1, was, e, 2, k, k, done, Code(1, 2, 1), Code(1, 1, 1), j0, k0, nm, nh);
    done := done + {Code(1, 2, 1)};
    j1, k1 := j1 - (nh - nm), k1 + 2 * nm - 2;
    Step(a, j1, k1, was, e, 2, k, k, done, Code(1, 3, 0), Code(0, 3, 1), j0, k0, nm, nh);
    done := done + {Code(1, 3, 0)};
    DiagonalDone(was, a[..], e, 2, k, done);
  }

  /** The two exchanges after the inner loop when `l == 4`. */
  method Diagonal4<T>(a: array<T>, mirror: int, nm: int, nh: int, ghost was: seq<T>, ghost e: nat, ghost k: nat)
    requires Round(e, 1, k, k, mirror, mirror, nm, nh)
    requires Partial(was, a[..], e, 1, k, k, {})
    modifies a
    ensures Partial(was, a[..], e, 1, k + 1, 0, {})
  {
    hide Partial, Round, Pow2, Rev;
    RevTwoBits();
    ghost var j0, k0, done: set<Code> := mirror, mirror, {};
    var j1, k1 := mirror + 2, mirror + nh;
    Step(a, j1, k1, was, e, 1, k, k, done, Code(1, 0, 0), Code(0, 0, 1), j0, k0, nm, nh);
    done := done + {Code(1, 0, 0)};
    j1, k1 := j1 + nm, k1 + nm;
    Step(a, j1, k1, was, e, 1, k, k, done, Code(1, 1, 0), Code(0, 1, 1), j0, k0, nm, nh);
    done := done + {Code(1, 1, 0)};
    DiagonalDone(was, a[..], e, 1, k, done);
  }

  ghost predicate HasAll(done: set<Code>, c: nat)
  {
    Code(0, c, 0) in done && Code(0, c, 1) in done && Code(1, c, 0) in done && Code(1, c, 1) in done
  }

  lemma BlockDone<T>(was: seq<T>, now: seq<T>, e: nat, w: nat, k: nat, j: nat, done: set<Code>)
    requires j < k && Partial(was, now, e, w, k, j, done)
    requires forall c: nat :: c < Pow2(w) ==> HasAll(done, c)
    ensures Partial(was, now, e, w, k, j + 1, {})
  {
    hide Pow2, Rev, Bits, PartialAt, HasAll;
    var next := j + 1;
    forall i: nat | i < Pow2(Bits(e, w))
      ensures PartialAt(was, now, e, w, k, next, {}, i)
    {
      assert PartialAt(was, now, e, w, k, j, done, i);
      IndexOfFields(i, e, w);
      NextRound(FieldsOf(i, e, w), e, w, k, j, done);
      SameRound(was, now, e, w, k, j, done, next, {}, i);
    }
  }

  lemma NextRound(f: Fields, e: nat, w: nat, k: nat, j: nat, done: set<Code>)
    requires Within(f, e, w) && j < k
    requires forall c: nat :: c < Pow2(w) ==> HasAll(done, c)
    ensures Moved(f, w, k, j, done) <==> Moved(f, w, k, j + 1, {})
  {
    hide Pow2, Rev;
    MirrorTwice(f, e, w);
    assert HasAll(done, f.c) && HasAll(done, Rev(w, f.c));
  }

  lemma SameRound<T>(was: seq<T>, now: seq<T>, e: nat, w: nat, k: nat, j: nat, done: set<Code>, j': nat, done': set<Code>, i: nat)
    requires |now| == |was| && 2 * Pow2(Bits(e, w)) <= |was| && i < Pow2(Bits(e, w))
    requires Moved(FieldsOf(i, e, w), w, k, j, done) <==> Moved(FieldsOf(i, e, w), w, k, j', done')
    requires PartialAt(was, now, e, w, k, j, done, i)
    ensures PartialAt(was, now, e, w, k, j', done', i)
  {
    hide Pow2, Bits, Moved, FieldsOf, ReversedAt;
  }

  lemma DiagonalDone<T>(was: seq<T>, now: seq<T>, e: nat, w: nat, k: nat, done: set<Code>)
    requires Partial(was, now, e, w, k, k, done)
    requires forall b: nat, c: nat, d: nat :: b < 2 && c < Pow2(w) && d < 2 ==>
      Code(b, c, d) in done || Code(d, Rev(w, c), b) in done || (b == d && c == Rev(w, c))
    ensures Partial(was, now, e, w, k + 1, 0, {})
  {
    hide Pow2, Rev, FieldsOf;
    var next := k + 1;
    forall i: nat | i < Pow2(Bits(e, w))
      ensures PartialAt(was, now, e, w, next, 0, {}, i)
    {
      assert PartialAt(was, now, e, w, k, k, done, i);
      var f := FieldsOf(i, e, w);
      IndexOfFields(i, e, w);
      MirrorTwice(f, e, w);
      RevIndex(f, e, w);
    }
  }

  // ---------- the whole pass ----------

  lemma NothingMoved<T>(s: seq<T>, e: nat, w: nat)
    requires 2 * Pow2(Bits(e, w)) <= |s|
    ensures Partial(s, s, e, w, 0, 0, {})
  {}

  lemma AllMoved<T>(was: seq<T>, now: seq<T>, e: nat, w: nat)
    requires Partial(was, now, e, w, Pow2(e), 0, {})
    ensures 2 * Pow2(Bits(e, w)) <= |was| && IsReversed(now, was, Bits(e, w))
  {
    hide Pow2, Rev, FieldsOf, ReversedAt;
    forall i: nat | i < Pow2(Bits(e, w))
      ensures ReversedAt(now, was, Bits(e, w), i)
    {
      IndexOfFields(i, e, w);
      assert PartialAt(was, now, e, w, Pow2(e), 0, {}, i);
    }
  }

  lemma TopLevelMonotone(a: nat, b: nat)
    requires a <= b
    ensures TopLevel(a) <= TopLevel(b)
    decreases b
  {
    if a > 32 {
      TopLevelMonotone(a / 4, b / 4);
    }
  }

  /** A table built for a larger transform serves every smaller one. */
  lemma TableServes(ip: seq<int>, nw: nat, n: nat)
    requires LevelsOk(ip, TopLevel(nw)) && nw >= n / 4
    ensures LevelOk(ip, TopLevel(n / 4))
  {
    TopLevelMonotone(n / 4, nw);
  }

  /** `l` and `m` for a transform of `n` floats. */
  lemma SizesFit(e: nat, w: nat, n: nat)
    requires n == Pow2(2 * e + w + 3)
    ensures n == 2 * Pow2(Bits(e, w)) && n / 2 == (4 * Pow2(e)) * (Pow2(w) * Pow2(e))
  {
    SizeInFields(e, w);
    assert 2 * e + w + 3 == Bits(e, w) + 1;
    QuarterProduct(Pow2(e), Pow2(w));
  }

  lemma QuarterProduct(m: nat, v: nat)
    ensures 2 * (m * (v * (m * 2))) == (4 * m) * (v * m)
  {
    var x := v * m;
    assert v * (m * 2) == 2 * x && m * (2 * x) == 2 * (m * x) && (4 * m) * x == 4 * (m * x);
  }

  method LevelFor(n: nat, ghost p: nat) returns (l: nat, m: nat, ghost e: nat)
    requires p >= 6 && n == Pow2(p)
    ensures m == Pow2(e) && e == TopLevel(n / 4)
    ensures (l == 8 && p == 2 * e + 5) || (l == 4 && p == 2 * e + 4)
  {
    m, l, e := 1, n / 4, 0;
    ghost var q := p - 2;
    PowerQuarter(p);
    SmallPowers(q);
    while l > 8
      invariant q >= 2 && l == Pow2(q) && m == Pow2(e) && q + 2 * e == p - 2
      invariant if l > 8 then e + TopLevel(l) == TopLevel(n / 4) else e == TopLevel(n / 4)
      decreases l
    {
      SmallPowers(q);
      PowerQuarter(q);
      SmallPowers(q - 2);
      m, l, q, e := 2 * m, l / 4, q - 2, e + 1;
    }
    SmallPowers(q);
  }

  lemma PowerQuarter(q: nat)
    requires q >= 2
    ensures Pow2(q) / 4 == Pow2(q - 2)
  {}

  lemma SmallPowers(q: nat)
    ensures q >= 4 ==> Pow2(q) > 8
    ensures q == 3 ==> Pow2(q) == 8
    ensures q == 2 ==> Pow2(q) == 4
  {
    assert Pow2(2) == 4 * Pow2(0);
    assert Pow2(3) == 8;
    if q >= 4 {
      Pow2Add(4, q - 4);
      assert Pow2(4) == 16;
    }
  }

  /** Puts the `n / 2` complex numbers of `a` in bit-reversed order. */
  method BitRv2<T>(n: nat, ip: array<int>, a: array<T>, ghost p: nat)
    requires p >= 6 && n == Pow2(p) && a.Length >= n
    requires LevelOk(ip[..], TopLevel(n / 4))
    requires (ip as object) != (a as object)
    modifies a
    ensures 2 * Pow2(p - 1) == n
    ensures IsReversed(a[..], old(a[..]), p - 1)
  {
    hide Partial, Round, Pow2, Rev, LevelOk;
    ghost var was := a[..];
    var l, m;
    ghost var e;
    l, m, e := LevelFor(n, p);
    var nh, nm := n / 2, 4 * m;
    ghost var w := if l == 8 then 2 else 1;
    SizesFit(e, w, n);
    NothingMoved(was, e, w);
    assert nh == nm * (Pow2(w) * Pow2(e));
    if l == 8 {
      Rounds8(a, ip, m, nm, nh, was, e);
    } else {
      Rounds4(a, ip, m, nm, nh, was, e);
    }
    AllMoved(was, a[..], e, w);
  }

  /** The loops of the branch with `l == 8`, and those of the other. */
  method Rounds8<T>(a: array<T>, ip: array<int>, m: nat, nm: int, nh: int, ghost was: seq<T>, ghost e: nat)
    requires m == Pow2(e) && nm == 4 * m && nh == nm * (Pow2(2) * Pow2(e)) && LevelOk(ip[..], e)
    requires (ip as object) != (a as object) && Partial(was, a[..], e, 2, 0, 0, {})
    modifies a
    ensures Partial(was, a[..], e, 2, m, 0, {})
  {
    hide Partial, Round, Pow2, Rev, LevelOk;
    for k := 0 to m
      invariant Partial(was, a[..], e, 2, k, 0, {})
    {
      for j := 0 to k
        invariant Partial(was, a[..], e, 2, k, j, {})
      {
        RoundOfTable(ip[..], e, 2, k, j, nm, nh);
        Block8(a, 4 * j + 2 * ip[m + k], 4 * k + 2 * ip[m + j], nm, nh, was, e, k, j);
      }
      RoundOfTable(ip[..], e, 2, k, k, nm, nh);
      Diagonal8(a, 4 * k + 2 * ip[m + k], nm, nh, was, e, k);
    }
  }

  method Rounds4<T>(a: array<T>, ip: array<int>, m: nat, nm: int, nh: int, ghost was: seq<T>, ghost e: nat)
    requires m == Pow2(e) && nm == 4 * m && nh == nm * (Pow2(1) * Pow2(e)) && LevelOk(ip[..], e)
    requires (ip as object) != (a as object) && Partial(was, a[..], e, 1, 0, 0, {})
    modifies a
    ensures Partial(was, a[..], e, 1, m, 0, {})
  {
    hide Partial, Round, Pow2, Rev, LevelOk;
    for k := 0 to m
      invariant Partial(was, a[..], e, 1, k, 0, {})
    {
      for j := 0 to k
        invariant Partial(was, a[..], e, 1, k, j, {})
      {
        RoundOfTable(ip[..], e, 1, k, j, nm, nh);
        Block4(a, 4 * j + ip[m + k], 4 * k + ip[m + j], nm, nh, was, e, k, j);
      }
      RoundOfTable(ip[..], e, 1, k, k, nm, nh);
      Diagonal4(a, 4 * k + ip[m + k], nm, nh, was, e, k);
    }
  }

  lemma RoundOfTable(ip: seq<int>, e: nat, w: nat, k: nat, j: nat, nm: int, nh: int)
    requires LevelOk(ip, e) && j <= k < Pow2(e) && 1 <= w <= 2 && nm == 4 * Pow2(e) && nh == nm * (Pow2(w) * Pow2(e))
    ensures Pow2(e) + k < |ip| && Pow2(e) + j < |ip|
    ensures w == 2 ==> Round(e, w, k, j, 4 * j + 2 * ip[Pow2(e) + k], 4 * k + 2 * ip[Pow2(e) + j], nm, nh)
    ensures w == 1 ==> Round(e, w, k, j, 4 * j + ip[Pow2(e) + k], 4 * k + ip[Pow2(e) + j], nm, nh)
  {
    hide Rev;
    assert Pow2(1) == 2 * Pow2(0) && Pow2(2) == 2 * Pow2(1);
  }
}
