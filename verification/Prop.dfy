/** Property text that survives Shift_JIS (`src/go/img/prop/prop.go`): characters that the
    encoding lacks, or whose second byte is a backslash, are written as `%` escapes.

    `Encode` works on the runes of its argument, `Decode` on bytes. */
module Prop {
  import opened Names
  import opened Packbits
  import opened Base64Url

  // ---------- UTF-8 ----------

  type rune = r: int | 0 <= r <= 0x10ffff && !(0xd800 <= r < 0xe000)

  /** The UTF-8 form of one rune (section 3 of RFC 3629). */
  function Utf8Of(r: rune): (s: string)
    ensures |s| >= 1
    ensures r < 0x80 ==> s == [r as char]
    ensures r >= 0x80 ==> forall c <- s :: c as int >= 0x80
  {
    if r < 0x80 then [r as char]
    else if r < 0x800 then [(0xc0 + r / 0x40) as char, (0x80 + r % 0x40) as char]
    else if r < 0x10000 then
      [(0xe0 + r / 0x1000) as char, (0x80 + r / 0x40 % 0x40) as char, (0x80 + r % 0x40) as char]
    else
      [(0xf0 + r / 0x40000) as char, (0x80 + r / 0x1000 % 0x40) as char,
       (0x80 + r / 0x40 % 0x40) as char, (0x80 + r % 0x40) as char]
  }

  function Utf8(rs: seq<rune>): string
  {
    if rs == [] then "" else Utf8Of(rs[0]) + Utf8(rs[1..])
  }

  lemma {:induction false} Utf8Append(a: seq<rune>, b: seq<rune>)
    ensures Utf8(a + b) == Utf8(a) + Utf8(b)
  {
    if a == [] {
      assert a + b == b;
    } else {
      assert (a + b)[1..] == a[1..] + b;
      Utf8Append(a[1..], b);
    }
  }

  /** `string(rn)`: anything that is no rune becomes U+FFFD. */
  function RuneString(v: int): (s: string)
    ensures |s| >= 1
  {
    if 0 <= v <= 0x10ffff && !(0xd800 <= v < 0xe000) then Utf8Of(v) else Utf8Of(0xfffd)
  }

  // ---------- the characters whose Shift_JIS form ends in a backslash ----------

  const DAMEMOJI: seq<rune> := [
    0x2015, 0x30bd, 0x042b, 0x2168, 0x5642, 0x6d6c, 0x6b3a, 0x572d,
    0x69cb, 0x8695, 0x5341, 0x7533, 0x66fe, 0x7baa, 0x8cbc, 0x80fd,
    0x8868, 0x66b4, 0x4e88, 0x7984, 0x5154, 0x5580, 0x5abe, 0x5f4c,
    0x62ff, 0x6764, 0x6b43, 0x6fec, 0x755a, 0x79c9, 0x7db5, 0x81c0,
    0x85f9, 0x89f8, 0x8ec6, 0x9414, 0x9945, 0x9ded, 0x7e8a, 0x72be,
    0x5046, 0x7821]

  function DamemojiFrom(r: rune, i: nat): (k: Option<nat>)
    requires i <= |DAMEMOJI|
    ensures k.Some? ==> k.value < |DAMEMOJI| && DAMEMOJI[k.value] == r
    decreases |DAMEMOJI| - i
  {
    if i == |DAMEMOJI| then None
    else if DAMEMOJI[i] == r then Some(i)
    else DamemojiFrom(r, i + 1)
  }

  function Damemoji(r: rune): (k: Option<nat>)
    ensures k.Some? ==> k.value < 42 && |DAMEMOJI| == 42 && DAMEMOJI[k.value] == r
  {
    DamemojiFrom(r, 0)
  }

  // ---------- escaping ----------

  /** The little-endian bytes of a rune; the loop of `escapeRune` stops at 0x80, not below it. */
  function RuneBytes(r: nat): (b: seq<byte>)
    ensures |b| >= 1
    decreases r
  {
    if r > 0x80 then [r % 256] + RuneBytes(r / 256) else [r]
  }

  lemma RuneBytesLength(r: rune)
    ensures |RuneBytes(r)| <= 3
  {
    var second: nat, third: nat := r / 256, r / 256 / 256;
    assert third <= 0x10 && |RuneBytes(third)| == 1;
    assert |RuneBytes(second)| <= 1 + |RuneBytes(third)|;
  }

  function LittleEndian(b: seq<byte>): nat
  {
    if b == [] then 0 else b[0] + 256 * LittleEndian(b[1..])
  }

  lemma {:induction false} LittleEndianOfRuneBytes(r: nat)
    ensures LittleEndian(RuneBytes(r)) == r
    decreases r
  {
    var b := RuneBytes(r);
    if r > 0x80 {
      LittleEndianOfRuneBytes(r / 256);
      var rest := RuneBytes(r / 256);
      assert b == [r % 256] + rest && b[1..] == rest;
      assert LittleEndian(b) == r % 256 + 256 * LittleEndian(rest);
    } else {
      assert b[1..] == [];
    }
  }

  /** What `Encode` writes for one rune; `sjis` tells which runes Shift_JIS can encode. */
  function EscapedRune(r: rune, sjis: rune -> bool): (s: string)
    ensures |s| >= 1
  {
    if r == 0x5c then "%y"
    else if Damemoji(r).Some? then "%x" + [Digit(Damemoji(r).value)]
    else if !sjis(r) then
      RuneBytesLength(r);
      "%" + [(116 + |RuneBytes(r)| - 1) as char] + Base64Url.Encoded(RuneBytes(r))
    else Utf8Of(r)
  }

  function EscapedRunes(rs: seq<rune>, sjis: rune -> bool): string
  {
    if rs == [] then "" else EscapedRune(rs[0], sjis) + EscapedRunes(rs[1..], sjis)
  }

  method Encode(rs: seq<rune>, sjis: rune -> bool) returns (s: string)
    ensures s == if rs == [] then "" else "." + EscapedRunes(rs, sjis)
  {
    if |rs| == 0 {
      return "";
    }
    hide EscapedRunes, EscapedRune, RuneBytes, Utf8Of, Damemoji;
    s := ".";
    assert rs[0..] == rs;
    for i := 0 to |rs|
      invariant s + EscapedRunes(rs[i..], sjis) == "." + EscapedRunes(rs, sjis)
    {
      EscapedFrom(rs, i, s, sjis);
      var r := rs[i];
      EscapedCases(r, sjis);
      if r == 0x5c {
        s := s + "%y";
        continue;
      }
      var idx := Damemoji(r);
      if idx.Some? {
        s := s + ("%x" + [Digit(idx.value)]);
        continue;
      }
      if !sjis(r) {
        s := EscapeRune(s, r);
        continue;
      }
      s := s + Utf8Of(r);
    }
  }

  lemma EscapedFrom(rs: seq<rune>, i: nat, s: string, sjis: rune -> bool)
    requires i < |rs|
    ensures s + EscapedRune(rs[i], sjis) + EscapedRunes(rs[i + 1..], sjis) == s + EscapedRunes(rs[i..], sjis)
  {
    hide EscapedRune;
    assert rs[i..][1..] == rs[i + 1..];
  }

  lemma EscapedCases(r: rune, sjis: rune -> bool)
    ensures EscapedRune(r, sjis) ==
      if r == 0x5c then "%y"
      else if Damemoji(r).Some? then "%x" + [Digit(Damemoji(r).value)]
      else if !sjis(r) then
        RuneBytesLength(r);
        "%" + [(116 + |RuneBytes(r)| - 1) as char] + Base64Url.Encoded(RuneBytes(r))
      else Utf8Of(r)
  {}

  method EscapeRune(s: string, r0: rune) returns (t: string)
    ensures |RuneBytes(r0)| <= 3
    ensures t == s + ("%" + [(116 + |RuneBytes(r0)| - 1) as char] + Base64Url.Encoded(RuneBytes(r0)))
  {
    RuneBytesLength(r0);
    var b: seq<byte> := [];
    var r: nat := r0;
    while r > 0x80
      invariant b + RuneBytes(r) == RuneBytes(r0)
      decreases r
    {
      b := b + [r % 256];
      r := r / 256;
    }
    b := b + [r];
    t := s + ("%" + [(116 + |b| - 1) as char] + Base64Url.Encoded(b));
  }

  // ---------- unescaping ----------

  /** The escape at the head of `s`: the text it stands for and its length, if it is one. */
  function EscapeAt(s: string): (r: Option<(string, nat)>)
    ensures r.Some? ==> 2 <= r.value.1 <= |s|
  {
    if |s| < 2 || s[0] != '%' then None
    else if s[1] == 'y' then Some(("\\", 2))
    else if |s| < 3 then None
    else if s[1] == 'x' then
      match DigitValue(s[2])
      case None => None
      case Some(idx) => if idx < 42 then Some((Utf8Of(DAMEMOJI[idx]), 3)) else None
    else if 't' <= s[1] <= 'w' then
      var encoded := EncodedLen(s[1] as int - 116 + 1);
      if 1 + encoded >= |s| then None
      else
        match Decoded(s[2..2 + encoded])
        case None => None
        case Some(b) => Some((RuneString(LittleEndian(b)), 2 + encoded))
    else None
  }

  function Unescaped(s: string): string
    decreases |s|
  {
    if s == "" then ""
    else
      match EscapeAt(s)
      case Some((text, n)) => text + Unescaped(s[n..])
      case None => [s[0]] + Unescaped(s[1..])
  }

  method Unescape(s: string) returns (r: string)
    ensures r == Unescaped(s)
  {
    hide EscapeAt;
    r := "";
    var i := 0;
    assert s[0..] == s;
    while i < |s|
      invariant 0 <= i <= |s|
      invariant r + Unescaped(s[i..]) == Unescaped(s)
    {
      UnescapedFrom(s, i, r);
      var e := EscapeAt(s[i..]);
      if e.Some? {
        r := r + e.value.0;
        i := i + e.value.1;
      } else {
        r := r + [s[i]];
        i := i + 1;
      }
    }
    assert s[i..] == "";
  }

  lemma UnescapedFrom(s: string, i: nat, r: string)
    requires i < |s|
    ensures var e := EscapeAt(s[i..]);
      if e.Some? then r + Unescaped(s[i..]) == r + e.value.0 + Unescaped(s[i + e.value.1..])
      else r + Unescaped(s[i..]) == r + [s[i]] + Unescaped(s[i + 1..])
  {
    hide EscapeAt;
    var rest, e := s[i..], EscapeAt(s[i..]);
    if e.Some? {
      assert rest[e.value.1..] == s[i + e.value.1..];
    } else {
      assert rest[1..] == s[i + 1..];
    }
  }

  /** `Decode`: text after a dot is unescaped, text after an underscore is plain base64url. */
  function Decode(s: string): Option<string>
  {
    if |s| <= 1 then Some("")
    else if s[0] == '_' then
      match Decoded(s[1..])
      case None => None
      case Some(b) => Some(seq(|b|, i requires 0 <= i < |b| => b[i] as char))
    else if s[0] == '.' then Some(Unescaped(s[1..]))
    else None
  }

  // ---------- the round trip ----------

  /** Every `%` is followed by a rune that starts no escape, or ends the text. */
  predicate PercentSafe(rs: seq<rune>)
  {
    forall i :: 0 <= i < |rs| - 1 && rs[i] == 0x25 ==> rs[i + 1] != 0x79 && !(0x74 <= rs[i + 1] <= 0x78)
  }

  /** An escape at the head is undone, whatever follows. */
  lemma EscapedRuneIsUndone(r: rune, sjis: rune -> bool, rest: string)
    requires EscapedRune(r, sjis) != Utf8Of(r)
    ensures EscapeAt(EscapedRune(r, sjis) + rest) == Some((Utf8Of(r), |EscapedRune(r, sjis)|))
  {
    hide LittleEndian, Base64Url.Encoded, RuneBytes, Damemoji;
    var e := EscapedRune(r, sjis);
    var s := e + rest;
    if r == 0x5c {
      assert s[0] == '%' && s[1] == 'y';
      assert Utf8Of(0x5c) == "\\";
    } else if Damemoji(r).Some? {
      DigitRoundTrip(Damemoji(r).value);
      assert s[0] == '%' && s[1] == 'x' && s[2] == Digit(Damemoji(r).value);
    } else {
      RuneBytesLength(r);
      LittleEndianOfRuneBytes(r);
      BytesUndone(RuneBytes(r), rest);
    }
  }

  lemma BytesUndone(b: seq<byte>, rest: string)
    requires 1 <= |b| <= 3
    ensures EscapeAt("%" + [(116 + |b| - 1) as char] + Base64Url.Encoded(b) + rest) ==
      Some((RuneString(LittleEndian(b)), 2 + EncodedLen(|b|)))
    ensures |Base64Url.Encoded(b)| == EncodedLen(|b|)
  {
    hide LittleEndian, RuneString, Base64Url.Encoded, Decoded;
    var t := Base64Url.Encoded(b);
    Base64RoundTrip(b);
    var s := "%" + [(116 + |b| - 1) as char] + t + rest;
    assert s[0] == '%' && s[1] as int == 116 + |b| - 1;
    assert s[2..2 + |t|] == t;
  }

  /** Bytes above 0x7f never start an escape. */
  lemma {:induction false} PlainBytes(a: string, rest: string)
    requires forall c <- a :: c != '%'
    ensures Unescaped(a + rest) == a + Unescaped(rest)
  {
    if a == "" {
      assert a + rest == rest;
    } else {
      assert a[0] in a && forall c <- a[1..] :: c in a;
      PlainBytes(a[1..], rest);
      PlainHead(a, rest);
    }
  }

  lemma PlainHead(a: string, rest: string)
    requires a != "" && a[0] != '%'
    ensures Unescaped(a + rest) == [a[0]] + Unescaped(a[1..] + rest)
    ensures forall x :: a + x == [a[0]] + (a[1..] + x)
  {
    assert (a + rest)[1..] == a[1..] + rest;
  }

  /** The rune at `i` is a percent sign that is kept as it is, and the encoded text from it on
      starts with a complete escape. */
  predicate FalseEscape(rs: seq<rune>, sjis: rune -> bool, i: nat)
    requires i < |rs|
  {
    rs[i] == 0x25 && sjis(0x25) && EscapeAt(EscapedRunes(rs[i..], sjis)).Some?
  }

  predicate HasFalseEscape(rs: seq<rune>, sjis: rune -> bool)
  {
    exists i :: 0 <= i < |rs| && FalseEscape(rs, sjis, i)
  }

  lemma FalseEscapeStep(rs: seq<rune>, sjis: rune -> bool)
    requires rs != []
    ensures HasFalseEscape(rs, sjis) <==> FalseEscape(rs, sjis, 0) || HasFalseEscape(rs[1..], sjis)
  {
    hide EscapedRunes, EscapeAt;
    assert rs[0..] == rs;
    forall i: nat | 0 < i < |rs|
      ensures FalseEscape(rs, sjis, i) <==> FalseEscape(rs[1..], sjis, i - 1)
    {
      assert rs[1..][i - 1..] == rs[i..];
    }
    if HasFalseEscape(rs[1..], sjis) {
      var k :| 0 <= k < |rs[1..]| && FalseEscape(rs[1..], sjis, k);
      assert FalseEscape(rs, sjis, k + 1);
    }
  }

  lemma PercentIsKept(sjis: rune -> bool)
    ensures EscapedRune(0x25, sjis) == Utf8Of(0x25) <==> sjis(0x25)
    ensures Utf8Of(0x25) == "%"
  {
    NotDamemoji(0x25, 0);
    RuneBytesLength(0x25);
  }

  /** An ASCII character other than `%` in front of the encoded text is a rune that was kept. */
  lemma KeptHead(rs: seq<rune>, sjis: rune -> bool, c: char)
    requires EscapedRunes(rs, sjis) != "" && EscapedRunes(rs, sjis)[0] == c && c != '%' && c as int < 0x80
    ensures rs != [] && Utf8Of(rs[0]) == [c] && EscapedRunes(rs, sjis) == [c] + EscapedRunes(rs[1..], sjis)
    ensures Utf8(rs) == [c] + Utf8(rs[1..])
  {}

  /** So a stretch of such characters is a stretch of kept runes. */
  lemma {:induction false} KeptStretch(rs: seq<rune>, sjis: rune -> bool, n: nat)
    requires n <= |EscapedRunes(rs, sjis)|
    requires forall k :: 0 <= k < n ==> EscapedRunes(rs, sjis)[k] != '%' && EscapedRunes(rs, sjis)[k] as int < 0x80
    ensures n <= |rs| && EscapedRunes(rs, sjis)[n..] == EscapedRunes(rs[n..], sjis)
    ensures |Utf8(rs)| == n + |Utf8(rs[n..])|
  {
    hide EscapedRunes, Utf8, EscapedRune;
    var s := EscapedRunes(rs, sjis);
    if n == 0 {
      assert s[0..] == s && rs[0..] == rs;
    } else {
      KeptHead(rs, sjis, s[0]);
      var rest := EscapedRunes(rs[1..], sjis);
      assert forall k :: 0 <= k < n - 1 ==> rest[k] == s[k + 1];
      KeptStretch(rs[1..], sjis, n - 1);
      assert s[n..] == rest[n - 1..];
      assert rs[n..] == rs[1..][n - 1..];
    }
  }

  lemma DigitIsPlain(c: char)
    requires DigitValue(c).Some?
    ensures c != '%' && c as int < 0x80
  {}

  lemma {:induction false} BytesLength(v: seq<sextet>)
    ensures Bytes(v).Some? ==> 4 * |Bytes(v).value| <= 3 * |v|
  {
    if |v| >= 4 {
      BytesLength(v[4..]);
    }
  }

  lemma {:induction false} LittleEndianBound(b: seq<byte>)
    ensures |b| <= 1 ==> LittleEndian(b) <= 0xff
    ensures |b| <= 2 ==> LittleEndian(b) <= 0xffff
  {
    if b != [] {
      if b[1..] != [] {
        assert b[1..][1..] == [] || |b| > 2;
        LittleEndianBound(b[1..]);
      }
    }
  }

  /** The characters of an escape behind the percent sign are ASCII and no percent signs, and what it
      stands for is not longer; it starts with something else than `%` or is shorter. */
  lemma EscapeShrinks(s: string)
    requires EscapeAt(s).Some?
    ensures var (text, n) := EscapeAt(s).value;
      && (forall k :: 1 <= k < n ==> s[k] != '%' && s[k] as int < 0x80)
      && 1 <= |text| <= n && (text[0] != '%' || |text| < n)
  {
    hide RuneString, LittleEndian, Decoded, Utf8Of;
    if s[1] == 'x' {
      DigitIsPlain(s[2]);
      DamemojiBytes(DigitValue(s[2]).value);
      var text := EscapeAt(s).value.0;
      assert text[0] in text;
    } else if s[1] != 'y' {
      EncodedShrinks(s, s[1] as int - 116 + 1);
    }
  }

  lemma DamemojiBytes(idx: nat)
    requires idx < |DAMEMOJI|
    ensures DAMEMOJI[idx] >= 0x80 && |Utf8Of(DAMEMOJI[idx])| <= 3
  {}

  lemma EncodedShrinks(s: string, m: nat)
    requires 1 <= m <= 4 && 2 + EncodedLen(m) <= |s| && Decoded(s[2..2 + EncodedLen(m)]).Some?
    ensures forall k :: 2 <= k < 2 + EncodedLen(m) ==> s[k] != '%' && s[k] as int < 0x80
    ensures 1 <= |RuneString(LittleEndian(Decoded(s[2..2 + EncodedLen(m)]).value))| < 2 + EncodedLen(m)
  {
    var d := s[2..2 + EncodedLen(m)];
    forall k | 2 <= k < 2 + EncodedLen(m)
      ensures s[k] != '%' && s[k] as int < 0x80
    {
      assert d[k - 2] == s[k];
      DigitIsPlain(d[k - 2]);
    }
    BytesLength(seq(|d|, i requires 0 <= i < |d| => DigitValue(d[i]).value));
    LittleEndianBound(Decoded(d).value);
  }

  /** Behind a false escape the text goes on at a rune. */
  lemma FalseEscapeConsumes(rs: seq<rune>, sjis: rune -> bool)
    requires rs != [] && FalseEscape(rs, sjis, 0)
    ensures var s := EscapedRunes(rs, sjis);
      && EscapeAt(s).Some?
      && var (text, n) := EscapeAt(s).value;
         n <= |rs| && s[n..] == EscapedRunes(rs[n..], sjis) && |Utf8(rs)| == n + |Utf8(rs[n..])|
  {
    assert rs[0..] == rs;
    hide EscapeAt, EscapedRunes, Utf8;
    EscapeShrinks(EscapedRunes(rs, sjis));
    StretchBehind(rs, sjis, EscapeAt(EscapedRunes(rs, sjis)).value.1);
  }

  /** Behind a kept percent sign, too, a stretch of plain characters is a stretch of kept runes. */
  lemma StretchBehind(rs: seq<rune>, sjis: rune -> bool, n: nat)
    requires rs != [] && rs[0] == 0x25 && sjis(0x25) && 1 <= n <= |EscapedRunes(rs, sjis)|
    requires forall k :: 1 <= k < n ==> EscapedRunes(rs, sjis)[k] != '%' && EscapedRunes(rs, sjis)[k] as int < 0x80
    ensures n <= |rs| && EscapedRunes(rs, sjis)[n..] == EscapedRunes(rs[n..], sjis) && |Utf8(rs)| == n + |Utf8(rs[n..])|
  {
    PercentHead(rs, sjis);
    hide *;
    var s, tail, more := EscapedRunes(rs, sjis), EscapedRunes(rs[1..], sjis), rs[1..];
    assert s == ['%'] + tail;
    Behind('%', tail, n);
    KeptStretch(more, sjis, n - 1);
    Behind(rs[0], more, n);
    assert [rs[0]] + more == rs;
  }

  lemma Behind<T>(x: T, tail: seq<T>, n: nat)
    requires 1 <= n <= 1 + |tail|
    ensures ([x] + tail)[n..] == tail[n - 1..]
    ensures forall k :: 0 <= k < |tail| ==> tail[k] == ([x] + tail)[k + 1]
  {}

  lemma PercentHead(rs: seq<rune>, sjis: rune -> bool)
    requires rs != [] && rs[0] == 0x25 && sjis(0x25)
    ensures EscapedRunes(rs, sjis) == "%" + EscapedRunes(rs[1..], sjis) && Utf8(rs) == "%" + Utf8(rs[1..])
  {
    PercentIsKept(sjis);
    hide Damemoji, RuneBytes;
  }

  lemma UnescapedStep(s: string)
    requires s != ""
    ensures EscapeAt(s).Some? ==> Unescaped(s) == EscapeAt(s).value.0 + Unescaped(s[EscapeAt(s).value.1..])
    ensures EscapeAt(s).None? ==> Unescaped(s) == [s[0]] + Unescaped(s[1..])
  {}

  /** One rune that is no false escape is read back as itself. */
  lemma TrueHead(rs: seq<rune>, sjis: rune -> bool)
    requires rs != [] && !FalseEscape(rs, sjis, 0)
    ensures Unescaped(EscapedRunes(rs, sjis)) == Utf8Of(rs[0]) + Unescaped(EscapedRunes(rs[1..], sjis))
  {
    hide EscapeAt, EscapedRune, Unescaped, Utf8Of;
    var head, rest := EscapedRune(rs[0], sjis), EscapedRunes(rs[1..], sjis);
    assert rs[0..] == rs && EscapedRunes(rs, sjis) == head + rest;
    hide EscapedRunes;
    if head != Utf8Of(rs[0]) {
      EscapedHead(rs[0], sjis, rest);
    } else if rs[0] == 0x25 {
      PercentIsKept(sjis);
      OpenPercent(rest);
    } else {
      NoPercent(rs[0]);
      PlainBytes(head, rest);
    }
  }

  lemma EscapedHead(r: rune, sjis: rune -> bool, rest: string)
    requires EscapedRune(r, sjis) != Utf8Of(r)
    ensures Unescaped(EscapedRune(r, sjis) + rest) == Utf8Of(r) + Unescaped(rest)
  {
    hide EscapeAt, EscapedRune, Unescaped, Utf8Of;
    var head := EscapedRune(r, sjis);
    EscapedRuneIsUndone(r, sjis, rest);
    UnescapedStep(head + rest);
    assert (head + rest)[|head|..] == rest;
  }

  lemma OpenPercent(rest: string)
    requires EscapeAt("%" + rest).None?
    ensures Unescaped("%" + rest) == "%" + Unescaped(rest)
  {
    hide EscapeAt, Unescaped;
    UnescapedStep("%" + rest);
    assert ("%" + rest)[1..] == rest;
  }

  lemma NoPercent(r: rune)
    requires r != 0x25
    ensures forall c <- Utf8Of(r) :: c != '%'
  {}

  /** Decoding never gives more than the original text. */
  lemma {:induction false} DecodingShrinks(rs: seq<rune>, sjis: rune -> bool)
    ensures |Unescaped(EscapedRunes(rs, sjis))| <= |Utf8(rs)|
    decreases |rs|
  {
    hide EscapedRunes, EscapeAt;
    if rs == [] {
      NothingEscaped(sjis);
    } else if FalseEscape(rs, sjis, 0) {
      FalseEscapeConsumes(rs, sjis);
      var s := EscapedRunes(rs, sjis);
      EscapeShrinks(s);
      DecodingShrinks(rs[EscapeAt(s).value.1..], sjis);
    } else {
      TrueHead(rs, sjis);
      DecodingShrinks(rs[1..], sjis);
    }
  }

  lemma NothingEscaped(sjis: rune -> bool)
    ensures EscapedRunes([], sjis) == ""
  {}

  lemma FalseEscapeIsLost(rs: seq<rune>, sjis: rune -> bool)
    requires rs != [] && FalseEscape(rs, sjis, 0)
    ensures Unescaped(EscapedRunes(rs, sjis)) != Utf8(rs)
  {
    FalseEscapeConsumes(rs, sjis);
    var s := EscapedRunes(rs, sjis);
    EscapeShrinks(s);
    var (text, n) := EscapeAt(s).value;
    hide EscapedRunes, EscapeAt;
    DecodingShrinks(rs[n..], sjis);
    assert Unescaped(s) == text + Unescaped(s[n..]);
    assert Utf8(rs)[0] == '%';
  }

  lemma {:induction false} EscapingRoundTrip(rs: seq<rune>, sjis: rune -> bool)
    ensures Unescaped(EscapedRunes(rs, sjis)) == Utf8(rs) <==> !HasFalseEscape(rs, sjis)
  {
    hide EscapedRunes, FalseEscape;
    if rs == [] {
      NothingEscaped(sjis);
    } else {
      FalseEscapeStep(rs, sjis);
      if FalseEscape(rs, sjis, 0) {
        FalseEscapeIsLost(rs, sjis);
      } else {
        TrueHead(rs, sjis);
        EscapingRoundTrip(rs[1..], sjis);
        SamePrefix(Utf8Of(rs[0]), Unescaped(EscapedRunes(rs[1..], sjis)), Utf8(rs[1..]));
      }
    }
  }

  lemma SamePrefix(a: string, x: string, y: string)
    ensures a + x == a + y <==> x == y
  {
    if a + x == a + y {
      assert x == (a + x)[|a|..] && y == (a + y)[|a|..];
    }
  }

  /** Property text comes back from `Decode` if and only if no percent sign that Shift_JIS keeps starts
      a complete escape in the encoded text. */
  lemma PropRoundTrip(rs: seq<rune>, sjis: rune -> bool)
    requires rs != []
    ensures Decode("." + EscapedRunes(rs, sjis)) == Some(Utf8(rs)) <==> !HasFalseEscape(rs, sjis)
  {
    EscapingRoundTrip(rs, sjis);
    assert ("." + EscapedRunes(rs, sjis))[1..] == EscapedRunes(rs, sjis);
    assert |EscapedRunes(rs, sjis)| >= 1;
  }

  /** A percent sign followed by a rune that starts no escape is safe. */
  lemma SafeHasNoFalseEscape(rs: seq<rune>, sjis: rune -> bool)
    requires PercentSafe(rs)
    ensures !HasFalseEscape(rs, sjis)
  {
    hide FalseEscape, PercentSafe;
    forall i | 0 <= i < |rs|
      ensures !FalseEscape(rs, sjis, i)
    {
      SafeIsNoEscape(rs, sjis, i);
    }
  }

  lemma SafeIsNoEscape(rs: seq<rune>, sjis: rune -> bool, i: nat)
    requires PercentSafe(rs) && i < |rs|
    ensures !FalseEscape(rs, sjis, i)
  {
    if rs[i] == 0x25 && sjis(0x25) {
      PercentHead(rs[i..], sjis);
      hide EscapedRunes;
      var s, tail := EscapedRunes(rs[i..], sjis), EscapedRunes(rs[i + 1..], sjis);
      assert rs[i..][1..] == rs[i + 1..];
      if i + 1 < |rs| {
        HeadOfEscaped(rs[i + 1..], sjis);
        assert s[1] == tail[0];
      } else {
        NothingEscaped(sjis);
      }
    }
  }

  lemma HeadOfEscaped(rs: seq<rune>, sjis: rune -> bool)
    requires rs != []
    ensures EscapedRunes(rs, sjis) != ""
    ensures EscapedRunes(rs, sjis)[0] == '%' || EscapedRunes(rs, sjis)[0] == Utf8Of(rs[0])[0]
  {}

  // ---------- paths are safe ----------

  predicate HexDigitByte(c: char) { '0' <= c <= '9' || 'a' <= c <= 'f' }

  /** In a path, a percent sign is always followed by a lower-case hexadecimal digit. */
  predicate PathLike(s: string)
  {
    forall i :: 0 <= i < |s| && s[i] == '%' ==> i + 1 < |s| && HexDigitByte(s[i + 1])
  }

  lemma {:induction false} EscapedNameIsPathLike(name: string)
    ensures PathLike(Escaped(name))
  {
    if name != "" {
      EscapedNameIsPathLike(name[1..]);
      PathLikeAppend(EscapedChar(name[0]), Escaped(name[1..]));
    }
  }

  lemma PathLikeAppend(a: string, b: string)
    requires PathLike(a) && PathLike(b)
    ensures PathLike(a + b)
  {
    var s := a + b;
    forall i | 0 <= i < |s| && s[i] == '%'
      ensures i + 1 < |s| && HexDigitByte(s[i + 1])
    {
      if i < |a| {
        assert a[i] == '%';
      } else {
        assert b[i - |a|] == '%';
      }
    }
  }

  /** Names joined by slashes, and two such paths joined by a tilde, stay path-like. */
  lemma {:induction false} JoinedNamesArePathLike(names: seq<string>, sep: char)
    requires sep != '%'
    ensures PathLike(Join(seq(|names|, i requires 0 <= i < |names| => Escaped(names[i])), sep))
  {
    var parts := seq(|names|, i requires 0 <= i < |names| => Escaped(names[i]));
    if |names| > 0 {
      EscapedNameIsPathLike(names[0]);
      if |names| > 1 {
        JoinedNamesArePathLike(names[1..], sep);
        assert parts[1..] == seq(|names[1..]|, i requires 0 <= i < |names[1..]| => Escaped(names[1..][i]));
        PathLikeAppend(parts[0], [sep]);
        PathLikeAppend(parts[0] + [sep], Join(parts[1..], sep));
      }
    }
  }

  lemma PercentThen(r: rune)
    ensures Utf8([0x25, r]) == "%" + Utf8Of(r)
  {
    var one: seq<rune>, two: seq<rune> := [r], [0x25, r];
    assert two[1..] == one && one[1..] == [];
    assert Utf8(one) == Utf8Of(r) + "";
    assert Utf8(two) == Utf8Of(0x25) + Utf8(one);
  }

  lemma PathLikeIsSafe(rs: seq<rune>)
    requires PathLike(Utf8(rs))
    ensures PercentSafe(rs)
  {
    forall i | 0 <= i < |rs| - 1 && rs[i] == 0x25
      ensures rs[i + 1] != 0x79 && !(0x74 <= rs[i + 1] <= 0x78)
    {
      assert rs == rs[..i] + [rs[i], rs[i + 1]] + rs[i + 2..];
      Utf8Append(rs[..i] + [rs[i], rs[i + 1]], rs[i + 2..]);
      Utf8Append(rs[..i], [rs[i], rs[i + 1]]);
      PercentThen(rs[i + 1]);
      var s, front, next, rest := Utf8(rs), Utf8(rs[..i]), Utf8Of(rs[i + 1]), Utf8(rs[i + 2..]);
      assert s == front + ("%" + next) + rest;
      var pair := "%" + next;
      assert pair[1] == next[0] && s[|front|] == pair[0] && s[|front| + 1] == pair[1];
    }
  }

  /** Any text whose percent signs are followed by hexadecimal digits round-trips. */
  lemma PathRoundTrip(rs: seq<rune>, sjis: rune -> bool)
    requires rs != [] && PathLike(Utf8(rs))
    ensures Decode("." + EscapedRunes(rs, sjis)) == Some(Utf8(rs))
  {
    PathLikeIsSafe(rs);
    SafeHasNoFalseEscape(rs, sjis);
    PropRoundTrip(rs, sjis);
  }

  /** A text that holds `%y`, both kept by Shift_JIS, is always lost. */
  lemma UnsafePercentIsLost(rs: seq<rune>, sjis: rune -> bool, i: nat)
    requires i + 1 < |rs| && rs[i] == 0x25 && rs[i + 1] == 0x79 && sjis(0x25) && sjis(0x79)
    ensures Decode("." + EscapedRunes(rs, sjis)) != Some(Utf8(rs))
  {
    PercentIsKept(sjis);
    NotDamemoji(0x79, 0);
    var t := rs[i..];
    assert t[1..][0] == rs[i + 1] && EscapedRune(0x79, sjis) == "y";
    assert EscapedRunes(t[1..], sjis) == "y" + EscapedRunes(t[1..][1..], sjis);
    assert EscapedRunes(t, sjis) == "%" + EscapedRunes(t[1..], sjis);
    assert FalseEscape(rs, sjis, i);
    PropRoundTrip(rs, sjis);
  }

  /** A percent sign and an `x` at the end of a text are read back. */
  lemma OpenPercentSurvives(sjis: rune -> bool)
    ensures Decode("." + EscapedRunes([0x25, 0x78], sjis)) == Some(Utf8([0x25, 0x78]))
  {
    var rs: seq<rune> := [0x25, 0x78];
    assert rs[1..] == [0x78] && rs[0..] == rs && rs[1..][1..] == [];
    NotDamemoji(0x78, 0);
    PercentIsKept(sjis);
    RuneBytesLength(0x78);
    forall i | 0 <= i < 2
      ensures !FalseEscape(rs, sjis, i)
    {
      if i == 0 && sjis(0x25) && sjis(0x78) {
        assert EscapedRunes(rs[1..], sjis) == "x" && EscapedRunes(rs, sjis) == "%x";
      }
    }
    PropRoundTrip(rs, sjis);
  }

  lemma {:induction false} NotDamemoji(r: rune, i: nat)
    requires r < 0x80 && i <= |DAMEMOJI|
    ensures DamemojiFrom(r, i).None?
    decreases |DAMEMOJI| - i
  {
    if i < |DAMEMOJI| {
      DamemojiBytes(i);
      hide DAMEMOJI;
      NotDamemoji(r, i + 1);
    }
  }

  function EscapedNames(names: seq<string>): seq<string>
  {
    seq(|names|, i requires 0 <= i < |names| => Escaped(names[i]))
  }

  /** What a slider stores, the path of its favourites node and the name of the chosen item joined by
      `~`, survives and splits into the two again. */
  lemma SliderStateRoundTrip(rs: seq<rune>, names: seq<string>, item: string, sjis: rune -> bool)
    requires Utf8(rs) == Join(EscapedNames(names), '/') + "~" + Escaped(item)
    ensures Decode("." + EscapedRunes(rs, sjis)) == Some(Utf8(rs))
    ensures Split(Utf8(rs), '~') == [Join(EscapedNames(names), '/'), Escaped(item)]
  {
    var path := Join(EscapedNames(names), '/');
    JoinedNamesArePathLike(names, '/');
    EscapedNameIsPathLike(item);
    PathLikeAppend(path, "~");
    PathLikeAppend(path + "~", Escaped(item));
    assert rs != [] by {
      assert |Utf8(rs)| > 0;
    }
    PathRoundTrip(rs, sjis);
    JoinedHasNoTilde(names);
    EscapedIsClean(item);
    SplitPiece(path, Escaped(item), '~');
  }

  lemma {:induction false} JoinedHasNoTilde(names: seq<string>)
    ensures '~' !in Join(EscapedNames(names), '/')
  {
    if names != [] {
      EscapedIsClean(names[0]);
      JoinedHasNoTilde(names[1..]);
      assert EscapedNames(names)[1..] == EscapedNames(names[1..]);
    }
  }
}
