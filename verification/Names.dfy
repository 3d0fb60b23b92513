/** Splitting and joining on a separator, decimal numbers, and the name escaping of
    `src/go/img/util.go`.  A Go string is a sequence of bytes; here each byte is a `char`. */
module Names {

  datatype Option<+T> = None | Some(value: T)

  // ---------- strings.Split and strings.Join for a one-byte separator ----------

  function Split(s: string, sep: char): (parts: seq<string>)
    ensures |parts| >= 1
    ensures forall p <- parts :: sep !in p
    ensures sep !in s ==> parts == [s]
  {
    if |s| == 0 then [""]
    else if s[0] == sep then [""] + Split(s[1..], sep)
    else
      var rest := Split(s[1..], sep);
      assert sep !in s ==> s == [s[0]] + s[1..];
      [[s[0]] + rest[0]] + rest[1..]
  }

  function Join(parts: seq<string>, sep: char): string
  {
    if |parts| == 0 then ""
    else if |parts| == 1 then parts[0]
    else parts[0] + [sep] + Join(parts[1..], sep)
  }

  /** A separator-free piece followed by the separator is split off whole. */
  lemma {:induction false} SplitPiece(p: string, rest: string, sep: char)
    requires sep !in p
    ensures Split(p + [sep] + rest, sep) == [p] + Split(rest, sep)
  {
    var s := p + [sep] + rest;
    if p == "" {
      assert s[1..] == rest;
    } else {
      assert s[1..] == p[1..] + [sep] + rest && s[0] == p[0] != sep;
      SplitPiece(p[1..], rest, sep);
      SplitGrows(s, sep);
      assert p == [p[0]] + p[1..];
      var tail := Split(rest, sep);
      hide Split;
      assert ([p[1..]] + tail)[1..] == tail;
    }
  }

  lemma SplitGrows(s: string, sep: char)
    requires s != "" && s[0] != sep
    ensures Split(s, sep) == [[s[0]] + Split(s[1..], sep)[0]] + Split(s[1..], sep)[1..]
  {}

  /** Splitting undoes joining when no part holds the separator. */
  lemma {:induction false} SplitJoin(parts: seq<string>, sep: char)
    requires |parts| >= 1
    requires forall p <- parts :: sep !in p
    ensures Split(Join(parts, sep), sep) == parts
  {
    if |parts| > 1 {
      SplitJoin(parts[1..], sep);
      SplitPiece(parts[0], Join(parts[1..], sep), sep);
    }
  }

  // ---------- itoa ----------

  /** Decimal digits of `x`, most significant first.  Below ten the source stores the
      single byte `x + '0'`, which wraps around for a negative number. */
  function Decimal(x: int): (r: string)
    ensures |r| >= 1
    decreases if x < 0 then 0 else x
  {
    if x < 10 then [((x + 48) % 256) as char]
    else Decimal(x / 10) + [((x % 10) + 48) as char]
  }

  function DecimalValue(s: string): int
  {
    if |s| == 0 then 0 else 10 * DecimalValue(s[..|s|-1]) + (s[|s|-1] as int - 48)
  }

  predicate IsDigit(c: char) { '0' <= c <= '9' }

  lemma {:induction false} DecimalRoundTrip(x: nat)
    ensures DecimalValue(Decimal(x)) == x
    ensures forall c <- Decimal(x) :: IsDigit(c)
  {
    var r := Decimal(x);
    if x >= 10 {
      DecimalRoundTrip(x / 10);
      assert r[..|r|-1] == Decimal(x / 10);
    } else {
      assert r[..0] == "";
    }
  }

  /** `itoa` fills a 32-byte buffer from its end; a 64-bit number never overruns it. */
  method Itoa(x: int) returns (r: string)
    requires -0x8000_0000_0000_0000 <= x < 0x8000_0000_0000_0000
    ensures r == Decimal(x)
  {
    hide Pow10, Decimal;
    ShortDecimal(x);
    if x < 10 {
      return [((x + 48) % 256) as char];
    } else if x < 100 {
      return [((x / 10) + 48) as char, ((x % 10) + 48) as char];
    }
    Pow10Nineteen();
    r := Digits(x);
  }

  /** The loop of `itoa` over its buffer. */
  method Digits(x: nat) returns (r: string)
    requires 0 < x < Pow10(19)
    ensures r == Decimal(x)
  {
    hide Pow10, Decimal;
    var b := new char[32];
    var i, y := b.Length - 1, x;
    assert b[i + 1..] == "" && Decimal(x) + "" == Decimal(x);
    while y > 9
      invariant 0 < y
      invariant 12 <= i < 32
      invariant y < Pow10(i - 12)
      invariant Decimal(y) + b[i + 1..] == Decimal(x)
      decreases y
    {
      ghost var tail := b[i + 1..];
      b[i] := ((y % 10) + 48) as char;
      assert b[i..] == [b[i]] + tail;
      LastDigit(y, tail);
      RoomForRest(y, i - 12);
      y := y / 10;
      i := i - 1;
    }
    ghost var tail := b[i + 1..];
    ShortDecimal(y);
    b[i] := (y + 48) as char;
    assert b[i..] == [b[i]] + tail;
    return b[i..];
  }

  lemma ShortDecimal(x: int)
    ensures x < 10 ==> Decimal(x) == [((x + 48) % 256) as char]
    ensures 10 <= x < 100 ==> Decimal(x) == [((x / 10) + 48) as char, ((x % 10) + 48) as char]
  {}

  lemma LastDigit(y: nat, tail: string)
    requires y > 9
    ensures Decimal(y) + tail == Decimal(y / 10) + ([((y % 10) + 48) as char] + tail)
  {}

  lemma RoomForRest(y: nat, n: nat)
    requires 9 < y < Pow10(n)
    ensures n >= 1 && y / 10 < Pow10(n - 1)
  {}

  function Pow10(n: nat): nat { if n == 0 then 1 else 10 * Pow10(n - 1) }

  lemma Pow10Nineteen()
    ensures Pow10(19) == 10_000_000_000_000_000_000
  {
    assert Pow10(6) == 1_000_000;
    assert Pow10(12) == 1_000_000_000_000;
    assert Pow10(18) == 1_000_000_000_000_000_000;
  }

  // ---------- encodeName and decodeName ----------

  predicate NeedsEscape(c: char)
  {
    var v := c as int;
    v <= 0x20 || v in {0x22, 0x25, 0x27, 0x2f, 0x5b, 0x5c, 0x5d, 0x7e, 0x7f}
  }

  function HexChar(v: int): char
    requires 0 <= v < 16
  {
    if v < 10 then (48 + v) as char else (97 + v - 10) as char
  }

  function EscapedChar(c: char): (r: string)
    ensures 1 <= |r| <= 3
  {
    if NeedsEscape(c) then ['%', HexChar(c as int / 16), HexChar(c as int % 16)] else [c]
  }

  function Escaped(s: string): string
  {
    if s == "" then "" else EscapedChar(s[0]) + Escaped(s[1..])
  }

  method EncodeName(s: string) returns (b: string)
    ensures b == Escaped(s)
  {
    b := "";
    for i := 0 to |s|
      invariant b + Escaped(s[i..]) == Escaped(s)
    {
      var c := s[i];
      assert s[i..][1..] == s[i + 1..];
      assert b + EscapedChar(c) + Escaped(s[i + 1..]) == b + Escaped(s[i..]);
      if NeedsEscape(c) {
        b := b + ['%', HexChar(c as int / 16), HexChar(c as int % 16)];
      } else {
        b := b + [c];
      }
    }
  }

  function HexValue(c: char): (r: Option<int>)
    ensures r.Some? ==> 0 <= r.value < 16
  {
    if '0' <= c <= '9' then Some(c as int - 48)
    else if 'a' <= c <= 'f' then Some(c as int - 87)
    else if 'A' <= c <= 'F' then Some(c as int - 55)
    else None
  }

  /** Percent-decoding of one path segment (section 2.1 of RFC 3986): every `%` must be
      followed by two hexadecimal digits. */
  function DecodeName(s: string): Option<string>
  {
    if s == "" then Some("")
    else if s[0] != '%' then
      match DecodeName(s[1..])
      case None => None
      case Some(t) => Some([s[0]] + t)
    else if |s| < 3 || HexValue(s[1]).None? || HexValue(s[2]).None? then None
    else
      match DecodeName(s[3..])
      case None => None
      case Some(t) => Some([(16 * HexValue(s[1]).value + HexValue(s[2]).value) as char] + t)
  }

  lemma HexRoundTrip(v: int)
    requires 0 <= v < 16
    ensures HexValue(HexChar(v)) == Some(v)
  {}

  /** Every name survives escaping, whatever bytes it holds. */
  lemma {:induction false} NameRoundTrip(s: string)
    ensures DecodeName(Escaped(s)) == Some(s)
  {
    if s != "" {
      NameRoundTrip(s[1..]);
      DecodeFirst(s[0], Escaped(s[1..]));
      assert s == [s[0]] + s[1..];
    }
  }

  lemma DecodeFirst(c: char, rest: string)
    requires DecodeName(rest).Some?
    ensures DecodeName(EscapedChar(c) + rest) == Some([c] + DecodeName(rest).value)
  {
    var e := EscapedChar(c);
    assert (e + rest)[|e|..] == rest;
    if NeedsEscape(c) {
      HexRoundTrip(c as int / 16);
      HexRoundTrip(c as int % 16);
    }
  }

  lemma EscapedInjective(a: string, b: string)
    requires Escaped(a) == Escaped(b)
    ensures a == b
  {
    NameRoundTrip(a);
    NameRoundTrip(b);
  }

  /** An escaped name holds no path separator, no favourite separator, no blank and no
      character that would itself need escaping other than `%`. */
  lemma {:induction false} EscapedIsClean(s: string)
    ensures forall c <- Escaped(s) :: c == '%' || !NeedsEscape(c)
  {
    if s != "" {
      EscapedIsClean(s[1..]);
    }
  }

  lemma {:induction false} EscapedAppend(a: string, b: string)
    ensures Escaped(a + b) == Escaped(a) + Escaped(b)
  {
    hide EscapedChar;
    if a == "" {
      assert a + b == b;
    } else {
      EscapedAppend(a[1..], b);
      assert (a + b)[1..] == a[1..] + b;
    }
  }
}
