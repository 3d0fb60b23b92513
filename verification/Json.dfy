/** The JSON printer and parser of `src/lua/json.lua`.  A Lua string is a sequence of bytes, one
    `char` each; indices start at 0 here. */
module Json {
  import opened Names

  // ---------- Lua values ----------

  datatype Key = Index(i: int) | Name(s: string)

  /** A value to print.  A table lists its entries in the order `pairs` happens to visit them;
      `Other` stands for functions, threads and userdata. */
  datatype Lua = Nil | Boolean(b: bool) | Number(x: real) | Text(s: string) | Table(entries: seq<Entry>) | Other

  datatype Entry = Entry(key: Key, value: Lua)

  /** A value as read back: what a table holds, without an order. */
  datatype Value = Null | Bool(b: bool) | Num(x: real) | Str(s: string) | Tab(fields: map<Key, Value>)

  /** Lua's own conversions: how other numbers than short integers are read and shown, and `#`. */
  datatype Lib = Lib(read: string -> Option<real>, show: real -> string, length: seq<Entry> -> int)

  function Find(es: seq<Entry>, k: Key): (r: Option<nat>)
    ensures r.Some? ==> r.value < |es| && es[r.value].key == k
    ensures r.None? ==> forall e <- es :: e.key != k
  {
    if es == [] then None
    else if es[|es| - 1].key == k then Some(|es| - 1)
    else Find(es[..|es| - 1], k)
  }

  /** `n` is a border of the table, which is all that Lua promises of `#`. */
  ghost predicate IsBorder(es: seq<Entry>, n: int)
  {
    n >= 0 && (n > 0 ==> Find(es, Index(n)).Some?) && Find(es, Index(n + 1)).None?
  }

  ghost predicate LibOk(lib: Lib)
  {
    forall es :: IsBorder(es, lib.length(es))
  }

  function Meaning(v: Lua): Value
    decreases v, 0
  {
    match v
    case Nil => Null
    case Boolean(b) => Bool(b)
    case Number(x) => Num(x)
    case Text(s) => Str(s)
    case Table(es) => Tab(Fields(es))
    case Other => Null
  }

  function Fields(es: seq<Entry>): map<Key, Value>
    decreases es, 1
  {
    if es == [] then map[]
    else Fields(es[..|es| - 1])[es[|es| - 1].key := MeaningAt(es[|es| - 1])]
  }

  function MeaningAt(e: Entry): Value
    decreases e, 0
  {
    Meaning(e.value)
  }

  // ---------- printing ----------

  function HexDigit(n: nat): char
    requires n < 16
  {
    HexChar(n)
  }

  function EscapeChar(c: char): string
  {
    match c
    case '\\' => "\\\\"
    case '"' => "\\\""
    case '\n' => "\\n"
    case '\r' => "\\r"
    case '\t' => "\\t"
    case _ =>
      if c as int == 8 then "\\b"
      else if c as int == 12 then "\\f"
      else "\\u00" + [HexDigit(c as int / 16 % 16), HexDigit(c as int % 16)]
  }

  predicate Special(c: char) { c < ' ' || c == '\\' || c == '"' }

  /** `val:gsub('[%z\1-\31\\"]', escape_char)` */
  function EscapeAll(s: string): string
  {
    if s == "" then "" else (if Special(s[0]) then EscapeChar(s[0]) else [s[0]]) + EscapeAll(s[1..])
  }

  function EncodeString(s: string): string { "\"" + EscapeAll(s) + "\"" }

  const Limit := 100_000_000_000_000

  predicate Short(x: real) { x == x.Floor as real && -Limit < x.Floor < Limit }

  function SignedDecimal(n: int): string
  {
    if n < 0 then "-" + Decimal(-n) else Decimal(n)
  }

  /** `%.14g`: fourteen digits hold every integer below 10^14 exactly. */
  function EncodeNumber(x: real, lib: Lib): string
  {
    if Short(x) then SignedDecimal(x.Floor) else lib.show(x)
  }

  function Encode(v: Lua, lib: Lib): Option<string>
    decreases v, 0
  {
    match v
    case Nil => Some("null")
    case Boolean(b) => Some(if b then "true" else "false")
    case Number(x) => Some(EncodeNumber(x, lib))
    case Text(s) => Some(EncodeString(s))
    case Other => None
    case Table(es) =>
      if Find(es, Index(1)).Some? || es == [] then
        if (exists e <- es :: e.key.Name?) || lib.length(es) != |es| then None
        else
          match EncodeItems(es, 1, lib)
          case None => None
          case Some(parts) => Some("[" + Join(parts, ',') + "]")
      else
        match EncodeEntries(es, lib)
        case None => None
        case Some(parts) => Some("{" + Join(parts, ',') + "}")
  }

  function EncodeAt(e: Entry, lib: Lib): Option<string>
    decreases e, 0
  {
    Encode(e.value, lib)
  }

  /** `ipairs`: the values at `i`, `i + 1`, and so on.  The table has as many entries as its
      length, so nothing lies beyond. */
  function EncodeItems(es: seq<Entry>, i: nat, lib: Lib): Option<seq<string>>
    decreases es, 1, |es| + 1 - i
  {
    if i > |es| || Find(es, Index(i)).None? then Some([])
    else
      match EncodeAt(es[Find(es, Index(i)).value], lib)
      case None => None
      case Some(part) =>
        match EncodeItems(es, i + 1, lib)
        case None => None
        case Some(parts) => Some([part] + parts)
  }

  function EncodeEntries(es: seq<Entry>, lib: Lib): Option<seq<string>>
    decreases es, 1, 0
  {
    if es == [] then Some([])
    else if es[0].key.Index? then None
    else
      match EncodeAt(es[0], lib)
      case None => None
      case Some(part) =>
        match EncodeEntries(es[1..], lib)
        case None => None
        case Some(parts) => Some([EncodeString(es[0].key.s) + ":" + part] + parts)
  }

  // ---------- reading ----------

  datatype Parsed<+T> = Done(value: T, next: nat) | Bad

  const Spaces: set<char> := {' ', '\t', '\r', '\n'}
  const Delims: set<char> := {' ', '\t', '\r', '\n', ']', '}', ','}

  /** The first place from `i` on whose character is in `chars` (is not, if `negate`). */
  function NextChar(s: string, i: nat, chars: set<char>, negate: bool): (r: nat)
    requires i <= |s|
    ensures i <= r <= |s|
    ensures r < |s| ==> (s[r] in chars) != negate
    ensures forall k :: i <= k < r ==> (s[k] in chars) == negate
    decreases |s| - i
  {
    if i == |s| || (s[i] in chars) != negate then i else NextChar(s, i + 1, chars, negate)
  }

  predicate IsHex(c: char) { HexValue(c).Some? }

  predicate FourHex(s: string, j: nat)
  {
    j + 4 <= |s| && IsHex(s[j]) && IsHex(s[j + 1]) && IsHex(s[j + 2]) && IsHex(s[j + 3])
  }

  function Hex4(s: string, j: nat): int
    requires FourHex(s, j)
  {
    4096 * HexValue(s[j]).value + 256 * HexValue(s[j + 1]).value + 16 * HexValue(s[j + 2]).value + HexValue(s[j + 3]).value
  }

  predicate Surrogates(s: string, j: nat)
  {
    FourHex(s, j) && s[j] in "dD" && s[j + 1] in "89aAbB" && j + 6 <= |s| && s[j + 4] == '\\' && s[j + 5] == 'u' &&
    FourHex(s, j + 6)
  }

  function Utf8(n: int): Option<string>
  {
    if n < 0 then None
    else if n <= 0x7f then Some([n as char])
    else if n <= 0x7ff then Some([(n / 64 + 192) as char, (n % 64 + 128) as char])
    else if n <= 0xffff then Some([(n / 4096 + 224) as char, (n % 4096 / 64 + 128) as char, (n % 64 + 128) as char])
    else if n <= 0x10ffff then
      Some([(n / 262144 + 240) as char, (n % 262144 / 4096 + 128) as char, (n % 4096 / 64 + 128) as char, (n % 64 + 128) as char])
    else None
  }

  /** The text of the escape whose letter stands at `j`, and where it ends. */
  function ParseEscape(s: string, j: nat): (r: Parsed<string>)
    ensures r.Done? ==> j < r.next <= |s|
  {
    if j >= |s| then Bad
    else
      match s[j]
      case 'u' =>
        if Surrogates(s, j + 1) then
          var n := (Hex4(s, j + 1) - 0xd800) * 0x400 + (Hex4(s, j + 7) - 0xdc00) + 0x10000;
          if Utf8(n).Some? then Done(Utf8(n).value, j + 11) else Bad
        else if FourHex(s, j + 1) then
          var n := Hex4(s, j + 1);
          if Utf8(n).Some? then Done(Utf8(n).value, j + 5) else Bad
        else Bad
      case '\\' => Done("\\", j + 1)
      case '/' => Done("/", j + 1)
      case '"' => Done("\"", j + 1)
      case 'b' => Done([8 as char], j + 1)
      case 'f' => Done([12 as char], j + 1)
      case 'n' => Done("\n", j + 1)
      case 'r' => Done("\r", j + 1)
      case 't' => Done("\t", j + 1)
      case _ => Bad
  }

  function Prepend(text: string, p: Parsed<string>): Parsed<string>
  {
    if p.Bad? then Bad else Done(text + p.value, p.next)
  }

  /** The rest of a string literal from `j`, up to and past its closing quote. */
  function StringFrom(s: string, j: nat): (r: Parsed<string>)
    requires j <= |s|
    ensures r.Done? ==> j < r.next <= |s|
    decreases |s| - j
  {
    if j == |s| || s[j] < ' ' then Bad
    else if s[j] == '"' then Done("", j + 1)
    else if s[j] == '\\' then
      var e := ParseEscape(s, j + 1);
      if e.Bad? then Bad else Prepend(e.value, StringFrom(s, e.next))
    else Prepend([s[j]], StringFrom(s, j + 1))
  }

  predicate AllDigits(s: string) { s != "" && forall c <- s :: IsDigit(c) }

  /** `tonumber` on short decimal integers; anything else is up to Lua. */
  function ReadNumber(s: string, lib: Lib): Option<real>
  {
    if AllDigits(s) && |s| <= 15 then Some(DecimalValue(s) as real)
    else if s != "" && s[0] == '-' && AllDigits(s[1..]) && |s| <= 16 then Some((-DecimalValue(s[1..])) as real)
    else lib.read(s)
  }

  function ParseNumber(s: string, i: nat, lib: Lib): Parsed<Value>
    requires i <= |s|
  {
    var x := NextChar(s, i, Delims, false);
    match ReadNumber(s[i..x], lib)
    case None => Bad
    case Some(n) => Done(Num(n), x)
  }

  function ParseLiteral(s: string, i: nat): Parsed<Value>
    requires i <= |s|
  {
    var x := NextChar(s, i, Delims, false);
    var word := s[i..x];
    if word == "true" then Done(Bool(true), x)
    else if word == "false" then Done(Bool(false), x)
    else if word == "null" then Done(Null, x)
    else Bad
  }

  /** `res[key] = val`: assigning nil removes the key. */
  function Assign(res: map<Key, Value>, key: Key, val: Value): map<Key, Value>
  {
    if val.Null? then res - {key} else res[key := val]
  }

  datatype Token = Close(next: nat) | Comma(next: nat) | Neither

  /** What follows a value in an array or object that `close` ends. */
  function NextToken(s: string, i: nat, close: char): (r: Token)
    requires i <= |s|
    ensures !r.Neither? ==> i < r.next <= |s|
  {
    var b := NextChar(s, i, Spaces, true);
    if b == |s| then Neither
    else if s[b] == close then Close(b + 1)
    else if s[b] == ',' then Comma(b + 1)
    else Neither
  }

  function Parse(s: string, i: nat, lib: Lib): (r: Parsed<Value>)
    requires i <= |s|
    ensures r.Done? ==> i < r.next <= |s|
    ensures r.Done? ==> s[i] !in {' ', '\t', '\r', '\n', ']', '}', ',', ':'}
    decreases |s| - i, 1
  {
    if i == |s| then Bad
    else if s[i] == '"' then
      var t := StringFrom(s, i + 1);
      if t.Bad? then Bad else Done(Str(t.value), t.next)
    else if IsDigit(s[i]) || s[i] == '-' then ParseNumber(s, i, lib)
    else if s[i] in {'t', 'f', 'n'} then ParseLiteral(s, i)
    else if s[i] == '[' then ArrayFrom(s, i + 1, map[], 1, lib)
    else if s[i] == '{' then ObjectFrom(s, i + 1, map[], lib)
    else Bad
  }

  /** The loop of `parse_array` from `i`, with `n - 1` values read. */
  function ArrayFrom(s: string, i: nat, res: map<Key, Value>, n: nat, lib: Lib): (r: Parsed<Value>)
    requires i <= |s|
    ensures r.Done? ==> i < r.next <= |s|
    decreases |s| - i, 2
  {
    var a := NextChar(s, i, Spaces, true);
    if a < |s| && s[a] == ']' then Done(Tab(res), a + 1)
    else
      var x := Parse(s, a, lib);
      if x.Bad? then Bad
      else
        var more := Assign(res, Index(n), x.value);
        match NextToken(s, x.next, ']')
        case Close(b) => Done(Tab(more), b)
        case Comma(b) => ArrayFrom(s, b, more, n + 1, lib)
        case Neither => Bad
  }

  /** The loop of `parse_object` from `i`. */
  function ObjectFrom(s: string, i: nat, res: map<Key, Value>, lib: Lib): (r: Parsed<Value>)
    requires i <= |s|
    ensures r.Done? ==> i < r.next <= |s|
    decreases |s| - i, 2
  {
    var a := NextChar(s, i, Spaces, true);
    if a == |s| then Bad
    else if s[a] == '}' then Done(Tab(res), a + 1)
    else
      var p := ParsePair(s, a, lib);
      if p.Bad? then Bad
      else
        var more := Assign(res, Name(p.value.0), p.value.1);
        match NextToken(s, p.next, '}')
        case Close(b) => Done(Tab(more), b)
        case Comma(b) => ObjectFrom(s, b, more, lib)
        case Neither => Bad
  }

  /** A key, a colon and a value. */
  function ParsePair(s: string, a: nat, lib: Lib): (r: Parsed<(string, Value)>)
    requires a < |s|
    ensures r.Done? ==> a < r.next <= |s|
    decreases |s| - a, 1
  {
    if s[a] != '"' then Bad
    else
      var key := StringFrom(s, a + 1);
      if key.Bad? then Bad
      else
        var c := NextChar(s, key.next, Spaces, true);
        if c == |s| || s[c] != ':' then Bad
        else
          var v := Parse(s, NextChar(s, c + 1, Spaces, true), lib);
          if v.Bad? then Bad else Done((key.value, v.value), v.next)
  }

  /** `json.decode`: one value, then nothing but blanks. */
  function Decode(s: string, lib: Lib): Option<Value>
  {
    match Parse(s, NextChar(s, 0, Spaces, true), lib)
    case Bad => None
    case Done(v, i) => if NextChar(s, i, Spaces, true) < |s| then None else Some(v)
  }
}
