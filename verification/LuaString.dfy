/** Lua string literals in the text of an object: finding an assignment, encoding and decoding its
    value (`src/c/luastr.c`), and the rewriting of `ptkf` and `ptkl` by the send button
    (`src/c/assist.c`). */
module LuaString {
  import opened Names

  // ---------- escapes ----------

  /** The letter behind the backslash, for characters that are escaped. */
  function Letter(c: char): Option<char>
  {
    var v := c as int;
    if v == 7 then Some('a')
    else if v == 8 then Some('b')
    else if v == 9 then Some('t')
    else if v == 10 then Some('n')
    else if v == 11 then Some('v')
    else if v == 12 then Some('f')
    else if v == 13 then Some('r')
    else if c == '"' || c == '\'' || c == '\\' then Some(c)
    else None
  }

  function Unletter(c: char): Option<char>
  {
    match c
    case 'a' => Some(7 as char)
    case 'b' => Some(8 as char)
    case 't' => Some(9 as char)
    case 'n' => Some(10 as char)
    case 'v' => Some(11 as char)
    case 'f' => Some(12 as char)
    case 'r' => Some(13 as char)
    case '"' => Some('"')
    case '\'' => Some('\'')
    case '\\' => Some('\\')
    case _ => None
  }

  function EscapeOne(c: char): (r: string)
    ensures 1 <= |r| <= 2
  {
    if Letter(c).Some? then ['\\', Letter(c).value] else [c]
  }

  /** The escaped characters of `s`, without the quotes. */
  function Body(s: string): string
  {
    if s == "" then "" else Body(s[..|s| - 1]) + EscapeOne(s[|s| - 1])
  }

  /** What a C string function sees of a buffer. */
  function CString(s: string): (r: string)
    ensures (0 as char) !in s ==> r == s
  {
    if s == "" || s[0] == 0 as char then ""
    else
      assert s == [s[0]] + s[1..];
      [s[0]] + CString(s[1..])
  }

  function Encoded(s: string): string { CString("\"" + Body(s) + "\"") }

  predicate NulFree(s: string) { (0 as char) !in s }

  /** The characters that `luastr_decode` makes of the buffer from `i` up to its last quote. */
  function DecodeFrom(src: string, i: nat): string
    requires i < |src|
    decreases |src| - i
  {
    if i == |src| - 1 then ""
    else if src[i] != '\\' then [src[i]] + DecodeFrom(src, i + 1)
    else if Unletter(src[i + 1]).None? then "\\" + DecodeFrom(src, i + 1)
    else [Unletter(src[i + 1]).value] + if i + 2 < |src| then DecodeFrom(src, i + 2) else ""
  }

  function Decoded(src: string): Option<string>
  {
    if src == "" || src[0] != '"' || src[|src| - 1] != '"' then None
    else if |src| == 1 then Some("")
    else Some(CString(DecodeFrom(src, 1)))
  }

  // ---------- finding an assignment ----------

  predicate OccursAt(s: string, p: nat, w: string)
  {
    p + |w| <= |s| && s[p..p + |w|] == w
  }

  ghost predicate Contains(s: string, w: string)
  {
    exists p :: OccursAt(s, p, w)
  }

  /** The first occurrence of `w` from `p` on. */
  function FindFirst(s: string, w: string, p: nat): (r: Option<nat>)
    ensures r.Some? ==> p <= r.value && OccursAt(s, r.value, w) && forall k: nat :: p <= k < r.value ==> !OccursAt(s, k, w)
    ensures r.None? ==> forall k: nat :: p <= k ==> !OccursAt(s, k, w)
    decreases |s| - p
  {
    if p + |w| > |s| then None
    else if OccursAt(s, p, w) then Some(p)
    else if p < |s| then FindFirst(s, w, p + 1)
    else None
  }

  /** The first quote from `i` on that no backslash stands before. */
  function ClosingQuote(s: string, i: nat): (r: Option<nat>)
    requires i >= 1
    ensures r.Some? ==> i <= r.value < |s| && s[r.value] == '"'
    decreases |s| - i
  {
    if i >= |s| then None
    else if s[i] == '"' && s[i - 1] != '\\' then Some(i)
    else ClosingQuote(s, i + 1)
  }

  /** Where `name="…"` starts and how long it is. */
  function FindAssign(s: string, name: string): (r: Option<(nat, nat)>)
    ensures r.Some? ==> r.value.0 + r.value.1 <= |s| && r.value.1 >= |name| + 3
  {
    var w := name + "=\"";
    match FindFirst(s, w, 0)
    case None => None
    case Some(start) =>
      match ClosingQuote(s, start + |w|)
      case None => None
      case Some(i) => Some((start, i + 1 - start))
  }

  method FindAssignment(s: string, name: string) returns (r: Option<(nat, nat)>)
    ensures r == FindAssign(s, name)
  {
    var w := name + "=\"";
    var start := FindFirst(s, w, 0);
    if start.None? {
      return None;
    }
    for i := start.value + |w| to |s|
      invariant ClosingQuote(s, start.value + |w|) == ClosingQuote(s, i)
    {
      if s[i] == '"' && s[i - 1] != '\\' {
        return Some((start.value, i + 1 - start.value));
      }
    }
    return None;
  }

  // ---------- the encoder's and decoder's buffers ----------

  /** `sgrow`: at least `cap` places, with the first `len` kept. */
  method Grow(buf: array<char>, len: nat, cap: nat) returns (r: array<char>)
    requires len <= buf.Length
    ensures r.Length >= cap && r.Length >= buf.Length && r[..len] == buf[..len]
    ensures r == buf || fresh(r)
  {
    if cap <= buf.Length {
      return buf;
    }
    r := new char[cap](_ => ' ');
    for i := 0 to len
      invariant r[..i] == buf[..i]
    {
      r[i] := buf[i];
    }
  }

  /** `tmp.ptr[tmp.len++] = c` */
  method Put(buf: array<char>, len: nat, c: char)
    requires len < buf.Length
    modifies buf
    ensures buf[..len + 1] == old(buf[..len]) + [c]
  {
    buf[len] := c;
  }

  /** `luastr_encode`: two places are there for the quotes and one for the end mark, and every
      escape adds one, so no write leaves the buffer. */
  method Encode(src: string) returns (dest: string)
    ensures dest == Encoded(src)
  {
    hide Letter, EscapeOne, CString;
    var cap := |src| + 3;
    var buf := new char[cap](_ => ' ');
    Put(buf, 0, '"');
    var len := 1;
    for i := 0 to |src|
      invariant 1 <= len && len + (|src| - i) + 2 <= cap <= buf.Length
      invariant fresh(buf)
      invariant buf[..len] == "\"" + Body(src[..i])
    {
      assert src[..i + 1][..i] == src[..i];
      ghost var before := buf[..len];
      buf, len, cap := PutEscaped(buf, len, cap, src[i]);
      assert before + EscapeOne(src[i]) == "\"" + (Body(src[..i]) + EscapeOne(src[i]));
    }
    assert src[..|src|] == src;
    Put(buf, len, '"');
    Put(buf, len + 1, 0 as char);
    EndMark("\"" + Body(src) + "\"");
    dest := CString(buf[..len + 2]);
  }

  /** One turn of the encoder's loop: an escape makes room for the place it takes more. */
  method PutEscaped(buf0: array<char>, len0: nat, cap0: nat, c: char) returns (buf: array<char>, len: nat, cap: nat)
    requires len0 + 1 <= cap0 <= buf0.Length
    modifies buf0
    ensures buf == buf0 || fresh(buf)
    ensures len - len0 == cap - cap0 + 1 && len0 < len <= cap <= buf.Length
    ensures buf[..len] == old(buf0[..len0]) + EscapeOne(c)
  {
    hide Letter, EscapeOne;
    EscapeOneMeaning(c);
    buf, len, cap := buf0, len0, cap0;
    var letter := Letter(c);
    if letter.None? {
      Put(buf, len, c);
      len := len + 1;
    } else {
      cap := cap + 1;
      buf := Grow(buf, len, cap);
      Put(buf, len, '\\');
      Put(buf, len + 1, letter.value);
      len := len + 2;
    }
  }

  lemma EscapeOneMeaning(c: char)
    ensures EscapeOne(c) == if Letter(c).Some? then ['\\', Letter(c).value] else [c]
  {}

  lemma {:induction false} EndMark(s: string)
    ensures CString(s + [0 as char]) == CString(s)
  {
    if s != "" {
      assert (s + [0 as char])[1..] == s[1..] + [0 as char];
      EndMark(s[1..]);
    }
  }

  /** `luastr_decode`: the buffer has a place for every character but the two quotes and one for the end mark.
      `inside` tells whether the end mark is written within it; only for the text of a single quote, which
      passes the check of both quotes, it is not. */
  method Decode(src: string) returns (dest: Option<string>, inside: bool)
    ensures dest == Decoded(src) && (inside <==> src != "\"")
  {
    hide DecodeFrom, CString, RestFrom, Unletter;
    if src == "" || src[0] != '"' || src[|src| - 1] != '"' {
      return None, true;
    }
    var last := |src| - 1;
    var cap := |src| - 2 + 1;
    var buf := new char[cap](_ => ' ');
    var len, i := 0, 1;
    RestEnds(src, i);
    assert buf[..0] + RestFrom(src, 1) == RestFrom(src, 1);
    while i < last
      invariant 1 <= i <= |src| && len + 1 <= i && (len < last || last == len == 0)
      invariant buf[..len] + RestFrom(src, i) == RestFrom(src, 1)
      decreases |src| - i
    {
      var c, step := DecodeOne(src, i);
      ghost var before, rest := buf[..len], RestFrom(src, i + step);
      Put(buf, len, c);
      len, i := len + 1, i + step;
      assert before + ([c] + rest) == before + [c] + rest;
    }
    RestEnds(src, i);
    assert buf[..len] + "" == buf[..len];
    inside := len < buf.Length;
    if inside {
      Put(buf, len, 0 as char);
    }
    DecodedIs(src, buf[..len]);
    return Some(CString(buf[..len] + [0 as char])), inside;
  }

  lemma DecodedIs(src: string, body: string)
    requires src != "" && src[0] == '"' && src[|src| - 1] == '"' && body == RestFrom(src, 1)
    ensures Decoded(src) == Some(CString(body + [0 as char]))
  {
    RestEnds(src, 1);
    EndMark(body);
    assert CString("") == "";
  }

  lemma RestEnds(src: string, i: nat)
    ensures i + 1 >= |src| ==> RestFrom(src, i) == ""
    ensures i < |src| ==> RestFrom(src, i) == DecodeFrom(src, i)
  {}

  ghost function RestFrom(src: string, i: nat): string
  {
    if i < |src| then DecodeFrom(src, i) else ""
  }

  /** One turn of the decoder's loop: the character it appends and how far it moves. */
  method DecodeOne(src: string, i: nat) returns (c: char, step: nat)
    requires i + 1 < |src|
    ensures 1 <= step <= 2 && RestFrom(src, i) == [c] + RestFrom(src, i + step)
  {
    if src[i] != '\\' {
      return src[i], 1;
    }
    if Unletter(src[i + 1]).None? {
      return '\\', 1;
    }
    return Unletter(src[i + 1]).value, 2;
  }

  // ---------- the send button ----------

  /** The text with the two values replaced, and the old file; nothing when a variable is missing. */
  function Rewritten(text: string, file: string, state: string): Option<(string, string)>
  {
    match FindAssign(text, "ptkf")
    case None => None
    case Some(f) =>
      match Decoded(text[f.0 + 5..f.0 + f.1])
      case None => None
      case Some(old_file) =>
        var next := text[..f.0] + "ptkf=" + Encoded(file) + text[f.0 + f.1..];
        match FindAssign(next, "ptkl")
        case None => None
        case Some(l) => Some((next[..l.0] + "ptkl=" + Encoded(state) + next[l.0 + l.1..], old_file))
  }

  method Rewrite(text: string, file: string, state: string) returns (r: Option<(string, string)>)
    ensures r == Rewritten(text, file, state)
  {
    hide FindAssign, Decoded, Encoded;
    var f := FindAssignment(text, "ptkf");
    if f.None? {
      return None;
    }
    var end := f.value.0 + f.value.1;
    var before, inside := Decode(text[f.value.0 + 5..end]);
    assert inside;
    if before.None? {
      return None;
    }
    var value := Encode(file);
    var next := text[..f.value.0] + "ptkf=" + value + text[end..];
    var l := FindAssignment(next, "ptkl");
    if l.None? {
      return None;
    }
    value := Encode(state);
    return Some((next[..l.value.0] + "ptkl=" + value + next[l.value.0 + l.value.1..], before.value));
  }
}
