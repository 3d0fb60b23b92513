/** Reading undoes printing, whatever the order in which `pairs` visits a table. */
module JsonRoundTrip {
  import opened Names
  import opened Json

  /** The keys are exactly 1 to the number of entries. */
  ghost predicate IsArray(es: seq<Entry>)
  {
    && (forall e <- es :: e.key.Index? && 1 <= e.key.i <= |es|)
    && (forall k :: 1 <= k <= |es| ==> Find(es, Index(k)).Some?)
  }

  ghost predicate IsObject(es: seq<Entry>)
  {
    forall e <- es :: e.key.Name?
  }

  /** A number that Lua shows as one JSON token and reads back as the same number. */
  ghost predicate Survives(x: real, lib: Lib)
  {
    var t := EncodeNumber(x, lib);
    && t != "" && (IsDigit(t[0]) || t[0] == '-')
    && (forall c <- t :: c !in Delims)
    && ReadNumber(t, lib) == Some(x)
  }

  /** Values built from booleans, byte strings, surviving numbers, arrays and string-keyed objects. */
  ghost predicate Clean(v: Lua, lib: Lib)
    decreases v, 0
  {
    match v
    case Nil => false
    case Boolean(_) => true
    case Number(x) => Survives(x, lib)
    case Text(_) => true
    case Table(es) => (IsArray(es) || IsObject(es)) && AllClean(es, lib)
    case Other => false
  }

  ghost predicate AllClean(es: seq<Entry>, lib: Lib)
    decreases es, 1
  {
    forall k :: 0 <= k < |es| ==> CleanAt(es[k], lib)
  }

  ghost predicate CleanAt(e: Entry, lib: Lib)
    decreases e, 0
  {
    Clean(e.value, lib)
  }

  // ---------- numbers ----------

  lemma {:induction false} DecimalLength(n: nat, d: nat)
    requires d >= 1 && n < Pow10(d)
    ensures |Decimal(n)| <= d
    decreases d
  {
    if n >= 10 {
      DecimalLength(n / 10, d - 1);
    }
  }

  lemma LimitIsPower()
    ensures Pow10(14) == Limit
  {
    assert Pow10(7) == 10_000_000;
  }

  /** Integers below 10^14 survive, whatever Lua does with other numbers. */
  lemma ShortSurvives(x: real, lib: Lib)
    requires Short(x)
    ensures Survives(x, lib)
  {
    var n: int := x.Floor;
    var a: nat := if n < 0 then -n else n;
    LimitIsPower();
    DecimalLength(a, 14);
    DecimalRoundTrip(a);
    ShortIsRead(a, Decimal(a), lib);
    assert x == n as real;
  }

  lemma ShortIsRead(a: int, d: string, lib: Lib)
    requires 1 <= |d| <= 14 && DecimalValue(d) == a && forall c <- d :: IsDigit(c)
    ensures AllDigits(d) && (forall c <- d :: c !in Delims) && ReadNumber(d, lib) == Some(a as real)
    ensures (forall c <- "-" + d :: c !in Delims) && ReadNumber("-" + d, lib) == Some((-a) as real)
  {
    hide DecimalValue;
    var t := "-" + d;
    assert t[1..] == d && t[0] == '-' && '-' in t && !IsDigit('-');
    forall c | c in t
      ensures c !in Delims
    {
      assert c in d || c == '-';
    }
  }

  // ---------- places in the text ----------

  ghost predicate At(s: string, i: nat, t: string)
  {
    i + |t| <= |s| && s[i..i + |t|] == t
  }

  /** What may follow a value inside a printed text. */
  ghost predicate Ends(s: string, i: nat)
  {
    i == |s| || (i < |s| && s[i] in {',', ']', '}'})
  }

  lemma AtSplit(s: string, i: nat, a: string, b: string)
    requires At(s, i, a + b)
    ensures At(s, i, a) && At(s, i + |a|, b)
  {
    var t := a + b;
    assert t[..|a|] == a && t[|a|..] == b;
    assert s[i..i + |t|][..|a|] == s[i..i + |a|];
    assert s[i..i + |t|][|a|..] == s[i + |a|..i + |t|];
  }

  lemma AtChar(s: string, i: nat, c: char, b: string)
    requires At(s, i, [c] + b)
    ensures i < |s| && s[i] == c && At(s, i + 1, b)
  {
    AtSplit(s, i, [c], b);
    assert s[i..i + 1][0] == c;
  }

  lemma AtHead(s: string, i: nat, t: string)
    requires At(s, i, t) && t != ""
    ensures i < |s| && s[i] == t[0] && At(s, i + 1, t[1..])
  {
    assert t == [t[0]] + t[1..];
    AtChar(s, i, t[0], t[1..]);
  }

  lemma Regroup(a: string, b: string, c: string, d: string)
    ensures a + b + c + d == a + ((b + c) + d) && a + b + c + d == a + (b + (c + d))
  {}

  lemma NextStays(s: string, i: nat)
    requires i < |s| && s[i] !in Spaces
    ensures NextChar(s, i, Spaces, true) == i
  {}

  // ---------- strings ----------

  lemma EscapeIsUndone(s: string, j: nat, c: char)
    requires Special(c) && At(s, j, EscapeChar(c))
    ensures s[j] == '\\' && ParseEscape(s, j + 1) == Done([c], j + |EscapeChar(c)|)
  {
    var e := EscapeChar(c);
    var w := s[j..j + |e|];
    assert s[j] == w[0] && s[j + 1] == w[1];
    if |e| == 6 {
      assert s[j + 2] == w[2] && s[j + 3] == w[3] && s[j + 4] == w[4] && s[j + 5] == w[5];
      assert c as int / 16 == c as int / 16 % 16;
      HexRoundTrip(c as int / 16);
      HexRoundTrip(c as int % 16);
      assert HexValue('0') == Some(0);
      assert Hex4(s, j + 2) == c as int;
    }
  }

  function CharText(c: char): string { if Special(c) then EscapeChar(c) else [c] }

  lemma {:induction false} StringAt(s: string, i: nat, t: string)
    requires At(s, i, EscapeAll(t) + "\"")
    ensures StringFrom(s, i) == Done(t, i + |EscapeAll(t)| + 1)
    decreases |t|
  {
    hide *;
    if t == "" {
      QuoteAt(s, i);
    } else {
      CharFirst(s, i, t);
      StringAt(s, i + |CharText(t[0])|, t[1..]);
      CharAt(s, i, t[0]);
      Prepended(t, i + |EscapeAll(t)| + 1);
    }
  }

  lemma QuoteAt(s: string, i: nat)
    requires At(s, i, EscapeAll("") + "\"")
    ensures StringFrom(s, i) == Done("", i + |EscapeAll("")| + 1)
  {
    AtChar(s, i, '"', "");
  }

  lemma CharFirst(s: string, i: nat, t: string)
    requires t != "" && At(s, i, EscapeAll(t) + "\"")
    ensures At(s, i, CharText(t[0])) && At(s, i + |CharText(t[0])|, EscapeAll(t[1..]) + "\"")
    ensures |EscapeAll(t)| == |CharText(t[0])| + |EscapeAll(t[1..])|
  {
    hide At, Special, EscapeChar;
    assert EscapeAll(t) == CharText(t[0]) + EscapeAll(t[1..]);
    hide EscapeAll, CharText;
    assert EscapeAll(t) + "\"" == CharText(t[0]) + (EscapeAll(t[1..]) + "\"");
    AtSplit(s, i, CharText(t[0]), EscapeAll(t[1..]) + "\"");
  }

  lemma Prepended(t: string, next: nat)
    requires t != ""
    ensures Prepend([t[0]], Done(t[1..], next)) == Done(t, next)
  {
    assert t == [t[0]] + t[1..];
  }

  /** One character of a printed string is read back. */
  lemma CharAt(s: string, i: nat, c: char)
    requires At(s, i, CharText(c))
    ensures i + |CharText(c)| <= |s| && StringFrom(s, i) == Prepend([c], StringFrom(s, i + |CharText(c)|))
  {
    if Special(c) {
      hide ParseEscape, EscapeChar;
      EscapeIsUndone(s, i, c);
    } else {
      assert s[i..i + 1][0] == c;
    }
  }

  lemma QuotedAt(s: string, i: nat, t: string, rest: string)
    requires At(s, i, EncodeString(t) + rest)
    ensures i < |s| && s[i] == '"' && |EncodeString(t)| >= 2
    ensures StringFrom(s, i + 1) == Done(t, i + |EncodeString(t)|) && At(s, i + |EncodeString(t)|, rest)
  {
    var e := EscapeAll(t);
    Regroup("\"", e, "\"", rest);
    hide StringFrom, EscapeAll, At;
    AtChar(s, i, '"', e + "\"" + rest);
    AtSplit(s, i + 1, e + "\"", rest);
    StringAt(s, i + 1, t);
  }

  // ---------- plain tokens ----------

  lemma {:induction false} TokenEnds(s: string, i: nat, t: string)
    requires At(s, i, t) && Ends(s, i + |t|) && forall c <- t :: c !in Delims
    ensures NextChar(s, i, Delims, false) == i + |t|
    decreases |t|
  {
    if t != "" {
      assert t == [t[0]] + t[1..];
      AtChar(s, i, t[0], t[1..]);
      assert forall c <- t[1..] :: c in t;
      TokenEnds(s, i + 1, t[1..]);
    }
  }

  lemma NumberAt(s: string, i: nat, x: real, lib: Lib)
    requires Survives(x, lib) && At(s, i, EncodeNumber(x, lib)) && Ends(s, i + |EncodeNumber(x, lib)|)
    ensures Parse(s, i, lib) == Done(Num(x), i + |EncodeNumber(x, lib)|)
  {
    var t := EncodeNumber(x, lib);
    TokenEnds(s, i, t);
    assert s[i] == s[i..i + |t|][0];
  }

  lemma LiteralAt(s: string, i: nat, t: string, lib: Lib)
    requires t in {"true", "false", "null"} && At(s, i, t) && Ends(s, i + |t|)
    ensures Parse(s, i, lib) == Done(if t == "true" then Bool(true) else if t == "false" then Bool(false) else Null, i + |t|)
  {
    TokenEnds(s, i, t);
    assert s[i] == s[i..i + |t|][0];
  }

  // ---------- clean values can be printed ----------

  lemma BorderOfArray(es: seq<Entry>, n: int)
    requires IsArray(es) && IsBorder(es, n)
    ensures n == |es|
  {
  }

  lemma {:induction false} CleanPrints(v: Lua, lib: Lib)
    requires LibOk(lib) && Clean(v, lib)
    ensures Encode(v, lib).Some? && Encode(v, lib).value != ""
    decreases v, 0
  {
    if v.Table? {
      if Find(v.entries, Index(1)).Some? || v.entries == [] {
        if v.entries != [] {
          assert v.entries[Find(v.entries, Index(1)).value].key.Index?;
        }
        assert IsArray(v.entries);
        BorderOfArray(v.entries, lib.length(v.entries));
        ItemsPrint(v.entries, 1, lib);
      } else {
        assert v.entries[0] in v.entries;
        assert IsObject(v.entries);
        EntriesPrint(v.entries, lib);
      }
    }
  }

  lemma {:induction false} CleanPrintsAt(e: Entry, lib: Lib)
    requires LibOk(lib) && CleanAt(e, lib)
    ensures EncodeAt(e, lib).Some? && EncodeAt(e, lib).value != ""
    decreases e, 0
  {
    CleanPrints(e.value, lib);
  }

  lemma {:induction false} ItemsPrint(es: seq<Entry>, i: nat, lib: Lib)
    requires LibOk(lib) && 1 <= i <= |es| + 1 && IsArray(es) && AllClean(es, lib)
    ensures EncodeItems(es, i, lib).Some? && |EncodeItems(es, i, lib).value| == |es| + 1 - i
    decreases es, 1, |es| + 1 - i
  {
    if i <= |es| {
      CleanPrintsAt(es[Find(es, Index(i)).value], lib);
      ItemsPrint(es, i + 1, lib);
    }
  }

  lemma {:induction false} EntriesPrint(es: seq<Entry>, lib: Lib)
    requires LibOk(lib) && IsObject(es) && AllClean(es, lib)
    ensures EncodeEntries(es, lib).Some? && |EncodeEntries(es, lib).value| == |es|
    decreases es, 1, 0
  {
    if es != [] {
      CleanPrintsAt(es[0], lib);
      assert es[0] in es;
      assert forall k :: 0 <= k < |es[1..]| ==> es[1..][k] == es[k + 1];
      assert forall e <- es[1..] :: e in es;
      EntriesPrint(es[1..], lib);
    }
  }

  // ---------- what a table means ----------

  lemma {:induction false} FieldsFind(es: seq<Entry>, k: Key)
    ensures k in Fields(es) <==> Find(es, k).Some?
    ensures Find(es, k).Some? ==> Fields(es)[k] == MeaningAt(es[Find(es, k).value])
  {
    if es != [] {
      FieldsFind(es[..|es| - 1], k);
    }
  }

  lemma CleanIsSomething(e: Entry, lib: Lib)
    requires CleanAt(e, lib)
    ensures !MeaningAt(e).Null?
  {}

  /** The entries with an index below `n`. */
  ghost function Below(m: map<Key, Value>, n: nat): map<Key, Value>
  {
    m - set k | k in m && !(k.Index? && k.i < n)
  }

  lemma BelowStep(es: seq<Entry>, n: nat)
    requires IsArray(es) && 1 <= n <= |es|
    ensures Below(Fields(es), n)[Index(n) := MeaningAt(es[Find(es, Index(n)).value])] == Below(Fields(es), n + 1)
  {
    FieldsFind(es, Index(n));
  }

  lemma BelowAll(es: seq<Entry>)
    requires IsArray(es)
    ensures Below(Fields(es), 1) == map[] && Below(Fields(es), |es| + 1) == Fields(es)
  {
    forall k | k in Fields(es)
      ensures k.Index? && 1 <= k.i <= |es|
    {
      FieldsFind(es, k);
      assert es[Find(es, k).value] in es;
    }
  }

  // ---------- values ----------

  /** A printed value is read back as what it means, up to exactly its end. */
  lemma {:induction false} ValueAt(s: string, i: nat, v: Lua, lib: Lib)
    requires LibOk(lib) && Clean(v, lib) && Encode(v, lib).Some?
    requires At(s, i, Encode(v, lib).value) && Ends(s, i + |Encode(v, lib).value|)
    ensures Parse(s, i, lib) == Done(Meaning(v), i + |Encode(v, lib).value|)
    decreases v, 0
  {
    var t := Encode(v, lib).value;
    match v
    case Boolean(b) => LiteralAt(s, i, t, lib);
    case Number(x) => NumberAt(s, i, x, lib);
    case Text(x) =>
      assert t + "" == t;
      QuotedAt(s, i, x, "");
    case Table(es) => TableAt(s, i, es, lib);
  }

  lemma {:induction false} EntryAt(s: string, i: nat, e: Entry, lib: Lib)
    requires LibOk(lib) && CleanAt(e, lib) && EncodeAt(e, lib).Some?
    requires At(s, i, EncodeAt(e, lib).value) && Ends(s, i + |EncodeAt(e, lib).value|)
    ensures Parse(s, i, lib) == Done(MeaningAt(e), i + |EncodeAt(e, lib).value|)
    decreases e, 0
  {
    ValueAt(s, i, e.value, lib);
  }

  lemma ParseBracket(s: string, i: nat, lib: Lib)
    requires i < |s|
    ensures s[i] == '[' ==> Parse(s, i, lib) == ArrayFrom(s, i + 1, map[], 1, lib)
    ensures s[i] == '{' ==> Parse(s, i, lib) == ObjectFrom(s, i + 1, map[], lib)
  {}

  lemma EmptyAt(s: string, i: nat, lib: Lib)
    requires At(s, i, "[]")
    ensures Parse(s, i, lib) == Done(Tab(map[]), i + 2)
  {
    assert "[]" == ['['] + "]" && "]" == [']'] + "";
    AtChar(s, i, '[', "]");
    AtChar(s, i + 1, ']', "");
    NextStays(s, i + 1);
    ParseBracket(s, i, lib);
  }

  /** What a table prints as. */
  lemma TableText(es: seq<Entry>, lib: Lib)
    requires LibOk(lib) && Clean(Table(es), lib)
    ensures es == [] ==> Encode(Table(es), lib) == Some("[]")
    ensures es != [] && IsArray(es) ==> EncodeItems(es, 1, lib).Some?
    ensures es != [] && IsArray(es) ==> Encode(Table(es), lib) == Some(['['] + (Join(EncodeItems(es, 1, lib).value, ',') + "]"))
    ensures es != [] && !IsArray(es) ==> IsObject(es) && EncodeEntries(es, lib).Some?
    ensures es != [] && !IsArray(es) ==> Encode(Table(es), lib) == Some(['{'] + (Join(EncodeEntries(es, lib).value, ',') + "}"))
  {
    CleanPrints(Table(es), lib);
    hide EncodeEntries, EncodeItems, CleanAt;
    assert forall text :: "[" + text + "]" == ['['] + (text + "]");
    assert forall text :: "{" + text + "}" == ['{'] + (text + "}");
    if es == [] {
      NoItems(lib);
      assert Encode(Table(es), lib) == Some("[" + Join([], ',') + "]");
      assert Join([], ',') == "" && "[" + "" + "]" == "[]";
    } else if Find(es, Index(1)).Some? {
      assert es[Find(es, Index(1)).value] in es;
    } else {
      assert IsArray(es) ==> Find(es, Index(1)).Some?;
    }
  }

  lemma NoItems(lib: Lib)
    ensures EncodeItems([], 1, lib) == Some([])
  {}

  lemma {:induction false} TableAt(s: string, i: nat, es: seq<Entry>, lib: Lib)
    requires LibOk(lib) && Clean(Table(es), lib)
    requires Encode(Table(es), lib).Some? && At(s, i, Encode(Table(es), lib).value)
    ensures Parse(s, i, lib) == Done(Tab(Fields(es)), i + |Encode(Table(es), lib).value|)
    decreases es, 3, 0
  {
    TableText(es, lib);
    assert AllClean(es, lib);
    hide Encode, EncodeItems, EncodeEntries, Join, Parse, ArrayFrom, ObjectFrom, Clean, AllClean, LibOk, IsArray, IsObject, At;
    if es == [] {
      EmptyAt(s, i, lib);
    } else if IsArray(es) {
      hide Fields;
      var rest := Join(EncodeItems(es, 1, lib).value, ',') + "]";
      AtChar(s, i, '[', rest);
      ParseBracket(s, i, lib);
      BelowAll(es);
      ItemsAt(s, i + 1, es, 1, lib);
    } else {
      var rest := Join(EncodeEntries(es, lib).value, ',') + "}";
      AtChar(s, i, '{', rest);
      ParseBracket(s, i, lib);
      assert es[..0] == [] && es[0..] == es;
      EntriesAt(s, i + 1, es, 0, lib);
    }
  }

  lemma JoinStep(part: string, parts: seq<string>, end: char)
    ensures Join([part] + parts, ',') + [end] == part + if parts == [] then [end] else [','] + (Join(parts, ',') + [end])
  {
    assert ([part] + parts)[1..] == parts;
  }

  /** One value and the bracket behind it. */
  lemma ArrayLast(s: string, i: nat, res: map<Key, Value>, n: nat, x: Value, b: nat, lib: Lib)
    requires i <= |s| && Parse(s, i, lib) == Done(x, b) && b < |s| && s[b] == ']' && !x.Null?
    ensures ArrayFrom(s, i, res, n, lib) == Done(Tab(res[Index(n) := x]), b + 1)
  {
    hide Parse, NextChar, NextToken;
    ParseStarts(s, i, lib);
    NextStays(s, i);
    TokenRead(s, b, ']');
  }

  lemma ArrayMore(s: string, i: nat, res: map<Key, Value>, n: nat, x: Value, b: nat, lib: Lib)
    requires i <= |s| && Parse(s, i, lib) == Done(x, b) && b < |s| && s[b] == ',' && !x.Null?
    ensures ArrayFrom(s, i, res, n, lib) == ArrayFrom(s, b + 1, res[Index(n) := x], n + 1, lib)
  {
    hide Parse, NextChar, NextToken;
    ParseStarts(s, i, lib);
    NextStays(s, i);
    TokenRead(s, b, ']');
  }

  lemma ParseStarts(s: string, i: nat, lib: Lib)
    requires i <= |s| && Parse(s, i, lib).Done?
    ensures i < |s| && s[i] !in Spaces && s[i] != ']'
  {}

  lemma ItemsStep(es: seq<Entry>, n: nat, lib: Lib)
    requires n <= |es| && IsArray(es) && n >= 1 && EncodeItems(es, n, lib).Some?
    ensures var e := es[Find(es, Index(n)).value];
      && EncodeAt(e, lib).Some? && EncodeItems(es, n + 1, lib).Some?
      && EncodeItems(es, n, lib).value == [EncodeAt(e, lib).value] + EncodeItems(es, n + 1, lib).value
  {}

  /** The text of one item, and where its parts lie. */
  lemma ItemText(s: string, i: nat, part: string, parts: seq<string>)
    requires At(s, i, Join([part] + parts, ',') + "]")
    ensures var b := i + |part|;
      && b < |s| && At(s, i, part) && s[b] == (if parts == [] then ']' else ',')
      && (parts != [] ==> At(s, b + 1, Join(parts, ',') + "]"))
      && |Join([part] + parts, ',')| + i == b + if parts == [] then 0 else 1 + |Join(parts, ',')|
  {
    var rest := if parts == [] then "]" else [','] + (Join(parts, ',') + "]");
    JoinStep(part, parts, ']');
    hide Join, At;
    AtSplit(s, i, part, rest);
    AtHead(s, i + |part|, rest);
    if parts != [] {
      assert rest[1..] == Join(parts, ',') + "]";
    }
  }

  lemma {:induction false} ItemsAt(s: string, i: nat, es: seq<Entry>, n: nat, lib: Lib)
    requires LibOk(lib) && 1 <= n <= |es| && IsArray(es) && AllClean(es, lib)
    requires EncodeItems(es, n, lib).Some? && At(s, i, Join(EncodeItems(es, n, lib).value, ',') + "]")
    ensures ArrayFrom(s, i, Below(Fields(es), n), n, lib) ==
      Done(Tab(Fields(es)), i + |Join(EncodeItems(es, n, lib).value, ',')| + 1)
    decreases es, 2, |es| - n
  {
    hide EncodeItems, EncodeAt, Join, Parse, ArrayFrom, Fields, Below, CleanAt, LibOk, MeaningAt, At;
    var e := es[Find(es, Index(n)).value];
    ItemsStep(es, n, lib);
    var part, parts := EncodeAt(e, lib).value, EncodeItems(es, n + 1, lib).value;
    ItemsPrint(es, n + 1, lib);
    ItemText(s, i, part, parts);
    assert e in es;
    EntryAt(s, i, e, lib);
    CleanIsSomething(e, lib);
    BelowStep(es, n);
    if n == |es| {
      BelowAll(es);
      ArrayLast(s, i, Below(Fields(es), n), n, MeaningAt(e), i + |part|, lib);
    } else {
      ArrayMore(s, i, Below(Fields(es), n), n, MeaningAt(e), i + |part|, lib);
      ItemsAt(s, i + |part| + 1, es, n + 1, lib);
    }
  }

  lemma FieldsStep(es: seq<Entry>, p: nat)
    requires p < |es|
    ensures Fields(es[..p + 1]) == Fields(es[..p])[es[p].key := MeaningAt(es[p])]
  {
    assert es[..p + 1][..p] == es[..p];
  }

  lemma EntriesStep(es: seq<Entry>, p: nat, lib: Lib)
    requires p < |es| && es[p].key.Name? && EncodeEntries(es[p..], lib).Some?
    ensures EncodeAt(es[p], lib).Some? && EncodeEntries(es[p + 1..], lib).Some?
    ensures EncodeEntries(es[p..], lib).value ==
      [EncodeString(es[p].key.s) + ":" + EncodeAt(es[p], lib).value] + EncodeEntries(es[p + 1..], lib).value
  {
    assert es[p..][1..] == es[p + 1..];
  }

  /** One key and value, and the brace behind them. */
  lemma PairRead(s: string, i: nat, key: string, c: nat, v: Value, b: nat, lib: Lib)
    requires i < |s| && s[i] == '"' && StringFrom(s, i + 1) == Done(key, c) && c < |s| && s[c] == ':'
    requires Parse(s, c + 1, lib) == Done(v, b) && b < |s|
    ensures NextChar(s, i, Spaces, true) == i && ParsePair(s, i, lib) == Done((key, v), b)
  {
    hide Parse, StringFrom, NextChar;
    NextStays(s, i);
    NextStays(s, c);
    ParseStarts(s, c + 1, lib);
    NextStays(s, c + 1);
  }

  lemma TokenRead(s: string, b: nat, close: char)
    requires b < |s| && close != ','
    ensures s[b] == close && close !in Spaces ==> NextToken(s, b, close) == Close(b + 1)
    ensures s[b] == ',' ==> NextToken(s, b, close) == Comma(b + 1)
  {
    if s[b] !in Spaces {
      NextStays(s, b);
    }
  }

  lemma ObjectLast(s: string, i: nat, res: map<Key, Value>, key: string, c: nat, v: Value, b: nat, lib: Lib)
    requires i < |s| && s[i] == '"' && StringFrom(s, i + 1) == Done(key, c) && c < |s| && s[c] == ':'
    requires Parse(s, c + 1, lib) == Done(v, b) && b < |s| && s[b] == '}' && !v.Null?
    ensures ObjectFrom(s, i, res, lib) == Done(Tab(res[Name(key) := v]), b + 1)
  {
    hide Parse, StringFrom, NextChar, ParsePair, NextToken;
    PairRead(s, i, key, c, v, b, lib);
    TokenRead(s, b, '}');
  }

  lemma ObjectMore(s: string, i: nat, res: map<Key, Value>, key: string, c: nat, v: Value, b: nat, lib: Lib)
    requires i < |s| && s[i] == '"' && StringFrom(s, i + 1) == Done(key, c) && c < |s| && s[c] == ':'
    requires Parse(s, c + 1, lib) == Done(v, b) && b < |s| && s[b] == ',' && !v.Null?
    ensures ObjectFrom(s, i, res, lib) == ObjectFrom(s, b + 1, res[Name(key) := v], lib)
  {
    hide Parse, StringFrom, NextChar, ParsePair, NextToken;
    PairRead(s, i, key, c, v, b, lib);
    TokenRead(s, b, '}');
  }

  lemma LaterEntries(es: seq<Entry>, p: nat, lib: Lib)
    requires p <= |es| && IsObject(es) && AllClean(es, lib)
    ensures IsObject(es[p..]) && AllClean(es[p..], lib)
  {
    assert forall x <- es[p..] :: x in es;
  }

  /** The text of one entry, and where its parts lie. */
  lemma EntryText(s: string, i: nat, key: string, part: string, parts: seq<string>)
    requires At(s, i, Join([EncodeString(key) + ":" + part] + parts, ',') + "}")
    ensures var c := i + |EncodeString(key)|;
      var b := c + 1 + |part|;
      && i < c < b < |s| && s[i] == '"' && s[c] == ':' && s[b] == (if parts == [] then '}' else ',')
      && StringFrom(s, i + 1) == Done(key, c) && At(s, c + 1, part)
      && (parts != [] ==> At(s, b + 1, Join(parts, ',') + "}"))
      && |Join([EncodeString(key) + ":" + part] + parts, ',')| + i == b + if parts == [] then 0 else 1 + |Join(parts, ',')|
  {
    var k := EncodeString(key);
    var rest := if parts == [] then "}" else [','] + (Join(parts, ',') + "}");
    JoinStep(k + ":" + part, parts, '}');
    hide Join, EncodeString, At, StringFrom;
    EntryPlaces(s, i, key, part, rest);
    if parts != [] {
      assert rest[1..] == Join(parts, ',') + "}";
    }
  }

  lemma EntryPlaces(s: string, i: nat, key: string, part: string, rest: string)
    requires rest != "" && At(s, i, EncodeString(key) + ":" + part + rest)
    ensures var c := i + |EncodeString(key)|;
      var b := c + 1 + |part|;
      && i < c < b < |s| && s[i] == '"' && s[c] == ':' && s[b] == rest[0]
      && StringFrom(s, i + 1) == Done(key, c) && At(s, c + 1, part) && At(s, b + 1, rest[1..])
  {
    hide EncodeString, At, StringFrom;
    var k, tail := EncodeString(key), part + rest;
    Regroup(k, ":", part, rest);
    var after := ":" + tail;
    QuotedAt(s, i, key, after);
    var c := i + |k|;
    AtChar(s, c, ':', tail);
    AtSplit(s, c + 1, part, rest);
    AtHead(s, c + 1 + |part|, rest);
  }

  lemma {:induction false} EntriesAt(s: string, i: nat, es: seq<Entry>, p: nat, lib: Lib)
    requires LibOk(lib) && p < |es| && IsObject(es) && AllClean(es, lib)
    requires EncodeEntries(es[p..], lib).Some? && At(s, i, Join(EncodeEntries(es[p..], lib).value, ',') + "}")
    ensures ObjectFrom(s, i, Fields(es[..p]), lib) ==
      Done(Tab(Fields(es)), i + |Join(EncodeEntries(es[p..], lib).value, ',')| + 1)
    decreases es, 2, |es| - p
  {
    hide EncodeEntries, EncodeAt, Join, Parse, ObjectFrom, Fields, CleanAt, LibOk, MeaningAt, StringFrom, EncodeString;
    var e := es[p];
    assert e in es;
    EntriesStep(es, p, lib);
    var part, parts := EncodeAt(e, lib).value, EncodeEntries(es[p + 1..], lib).value;
    LaterEntries(es, p + 1, lib);
    EntriesPrint(es[p + 1..], lib);
    EntryText(s, i, e.key.s, part, parts);
    var c := i + |EncodeString(e.key.s)|;
    var b := c + 1 + |part|;
    EntryAt(s, c + 1, e, lib);
    CleanIsSomething(e, lib);
    FieldsStep(es, p);
    if p == |es| - 1 {
      assert es[..p + 1] == es;
      ObjectLast(s, i, Fields(es[..p]), e.key.s, c, MeaningAt(e), b, lib);
    } else {
      ObjectMore(s, i, Fields(es[..p]), e.key.s, c, MeaningAt(e), b, lib);
      EntriesAt(s, b + 1, es, p + 1, lib);
    }
  }

  // ---------- the whole text ----------

  /** Printing a clean value never fails, and reading the text gives what the value means. */
  lemma RoundTrip(v: Lua, lib: Lib)
    requires LibOk(lib) && (v.Nil? || Clean(v, lib))
    ensures Encode(v, lib).Some? && Decode(Encode(v, lib).value, lib) == Some(Meaning(v))
  {
    if v.Nil? {
      LiteralAt("null", 0, "null", lib);
      NextStays("null", 0);
    } else {
      CleanPrints(v, lib);
      var t := Encode(v, lib).value;
      assert t[0..|t|] == t;
      ValueAt(t, 0, v, lib);
      NextStays(t, 0);
    }
  }

  /** Two traversal orders of one table print texts with the same meaning. */
  lemma OrderIrrelevant(v: Lua, w: Lua, lib: Lib)
    requires LibOk(lib) && Clean(v, lib) && Clean(w, lib) && Meaning(v) == Meaning(w)
    ensures Encode(v, lib).Some? && Encode(w, lib).Some?
    ensures Decode(Encode(v, lib).value, lib) == Decode(Encode(w, lib).value, lib)
  {
    RoundTrip(v, lib);
    RoundTrip(w, lib);
  }

  /** The empty array and the empty object are the same table, and both spellings are read as it. */
  lemma EmptyIsShared(lib: Lib)
    ensures Decode("[]", lib) == Some(Tab(map[])) && Decode("{}", lib) == Some(Tab(map[]))
  {
    NextStays("[]", 0);
    NextStays("[]", 1);
    NextStays("{}", 0);
    NextStays("{}", 1);
  }
}
