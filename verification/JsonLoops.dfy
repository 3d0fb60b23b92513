/** The loops of `src/lua/json.lua`, as they build their results step by step. */
module JsonLoops {
  import opened Names
  import opened Json

  method FirstChar(s: string, i: nat, chars: set<char>, negate: bool) returns (r: nat)
    requires i <= |s|
    ensures r == NextChar(s, i, chars, negate)
  {
    for k := i to |s|
      invariant NextChar(s, i, chars, negate) == NextChar(s, k, chars, negate)
    {
      if (s[k] in chars) != negate {
        return k;
      }
    }
    return |s|;
  }

  /** `parse_string`: text from `k` on is copied only when an escape or the end is met. */
  method ParseString(s: string, i: nat) returns (r: Parsed<string>)
    requires i < |s|
    ensures r == StringFrom(s, i + 1)
  {
    var res, j := "", i + 1;
    var k := j;
    PrependNothing(StringFrom(s, j));
    assert res + s[k..j] == "";
    while j < |s|
      invariant i < k <= j <= |s|
      invariant Prepend(res + s[k..j], StringFrom(s, j)) == StringFrom(s, i + 1)
    {
      var x := s[j];
      if x < ' ' {
        return Bad;
      } else if x == '\\' {
        res := res + s[k..j];
        var e := ParseEscape(s, j + 1);
        if e.Bad? {
          return Bad;
        }
        PrependTwice(res, e.value, StringFrom(s, e.next));
        res := res + e.value;
        j, k := e.next, e.next;
        assert res + s[k..j] == res;
      } else if x == '"' {
        res := res + s[k..j];
        assert res + "" == res;
        return Done(res, j + 1);
      } else {
        PrependTwice(res + s[k..j], [s[j]], StringFrom(s, j + 1));
        assert res + s[k..j] + [s[j]] == res + s[k..j + 1];
        j := j + 1;
      }
    }
    return Bad;
  }

  lemma PrependNothing(p: Parsed<string>)
    ensures Prepend("", p) == p
  {
    if p.Done? {
      assert "" + p.value == p.value;
    }
  }

  lemma PrependTwice(a: string, b: string, p: Parsed<string>)
    ensures Prepend(a, Prepend(b, p)) == Prepend(a + b, p)
  {
    if p.Done? {
      assert a + (b + p.value) == a + b + p.value;
    }
  }

  method ParseValue(s: string, i: nat, lib: Lib) returns (r: Parsed<Value>)
    requires i <= |s|
    ensures r == Parse(s, i, lib)
    decreases |s| - i, 1
  {
    if i == |s| {
      return Bad;
    }
    var c := s[i];
    if c == '"' {
      var t := ParseString(s, i);
      return if t.Bad? then Bad else Done(Str(t.value), t.next);
    } else if IsDigit(c) || c == '-' {
      return ParseNumber(s, i, lib);
    } else if c in {'t', 'f', 'n'} {
      return ParseLiteral(s, i);
    } else if c == '[' {
      r := ParseArray(s, i, lib);
    } else if c == '{' {
      r := ParseObject(s, i, lib);
    } else {
      return Bad;
    }
  }

  method ParseArray(s: string, start: nat, lib: Lib) returns (r: Parsed<Value>)
    requires start < |s|
    ensures r == ArrayFrom(s, start + 1, map[], 1, lib)
    decreases |s| - start, 0
  {
    hide Parse, NextToken, Assign;
    var res: map<Key, Value>, n := map[], 1;
    var i := start + 1;
    while true
      invariant start < i <= |s| && n >= 1
      invariant ArrayFrom(s, i, res, n, lib) == ArrayFrom(s, start + 1, map[], 1, lib)
      decreases |s| - i
    {
      i := FirstChar(s, i, Spaces, true);
      if i < |s| && s[i] == ']' {
        return Done(Tab(res), i + 1);
      }
      var x := ParseValue(s, i, lib);
      if x.Bad? {
        return Bad;
      }
      res := Assign(res, Index(n), x.value);
      n := n + 1;
      var token := ReadToken(s, x.next, ']');
      if token.Neither? {
        return Bad;
      }
      i := token.next;
      if token.Close? {
        return Done(Tab(res), i);
      }
    }
  }

  method ReadToken(s: string, i: nat, close: char) returns (r: Token)
    requires i <= |s|
    ensures r == NextToken(s, i, close)
  {
    var b := FirstChar(s, i, Spaces, true);
    if b < |s| && s[b] == close {
      return Close(b + 1);
    }
    if b == |s| || s[b] != ',' {
      return Neither;
    }
    return Comma(b + 1);
  }

  method ParseObject(s: string, start: nat, lib: Lib) returns (r: Parsed<Value>)
    requires start < |s|
    ensures r == ObjectFrom(s, start + 1, map[], lib)
    decreases |s| - start, 0
  {
    hide ParsePair, NextToken, Assign;
    var res: map<Key, Value> := map[];
    var i := start + 1;
    while true
      invariant start < i <= |s|
      invariant ObjectFrom(s, i, res, lib) == ObjectFrom(s, start + 1, map[], lib)
      decreases |s| - i
    {
      i := FirstChar(s, i, Spaces, true);
      if i == |s| {
        return Bad;
      }
      if s[i] == '}' {
        return Done(Tab(res), i + 1);
      }
      var pair := ReadPair(s, i, lib);
      if pair.Bad? {
        return Bad;
      }
      res := Assign(res, Name(pair.value.0), pair.value.1);
      var token := ReadToken(s, pair.next, '}');
      if token.Neither? {
        return Bad;
      }
      i := token.next;
      if token.Close? {
        return Done(Tab(res), i);
      }
    }
  }

  method ReadPair(s: string, a: nat, lib: Lib) returns (r: Parsed<(string, Value)>)
    requires a < |s|
    ensures r == ParsePair(s, a, lib)
    decreases |s| - a, 1
  {
    hide Parse, StringFrom;
    if s[a] != '"' {
      return Bad;
    }
    var key := ParseString(s, a);
    if key.Bad? {
      return Bad;
    }
    var c := FirstChar(s, key.next, Spaces, true);
    if c == |s| || s[c] != ':' {
      return Bad;
    }
    var i := FirstChar(s, c + 1, Spaces, true);
    var v := ParseValue(s, i, lib);
    return if v.Bad? then Bad else Done((key.value, v.value), v.next);
  }

  method DecodeText(s: string, lib: Lib) returns (r: Option<Value>)
    ensures r == Decode(s, lib)
  {
    var i := FirstChar(s, 0, Spaces, true);
    var v := ParseValue(s, i, lib);
    if v.Bad? {
      return None;
    }
    i := FirstChar(s, v.next, Spaces, true);
    return if i < |s| then None else Some(v.value);
  }

  // ---------- printing ----------

  method EncodeValue(v: Lua, lib: Lib) returns (r: Option<string>)
    ensures r == Encode(v, lib)
    decreases v, 0
  {
    match v {
      case Nil => return Some("null");
      case Boolean(b) => return Some(if b then "true" else "false");
      case Number(x) => return Some(EncodeNumber(x, lib));
      case Text(s) => return Some(EncodeString(s));
      case Other => return None;
      case Table(es) => r := EncodeTable(es, lib);
    }
  }

  method EncodeValueOf(e: Entry, lib: Lib) returns (r: Option<string>)
    ensures r == EncodeAt(e, lib)
    decreases e, 0
  {
    r := EncodeValue(e.value, lib);
  }

  method EncodeTable(es: seq<Entry>, lib: Lib) returns (r: Option<string>)
    ensures r == Encode(Table(es), lib)
    decreases es, 1
  {
    hide EncodeAt, Join, EncodeString, EncodeItems, EncodeEntries;
    var parts: seq<string> := [];
    if Find(es, Index(1)).Some? || es == [] {
      var n := 0;
      while n < |es|
        invariant 0 <= n <= |es|
        invariant forall k :: 0 <= k < n ==> es[k].key.Index?
      {
        if es[n].key.Name? {
          assert es[n] in es;
          return None;
        }
        n := n + 1;
      }
      if n != lib.length(es) {
        return None;
      }
      var i := 1;
      AfterNothing(EncodeItems(es, 1, lib));
      while i <= |es| && Find(es, Index(i)).Some?
        invariant 1 <= i <= |es| + 1
        invariant After(parts, EncodeItems(es, i, lib)) == EncodeItems(es, 1, lib)
        decreases |es| + 1 - i
      {
        var part := EncodeValueOf(es[Find(es, Index(i)).value], lib);
        ItemsUnfold(es, i, lib);
        if part.None? {
          return None;
        }
        AfterStep(parts, part.value, EncodeItems(es, i + 1, lib));
        parts := parts + [part.value];
        i := i + 1;
      }
      ItemsUnfold(es, i, lib);
      assert parts + [] == parts;
      return Some("[" + Join(parts, ',') + "]");
    } else {
      assert es[0..] == es;
      AfterNothing(EncodeEntries(es, lib));
      for p := 0 to |es|
        invariant After(parts, EncodeEntries(es[p..], lib)) == EncodeEntries(es, lib)
      {
        EntriesUnfold(es, p, lib);
        if es[p].key.Index? {
          return None;
        }
        var part := EncodeValueOf(es[p], lib);
        if part.None? {
          return None;
        }
        var text := EncodeString(es[p].key.s) + ":" + part.value;
        AfterStep(parts, text, EncodeEntries(es[p + 1..], lib));
        parts := parts + [text];
      }
      NoEntries(es[|es|..], lib);
      assert parts + [] == parts;
      return Some("{" + Join(parts, ',') + "}");
    }
  }

  function After(parts: seq<string>, rest: Option<seq<string>>): Option<seq<string>>
  {
    if rest.None? then None else Some(parts + rest.value)
  }

  lemma AfterNothing(rest: Option<seq<string>>)
    ensures After([], rest) == rest
  {
    if rest.Some? {
      assert [] + rest.value == rest.value;
    }
  }

  lemma AfterStep(parts: seq<string>, part: string, rest: Option<seq<string>>)
    ensures After(parts, After([part], rest)) == After(parts + [part], rest)
  {
    if rest.Some? {
      assert parts + ([part] + rest.value) == parts + [part] + rest.value;
    }
  }

  lemma ItemsUnfold(es: seq<Entry>, i: nat, lib: Lib)
    ensures EncodeItems(es, i, lib) ==
      if i > |es| || Find(es, Index(i)).None? then Some([])
      else
        var part := EncodeAt(es[Find(es, Index(i)).value], lib);
        if part.None? then None else After([part.value], EncodeItems(es, i + 1, lib))
  {}

  lemma EntriesUnfold(es: seq<Entry>, p: nat, lib: Lib)
    requires p < |es|
    ensures EncodeEntries(es[p..], lib) ==
      if es[p].key.Index? || EncodeAt(es[p], lib).None? then None
      else After([EncodeString(es[p].key.s) + ":" + EncodeAt(es[p], lib).value], EncodeEntries(es[p + 1..], lib))
  {
    assert es[p..][1..] == es[p + 1..] && es[p..][0] == es[p];
  }

  lemma NoEntries(es: seq<Entry>, lib: Lib)
    requires es == []
    ensures EncodeEntries(es, lib) == Some([])
  {}
}
