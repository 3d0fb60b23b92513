/** What the send button's rewriting promises: the two values are replaced and nothing else, and
    reading back gives the new values. */
module LuaRewrite {
  import opened Names
  import opened LuaString

  // ---------- encoding and decoding ----------

  lemma {:induction false} BodyAppend(a: string, b: string)
    ensures Body(a + b) == Body(a) + Body(b)
    decreases |b|
  {
    if b == "" {
      assert a + b == a;
    } else {
      var init := b[..|b| - 1];
      assert (a + b)[..|a + b| - 1] == a + init;
      BodyAppend(a, init);
      assert Body(a) + (Body(init) + EscapeOne(b[|b| - 1])) == Body(a) + Body(init) + EscapeOne(b[|b| - 1]);
    }
  }

  lemma BodyOne(c: char)
    ensures Body([c]) == EscapeOne(c)
  {
    assert [c][..0] == "";
  }

  lemma BodyStep(v: string)
    requires v != ""
    ensures Body(v) == EscapeOne(v[0]) + Body(v[1..])
  {
    assert v == [v[0]] + v[1..];
    BodyAppend([v[0]], v[1..]);
    BodyOne(v[0]);
  }

  /** One escaped character is decoded to itself. */
  lemma DecodeStep(src: string, i: nat, c: char, rest: string)
    requires i < |src| && src[i..] == EscapeOne(c) + rest && rest != ""
    ensures i + |EscapeOne(c)| < |src| && src[i + |EscapeOne(c)|..] == rest
    ensures DecodeFrom(src, i) == [c] + DecodeFrom(src, i + |EscapeOne(c)|)
  {
    LetterBack(c);
    hide Letter, Unletter, DecodeFrom;
    var e := EscapeOne(c);
    assert src[i] == src[i..][0] && src[i + 1] == src[i..][1];
    assert src[i + |e|..] == src[i..][|e|..] == rest;
    DecodeUnfold(src, i);
  }

  lemma LetterBack(c: char)
    ensures Letter(c).Some? ==> Unletter(Letter(c).value) == Some(c)
    ensures Letter(c).None? ==> c != '\\'
  {}

  lemma DecodeUnfold(src: string, i: nat)
    requires i + 1 < |src|
    ensures src[i] != '\\' ==> DecodeFrom(src, i) == [src[i]] + DecodeFrom(src, i + 1)
    ensures src[i] == '\\' && Unletter(src[i + 1]).Some? && i + 2 < |src| ==>
      DecodeFrom(src, i) == [Unletter(src[i + 1]).value] + DecodeFrom(src, i + 2)
  {}

  /** Decoding a literal gives its value, from any place at which the rest of its body starts. */
  lemma {:induction false} DecodeBody(src: string, i: nat, v: string)
    requires i < |src| && src[i..] == Body(v) + "\""
    ensures DecodeFrom(src, i) == v
    decreases |v|
  {
    hide DecodeFrom, EscapeOne, Body;
    if v == "" {
      BodyNothing();
      OnlyQuote(src, i);
    } else {
      BodyStep(v);
      var e := EscapeOne(v[0]);
      assert e + Body(v[1..]) + "\"" == e + (Body(v[1..]) + "\"");
      DecodeStep(src, i, v[0], Body(v[1..]) + "\"");
      DecodeBody(src, i + |e|, v[1..]);
      assert v == [v[0]] + v[1..];
    }
  }

  lemma BodyNothing()
    ensures Body("") == ""
  {}

  lemma OnlyQuote(src: string, i: nat)
    requires i < |src| && src[i..] == "" + "\""
    ensures DecodeFrom(src, i) == ""
  {
    assert |src[i..]| == 1;
  }

  lemma {:induction false} BodyNulFree(v: string)
    requires NulFree(v)
    ensures NulFree(Body(v))
  {
    if v != "" {
      BodyNulFree(v[..|v| - 1]);
    }
  }

  ghost predicate IsLiteral(s: string, v: string) { s == "\"" + Body(v) + "\"" }

  lemma EncodedIsLiteral(v: string)
    requires NulFree(v)
    ensures IsLiteral(Encoded(v), v)
  {
    BodyNulFree(v);
  }

  lemma LiteralDecodes(s: string, v: string)
    requires IsLiteral(s, v) && NulFree(v)
    ensures Decoded(s) == Some(v)
  {
    assert s[1..] == Body(v) + "\"";
    DecodeBody(s, 1, v);
  }

  /** Decoding undoes encoding for every value without a NUL. */
  lemma DecodedEncoded(v: string)
    requires NulFree(v)
    ensures Decoded(Encoded(v)) == Some(v)
  {
    EncodedIsLiteral(v);
    LiteralDecodes(Encoded(v), v);
  }

  // ---------- quotes and words inside a body ----------

  predicate EndsWith(s: string, w: string)
  {
    |w| <= |s| && forall k: nat :: k < |w| ==> s[|s| - |w| + k] == w[k]
  }

  /** Inside a body every quote has a backslash before it. */
  lemma {:induction false} QuotesAreEscaped(v: string, i: nat)
    requires i < |Body(v)| && Body(v)[i] == '"'
    ensures i > 0 && Body(v)[i - 1] == '\\'
  {
    var init := Body(v[..|v| - 1]);
    if i < |init| {
      QuotesAreEscaped(v[..|v| - 1], i);
    }
  }

  /** A body ends in a backslash exactly when the value does. */
  lemma BodyEnd(v: string)
    ensures Body(v) != "" && Body(v)[|Body(v)| - 1] == '\\' <==> v != "" && v[|v| - 1] == '\\'
  {
    if v != "" {
      var e := EscapeOne(v[|v| - 1]);
      assert Body(v)[|Body(v)| - 1] == e[|e| - 1];
    }
  }

  lemma EndsWithStep(s: string, w: string, c: char)
    ensures EndsWith(s + [c], w + [c]) <==> EndsWith(s, w)
  {
    var t, x := s + [c], w + [c];
    if EndsWith(s, w) {
      assert forall k: nat :: k < |x| ==> t[|t| - |x| + k] == x[k];
    }
    if EndsWith(t, x) {
      forall k: nat | k < |w|
        ensures s[|s| - |w| + k] == w[k]
      {
        assert t[|t| - |x| + k] == x[k];
      }
    }
  }

  /** Words without a backslash whose first character is never the letter of an escape end a body
      exactly when they end the value. */
  lemma {:induction false} WordEndsBody(v: string, w: string)
    requires w != "" && (forall c <- w :: Letter(c).None?) && Unletter(w[0]).None?
    ensures EndsWith(Body(v), w) <==> EndsWith(v, w)
    decreases |w|
  {
    var c, rest := w[|w| - 1], w[..|w| - 1];
    assert w == rest + [c];
    if v != "" {
      var init, last := v[..|v| - 1], v[|v| - 1];
      assert v == init + [last];
      EndsWithStep(init, rest, c);
      if Letter(last).None? {
        EndsWithStep(Body(init), rest, c);
        if last == c {
          if rest != "" {
            assert forall x <- rest :: x in w;
            WordEndsBody(init, rest);
          }
        } else {
          LastDiffers(v, w);
          LastDiffers(Body(v), w);
        }
      } else {
        LastDiffers(v, w);
        EscapeEndsNoWord(Body(init), Letter(last).value, w);
      }
    }
  }

  lemma LastDiffers(s: string, w: string)
    requires s != "" && w != "" && s[|s| - 1] != w[|w| - 1]
    ensures !EndsWith(s, w)
  {}

  lemma EscapeEndsNoWord(s: string, letter: char, w: string)
    requires w != "" && (forall c <- w :: Letter(c).None?) && Unletter(w[0]).None?
    requires Unletter(letter).Some?
    ensures !EndsWith(s + ['\\', letter], w)
  {
    var t := s + ['\\', letter];
    if |w| >= 2 {
      assert w[|w| - 2] in w;
    }
  }

  // ---------- the closing quote ----------

  /** From the start of a body the search stops at its closing quote, unless the value ends in a
      backslash, when it never stops there. */
  lemma {:induction false} ClosingAt(s: string, start: nat, i: nat, v: string)
    requires 1 <= start <= i <= start + |Body(v)| < |s| && s[start..start + |Body(v)|] == Body(v)
    requires s[start - 1] == '"' && s[start + |Body(v)|] == '"'
    ensures ClosingQuote(s, i) == Some(start + |Body(v)|) <==> !(v != "" && v[|v| - 1] == '\\')
    decreases |s| - i
  {
    var end, body := start + |Body(v)|, Body(v);
    BodyEnd(v);
    if i < end {
      assert s[i] == s[start..end][i - start];
      if s[i] == '"' {
        QuotesAreEscaped(v, i - start);
        assert s[i - 1] == s[start..end][i - start - 1];
      }
      ClosingAt(s, start, i + 1, v);
    } else if body != "" {
      assert s[end - 1] == s[start..end][|body| - 1];
    }
  }

  // ---------- the first occurrence of a word ----------

  /** A word whose first character occurs nowhere else in it, and whose only quote is its last
      character, behind something other than a backslash. */
  ghost predicate IsWord(w: string)
  {
    && |w| >= 2 && w[|w| - 1] == '"' && w[|w| - 2] != '\\'
    && (forall k :: 0 < k < |w| ==> w[k] != w[0])
    && (forall k :: 0 <= k < |w| - 1 ==> w[k] != '"')
  }

  lemma OccursChars(s: string, p: nat, w: string, k: nat)
    requires OccursAt(s, p, w) && k < |w|
    ensures s[p + k] == w[k]
  {
    assert s[p..p + |w|][k] == s[p + k];
  }

  lemma OccursInPrefix(a: string, rest: string, p: nat, w: string)
    requires p + |w| <= |a|
    ensures OccursAt(a + rest, p, w) <==> OccursAt(a, p, w)
  {
    assert (a + rest)[p..p + |w|] == a[p..p + |w|];
  }

  lemma OccursShift(x: string, t: string, q: nat, w: string)
    ensures OccursAt(x + t, |x| + q, w) <==> OccursAt(t, q, w)
  {
    if q + |w| <= |t| {
      assert (x + t)[|x| + q..|x| + q + |w|] == t[q..q + |w|];
    }
  }

  /** A text that does not hold the word cannot make it occur early before the word's first character. */
  lemma NoEarlyOccurrence(a: string, rest: string, w: string, p: nat)
    requires IsWord(w) && !Contains(a, w) && rest != "" && rest[0] == w[0] && p < |a|
    ensures !OccursAt(a + rest, p, w)
  {
    var s := a + rest;
    if OccursAt(s, p, w) {
      if p + |w| <= |a| {
        OccursInPrefix(a, rest, p, w);
      } else {
        OccursChars(s, p, w, |a| - p);
      }
    }
  }

  lemma FirstIs(s: string, w: string, q: nat)
    requires OccursAt(s, q, w) && forall p: nat :: p < q ==> !OccursAt(s, p, w)
    ensures FindFirst(s, w, 0) == Some(q)
  {
    var r := FindFirst(s, w, 0);
    assert r.Some?;
  }

  predicate NoTrailingBackslash(v: string) { v == "" || v[|v| - 1] != '\\' }

  /** `name="` and a literal in the middle of a text. */
  function Assign(name: string, v: string): string { name + "=\"" + Body(v) + "\"" }

  lemma AssignOccurs(a: string, name: string, v: string, c: string)
    ensures OccursAt(a + Assign(name, v) + c, |a|, name + "=\"")
  {
    var s, w := a + Assign(name, v) + c, name + "=\"";
    assert s == a + w + (Body(v) + "\"" + c);
    assert (a + w)[|a|..] == w;
    assert s[|a|..|a| + |w|] == (a + w)[|a|..];
  }

  /** The assignment is found, as long as it is, exactly when its value does not end in a backslash. */
  lemma FindAssignAt(a: string, name: string, v: string, c: string)
    requires FindFirst(a + Assign(name, v) + c, name + "=\"", 0) == Some(|a|)
    ensures FindAssign(a + Assign(name, v) + c, name) == Some((|a|, |Assign(name, v)|)) <==> NoTrailingBackslash(v)
  {
    hide Body, Assign, FindFirst, ClosingQuote;
    var s, w := a + Assign(name, v) + c, name + "=\"";
    var start := |a| + |w|;
    AssignPlaces(a, name, v, c);
    ClosingAt(s, start, start, v);
  }

  lemma AssignPlaces(a: string, name: string, v: string, c: string)
    ensures var s, w := a + Assign(name, v) + c, name + "=\"";
      var start := |a| + |w|;
      && start + |Body(v)| < |s| && s[start..start + |Body(v)|] == Body(v)
      && s[start - 1] == '"' && s[start + |Body(v)|] == '"'
      && |Assign(name, v)| == |w| + |Body(v)| + 1
      && s[..|a|] == a && s[|a| + |Assign(name, v)|..] == c
      && s[|a| + |name| + 1..|a| + |Assign(name, v)|] == "\"" + Body(v) + "\""
  {}

  // ---------- both assignments ----------

  const FileWord: string := "ptkf=\""
  const StateWord: string := "ptkl=\""

  lemma Words()
    ensures "ptkf" + "=\"" == FileWord && "ptkl" + "=\"" == StateWord
    ensures "ptkf" + "=" == "ptkf=" && "ptkl" + "=" == "ptkl="
  {}

  /** The text of an object: the two assignments and what is around them. */
  function Script(a: string, f: string, b: string, l: string, c: string): string
  {
    a + Assign("ptkf", f) + (b + Assign("ptkl", l) + c)
  }

  lemma FileIsFirst(a: string, f: string, rest: string)
    requires !Contains(a, FileWord)
    ensures FindFirst(a + Assign("ptkf", f) + rest, FileWord, 0) == Some(|a|)
  {
    var tail := Assign("ptkf", f) + rest;
    assert a + Assign("ptkf", f) + rest == a + tail;
    assert tail[0] == 'p';
    forall p: nat | p < |a|
      ensures !OccursAt(a + tail, p, FileWord)
    {
      NoEarlyOccurrence(a, tail, FileWord, p);
    }
    AssignOccurs(a, "ptkf", f, rest);
    FirstIs(a + tail, FileWord, |a|);
  }

  /** Inside the file's assignment the state's word occurs only if the file ends in it. */
  lemma NoStateInFile(f: string, rest: string, p: nat)
    requires p < |Assign("ptkf", f)| && OccursAt(Assign("ptkf", f) + rest, p, StateWord)
    ensures EndsWith(f, "ptkl=") && p + 6 == |Assign("ptkf", f)|
  {
    FileChars(f, rest);
    NoStateInChars(f, Assign("ptkf", f) + rest, p);
  }

  lemma NoStateInChars(f: string, s: string, p: nat)
    requires |s| >= |Body(f)| + 7 && s[6 + |Body(f)|] == '"'
    requires s[0] == 'p' && s[1] == 't' && s[2] == 'k' && s[3] == 'f' && s[4] == '=' && s[5] == '"'
    requires forall k :: 0 <= k < |Body(f)| ==> s[6 + k] == Body(f)[k]
    requires p < |Body(f)| + 7 && OccursAt(s, p, StateWord)
    ensures EndsWith(f, "ptkl=") && p == |Body(f)| + 1
  {
    hide Body, OccursAt, EndsWith;
    var body, w := Body(f), StateWord;
    var end := 6 + |body|;
    OccursChars(s, p, w, 0);
    OccursChars(s, p, w, 3);
    assert p >= 6;
    if p + 5 < end {
      OccursChars(s, p, w, 5);
      QuotesAreEscaped(f, p + 5 - 6);
      OccursChars(s, p, w, 4);
      assert false;
    }
    if p + 5 > end {
      OccursChars(s, p, w, end - p);
      assert false;
    }
    StateSuffix(s, body, p);
    WordEndsBody(f, "ptkl=");
  }

  lemma FileChars(f: string, rest: string)
    ensures var body, s := Body(f), Assign("ptkf", f) + rest;
      && |Assign("ptkf", f)| == |body| + 7 && |s| >= |body| + 7
      && s[6 + |body|] == '"' && s[0] == 'p' && s[1] == 't' && s[2] == 'k' && s[3] == 'f' && s[4] == '=' && s[5] == '"'
      && forall k :: 0 <= k < |body| ==> s[6 + k] == body[k]
  {}

  lemma StateSuffix(s: string, body: string, p: nat)
    requires OccursAt(s, p, StateWord) && p >= 6 && p + 5 == 6 + |body| < |s|
    requires forall k :: 0 <= k < |body| ==> s[6 + k] == body[k]
    ensures EndsWith(body, "ptkl=")
  {
    var suffix := "ptkl=";
    forall k: nat | k < |suffix|
      ensures body[|body| - |suffix| + k] == suffix[k]
    {
      OccursChars(s, p, StateWord, k);
      assert body[|body| - |suffix| + k] == s[6 + (|body| - |suffix| + k)];
    }
  }

  lemma StateInFile(f: string, rest: string)
    requires EndsWith(f, "ptkl=")
    ensures |Assign("ptkf", f)| >= 6 && OccursAt(Assign("ptkf", f) + rest, |Assign("ptkf", f)| - 6, StateWord)
  {
    var suffix := "ptkl=";
    WordEndsBody(f, suffix);
    var s, body := Assign("ptkf", f) + rest, Body(f);
    var p := |Assign("ptkf", f)| - 6;
    forall k | 0 <= k < 6
      ensures s[p..p + 6][k] == StateWord[k]
    {
      if k < 5 {
        assert body[|body| - |suffix| + k] == suffix[k];
      }
    }
    assert s[p..p + 6] == StateWord;
  }

  /** The search for the state finds its own assignment first exactly when the file does not end
      in `ptkl=`. */
  lemma StateIsFirst(a: string, f: string, b: string, l: string, c: string)
    requires !Contains(a, StateWord) && !Contains(b, StateWord)
    ensures FindFirst(Script(a, f, b, l, c), StateWord, 0) == Some(|a| + |Assign("ptkf", f)| + |b|) <==> !EndsWith(f, "ptkl=")
  {
    hide EndsWith, Body, OccursAt, FindFirst, Assign;
    var file, state := Assign("ptkf", f), Assign("ptkl", l);
    AssignStarts("ptkl", l);
    var s, q := Script(a, f, b, l, c), |a| + |file| + |b|;
    var rest := b + state + c;
    assert s == a + (file + rest);
    assert s == (a + file + b) + state + c;
    assert s == a + file + (b + (state + c));
    AssignOccurs(a + file + b, "ptkl", l, c);
    if EndsWith(f, "ptkl=") {
      StateInFile(f, rest);
      OccursShift(a, file + rest, |file| - 6, StateWord);
    } else {
      forall p: nat | p < q
        ensures !OccursAt(s, p, StateWord)
      {
        NotBeforeState(a, file, b, state + c, f, p);
      }
      FirstIs(s, StateWord, q);
    }
  }

  lemma AssignStarts(name: string, v: string)
    requires name != ""
    ensures Assign(name, v) != "" && Assign(name, v)[0] == name[0]
  {}

  lemma NotBeforeState(a: string, file: string, b: string, tail: string, f: string, p: nat)
    requires !Contains(a, StateWord) && !Contains(b, StateWord) && !EndsWith(f, "ptkl=")
    requires file == Assign("ptkf", f) && tail != "" && tail[0] == 'p' && p < |a| + |file| + |b|
    ensures !OccursAt(a + file + (b + tail), p, StateWord)
  {
    hide EndsWith, Body, Contains;
    var rest := b + tail;
    assert a + file + rest == a + (file + rest);
    assert file[0] == 'p';
    if p < |a| {
      NoEarlyOccurrence(a, file + rest, StateWord, p);
    } else {
      OccursShift(a, file + rest, p - |a|, StateWord);
      if p - |a| < |file| {
        if OccursAt(file + rest, p - |a|, StateWord) {
          NoStateInFile(f, rest, p - |a|);
        }
      } else {
        OccursShift(file, rest, p - |a| - |file|, StateWord);
        NoEarlyOccurrence(b, tail, StateWord, p - |a| - |file|);
      }
    }
  }

  // ---------- the rewriting ----------

  lemma EncodedText(v: string)
    requires NulFree(v)
    ensures forall name: string :: name + "=" + Encoded(v) == Assign(name, v)
  {
    EncodedIsLiteral(v);
  }

  /** The file's assignment is found, with what is around it. */
  lemma FileFound(a: string, f: string, rest: string)
    requires !Contains(a, FileWord) && NoTrailingBackslash(f)
    ensures Found(a + Assign("ptkf", f) + rest, "ptkf", a, f, rest)
  {
    hide Body, FindFirst, Contains;
    Words();
    FileIsFirst(a, f, rest);
    FindAssignAt(a, "ptkf", f, rest);
    AssignPlaces(a, "ptkf", f, rest);
  }

  lemma StateFound(a: string, f: string, b: string, l: string, c: string)
    requires !Contains(a, StateWord) && !Contains(b, StateWord) && !EndsWith(f, "ptkl=") && NoTrailingBackslash(l)
    ensures Found(Script(a, f, b, l, c), "ptkl", a + Assign("ptkf", f) + b, l, c)
  {
    hide Body, FindFirst, Contains, EndsWith;
    Words();
    var before := a + Assign("ptkf", f) + b;
    assert Script(a, f, b, l, c) == before + Assign("ptkl", l) + c;
    StateIsFirst(a, f, b, l, c);
    FindAssignAt(before, "ptkl", l, c);
    AssignPlaces(before, "ptkl", l, c);
  }

  /** The search for `name` splits the text into what is before, the value's literal and the rest. */
  ghost predicate Found(text: string, name: string, before: string, v: string, after: string)
  {
    var x := FindAssign(text, name);
    && x.Some? && text[..x.value.0] == before && text[x.value.0 + x.value.1..] == after
    && IsLiteral(text[x.value.0 + |name| + 1..x.value.0 + x.value.1], v)
  }

  /** The two values are replaced and everything else stays, and the old file is reported. */
  lemma RewriteReplaces(a: string, f0: string, b: string, l0: string, c: string, f: string, l: string)
    requires NulFree(f0) && NulFree(f) && NulFree(l)
    requires !Contains(a, FileWord) && !Contains(a, StateWord) && !Contains(b, StateWord)
    requires NoTrailingBackslash(f0) && NoTrailingBackslash(l0) && !EndsWith(f, "ptkl=")
    ensures Rewritten(Script(a, f0, b, l0, c), f, l) == Some((Script(a, f, b, l, c), f0))
  {
    hide EndsWith, Contains, NulFree, FindAssign, Decoded, Encoded, IsLiteral, Assign;
    Words();
    var text, rest := Script(a, f0, b, l0, c), b + Assign("ptkl", l0) + c;
    FileFound(a, f0, rest);
    var x := FindAssign(text, "ptkf").value;
    LiteralDecodes(text[x.0 + 5..x.0 + x.1], f0);
    EncodedText(f);
    var next := Script(a, f, b, l0, c);
    assert text[..x.0] + "ptkf=" + Encoded(f) + text[x.0 + x.1..] == next by {
      assert a + "ptkf=" + Encoded(f) == a + ("ptkf" + "=" + Encoded(f));
    }
    StateFound(a, f, b, l0, c);
    EncodedText(l);
    var y := FindAssign(next, "ptkl").value;
    var before := a + Assign("ptkf", f) + b;
    assert next[..y.0] + "ptkl=" + Encoded(l) + next[y.0 + y.1..] == Script(a, f, b, l, c) by {
      assert before + "ptkl=" + Encoded(l) == before + ("ptkl" + "=" + Encoded(l));
      assert before + Assign("ptkl", l) + c == a + Assign("ptkf", f) + (b + Assign("ptkl", l) + c);
    }
  }

  /** The value that an assignment holds. */
  function ReadValue(text: string, name: string): Option<string>
  {
    match FindAssign(text, name)
    case None => None
    case Some(x) => Decoded(text[x.0 + |name| + 1..x.0 + x.1])
  }

  /** Reading back gives the file and the state that were written. */
  lemma RewriteReadsBack(a: string, b: string, c: string, f: string, l: string)
    requires NulFree(f) && NulFree(l)
    requires !Contains(a, FileWord) && !Contains(a, StateWord) && !Contains(b, StateWord)
    requires NoTrailingBackslash(f) && NoTrailingBackslash(l) && !EndsWith(f, "ptkl=")
    ensures ReadValue(Script(a, f, b, l, c), "ptkf") == Some(f)
    ensures ReadValue(Script(a, f, b, l, c), "ptkl") == Some(l)
  {
    hide EndsWith, Contains, NulFree, FindAssign, Decoded, IsLiteral, Assign;
    var text := Script(a, f, b, l, c);
    FileFound(a, f, b + Assign("ptkl", l) + c);
    var x := FindAssign(text, "ptkf").value;
    LiteralDecodes(text[x.0 + |"ptkf"| + 1..x.0 + x.1], f);
    StateFound(a, f, b, l, c);
    var y := FindAssign(text, "ptkl").value;
    LiteralDecodes(text[y.0 + |"ptkl"| + 1..y.0 + y.1], l);
  }

  /** A file that ends in a backslash hides its own closing quote. */
  lemma TrailingBackslashIsLost()
    ensures FindAssign(Assign("ptkf", "C:\\"), "ptkf") != Some((0, |Assign("ptkf", "C:\\")|))
  {
    hide Body, ClosingQuote, FindFirst;
    var f := "C:\\";
    assert "" + Assign("ptkf", f) + "" == Assign("ptkf", f);
    Words();
    FileIsFirst("", f, "");
    FindAssignAt("", "ptkf", f, "");
    assert !NoTrailingBackslash(f);
  }
}
