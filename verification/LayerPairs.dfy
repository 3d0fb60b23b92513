/** Which flip pairs a tree gets from the names of its layers (`registerFlips` of
    `src/go/img/layermgr.go`). */
module LayerPairs {
  import opened Names
  import opened LayerTables
  import opened LayerStates
  import opened LayerBuild
  import opened LayerPaths
  import opened LayerWellFormed
  import opened LayerPlaces

  // ---------- names ----------

  function Tokens(name: string): seq<string> { Split(name, ':') }

  /** The flip suffixes at the end of a name, and the name without them. */
  function SuffixTokens(name: string): seq<string>
  {
    Tokens(name)[|Tokens(name)| - Suffixes(Tokens(name))..]
  }

  function BaseName(name: string): string
  {
    Join(Tokens(name)[..|Tokens(name)| - Suffixes(Tokens(name))], ':')
  }

  lemma {:induction false} SuffixesEnd(tokens: seq<string>)
    ensures forall t <- tokens[|tokens| - Suffixes(tokens)..] :: IsSuffix(t)
    ensures Suffixes(tokens) < |tokens| ==> !IsSuffix(tokens[|tokens| - Suffixes(tokens) - 1])
  {
    if tokens != [] && IsSuffix(tokens[|tokens| - 1]) {
      var init, k := tokens[..|tokens| - 1], Suffixes(tokens);
      SuffixesEnd(init);
      assert tokens[|tokens| - k..] == init[|init| - (k - 1)..] + [tokens[|tokens| - 1]];
    }
  }

  /** A base name carries no flip suffix itself. */
  lemma BaseHasNoSuffix(name: string)
    ensures SuffixTokens(BaseName(name)) == []
  {
    hide Split, Join;
    var tokens := Tokens(name);
    var rest := tokens[..|tokens| - Suffixes(tokens)];
    SuffixesEnd(tokens);
    if rest == [] {
      EmptyName();
    } else {
      assert forall p <- rest :: p in tokens;
      SplitJoin(rest, ':');
      assert rest[|rest| - 1] == tokens[|tokens| - Suffixes(tokens) - 1];
      assert Suffixes(rest) == 0;
    }
  }

  lemma EmptyName()
    ensures Join([], ':') == "" && Split("", ':') == [""] && Suffixes([""]) == 0
  {
    assert !IsSuffix("");
  }

  lemma {:induction false} JoinSplit(s: string, sep: char)
    ensures Join(Split(s, sep), sep) == s
  {
    if s != "" {
      JoinSplit(s[1..], sep);
      var rest := Split(s[1..], sep);
      assert s == [s[0]] + s[1..];
      if s[0] == sep {
        assert ([""] + rest)[1..] == rest;
      } else {
        JoinHead(rest, s[0], sep);
      }
    }
  }

  lemma JoinHead(parts: seq<string>, c: char, sep: char)
    requires parts != []
    ensures Join([[c] + parts[0]] + parts[1..], sep) == [c] + Join(parts, sep)
  {
    var all := [[c] + parts[0]] + parts[1..];
    assert all[1..] == parts[1..];
    if |parts| > 1 {
      assert [c] + parts[0] + [sep] + Join(parts[1..], sep) == [c] + (parts[0] + [sep] + Join(parts[1..], sep));
    }
  }

  lemma {:induction false} JoinAppend(a: seq<string>, b: seq<string>, sep: char)
    requires a != [] && b != []
    ensures Join(a + b, sep) == Join(a, sep) + [sep] + Join(b, sep)
  {
    var all := a + b;
    if |a| == 1 {
      assert all[1..] == b;
    } else {
      assert all[1..] == a[1..] + b;
      JoinAppend(a[1..], b, sep);
      assert a[0] + [sep] + (Join(a[1..], sep) + [sep] + Join(b, sep)) == a[0] + [sep] + Join(a[1..], sep) + [sep] + Join(b, sep);
    }
  }

  /** A name with suffixes is its base name, a colon and the suffixes, unless it consists of suffixes alone. */
  lemma NameOfMirror(name: string)
    requires SuffixTokens(name) != []
    ensures if SuffixTokens(name) == Tokens(name) then BaseName(name) == "" && name == Join(SuffixTokens(name), ':')
            else name == BaseName(name) + ":" + Join(SuffixTokens(name), ':')
  {
    hide Split, Join, Suffixes, Tokens;
    var tokens, k := Tokens(name), Suffixes(Tokens(name));
    Rejoined(name);
    Cut(tokens, k);
    if k == |tokens| {
      EmptyName();
    } else {
      JoinAppend(tokens[..|tokens| - k], tokens[|tokens| - k..], ':');
    }
  }

  lemma Rejoined(name: string)
    ensures Join(Tokens(name), ':') == name
  {
    JoinSplit(name, ':');
  }

  lemma Cut<T>(q: seq<T>, k: nat)
    requires k <= |q|
    ensures q[..|q| - k] + q[|q| - k..] == q
    ensures q[..|q| - k] == [] <==> k == |q|
    ensures q[|q| - k..] == q <==> k == |q|
  {}

  // ---------- the pair of a place ----------

  /** The first sibling with this name. */
  function FindSibling(sibs: seq<Tree>, name: string): (r: Option<Tree>)
    ensures r.Some? ==> r.value in sibs && r.value.name == name
    ensures r.None? ==> forall x <- sibs :: x.name != name
  {
    if sibs == [] then None else if sibs[0].name == name then Some(sibs[0]) else FindSibling(sibs[1..], name)
  }

  lemma {:induction false} FindNameIsSibling(sibs: seq<Tree>, name: string)
    ensures FindName(sibs, name) == match FindSibling(sibs, name) case None => None case Some(x) => Some(x.seqId)
  {
    if sibs != [] {
      FindNameIsSibling(sibs[1..], name);
    }
  }

  /** The sibling that the node at a place mirrors. */
  function OriginalOf(pl: Place): (r: Option<Tree>)
    ensures r.Some? ==> r.value in pl.sibs && r.value.name == BaseName(pl.node.name) && SuffixTokens(pl.node.name) != []
  {
    if SuffixTokens(pl.node.name) == [] then None else FindSibling(pl.sibs, BaseName(pl.node.name))
  }

  function PairAt(pl: Place): FlipPair
    requires OriginalOf(pl).Some?
  {
    FlipPair(OriginalOf(pl).value.seqId, pl.node.seqId)
  }

  function Register(f: Flips, pl: Place): Flips
  {
    if OriginalOf(pl).None? then f else EnterAll(f, SuffixTokens(pl.node.name), PairAt(pl))
  }

  function RegisterPlaces(f: Flips, ps: seq<Place>): Flips
    decreases |ps|
  {
    if ps == [] then f else RegisterPlaces(Register(f, ps[0]), ps[1..])
  }

  lemma RegisteredIsRegister(f: Flips, l: Tree, sibs: seq<Tree>)
    ensures Registered(f, l, sibs) == Register(f, Place(l, sibs))
  {
    var tokens := Tokens(l.name);
    var k := Suffixes(tokens);
    assert |SuffixTokens(l.name)| == k;
    FindNameIsSibling(sibs, BaseName(l.name));
  }

  lemma {:induction false} RegisterAppend(f: Flips, a: seq<Place>, b: seq<Place>)
    ensures RegisterPlaces(f, a + b) == RegisterPlaces(RegisterPlaces(f, a), b)
    decreases |a|
  {
    if a == [] {
      assert a + b == b;
    } else {
      assert (a + b)[1..] == a[1..] + b;
      RegisterAppend(Register(f, a[0]), a[1..], b);
    }
  }

  /** The recursion over the tree registers every place once, in document order. */
  lemma {:induction false} FlipsArePlaces(f: Flips, ls: seq<Tree>, sibs: seq<Tree>)
    ensures FlipsOfList(f, ls, sibs) == RegisterPlaces(f, Places(ls, sibs))
    decreases ls
  {
    hide Registered, Register;
    if ls != [] {
      var l, place := ls[0], Place(ls[0], sibs);
      var g := Registered(f, l, sibs);
      RegisteredIsRegister(f, l, sibs);
      FlipsArePlaces(g, l.children, l.children);
      var h := FlipsOfList(g, l.children, l.children);
      FlipsArePlaces(h, ls[1..], sibs);
      RegisterAppend(f, [place] + Places(l.children, l.children), Places(ls[1..], sibs));
      RegisterAppend(f, [place], Places(l.children, l.children));
      assert [place][1..] == [];
    }
  }

  // ---------- what ends up in the maps ----------

  function MapOf(f: Flips, token: string): FlipMap
  {
    if token == "flipx" then f.x else if token == "flipy" then f.y else f.xy
  }

  lemma EnterMap(f: Flips, t: string, p: FlipPair, token: string)
    requires IsSuffix(t) && IsSuffix(token)
    ensures MapOf(Enter(f, t, p), token) == if t == token then With(MapOf(f, token), p) else MapOf(f, token)
  {}

  function With(m: FlipMap, p: FlipPair): FlipMap { m[p.original := p][p.mirror := p] }

  lemma WithTwice(m: FlipMap, p: FlipPair)
    ensures With(With(m, p), p) == With(m, p)
  {}

  lemma {:induction false} EnterAllMeaning(f: Flips, tokens: seq<string>, p: FlipPair, token: string)
    requires IsSuffix(token) && forall t <- tokens :: IsSuffix(t)
    ensures MapOf(EnterAll(f, tokens, p), token) == if token in tokens then With(MapOf(f, token), p) else MapOf(f, token)
    decreases |tokens|
  {
    hide MapOf, With, Enter, IsSuffix;
    if tokens != [] {
      var last, init := tokens[|tokens| - 1], tokens[..|tokens| - 1];
      assert tokens == init + [last] && last in tokens && forall t <- init :: t in tokens;
      EnterMap(f, last, p, token);
      WithTwice(MapOf(f, token), p);
      EnterAllMeaning(Enter(f, last, p), init, p, token);
    }
  }

  /** The place registers a pair under `token`. */
  ghost predicate Enters(pl: Place, token: string)
  {
    OriginalOf(pl).Some? && token in SuffixTokens(pl.node.name)
  }

  ghost predicate Carries(pl: Place, p: FlipPair, token: string)
  {
    Enters(pl, token) && p == PairAt(pl)
  }

  /** Each mirror belongs to one place, and no mirror is an original. */
  ghost predicate MirrorsApart(ps: seq<Place>)
  {
    && (forall i, j :: 0 <= i < j < |ps| ==> ps[i].node.seqId != ps[j].node.seqId)
    && (forall i, j :: 0 <= i < |ps| && 0 <= j < |ps| && OriginalOf(ps[i]).Some? && OriginalOf(ps[j]).Some? ==>
         OriginalOf(ps[i]).value.seqId != ps[j].node.seqId)
  }

  /** What one map holds after the places in `done`: every pair under its mirror, and nothing else. */
  ghost predicate HoldsPairs(m: FlipMap, ps: seq<Place>, n: nat, token: string)
    requires n <= |ps|
  {
    && (forall k :: 0 <= k < n && Enters(ps[k], token) ==>
         ps[k].node.seqId in m && m[ps[k].node.seqId] == PairAt(ps[k]))
    && (forall id <- m :: FromPlace(ps, n, m[id], token))
  }

  ghost predicate FromPlace(ps: seq<Place>, n: nat, p: FlipPair, token: string)
    requires n <= |ps|
  {
    exists k :: 0 <= k < n && Carries(ps[k], p, token)
  }

  lemma HoldsStep(f: Flips, ps: seq<Place>, n: nat, token: string)
    requires IsSuffix(token) && MirrorsApart(ps) && n < |ps| && HoldsPairs(MapOf(f, token), ps, n, token)
    ensures HoldsPairs(MapOf(Register(f, ps[n]), token), ps, n + 1, token)
  {
    hide HoldsPairs, MirrorsApart, Enters, MapOf, Register;
    EntersMeaning(ps[n], token);
    if Enters(ps[n], token) {
      RegisterMap(f, ps[n], token);
      HoldsUpdate(MapOf(f, token), ps, n, token);
    } else {
      SameMap(f, ps[n], token);
      HoldsNothingNew(MapOf(f, token), ps, n, token);
    }
  }

  lemma EntersMeaning(pl: Place, token: string)
    ensures Enters(pl, token) <==> OriginalOf(pl).Some? && token in SuffixTokens(pl.node.name)
  {}

  lemma HoldsNothingNew(m: FlipMap, ps: seq<Place>, n: nat, token: string)
    requires n < |ps| && HoldsPairs(m, ps, n, token) && !Enters(ps[n], token)
    ensures HoldsPairs(m, ps, n + 1, token)
  {
    hide Enters;
    forall id | id in m
      ensures FromPlace(ps, n + 1, m[id], token)
    {
      Longer(ps, n, m[id], token);
    }
  }

  lemma NotOverwritten(ps: seq<Place>, k: nat, n: nat)
    requires MirrorsApart(ps) && k < n < |ps| && OriginalOf(ps[k]).Some? && OriginalOf(ps[n]).Some?
    ensures ps[k].node.seqId != PairAt(ps[n]).original && ps[k].node.seqId != PairAt(ps[n]).mirror
  {
    hide OriginalOf;
  }

  lemma HoldsUpdate(m: FlipMap, ps: seq<Place>, n: nat, token: string)
    requires MirrorsApart(ps) && n < |ps| && HoldsPairs(m, ps, n, token) && Enters(ps[n], token)
    ensures HoldsPairs(With(m, PairAt(ps[n])), ps, n + 1, token)
  {
    hide MirrorsApart, OriginalOf, SuffixTokens, FromPlace, PairAt;
    var r := With(m, PairAt(ps[n]));
    forall id | id in r
      ensures FromPlace(ps, n + 1, r[id], token)
    {
      if r[id] == PairAt(ps[n]) {
        OwnPlace(ps, n, token);
      } else {
        Longer(ps, n, m[id], token);
      }
    }
    forall k | 0 <= k < n + 1 && Enters(ps[k], token)
      ensures ps[k].node.seqId in r && r[ps[k].node.seqId] == PairAt(ps[k])
    {
      KeptOrNew(m, ps, k, n, token);
    }
  }

  lemma OwnPlace(ps: seq<Place>, n: nat, token: string)
    requires n < |ps| && Enters(ps[n], token)
    ensures FromPlace(ps, n + 1, PairAt(ps[n]), token)
  {
    hide OriginalOf, SuffixTokens;
    assert Carries(ps[n], PairAt(ps[n]), token);
  }

  lemma KeptOrNew(m: FlipMap, ps: seq<Place>, k: nat, n: nat, token: string)
    requires MirrorsApart(ps) && k <= n < |ps| && HoldsPairs(m, ps, n, token) && Enters(ps[n], token) && Enters(ps[k], token)
    ensures ps[k].node.seqId in With(m, PairAt(ps[n]))
    ensures With(m, PairAt(ps[n]))[ps[k].node.seqId] == PairAt(ps[k])
  {
    hide MirrorsApart, OriginalOf, SuffixTokens, FromPlace;
    if k < n {
      NotOverwritten(ps, k, n);
    }
  }

  lemma Longer(ps: seq<Place>, n: nat, p: FlipPair, token: string)
    requires n < |ps| && FromPlace(ps, n, p, token)
    ensures FromPlace(ps, n + 1, p, token)
  {}

  lemma SameMap(f: Flips, pl: Place, token: string)
    requires IsSuffix(token) && (OriginalOf(pl).None? || token !in SuffixTokens(pl.node.name))
    ensures MapOf(Register(f, pl), token) == MapOf(f, token)
  {
    if OriginalOf(pl).Some? {
      RegisterMap(f, pl, token);
    }
  }

  lemma RegisterMap(f: Flips, pl: Place, token: string)
    requires IsSuffix(token) && OriginalOf(pl).Some?
    ensures MapOf(Register(f, pl), token) ==
      if token in SuffixTokens(pl.node.name) then With(MapOf(f, token), PairAt(pl)) else MapOf(f, token)
  {
    SuffixesEnd(Tokens(pl.node.name));
    EnterAllMeaning(f, SuffixTokens(pl.node.name), PairAt(pl), token);
  }

  lemma {:induction false} RegisterHolds(f: Flips, ps: seq<Place>, n: nat, token: string)
    requires IsSuffix(token) && MirrorsApart(ps) && n <= |ps| && HoldsPairs(MapOf(f, token), ps, n, token)
    ensures HoldsPairs(MapOf(RegisterPlaces(f, ps[n..]), token), ps, |ps|, token)
    decreases |ps| - n
  {
    hide HoldsPairs, MirrorsApart, Register, MapOf;
    if n < |ps| {
      HoldsStep(f, ps, n, token);
      assert ps[n..][1..] == ps[n + 1..] && ps[n..][0] == ps[n];
      RegisterHolds(Register(f, ps[n]), ps, n + 1, token);
    }
  }

  lemma PlacesApart(roots: seq<Tree>)
    requires DistinctIds(Build(roots).layers)
    ensures MirrorsApart(AllPlaces(roots)) && |AllPlaces(roots)| == |Build(roots).layers|
  {
    hide EnumList, Places, OriginalOf, SuffixTokens, BaseName;
    TreeIsLaid(roots);
    var rows, ps := Build(roots).layers, AllPlaces(roots);
    forall k | 0 <= k < |ps|
      ensures rows[k].seqId == ps[k].node.seqId
    {
      assert Matches(rows, ps, k, roots, -1, 0);
    }
    forall i, j | 0 <= i < |ps| && 0 <= j < |ps| && OriginalOf(ps[i]).Some? && OriginalOf(ps[j]).Some?
      ensures OriginalOf(ps[i]).value.seqId != ps[j].node.seqId
    {
      var o := OriginalOf(ps[i]).value;
      var k := SiblingHasRow(roots, i, o);
      BaseHasNoSuffix(ps[i].node.name);
    }
  }

  /** A pair is in the map of a suffix if and only if some layer whose name carries that suffix mirrors
      the first sibling with the rest of its name. */
  lemma BuiltPairs(roots: seq<Tree>, p: FlipPair, token: string)
    requires DistinctIds(Build(roots).layers) && IsSuffix(token)
    ensures var t := Build(roots);
      p in MapOf(Flips(t.flipX, t.flipY, t.flipXY), token).Values <==> FromPlace(AllPlaces(roots), |AllPlaces(roots)|, p, token)
  {
    hide Places, MirrorsApart, FlipsOfList, HoldsPairs, FromPlace, RegisterPlaces, EnumList;
    var ps, none := AllPlaces(roots), Flips(map[], map[], map[]);
    PlacesApart(roots);
    FlipsArePlaces(none, roots, roots);
    assert ps[0..] == ps;
    NoPairsHeld(ps, token);
    RegisterHolds(none, ps, 0, token);
    var f := RegisterPlaces(none, ps);
    assert Flips(f.x, f.y, f.xy) == f;
    HeldPairs(MapOf(f, token), ps, p, token);
  }

  lemma NoPairsHeld(ps: seq<Place>, token: string)
    ensures HoldsPairs(MapOf(Flips(map[], map[], map[]), token), ps, 0, token)
  {}

  lemma HeldPairs(m: FlipMap, ps: seq<Place>, p: FlipPair, token: string)
    requires HoldsPairs(m, ps, |ps|, token)
    ensures p in m.Values <==> FromPlace(ps, |ps|, p, token)
  {
    hide Enters, OriginalOf;
    if p in m.Values {
      var id := KeyOfValue(m, p);
      assert FromPlace(ps, |ps|, m[id], token);
    }
    if FromPlace(ps, |ps|, p, token) {
      var k :| 0 <= k < |ps| && Carries(ps[k], p, token);
      assert m[ps[k].node.seqId] == p;
    }
  }

  /** The maps of a tree as one value. */
  function FlipsOf(t: Tables): Flips { Flips(t.flipX, t.flipY, t.flipXY) }

  lemma PairHasToken(t: Tables, p: FlipPair) returns (token: string)
    requires p in AllPairs(t)
    ensures IsSuffix(token) && p in MapOf(FlipsOf(t), token).Values
  {
    token := if p in t.flipX.Values then "flipx" else if p in t.flipY.Values then "flipy" else "flipxy";
  }

  /** The place of a pair's mirror. */
  lemma PlaceOfPair(roots: seq<Tree>, p: FlipPair) returns (k: nat)
    requires DistinctIds(Build(roots).layers) && p in AllPairs(Build(roots))
    ensures k < |AllPlaces(roots)| == |Build(roots).layers| && OriginalOf(AllPlaces(roots)[k]).Some?
    ensures PairAt(AllPlaces(roots)[k]) == p
  {
    hide Places, EnumList;
    var token := PairHasToken(Build(roots), p);
    BuiltPairs(roots, p, token);
    PlacesApart(roots);
    k :| 0 <= k < |AllPlaces(roots)| && Carries(AllPlaces(roots)[k], p, token);
  }

  /** The two sides of a pair are different layers of one sibling list; the mirror's name is the original's
      followed by flip suffixes, and the pair is in the map of a suffix exactly if it is among them. */
  lemma PairOfNames(roots: seq<Tree>, p: FlipPair) returns (i: nat, j: nat)
    requires DistinctIds(Build(roots).layers) && p in AllPairs(Build(roots))
    ensures var rows := Build(roots).layers;
      && i < |rows| && j < |rows| && i != j && rows[i].seqId == p.original && rows[j].seqId == p.mirror
      && rows[i].parent == rows[j].parent
      && SuffixTokens(rows[j].name) != [] && rows[i].name == BaseName(rows[j].name)
      && (SuffixTokens(rows[j].name) != Tokens(rows[j].name) ==>
           rows[j].name == rows[i].name + ":" + Join(SuffixTokens(rows[j].name), ':'))
      && forall token :: IsSuffix(token) ==>
           (p in MapOf(FlipsOf(Build(roots)), token).Values <==> token in SuffixTokens(rows[j].name))
  {
    hide Places, EnumList, SuffixTokens, BaseName, MapOf;
    var rows, ps := Build(roots).layers, AllPlaces(roots);
    j := PlaceOfPair(roots, p);
    TreeIsLaid(roots);
    assert Matches(rows, ps, j, roots, -1, 0);
    var o := OriginalOf(ps[j]).value;
    i := SiblingHasRow(roots, j, o);
    assert Matches(rows, ps, i, roots, -1, 0);
    BaseHasNoSuffix(ps[j].node.name);
    NameOfMirror(ps[j].node.name);
    forall token | IsSuffix(token)
      ensures p in MapOf(FlipsOf(Build(roots)), token).Values <==> token in SuffixTokens(rows[j].name)
    {
      BuiltPairs(roots, p, token);
      CarriesAtMirror(roots, p, j, token);
    }
  }

  lemma CarriesAtMirror(roots: seq<Tree>, p: FlipPair, j: nat, token: string)
    requires DistinctIds(Build(roots).layers) && j < |AllPlaces(roots)| && OriginalOf(AllPlaces(roots)[j]).Some?
    requires PairAt(AllPlaces(roots)[j]) == p
    ensures FromPlace(AllPlaces(roots), |AllPlaces(roots)|, p, token) <==> token in SuffixTokens(AllPlaces(roots)[j].node.name)
  {
    hide Places, EnumList, SuffixTokens, OriginalOf;
    var ps := AllPlaces(roots);
    PlacesApart(roots);
    if token in SuffixTokens(ps[j].node.name) {
      assert Carries(ps[j], p, token);
    }
    if FromPlace(ps, |ps|, p, token) {
      var k :| 0 <= k < |ps| && Carries(ps[k], p, token);
      assert ps[k].node.seqId == ps[j].node.seqId;
      assert k == j;
    }
  }

  /** The flip that a suffix names. */
  function FlipOfToken(token: string): int
  {
    if token == "flipx" then FLIP_X else if token == "flipy" then FLIP_Y else FLIP_XY
  }

  /** If a mirror's name carries one suffix, the mirror is the side to show if and only if the flip is the
      one of that suffix. */
  lemma MirrorMatchesSuffix(roots: seq<Tree>, p: FlipPair, j: nat, token: string, flip: int)
    requires DistinctIds(Build(roots).layers) && p in AllPairs(Build(roots))
    requires j < |Build(roots).layers| && Build(roots).layers[j].seqId == p.mirror
    requires SuffixTokens(Build(roots).layers[j].name) == [token]
    ensures IsSuffix(token)
    ensures MirrorShown(Build(roots), p, flip) <==> flip == FlipOfToken(token)
  {
    hide EnumList, FlipsOfList, SuffixTokens, BaseName, Tokens, Join;
    var t := Build(roots);
    var i, k := PairOfNames(roots, p);
    assert k == j;
    OneSuffix(t.layers[j].name, token);
    assert IsSuffix("flipx") && p in MapOf(FlipsOf(t), "flipx").Values <==> "flipx" in SuffixTokens(t.layers[j].name);
    assert IsSuffix("flipy") && p in MapOf(FlipsOf(t), "flipy").Values <==> "flipy" in SuffixTokens(t.layers[j].name);
  }

  lemma OneSuffix(name: string, token: string)
    requires SuffixTokens(name) == [token]
    ensures IsSuffix(token)
  {
    SuffixesEnd(Tokens(name));
    assert token in SuffixTokens(name);
  }
}
