/** Trees whose flip pairs are regular: the conditions on names and shapes under which the tables that
    `NewLayerManager` builds have everything that the flip phase needs. */
module LayerRegular {
  import opened Names
  import opened LayerTables
  import opened LayerStates
  import opened LayerCopy
  import opened LayerFlips
  import opened LayerBuild
  import opened LayerPaths
  import opened LayerWellFormed
  import opened LayerPlaces
  import opened LayerPairs

  // ---------- the condition on trees ----------

  /** The paths of everything below a node whose own path is a dot. */
  function RelativePaths(children: seq<Tree>): set<string>
  {
    set r <- EnumList(children, ".", map[], 0, 1) :: r.fullPath
  }

  /** No layer of these lists and below mirrors another. */
  predicate Unpaired(children: seq<Tree>)
  {
    forall pl <- Places(children, children) :: OriginalOf(pl).None?
  }

  /** Both sides have the same paths below them, both are group layers or neither, and no pair lies below. */
  ghost predicate PairPlain(original: Tree, mirror: Tree)
  {
    && RelativePaths(original.children) == RelativePaths(mirror.children)
    && (IsGroup(original.name) <==> IsGroup(mirror.name))
    && Unpaired(original.children) && Unpaired(mirror.children)
  }

  /** Every pair is plain, and no layer has two mirrors. */
  ghost predicate FlipsPlain(roots: seq<Tree>)
  {
    var ps := AllPlaces(roots);
    && (forall k :: 0 <= k < |ps| && OriginalOf(ps[k]).Some? ==> PairPlain(OriginalOf(ps[k]).value, ps[k].node))
    && (forall j, k :: 0 <= j < |ps| && 0 <= k < |ps| && ShareOriginal(ps[j], ps[k]) ==> ps[j].node.seqId == ps[k].node.seqId)
  }

  predicate ShareOriginal(a: Place, b: Place)
  {
    OriginalOf(a).Some? && OriginalOf(b).Some? && OriginalOf(a).value.seqId == OriginalOf(b).value.seqId
  }

  // ---------- paths below a node ----------

  /** The paths of `a` are those of `c` with `dir` for the dot. */
  ghost predicate Shifted(a: seq<Layer>, dir: string, c: seq<Layer>)
  {
    |a| == |c| && forall k :: 0 <= k < |a| ==> ShiftedAt(a[k].fullPath, dir, c[k].fullPath)
  }

  predicate ShiftedAt(path: string, dir: string, relative: string)
  {
    relative != "" && relative[0] == '.' && path == dir + relative[1..]
  }

  lemma ShiftTwice(x: string, y: string, dir: string, part: string, relative: string)
    requires ShiftedAt(x, dir + "/" + part, relative) && ShiftedAt(y, "./" + part, relative)
    ensures ShiftedAt(x, dir, y)
  {
    assert y[1..] == "/" + part + relative[1..];
    assert dir + "/" + part + relative[1..] == dir + ("/" + part + relative[1..]);
  }

  lemma {:induction false} PathsShift(ls: seq<Tree>, dir: string, dup: map<string, nat>, parent: int, base: nat, p2: int, b2: nat)
    requires dir != ""
    ensures Shifted(EnumList(ls, dir, dup, parent, base), dir, EnumList(ls, ".", dup, p2, b2))
    decreases ls, 1
  {
    hide Shifted;
    if ls == [] {
      NothingShifts(dir);
    } else {
      var l, part, d := ls[0], Escaped(Raw(ls[0].name, Number(dup, ls[0].name))), dup[ls[0].name := Number(dup, ls[0].name)];
      PathOfMeaning(dir, dup, l.name);
      PathOfMeaning(".", dup, l.name);
      RowsShift(l, dir, part, parent, base, p2, b2);
      var a, c := EnumRows(l, dir + "/" + part, parent, base), EnumRows(l, "./" + part, p2, b2);
      assert "." + "/" + part == "./" + part;
      PathsShift(ls[1..], dir, d, parent, base + |a|, p2, b2 + |c|);
      hide EnumRows, EnumList;
      ShiftsJoin(a, c, EnumList(ls[1..], dir, d, parent, base + |a|), EnumList(ls[1..], ".", d, p2, b2 + |c|), dir);
    }
  }

  lemma ShiftsJoin(a: seq<Layer>, c: seq<Layer>, a2: seq<Layer>, c2: seq<Layer>, dir: string)
    requires Shifted(a, dir, c) && Shifted(a2, dir, c2)
    ensures Shifted(a + a2, dir, c + c2)
  {
    hide ShiftedAt;
  }

  lemma NothingShifts(dir: string)
    ensures Shifted([], dir, [])
  {}

  lemma HeadShifts(dir: string, part: string)
    ensures ShiftedAt(dir + "/" + part, dir, "./" + part)
  {
    assert ("./" + part)[1..] == "/" + part && dir + ("/" + part) == dir + "/" + part;
  }

  lemma {:induction false} RowsShift(l: Tree, dir: string, part: string, parent: int, base: nat, p2: int, b2: nat)
    requires dir != ""
    ensures Shifted(EnumRows(l, dir + "/" + part, parent, base), dir, EnumRows(l, "./" + part, p2, b2))
    decreases l, 0
  {
    var c := EnumList(l.children, ".", map[], 0, 1);
    var x, y := EnumList(l.children, dir + "/" + part, map[], base, base + 1), EnumList(l.children, "./" + part, map[], b2, b2 + 1);
    PathsShift(l.children, dir + "/" + part, map[], base, base + 1, 0, 1);
    PathsShift(l.children, "./" + part, map[], b2, b2 + 1, 0, 1);
    var a, b := EnumRows(l, dir + "/" + part, parent, base), EnumRows(l, "./" + part, p2, b2);
    hide EnumList, EnumRows, ShiftedAt;
    forall k | 0 <= k < |a|
      ensures ShiftedAt(a[k].fullPath, dir, b[k].fullPath)
    {
      if k == 0 {
        HeadShifts(dir, part);
      } else {
        assert ShiftedAt(x[k - 1].fullPath, dir + "/" + part, c[k - 1].fullPath);
        assert ShiftedAt(y[k - 1].fullPath, "./" + part, c[k - 1].fullPath);
        ShiftTwice(x[k - 1].fullPath, y[k - 1].fullPath, dir, part, c[k - 1].fullPath);
      }
    }
  }

  // ---------- subtrees are slices ----------

  /** What lies below row `i` comes right behind it. */
  lemma {:induction false} UnderIsInSlice(roots: seq<Tree>, t: Tables, d: nat, i: nat)
    requires RowsLinked(t) && t.layers == Build(roots).layers && d < |t.layers| && i < |t.layers|
    requires |AllPlaces(roots)| == |t.layers| && AtOrUnder(t, d, i)
    ensures i <= d <= i + SizeOfList(AllPlaces(roots)[i].node.children)
    decreases d
  {
    hide EnumList, Places, RowsLinked;
    if d != i {
      var p := t.layers[d].parent;
      UnderStep(t, d, i);
      UnderIsInSlice(roots, t, p, i);
      TreeIsLaid(roots);
      assert Matches(t.layers, AllPlaces(roots), d, roots, -1, 0);
      SlicesNest(roots, i, p);
    }
  }

  lemma UnderStep(t: Tables, d: nat, i: nat)
    requires RowsLinked(t) && d < |t.layers| && i < |t.layers| && AtOrUnder(t, d, i) && d != i
    ensures 0 <= t.layers[d].parent < d && AtOrUnder(t, t.layers[d].parent, i)
  {}

  lemma SlicesNest(roots: seq<Tree>, i: nat, p: nat)
    requires |AllPlaces(roots)| == |Build(roots).layers| && i < |AllPlaces(roots)| && p < |AllPlaces(roots)|
    requires i <= p <= i + SizeOfList(AllPlaces(roots)[i].node.children)
    ensures p + SizeOfList(AllPlaces(roots)[p].node.children) <= i + SizeOfList(AllPlaces(roots)[i].node.children)
  {
    hide EnumList, Places, SizeOfList;
    var rows, ps := Build(roots).layers, AllPlaces(roots);
    TreeIsLaid(roots);
    assert Slice(rows, ps, i, 0);
    if p > i {
      var c, k := ps[i].node.children, p - i - 1;
      var below, pb := EnumList(c, rows[i].fullPath, map[], i, i + 1), Places(c, c);
      SizeOfEnumList(c, rows[i].fullPath, map[], i, i + 1);
      RowsSlice(c, c, rows[i].fullPath, map[], i, i + 1);
      assert ps[i + 1..i + 1 + |below|][k] == ps[p];
      assert rows[i + 1..i + 1 + |below|][k] == rows[p];
      assert Slice(below, pb, k, i + 1);
      hide Slice;
      SizeOfEnumList(ps[p].node.children, rows[p].fullPath, map[], p, p + 1);
    }
  }

  function Relative(children: seq<Tree>): seq<Layer> { EnumList(children, ".", map[], 0, 1) }

  /** Row `m` behind row `i`, and its path relative to that row. */
  lemma RelativeRow(roots: seq<Tree>, i: nat, m: nat)
    requires i < |AllPlaces(roots)| == |Build(roots).layers| && Build(roots).layers[i].fullPath != ""
    requires m < |Relative(AllPlaces(roots)[i].node.children)|
    ensures |Relative(AllPlaces(roots)[i].node.children)| == SizeOfList(AllPlaces(roots)[i].node.children)
    ensures i + 1 + m < |Build(roots).layers|
    ensures ShiftedAt(Build(roots).layers[i + 1 + m].fullPath, Build(roots).layers[i].fullPath,
                      Relative(AllPlaces(roots)[i].node.children)[m].fullPath)
  {
    hide EnumList, Places, SizeOfList, ShiftedAt;
    var rows, ps := Build(roots).layers, AllPlaces(roots);
    TreeIsLaid(roots);
    assert Slice(rows, ps, i, 0);
    hide Slice;
    var c, dir := ps[i].node.children, rows[i].fullPath;
    SizeOfEnumList(c, dir, map[], i, i + 1);
    PathsShift(c, dir, map[], i, i + 1, 0, 1);
    SliceElement(rows, ps, i, m, 0);
    assert ShiftedAt(EnumList(c, dir, map[], i, i + 1)[m].fullPath, dir, Relative(c)[m].fullPath);
  }

  lemma PathNotEmpty(t: Tables, i: nat)
    requires PathsRegular(t) && i < |t.layers|
    ensures t.layers[i].fullPath != "" && t.layers[i].fullPath in t.fullPath
  {}

  /** The path of a layer below row `i`, and what it is relative to that row. */
  lemma RelativePath(roots: seq<Tree>, t: Tables, d: nat, i: nat) returns (relative: string)
    requires RowsLinked(t) && PathsRegular(t) && t.layers == Build(roots).layers && d < |t.layers| && i < |t.layers|
    requires |AllPlaces(roots)| == |t.layers| && AtOrUnder(t, d, i) && d != i
    ensures relative in RelativePaths(AllPlaces(roots)[i].node.children)
    ensures ShiftedAt(t.layers[d].fullPath, t.layers[i].fullPath, relative)
  {
    hide EnumList, Places, RowsLinked, SizeOfList, PathsRegular;
    UnderIsInSlice(roots, t, d, i);
    PathNotEmpty(t, i);
    var c, m := AllPlaces(roots)[i].node.children, d - i - 1;
    SizeOfEnumList(c, ".", map[], 0, 1);
    RelativeRow(roots, i, m);
    relative := Relative(c)[m].fullPath;
  }

  /** Every relative path below row `j` is that of some layer. */
  lemma RelativeIsPath(roots: seq<Tree>, t: Tables, j: nat, relative: string)
    requires RowsLinked(t) && PathsRegular(t) && t.layers == Build(roots).layers && j < |t.layers|
    requires |AllPlaces(roots)| == |t.layers| && relative in RelativePaths(AllPlaces(roots)[j].node.children)
    ensures relative != "" && t.layers[j].fullPath + relative[1..] in t.fullPath
  {
    hide EnumList, Places, RowsLinked, PathsRegular;
    PathNotEmpty(t, j);
    var c := AllPlaces(roots)[j].node.children;
    var m :| 0 <= m < |Relative(c)| && Relative(c)[m].fullPath == relative;
    RelativeRow(roots, j, m);
    PathNotEmpty(t, j + 1 + m);
  }

  // ---------- counterparts ----------

  /** If every path below `a` exists below `b`, every layer there has its counterpart. */
  lemma {:induction false} ImageByLookup(t: Tables, a: nat, b: nat, d: nat)
    requires WellFormed(t) && PathsRegular(t) && a < |t.layers| && b < |t.layers| && d < |t.layers| && AtOrUnder(t, d, a)
    requires forall x :: 0 <= x < |t.layers| && AtOrUnder(t, x, a) && x != a ==> HasCounterpart(t, a, b, x)
    ensures Image(t, a, b, d).Some?
    ensures |t.layers[a].fullPath| <= |t.layers[d].fullPath|
    ensures t.layers[Image(t, a, b, d).value].fullPath == t.layers[b].fullPath + t.layers[d].fullPath[|t.layers[a].fullPath|..]
    decreases d
  {
    hide RowsLinked, GroupsLinked;
    if d != a {
      UnderStep(t, d, a);
      var p := t.layers[d].parent;
      ImageByLookup(t, a, b, p);
      assert HasCounterpart(t, a, b, d);
      LookupStep(t, a, b, p, d);
    }
  }

  ghost predicate HasCounterpart(t: Tables, a: nat, b: nat, x: nat)
    requires a < |t.layers| && b < |t.layers| && x < |t.layers|
  {
    && |t.layers[a].fullPath| <= |t.layers[x].fullPath|
    && t.layers[b].fullPath + t.layers[x].fullPath[|t.layers[a].fullPath|..] in t.fullPath
  }

  lemma LookupStep(t: Tables, a: nat, b: nat, p: nat, d: nat)
    requires WellFormed(t) && PathsRegular(t) && a < |t.layers| && b < |t.layers| && d < |t.layers| && d != a
    requires t.layers[d].parent == p && p < |t.layers| && Image(t, a, b, p).Some? && HasCounterpart(t, a, b, d)
    requires |t.layers[a].fullPath| <= |t.layers[p].fullPath|
    requires t.layers[Image(t, a, b, p).value].fullPath == t.layers[b].fullPath + t.layers[p].fullPath[|t.layers[a].fullPath|..]
    ensures Image(t, a, b, d).Some?
    ensures t.layers[Image(t, a, b, d).value].fullPath == t.layers[b].fullPath + t.layers[d].fullPath[|t.layers[a].fullPath|..]
  {
    hide RowsLinked, GroupsLinked;
    var n, e := |t.layers[a].fullPath|, Image(t, a, b, p).value;
    var part, pp := Component(t, d), t.layers[p].fullPath;
    assert t.layers[d].fullPath == pp + "/" + part;
    hide PathsRegular, Component;
    Reattach(t.layers[b].fullPath, pp, part, n);
    assert ChildBy(t, e, part) == Some(t.fullPath[t.layers[e].fullPath + "/" + part]);
    PathOfLookup(t, t.layers[e].fullPath + "/" + part);
  }

  lemma PathOfLookup(t: Tables, path: string)
    requires WellFormed(t) && path in t.fullPath
    ensures t.fullPath[path] < |t.layers| && t.layers[t.fullPath[path]].fullPath == path
  {}

  lemma Reattach(dir: string, path: string, part: string, n: nat)
    requires n <= |path|
    ensures dir + (path + "/" + part)[n..] == dir + path[n..] + "/" + part
  {
    assert (path + "/" + part)[n..] == path[n..] + "/" + part;
  }

  lemma SamePathsOfTrees(roots: seq<Tree>, t: Tables, i: nat, j: nat)
    requires WellFormed(t) && PathsRegular(t) && t.layers == Build(roots).layers && i < |t.layers| && j < |t.layers|
    requires |AllPlaces(roots)| == |t.layers|
    requires RelativePaths(AllPlaces(roots)[i].node.children) <= RelativePaths(AllPlaces(roots)[j].node.children)
    ensures SamePaths(t, i, j)
  {
    hide RowsLinked, GroupsLinked, Places, EnumList, RelativePaths, PathsRegular;
    forall x | 0 <= x < |t.layers| && AtOrUnder(t, x, i) && x != i
      ensures HasCounterpart(t, i, j, x)
    {
      var relative := RelativePath(roots, t, x, i);
      RelativeIsPath(roots, t, j, relative);
      assert t.layers[x].fullPath[|t.layers[i].fullPath|..] == relative[1..];
    }
    forall d | 0 <= d < |t.layers| && AtOrUnder(t, d, i)
      ensures Image(t, i, j, d).Some?
    {
      ImageByLookup(t, i, j, d);
    }
  }

  // ---------- pairs ----------

  /** Where the two sides of a pair are. */
  ghost predicate PairAtRows(roots: seq<Tree>, p: FlipPair, i: nat, j: nat)
  {
    var rows, ps := Build(roots).layers, AllPlaces(roots);
    && |rows| == |ps| && i < |rows| && j < |rows|
    && rows[i].seqId == p.original && rows[j].seqId == p.mirror && rows[i].parent == rows[j].parent
    && rows[i].name == ps[i].node.name && rows[j].name == ps[j].node.name
    && OriginalOf(ps[j]) == Some(ps[i].node)
  }

  lemma RowsOfPair(roots: seq<Tree>, p: FlipPair) returns (i: nat, j: nat)
    requires DistinctIds(Build(roots).layers) && p in AllPairs(Build(roots))
    ensures PairAtRows(roots, p, i, j) && i != j
  {
    hide Places, EnumList, OriginalOf;
    j := PlaceOfPair(roots, p);
    TreeIsLaid(roots);
    var rows, ps := Build(roots).layers, AllPlaces(roots);
    assert Matches(rows, ps, j, roots, -1, 0);
    i := SiblingHasRow(roots, j, OriginalOf(ps[j]).value);
    assert Matches(rows, ps, i, roots, -1, 0);
    PlacesApart(roots);
  }

  lemma RowOfId(t: Tables, i: nat)
    requires WellFormed(t) && i < |t.layers|
    ensures t.layers[i].seqId in t.mapped && Find(t, t.layers[i].seqId) == Some(i)
    ensures t.layers[i].seqId in t.groupMap <==> IsGroup(t.layers[i].name)
  {}

  lemma PlainPairIsRegular(roots: seq<Tree>, t: Tables, p: FlipPair)
    requires DistinctIds(Build(roots).layers) && FlipsPlain(roots) && p in AllPairs(Build(roots))
    requires WellFormed(t) && PathsRegular(t) && t.layers == Build(roots).layers
    ensures PairRegular(t, p)
  {
    hide Places, EnumList, RowsLinked, GroupsLinked, PathsRegular, RelativePaths, OriginalOf, SamePaths, IsGroup, Unpaired, WellFormed;
    var i, j := RowsOfPair(roots, p);
    assert PairPlain(AllPlaces(roots)[i].node, AllPlaces(roots)[j].node);
    RowOfId(t, i);
    RowOfId(t, j);
    SamePathsOfTrees(roots, t, i, j);
    SamePathsOfTrees(roots, t, j, i);
    PlacesApart(roots);
  }

  lemma PlainPairsDisjoint(roots: seq<Tree>, p: FlipPair, q: FlipPair)
    requires DistinctIds(Build(roots).layers) && FlipsPlain(roots)
    requires p in AllPairs(Build(roots)) && q in AllPairs(Build(roots)) && p != q
    ensures LayerFlips.Ids(p) !! LayerFlips.Ids(q)
  {
    hide Places, EnumList, OriginalOf, PairPlain, RelativePaths;
    var j := PlaceOfPair(roots, p);
    var k := PlaceOfPair(roots, q);
    PlacesApart(roots);
  }

  /** A side of a plain pair holds no side of any pair below it. */
  lemma PairsNotNested(roots: seq<Tree>, t: Tables, p: FlipPair, q: FlipPair, x: nat, y: nat)
    requires DistinctIds(Build(roots).layers) && FlipsPlain(roots)
    requires p in AllPairs(Build(roots)) && q in AllPairs(Build(roots))
    requires RowsLinked(t) && t.layers == Build(roots).layers && x < |t.layers| && y < |t.layers| && x != y
    requires t.layers[x].seqId in LayerFlips.Ids(p) && t.layers[y].seqId in LayerFlips.Ids(q)
    ensures !AtOrUnder(t, x, y)
  {
    hide Places, EnumList, OriginalOf, RelativePaths, RowsLinked, Unpaired, IsGroup;
    if AtOrUnder(t, x, y) {
      var i, j := RowsOfPair(roots, p);
      var i2, j2 := RowsOfPair(roots, q);
      SameIdSameRow(t.layers, x, i);
      SameIdSameRow(t.layers, x, j);
      SameIdSameRow(t.layers, y, i2);
      SameIdSameRow(t.layers, y, j2);
      UnderStep(t, x, y);
      MirrorUnder(t, x, y, j);
      assert PairPlain(AllPlaces(roots)[i2].node, AllPlaces(roots)[j2].node);
      UnpairedBelow(roots, t, j, y);
    }
  }

  lemma SameIdSameRow(rows: seq<Layer>, i: nat, j: nat)
    requires DistinctIds(rows) && i < |rows| && j < |rows|
    ensures rows[i].seqId == rows[j].seqId <==> i == j
  {}

  lemma MirrorUnder(t: Tables, x: nat, y: nat, j: nat)
    requires RowsLinked(t) && x < |t.layers| && y < |t.layers| && j < |t.layers|
    requires t.layers[x].parent == t.layers[j].parent && 0 <= t.layers[x].parent && AtOrUnder(t, t.layers[x].parent, y)
    ensures AtOrUnder(t, j, y) && j != y
  {
    UnderIsLater(t, t.layers[x].parent, y);
  }

  lemma UnpairedBelow(roots: seq<Tree>, t: Tables, j: nat, y: nat)
    requires RowsLinked(t) && t.layers == Build(roots).layers && |AllPlaces(roots)| == |t.layers|
    requires j < |t.layers| && y < |t.layers| && AtOrUnder(t, j, y) && j != y && Unpaired(AllPlaces(roots)[y].node.children)
    ensures OriginalOf(AllPlaces(roots)[j]).None?
  {
    hide Places, EnumList, OriginalOf, RowsLinked, SizeOfList;
    UnderIsInSlice(roots, t, j, y);
    TreeIsLaid(roots);
    var rows, ps := t.layers, AllPlaces(roots);
    assert Slice(rows, ps, y, 0);
    var c := ps[y].node.children;
    var n := |EnumList(c, rows[y].fullPath, map[], y, y + 1)|;
    SizeOfEnumList(c, rows[y].fullPath, map[], y, y + 1);
    assert ps[y + 1..y + 1 + n][j - y - 1] == ps[j];
    assert ps[j] in Places(c, c);
  }

  /** A tree with distinct sequence numbers, names without backslashes and plain flips builds regular tables. */
  lemma BuiltIsRegular(roots: seq<Tree>)
    requires DistinctIds(Build(roots).layers) && PlainTops(roots) && FlipsPlain(roots)
    ensures Regular(Build(roots)) && Separate(Build(roots))
  {
    hide Places, EnumList, FlipsPlain, PlainTops, PathsRegular, RowsLinked, GroupsLinked, WellFormed, DistinctIds, PairRegular;
    BuiltIsWellFormed(roots);
    BuiltPathsAreRegular(roots);
    PlainFlipsAreRegular(roots, Build(roots));
    RegularIsSeparate(Build(roots));
  }

  lemma PlainFlipsAreRegular(roots: seq<Tree>, t: Tables)
    requires DistinctIds(Build(roots).layers) && FlipsPlain(roots) && WellFormed(t) && PathsRegular(t)
    requires t.layers == Build(roots).layers && AllPairs(t) == AllPairs(Build(roots))
    ensures FlipsRegular(t)
  {
    hide Build, FlipsPlain, PathsRegular, GroupsLinked, RowsLinked, DistinctIds, AtOrUnder, PairRegular;
    forall p | p in AllPairs(t)
      ensures PairRegular(t, p)
    {
      PlainPairIsRegular(roots, t, p);
    }
    forall p, q | p in AllPairs(t) && q in AllPairs(t) && p != q
      ensures LayerFlips.Ids(p) !! LayerFlips.Ids(q)
    {
      PlainPairsDisjoint(roots, p, q);
    }
    forall p, q | p in AllPairs(t) && q in AllPairs(t)
      ensures NotNested(t, p, q)
    {
      PlainPairsNotNested(roots, t, p, q);
    }
  }

  lemma PlainPairsNotNested(roots: seq<Tree>, t: Tables, p: FlipPair, q: FlipPair)
    requires DistinctIds(Build(roots).layers) && FlipsPlain(roots) && WellFormed(t) && t.layers == Build(roots).layers
    requires p in AllPairs(Build(roots)) && q in AllPairs(Build(roots)) && PairRegular(t, p) && PairRegular(t, q)
    ensures NotNested(t, p, q)
  {
    hide Build, FlipsPlain, GroupsLinked, RowsLinked, DistinctIds, AtOrUnder, PairRegular, LayerFlips.Ids;
    forall a, b | a in LayerFlips.Ids(p) && b in LayerFlips.Ids(q) && a != b
      ensures NotBelow(t, a, b)
    {
      SidesPlaced(t, p, a);
      SidesPlaced(t, q, b);
      PairsNotNested(roots, t, p, q, Find(t, a).value, Find(t, b).value);
    }
  }

  lemma SidesPlaced(t: Tables, p: FlipPair, a: SeqID)
    requires WellFormed(t) && PairRegular(t, p) && a in LayerFlips.Ids(p)
    ensures Find(t, a).Some? && t.layers[Find(t, a).value].seqId == a
  {}
}
