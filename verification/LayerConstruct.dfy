/** `NewLayerManager` of `src/go/img/layermgr.go` from the tree to the first normalised state, and a tree
    that meets its conditions. */
module LayerConstruct {
  import opened Names
  import opened LayerTables
  import opened LayerStates
  import opened LayerCopy
  import opened LayerFlips
  import opened LayerGroups
  import opened LayerBuild
  import opened LayerPaths
  import opened LayerWellFormed
  import opened LayerPlaces
  import opened LayerPairs
  import opened LayerRegular
  import opened LayerSyncs
  import opened LayerImage

  // ---------- synced layers ----------

  /** Synced layers make no difference to how the tables fit together. */
  lemma SyncsKeepWellFormed(t: Tables, m: SyncMap)
    requires WellFormed(t)
    ensures WellFormed(t.(syncedMap := m))
  {
    var r := t.(syncedMap := m);
    assert RowsLinked(r) by {
      hide GroupsLinked;
    }
    GroupsOfSynced(t, m);
  }

  lemma GroupsOfSynced(t: Tables, m: SyncMap)
    requires RowsLinked(t) && GroupsLinked(t) && RowsLinked(t.(syncedMap := m))
    ensures GroupsLinked(t.(syncedMap := m))
  {
    hide RowsLinked;
  }

  lemma SyncsKeepPaths(t: Tables, m: SyncMap)
    requires PathsRegular(t)
    ensures PathsRegular(t.(syncedMap := m))
  {
    var r := t.(syncedMap := m);
    assert forall i :: 0 <= i < |t.layers| ==> Component(r, i) == Component(t, i);
    hide Component;
  }

  /** The tables of a tree as `NewLayerManager` leaves them. */
  function Finished(t: Tables, ps: seq<FlipPair>): Tables
    requires WellFormed(t)
  {
    t.(syncedMap := SyncFold(t, ps))
  }

  /** Regular trees stay regular when their synced layers are registered. */
  lemma FinishedIsRegular(roots: seq<Tree>, ps: seq<FlipPair>)
    requires DistinctIds(Build(roots).layers) && PlainTops(roots) && FlipsPlain(roots)
    ensures WellFormed(Build(roots)) && Regular(Finished(Build(roots), ps)) && Separate(Finished(Build(roots), ps))
  {
    hide DistinctIds, FlipsPlain, WellFormed, PathsRegular, FlipsRegular, SyncFold;
    var t := Build(roots);
    BuiltIsWellFormed(roots);
    BuiltPathsAreRegular(roots);
    var r := Finished(t, ps);
    SyncsKeepWellFormed(t, SyncFold(t, ps));
    SyncsKeepPaths(t, SyncFold(t, ps));
    assert r.layers == t.layers && AllPairs(r) == AllPairs(t);
    PlainFlipsAreRegular(roots, r);
    RegularIsSeparate(r);
  }

  /** Registers the pairs of one map, once for each of its keys, in whatever order Go iterates it. */
  method RegisterMap(b: SyncBuilder, m: FlipMap, ghost before: seq<FlipPair>) returns (ghost ps: seq<FlipPair>)
    requires WellFormed(b.t) && b.syncedMap == SyncFold(b.t, before)
    modifies b
    ensures b.syncedMap == SyncFold(b.t, ps)
    ensures forall p :: p in ps <==> p in before || p in m.Values
  {
    hide WellFormed;
    ps := before;
    var todo := m.Keys;
    while todo != {}
      invariant todo <= m.Keys && b.syncedMap == SyncFold(b.t, ps)
      invariant forall p <- before :: p in ps
      invariant forall id <- m.Keys - todo :: m[id] in ps
      invariant forall p <- ps :: p in before || p in m.Values
      decreases todo
    {
      assert exists k :: k in todo by {
        var _ := SomeMember(todo);
      }
      var id :| id in todo;
      var p := m[id];
      var i, j := Find(b.t, p.original), Find(b.t, p.mirror);
      if i.Some? && j.Some? {
        b.RegisterSyncs(i.value, j.value);
      }
      ghost var longer := ps + [p];
      assert longer[..|longer| - 1] == ps && longer[|longer| - 1] == p;
      ps := longer;
      todo := todo - {id};
    }
    forall p | p in m.Values
      ensures p in ps
    {
      var id := KeyOfValue(m, p);
    }
  }

  /** Builds the tables, registers the synced layers of all pairs and normalises.  On a regular tree the
      image is settled from the start. */
  method NewLayerManager(roots: seq<Tree>, visible: seq<bool>) returns (m: LayerManager, ghost ps: seq<FlipPair>)
    requires DistinctIds(Build(roots).layers) && |visible| == |Build(roots).layers|
    ensures WellFormed(Build(roots)) && fresh(m) && m.Valid() && m.t == Finished(Build(roots), ps) && m.flip == FLIP_NONE
    ensures forall p :: p in ps <==> p in AllPairs(Build(roots))
    ensures Normalizes(m.t, Fresh(visible), FLIP_NONE, 0, m.visible)
    ensures PlainTops(roots) && FlipsPlain(roots) ==> Settled(m.t, m.visible, m.flip)
  {
    hide DistinctIds, FlipsPlain, PlainTops, WellFormed, Regular, Settled, Normalizes, SyncFold;
    BuiltIsWellFormed(roots);
    var t := BuildTables(roots);
    var b := new SyncBuilder(t);
    NoSyncs(t);
    ghost var p1 := RegisterMap(b, t.flipX, []);
    ghost var p2 := RegisterMap(b, t.flipY, p1);
    ps := RegisterMap(b, t.flipXY, p2);
    SyncsKeepWellFormed(t, b.syncedMap);
    m := new LayerManager(t.(syncedMap := b.syncedMap), visible);
    var _ := Normalize(m);
    if PlainTops(roots) && FlipsPlain(roots) {
      FinishedIsRegular(roots, ps);
    }
  }

  lemma NoSyncs(t: Tables)
    requires WellFormed(t)
    ensures SyncFold(t, []) == map[]
  {}

  /** From the tree over any operations: the image is settled after each of them. */
  method BuildAndRun(roots: seq<Tree>, visible: seq<bool>, ops: seq<Operation>) returns (m: LayerManager)
    requires DistinctIds(Build(roots).layers) && |visible| == |Build(roots).layers|
    requires PlainTops(roots) && FlipsPlain(roots)
    ensures m.Valid() && m.t.layers == Build(roots).layers && Settled(m.t, m.visible, m.flip)
    ensures AllOneVisible(m.t, Uniform(m.visible, 0))
  {
    hide FlipsPlain;
    ghost var ps;
    m, ps := NewLayerManager(roots, visible);
    Run(m, ops);
  }

  // ---------- a tree with a group and a pair ----------

  const Leaf4 := Node("d", 4, [])
  const Leaf6 := Node("d", 6, [])
  const Original3 := Node("c", 3, [Leaf4])
  const Mirror5 := Node("c:flipx", 5, [Leaf6])
  const Sample: seq<Tree> := [Node("*a", 1, []), Node("*b", 2, []), Original3, Mirror5]

  lemma NextPlace(l: Tree, ls: seq<Tree>, sibs: seq<Tree>)
    ensures Places([l] + ls, sibs) == [Place(l, sibs)] + Places(l.children, l.children) + Places(ls, sibs)
  {
    assert ([l] + ls)[1..] == ls;
  }

  lemma LeafPlace(l: Tree)
    requires l.children == []
    ensures Places([l], [l]) == [Place(l, [l])]
  {
    assert [l] + [] == [l];
    NextPlace(l, [], [l]);
  }

  lemma SamplePlaces()
    ensures AllPlaces(Sample) == [
      Place(Sample[0], Sample), Place(Sample[1], Sample), Place(Original3, Sample), Place(Leaf4, [Leaf4]),
      Place(Mirror5, Sample), Place(Leaf6, [Leaf6])]
  {
    var a, b := Sample[0], Sample[1];
    LeafPlace(Leaf4);
    LeafPlace(Leaf6);
    NextPlace(a, [b, Original3, Mirror5], Sample);
    NextPlace(b, [Original3, Mirror5], Sample);
    NextPlace(Original3, [Mirror5], Sample);
    NextPlace(Mirror5, [], Sample);
    NoPlaces();
    hide Places;
    assert [a] + [b, Original3, Mirror5] == Sample && [b] + [Original3, Mirror5] == [b, Original3, Mirror5];
    assert [Original3] + [Mirror5] == [Original3, Mirror5] && [Mirror5] + [] == [Mirror5];
  }

  lemma NoPlaces()
    ensures forall sibs :: Places([], sibs) == []
  {}

  lemma PlainName(name: string)
    requires ':' !in name && !IsSuffix(name)
    ensures SuffixTokens(name) == []
  {
    assert Tokens(name) == [name] && Suffixes([name]) == 0;
  }

  lemma MirrorName()
    ensures SuffixTokens("c:flipx") == ["flipx"] && BaseName("c:flipx") == "c"
  {
    MirrorTokens();
    hide Split;
    var tokens := ["c", "flipx"];
    assert !IsSuffix("c") && IsSuffix("flipx");
    assert tokens[..1] == ["c"] && tokens[1..] == ["flipx"] && Suffixes(["c"]) == 0;
    assert Suffixes(tokens) == 1;
    assert Join(["c"], ':') == "c";
  }

  lemma MirrorTokens()
    ensures Tokens("c:flipx") == ["c", "flipx"]
  {
    assert "c" + [':'] + "flipx" == "c:flipx" && ':' !in "flipx";
    SplitPiece("c", "flipx", ':');
  }

  lemma PlainPlace(l: Tree, sibs: seq<Tree>)
    requires ':' !in l.name && !IsSuffix(l.name)
    ensures OriginalOf(Place(l, sibs)).None?
  {
    PlainName(l.name);
  }

  lemma MirrorPlace()
    ensures OriginalOf(Place(Mirror5, Sample)) == Some(Original3)
  {
    MirrorName();
    hide SuffixTokens, BaseName;
    assert |"*a"| != |"c"| && |"*b"| != |"c"|;
    assert Sample[1..][0] == Sample[1] && Sample[1..][1..][0] == Original3;
    assert FindSibling(Sample, "c") == Some(Original3);
  }

  lemma OriginalsOfSample()
    ensures OriginalOf(Place(Sample[0], Sample)).None? && OriginalOf(Place(Sample[1], Sample)).None?
    ensures OriginalOf(Place(Original3, Sample)).None? && OriginalOf(Place(Mirror5, Sample)) == Some(Original3)
    ensures OriginalOf(Place(Leaf4, [Leaf4])).None? && OriginalOf(Place(Leaf6, [Leaf6])).None?
  {
    hide OriginalOf;
    PlainPlace(Sample[0], Sample);
    PlainPlace(Sample[1], Sample);
    PlainPlace(Original3, Sample);
    PlainPlace(Leaf4, [Leaf4]);
    MirrorPlace();
    PlainPlace(Leaf6, [Leaf6]);
  }

  /** A tree of six places, the fifth of which mirrors another and is plain, has plain flips. */
  lemma OnePlainPair(roots: seq<Tree>, a: Place, b: Place, c: Place, d: Place, m: Place, e: Place)
    requires AllPlaces(roots) == [a, b, c, d, m, e]
    requires OriginalOf(a).None? && OriginalOf(b).None? && OriginalOf(c).None? && OriginalOf(d).None? && OriginalOf(e).None?
    requires OriginalOf(m).Some? && PairPlain(OriginalOf(m).value, m.node)
    ensures FlipsPlain(roots)
  {
    hide OriginalOf, PairPlain, Places;
    var ps := AllPlaces(roots);
    assert ps[0] == a && ps[1] == b && ps[2] == c && ps[3] == d && ps[4] == m && ps[5] == e && |ps| == 6;
    assert forall k :: 0 <= k < 6 && k != 4 ==> OriginalOf(ps[k]).None?;
  }

  lemma SamplePairIsPlain()
    ensures PairPlain(Original3, Mirror5)
  {
    hide OriginalOf, RelativePaths, Places;
    OriginalsOfSample();
    SamePaths4And6();
    LeafPlace(Leaf4);
    LeafPlace(Leaf6);
  }

  lemma SampleFlips()
    ensures FlipsPlain(Sample)
  {
    hide OriginalOf, Places, PairPlain, FlipsPlain;
    SamplePlaces();
    OriginalsOfSample();
    SamplePairIsPlain();
    OnePlainPair(Sample, Place(Sample[0], Sample), Place(Sample[1], Sample), Place(Original3, Sample), Place(Leaf4, [Leaf4]),
                 Place(Mirror5, Sample), Place(Leaf6, [Leaf6]));
  }

  lemma SampleIsPlain()
    ensures FlipsPlain(Sample) && PlainTops(Sample) && DistinctIds(Build(Sample).layers)
  {
    hide EnumList, PlainTops, FlipsPlain;
    SampleFlips();
    SampleRows();
    SampleTops();
  }

  lemma LeafRow(l: Tree, dir: string)
    requires l.children == []
    ensures EnumList([l], dir, map[], 0, 1) == [Layer(l.name, l.seqId, PathOf(dir, map[], l.name), 0, [])]
  {
    hide PathOf;
    var path := PathOf(dir, map[], l.name);
    assert [l][1..] == [] && LayerBuild.Ids(l.children) == [] && EnumList([], path, map[], 1, 2) == [];
    assert EnumRows(l, path, 0, 1) == [Layer(l.name, l.seqId, path, 0, [])];
  }

  lemma SamePaths4And6()
    ensures RelativePaths([Leaf4]) == RelativePaths([Leaf6])
  {
    hide EnumList, PathOf;
    LeafRow(Leaf4, ".");
    LeafRow(Leaf6, ".");
  }

  lemma SampleRows()
    ensures |Build(Sample).layers| == 6
    ensures forall k :: 0 <= k < 6 ==> Build(Sample).layers[k].seqId == k + 1
  {
    hide EnumList, Places;
    SamplePlaces();
    TreeIsLaid(Sample);
    forall k | 0 <= k < 6
      ensures Build(Sample).layers[k].seqId == k + 1
    {
      assert Matches(Build(Sample).layers, AllPlaces(Sample), k, Sample, -1, 0);
    }
  }

  lemma PlainStep(l: Tree, ls: seq<Tree>)
    requires Plain(l.name) && PlainList(l.children) && PlainList(ls)
    ensures PlainList([l] + ls)
  {
    assert ([l] + ls)[1..] == ls;
  }

  lemma SampleTops()
    ensures PlainTops(Sample)
  {
    var a, b := Sample[0], Sample[1];
    assert PlainList([]);
    hide PlainList;
    PlainStep(Leaf4, []);
    PlainStep(Leaf6, []);
    PlainStep(Mirror5, []);
    PlainStep(Original3, [Mirror5]);
    PlainStep(b, [Original3, Mirror5]);
    PlainStep(a, [b, Original3, Mirror5]);
    assert [a] + [b, Original3, Mirror5] == Sample && [b] + [Original3, Mirror5] == [b, Original3, Mirror5];
    assert [Original3] + [Mirror5] == [Original3, Mirror5] && [Mirror5] + [] == [Mirror5];
    assert [Leaf4] + [] == [Leaf4] && [Leaf6] + [] == [Leaf6];
  }

  /** The conditions can be met by a tree that has both a radio group and a flip pair. */
  lemma SampleIsRegular()
    ensures Regular(Build(Sample)) && Separate(Build(Sample))
    ensures FlipPair(3, 5) in Build(Sample).flipX.Values
    ensures 1 in Build(Sample).groupMap && 2 in Build(Sample).groupMap && Build(Sample).groupMap[1] == Build(Sample).groupMap[2]
  {
    SampleIsPlain();
    hide FlipsPlain, PlainTops, EnumList, Places, DistinctIds;
    BuiltIsRegular(Sample);
    SamplePair();
    SampleGroup();
  }

  lemma SamplePair()
    requires DistinctIds(Build(Sample).layers)
    ensures FlipPair(3, 5) in Build(Sample).flipX.Values
  {
    hide EnumList, Places, FlipsOfList;
    hide OriginalOf;
    SamplePlaces();
    OriginalsOfSample();
    MirrorName();
    assert Carries(AllPlaces(Sample)[4], FlipPair(3, 5), "flipx");
    BuiltPairs(Sample, FlipPair(3, 5), "flipx");
  }

  lemma SampleGroup()
    requires WellFormed(Build(Sample))
    ensures 1 in Build(Sample).groupMap && 2 in Build(Sample).groupMap && Build(Sample).groupMap[1] == Build(Sample).groupMap[2]
  {
    hide EnumList, Places, InnerGroups, GroupEntries;
    var t := Build(Sample);
    SampleRows();
    SamplePlaces();
    TreeIsLaid(Sample);
    assert Matches(t.layers, AllPlaces(Sample), 0, Sample, -1, 0);
    assert Matches(t.layers, AllPlaces(Sample), 1, Sample, -1, 0);
    RowOfId(t, 0);
    RowOfId(t, 1);
    assert t.layers[0].parent == -1 && t.layers[1].parent == -1;
    SameOwner(t, 1, 2);
  }

  lemma SameOwner(t: Tables, x: SeqID, y: SeqID)
    requires WellFormed(t) && x in t.groupMap && y in t.groupMap
    requires t.layers[t.mapped[x]].parent == t.layers[t.mapped[y]].parent
    ensures t.groupMap[x] == t.groupMap[y]
  {}
}
