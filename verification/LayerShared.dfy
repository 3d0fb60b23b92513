/** What the layers below a flip pair share: setting one sets its counterpart, and no flip undoes it. */
module LayerShared {
  import opened Names
  import opened LayerTables
  import opened LayerStates
  import opened LayerCopy
  import opened LayerFlips
  import opened LayerGroups
  import opened LayerNormal
  import opened LayerBuild
  import opened LayerPaths
  import opened LayerRegular
  import opened LayerCommands
  import opened LayerSyncs
  import opened LayerConstruct
  import opened LayerExclusive

  // ---------- counterparts ----------

  /** The layer with the path of `j` on the other side of the pair, for a layer strictly below a side. */
  function Across(t: Tables, p: FlipPair, j: nat): (k: Option<nat>)
    requires WellFormed(t) && Placed(t, p) && j < |t.layers|
    ensures k.Some? ==> k.value < |t.layers|
  {
    var a, b := Original(t, p), Mirror(t, p);
    if j != a && Image(t, a, b, j).Some? then Image(t, a, b, j)
    else if j != b then Image(t, b, a, j)
    else None
  }

  /** `k` is the counterpart of `j` in some pair. */
  ghost predicate Twins(t: Tables, j: nat, k: nat)
    requires WellFormed(t) && j < |t.layers|
  {
    exists p :: p in AllPairs(t) && Placed(t, p) && Across(t, p, j) == Some(k)
  }

  lemma AcrossBack(t: Tables, p: FlipPair, j: nat)
    requires WellFormed(t) && PathsRegular(t) && PairApart(t, p) && j < |t.layers| && Across(t, p, j).Some?
    ensures var k := Across(t, p, j).value;
      && Across(t, p, k) == Some(j) && k != j && InRegion(t, p, j) && InRegion(t, p, k)
      && t.layers[k].name == t.layers[j].name
      && !(j == Original(t, p) || j == Mirror(t, p)) && !(k == Original(t, p) || k == Mirror(t, p))
  {
    hide RowsLinked, GroupsLinked, PathsRegular, Image;
    var a, b := Original(t, p), Mirror(t, p);
    if j != a && Image(t, a, b, j).Some? {
      AcrossOneWay(t, a, b, j);
    } else {
      AcrossOneWay(t, b, a, j);
    }
  }

  lemma AcrossOneWay(t: Tables, a: nat, b: nat, j: nat)
    requires WellFormed(t) && PathsRegular(t) && a < |t.layers| && b < |t.layers| && j < |t.layers| && Apart(t, a, b)
    requires j != a && Image(t, a, b, j).Some?
    ensures var k := Image(t, a, b, j).value;
      && Image(t, b, a, k) == Some(j) && Image(t, a, b, k).None? && Image(t, b, a, j).None?
      && k != j && k != a && k != b && j != b && AtOrUnder(t, j, a) && AtOrUnder(t, k, b)
      && t.layers[k].name == t.layers[j].name
  {
    hide RowsLinked, GroupsLinked, PathsRegular, Image;
    var k := Image(t, a, b, j).value;
    ImageStep(t, a, b, j);
    ImageDomain(t, a, b, j);
    ImageInverse(t, a, b, j);
    ApartSubtrees(t, a, b, j, k);
    OneSided(t, a, b, k);
    OneSided(t, b, a, j);
    BelowItself(t, a);
    BelowItself(t, b);
  }

  lemma BelowItself(t: Tables, a: nat)
    requires RowsLinked(t) && a < |t.layers|
    ensures AtOrUnder(t, a, a)
  {
    hide RowsLinked;
  }

  /** Being counterparts is mutual. */
  lemma TwinsMutual(t: Tables, j: nat, k: nat)
    requires Separate(t) && PathsRegular(t) && j < |t.layers| && Twins(t, j, k)
    ensures k < |t.layers| && k != j && Twins(t, k, j) && t.layers[k].name == t.layers[j].name
  {
    hide WellFormed, PathsRegular, Across;
    var p :| p in AllPairs(t) && Placed(t, p) && Across(t, p, j) == Some(k);
    AcrossBack(t, p, j);
  }

  /** A layer has at most one counterpart, and it is in the region of its one pair. */
  lemma TwinsUnique(t: Tables, j: nat, k: nat, p: FlipPair)
    requires Separate(t) && PathsRegular(t) && j < |t.layers| && Twins(t, j, k)
    requires p in AllPairs(t) && InRegion(t, p, j)
    ensures Placed(t, p) && Across(t, p, j) == Some(k)
  {
    hide WellFormed, PathsRegular, Across, InRegion;
    var q :| q in AllPairs(t) && Placed(t, q) && Across(t, q, j) == Some(k);
    AcrossBack(t, q, j);
    assert q == p;
  }

  ghost function Twin(t: Tables, j: nat): (k: Option<nat>)
    requires WellFormed(t) && j < |t.layers|
    ensures k.Some? ==> Twins(t, j, k.value)
    ensures k.None? ==> forall i: nat :: !Twins(t, j, i)
  {
    if exists k: nat :: Twins(t, j, k) then
      var k: nat :| Twins(t, j, k);
      Some(k)
    else None
  }

  lemma TwinIs(t: Tables, j: nat, k: nat)
    requires Separate(t) && PathsRegular(t) && j < |t.layers| && Twins(t, j, k)
    ensures Twin(t, j) == Some(k)
  {
    hide WellFormed, PathsRegular, Across, InRegion;
    var p :| p in AllPairs(t) && Placed(t, p) && Across(t, p, j) == Some(k);
    AcrossBack(t, p, j);
    TwinsUnique(t, j, Twin(t, j).value, p);
  }

  lemma TwinBack(t: Tables, j: nat)
    requires Separate(t) && PathsRegular(t) && j < |t.layers| && Twin(t, j).Some?
    ensures var k := Twin(t, j).value;
      k < |t.layers| && k != j && Twin(t, k) == Some(j) && t.layers[k].name == t.layers[j].name
  {
    hide WellFormed, PathsRegular, Twin, Twins;
    TwinsMutual(t, j, Twin(t, j).value);
    TwinIs(t, Twin(t, j).value, j);
  }

  // ---------- the synced layers of finished tables ----------

  /** A layer is synced with its counterpart alone, and a layer without one is not synced. */
  ghost predicate Synced(t: Tables)
  {
    && Separate(t) && PathsRegular(t)
    && forall j: nat :: j < |t.layers| ==> SyncedAlone(t, j)
  }

  lemma SyncedIs(t: Tables)
    requires Synced(t)
    ensures WellFormed(t) && Separate(t) && PathsRegular(t)
  {}

  ghost predicate SyncedAlone(t: Tables, j: nat)
    requires WellFormed(t) && j < |t.layers|
  {
    match Twin(t, j)
    case None => IdOf(t, j) !in t.syncedMap
    case Some(k) =>
      && k < |t.layers| && IdOf(t, j) in t.syncedMap
      && (t.syncedMap[IdOf(t, j)] == [IdOf(t, j), IdOf(t, k)] || t.syncedMap[IdOf(t, j)] == [IdOf(t, k), IdOf(t, j)])
  }

  lemma {:induction false} ImageIgnoresSyncs(t: Tables, m: SyncMap, a: nat, b: nat, d: nat)
    requires WellFormed(t) && WellFormed(t.(syncedMap := m)) && a < |t.layers| && b < |t.layers| && d < |t.layers|
    ensures Image(t.(syncedMap := m), a, b, d) == Image(t, a, b, d)
    decreases d
  {
    if d != a && t.layers[d].parent >= 0 {
      ParentBefore(t, d);
      SamePart(t, m, d);
      hide WellFormed, Component;
      ImageIgnoresSyncs(t, m, a, b, t.layers[d].parent);
    }
  }

  lemma ParentBefore(t: Tables, d: nat)
    requires RowsLinked(t) && d < |t.layers|
    ensures t.layers[d].parent < d
  {}

  lemma SamePart(t: Tables, m: SyncMap, d: nat)
    requires d < |t.layers|
    ensures Component(t.(syncedMap := m), d) == Component(t, d)
    ensures forall e: nat, part :: e < |t.layers| ==> ChildBy(t.(syncedMap := m), e, part) == ChildBy(t, e, part)
  {}

  lemma PairSyncIsAcross(t: Tables, m: SyncMap, p: FlipPair, j: nat)
    requires WellFormed(t) && WellFormed(t.(syncedMap := m)) && Placed(t, p) && j < |t.layers|
    ensures Placed(t.(syncedMap := m), p)
    ensures var r := t.(syncedMap := m);
      match Across(r, p, j)
      case None => PairSync(t, p, j) == None
      case Some(k) => PairSync(t, p, j) == Some([IdOf(r, j), IdOf(r, k)]) || PairSync(t, p, j) == Some([IdOf(r, k), IdOf(r, j)])
  {
    hide RowsLinked, GroupsLinked, Image;
    ImageIgnoresSyncs(t, m, Original(t, p), Mirror(t, p), j);
    ImageIgnoresSyncs(t, m, Mirror(t, p), Original(t, p), j);
  }

  /** In finished tables every layer is synced with its counterpart. */
  lemma FinishedIsSynced(t: Tables, ps: seq<FlipPair>)
    requires Separate(t) && PathsRegular(t) && forall p :: p in ps <==> p in AllPairs(t)
    requires Separate(Finished(t, ps)) && PathsRegular(Finished(t, ps))
    ensures Synced(Finished(t, ps))
  {
    hide WellFormed, PathsRegular, SyncedAlone, SyncFold;
    forall j: nat | j < |Finished(t, ps).layers|
      ensures SyncedAlone(Finished(t, ps), j)
    {
      FinishedAlone(t, ps, j);
    }
    IsSynced(Finished(t, ps));
  }

  lemma IsSynced(t: Tables)
    requires Separate(t) && PathsRegular(t) && forall j: nat :: j < |t.layers| ==> SyncedAlone(t, j)
    ensures Synced(t)
  {
    hide Separate, PathsRegular, SyncedAlone;
  }

  lemma FinishedAlone(t: Tables, ps: seq<FlipPair>, j: nat)
    requires Separate(t) && PathsRegular(t) && forall p :: p in ps <==> p in AllPairs(t)
    requires Separate(Finished(t, ps)) && j < |t.layers|
    requires PathsRegular(Finished(t, ps))
    ensures SyncedAlone(Finished(t, ps), j)
  {
    hide WellFormed, PathsRegular, SyncFold, SyncedAs, Twin, PairApart;
    var r := Finished(t, ps);
    SyncFoldMeaning(t, ps, j);
    if Twin(r, j).Some? {
      TwinBack(r, j);
      TwinEntry(t, ps, j, Twin(r, j).value, Entry(r.syncedMap, IdOf(t, j)));
    } else {
      NoEntry(t, ps, j, Entry(r.syncedMap, IdOf(t, j)));
    }
  }

  lemma TwinEntry(t: Tables, ps: seq<FlipPair>, j: nat, k: nat, e: Option<seq<SeqID>>)
    requires WellFormed(t) && WellFormed(Finished(t, ps)) && forall p :: p in ps <==> p in AllPairs(t)
    requires forall p <- ps :: Placed(t, p)
    requires j < |t.layers| && k < |t.layers| && SyncedAs(t, ps, e, j) && Twins(Finished(t, ps), j, k)
    ensures e == Some([IdOf(t, j), IdOf(t, k)]) || e == Some([IdOf(t, k), IdOf(t, j)])
  {
    hide WellFormed, SyncFold, PairSync, Across;
    var r := Finished(t, ps);
    assert AllPairs(r) == AllPairs(t);
    var p :| p in AllPairs(r) && Placed(r, p) && Across(r, p, j) == Some(k);
    PairSyncIsAcross(t, r.syncedMap, p, j);
  }

  lemma NoEntry(t: Tables, ps: seq<FlipPair>, j: nat, e: Option<seq<SeqID>>)
    requires WellFormed(t) && WellFormed(Finished(t, ps)) && forall p :: p in ps <==> p in AllPairs(t)
    requires forall p <- ps :: Placed(t, p)
    requires j < |t.layers| && SyncedAs(t, ps, e, j) && Twin(Finished(t, ps), j).None?
    ensures e == None
  {
    hide WellFormed, SyncFold, PairSync, Across, Twin;
    var r := Finished(t, ps);
    assert AllPairs(r) == AllPairs(t);
    forall p | p in ps
      ensures PairSync(t, p, j).None?
    {
      PairSyncIsAcross(t, r.syncedMap, p, j);
      NothingAcross(r, p, j);
    }
  }

  lemma NothingAcross(t: Tables, p: FlipPair, j: nat)
    requires WellFormed(t) && j < |t.layers| && Twin(t, j).None? && p in AllPairs(t) && Placed(t, p)
    ensures Across(t, p, j).None?
  {
    hide WellFormed, Across;
    var k: nat := if Across(t, p, j).Some? then Across(t, p, j).value else 0;
    assert !Twins(t, j, k);
  }

  /** So the tables of every tree with plain pairs are synced once they are finished, and their roots linked. */
  lemma FinishedTreesAreSynced(roots: seq<Tree>, ps: seq<FlipPair>)
    requires DistinctIds(Build(roots).layers) && PlainTops(roots) && FlipsPlain(roots)
    requires forall p :: p in ps <==> p in AllPairs(Build(roots))
    ensures WellFormed(Build(roots)) && Regular(Finished(Build(roots), ps)) && Synced(Finished(Build(roots), ps))
    ensures RootsLinked(Finished(Build(roots), ps))
  {
    hide Build, DistinctIds, PlainTops, FlipsPlain, WellFormed, PathsRegular, FlipsRegular, Separate, Synced, SyncFold;
    BuiltIsRegular(roots);
    FinishedIsRegular(roots, ps);
    FinishedIsSynced(Build(roots), ps);
    BuiltRootsAreLinked(roots);
  }

  /** On a regular tree every layer strictly below a side has a counterpart. */
  lemma InnerHasTwin(t: Tables, p: FlipPair, x: nat)
    requires Regular(t) && Separate(t) && p in AllPairs(t) && x < |t.layers| && InRegion(t, p, x)
    requires x != Original(t, p) && x != Mirror(t, p)
    ensures Twin(t, x).Some?
  {
    hide RowsLinked, GroupsLinked, PathsRegular, Image, Twin;
    RegularPair(t, p);
    var a, b := Original(t, p), Mirror(t, p);
    assert SamePaths(t, a, b) && SamePaths(t, b, a);
    assert Across(t, p, x).Some?;
    assert Twins(t, x, Across(t, p, x).value);
  }

  // ---------- setting a layer ----------

  /** Setting a layer sets it and its counterpart, and nothing else. */
  lemma SetStateMeaning(t: Tables, s: States, fi: nat, visible: bool, pri: int)
    requires Fits(t, s) && Synced(t) && fi < |s|
    ensures forall j :: 0 <= j < |s| ==>
      SetState(t, s, fi, visible, pri)[j] == if j == fi || Twin(t, fi) == Some(j) then LayerState(visible, pri) else s[j]
  {
    hide RowsLinked, GroupsLinked, PathsRegular, Separate;
    assert SyncedAlone(t, fi);
    if Twin(t, fi).Some? {
      var k := Twin(t, fi).value;
      RowIsFound(t, fi);
      RowIsFound(t, k);
      TwinBack(t, fi);
      hide Twin;
      SetTwo(t, s, fi, k, visible, pri);
      SetTwo(t, s, k, fi, visible, pri);
    }
  }

  lemma SetTwo(t: Tables, s: States, i: nat, k: nat, visible: bool, pri: int)
    requires Fits(t, s) && i < |s| && k < |s|
    requires IdOf(t, i) in t.mapped && t.mapped[IdOf(t, i)] == i && IdOf(t, k) in t.mapped && t.mapped[IdOf(t, k)] == k
    ensures SetMany(t, s, [IdOf(t, i), IdOf(t, k)], visible, pri) == s[i := LayerState(visible, pri)][k := LayerState(visible, pri)]
  {
    hide WellFormed;
    var ids := [IdOf(t, i), IdOf(t, k)];
    assert ids[..1] == [IdOf(t, i)] && [IdOf(t, i)][..0] == [];
    assert SetMany(t, s, [], visible, pri) == s;
    assert SetMany(t, s, [IdOf(t, i)], visible, pri) == s[i := LayerState(visible, pri)];
  }

  /** A layer outside the radio groups that is no side of a pair. */
  ghost predicate Inner(t: Tables, x: nat)
    requires x < |t.layers|
  {
    !IsGroup(t.layers[x].name) && forall p <- AllPairs(t) :: t.layers[x].seqId != p.original && t.layers[x].seqId != p.mirror
  }

  lemma TwinIsInner(t: Tables, x: nat)
    requires Regular(t) && Separate(t) && x < |t.layers| && Inner(t, x) && Twin(t, x).Some?
    ensures var k := Twin(t, x).value;
      k < |t.layers| && Inner(t, k) && (IsForced(t, k) <==> IsForced(t, x)) && Twin(t, k) == Some(x)
  {
    hide RowsLinked, GroupsLinked, PathsRegular, FlipsRegular, Across, InRegion, Twin;
    var k := Twin(t, x).value;
    TwinBack(t, x);
    var p :| p in AllPairs(t) && Placed(t, p) && Across(t, p, x) == Some(k);
    AcrossBack(t, p, x);
    forall q | q in AllPairs(t)
      ensures t.layers[k].seqId != q.original && t.layers[k].seqId != q.mirror
    {
      SidesAreFound(t, q, k);
      if k == Original(t, q) || k == Mirror(t, q) {
        SidesInRegion(t, q);
        assert q == p;
      }
    }
  }

  lemma SidesAreFound(t: Tables, p: FlipPair, k: nat)
    requires WellFormed(t) && Placed(t, p) && k < |t.layers|
    ensures t.layers[k].seqId == p.original ==> k == Original(t, p)
    ensures t.layers[k].seqId == p.mirror ==> k == Mirror(t, p)
  {
    RowIsFound(t, k);
  }

  lemma SidesInRegion(t: Tables, p: FlipPair)
    requires WellFormed(t) && Placed(t, p)
    ensures InRegion(t, p, Original(t, p)) && InRegion(t, p, Mirror(t, p))
  {
    BelowItself(t, Original(t, p));
    BelowItself(t, Mirror(t, p));
  }

  /** Before the flip phase such a layer is as it was set, unless it is forced. */
  lemma InnerBeforeFlip(t: Tables, s: States, groups: seq<Group>, pri: int, x: nat)
    requires Fits(t, s) && OrderOf(groups, AllGroups(t)) && x < |s| && !IsGroup(t.layers[x].name)
    ensures forall g <- groups :: g in AllGroups(t)
    ensures GroupFold(t, Forced(t, s, pri), groups, pri + 1)[x].visible == (s[x].visible || IsForced(t, x))
  {
    hide WellFormed, GroupFold;
    GroupPhaseMeaning(t, Forced(t, s, pri), groups, pri + 1);
  }

  /** A flip gives such a layer its own visibility or that of its counterpart. */
  lemma InnerUnderFlip(t: Tables, g: States, order: seq<FlipPair>, flip: int, pri: int, x: nat)
    requires Regular(t) && Separate(t) && Fits(t, g) && OrderOf(order, AllPairs(t)) && x < |g| && Inner(t, x)
    ensures var r := FlipFold(t, g, order, flip, pri)[x].visible;
      r == g[x].visible || (Twin(t, x).Some? && Twin(t, x).value < |g| && r == g[Twin(t, x).value].visible)
  {
    hide RowsLinked, GroupsLinked, PathsRegular, FlipsRegular, FlipFold, FlippedLayer, InRegion, Twin;
    FlipMeaning(t, g, order, flip, pri);
    var r := FlipFold(t, g, order, flip, pri);
    if exists p :: p in AllPairs(t) && InRegion(t, p, x) {
      var p :| p in AllPairs(t) && InRegion(t, p, x);
      SidesAreFound(t, p, x);
      InnerFlipped(t, g, p, flip, x, r[x]);
    }
  }

  lemma InnerFlipped(t: Tables, g: States, p: FlipPair, flip: int, x: nat, st: LayerState)
    requires Separate(t) && PathsRegular(t) && Fits(t, g) && p in AllPairs(t) && Placed(t, p) && x < |g| && InRegion(t, p, x)
    requires x != Original(t, p) && x != Mirror(t, p) && FlippedLayer(t, g, p, flip, x, st)
    ensures st.visible == g[x].visible || (Twin(t, x).Some? && Twin(t, x).value < |g| && st.visible == g[Twin(t, x).value].visible)
  {
    hide RowsLinked, GroupsLinked, PathsRegular, Image, Twin;
    var hidden, shown := HiddenSide(t, p, flip), ShownSide(t, p, flip);
    if Active(t, g, p) && !AtOrUnder(t, x, hidden) {
      var k := Image(t, shown, hidden, x).value;
      OneSided(t, shown, hidden, x);
      if Image(t, hidden, shown, x).Some? {
        ImageDomain(t, hidden, shown, x);
      }
      assert Across(t, p, x) == Some(k);
      TwinIs(t, x, k);
    }
  }

  /** A layer that is set below a pair, or anywhere outside the groups and pairs, ends at that visibility, and so
      does its counterpart: whatever the flip, normalising does not undo it.  A forced layer is visible. */
  lemma SettingLasts(t: Tables, s: States, x: nat, visible: bool, setAt: int, flip: int, pri: int, w: seq<bool>)
    requires Regular(t) && Synced(t) && Fits(t, s) && x < |s| && Inner(t, x)
    requires Normalizes(t, SetState(t, s, x, visible, setAt), flip, pri, w)
    ensures |w| == |s| && w[x] == (visible || IsForced(t, x))
    ensures Twin(t, x).Some? ==> Twin(t, x).value < |w| && w[Twin(t, x).value] == (visible || IsForced(t, x))
  {
    hide RowsLinked, GroupsLinked, PathsRegular, FlipsRegular, Separate, Inner, Twin, SetState, GroupFold, FlipFold, Forced;
    var s1 := SetState(t, s, x, visible, setAt);
    SetStateMeaning(t, s, x, visible, setAt);
    var groups, pairs :|
      && OrderOf(groups, AllGroups(t)) && OrderOf(pairs, AllPairs(t))
      && w == Visibility(Normalized(t, s1, flip, pri, groups, pairs));
    var both: set<nat> := if Twin(t, x).Some? then {x, Twin(t, x).value} else {x};
    if Twin(t, x).Some? {
      TwinIsInner(t, x);
    }
    forall y | y in both
      ensures y < |w| && w[y] == (visible || IsForced(t, x))
    {
      InnerEnds(t, s1, groups, pairs, flip, pri, y);
    }
    assert x in both;
  }

  /** After all phases such a layer shows what it or its counterpart showed, or what is forced. */
  lemma InnerEnds(t: Tables, s: States, groups: seq<Group>, pairs: seq<FlipPair>, flip: int, pri: int, y: nat)
    requires Regular(t) && Separate(t) && Fits(t, s) && OrderOf(groups, AllGroups(t)) && OrderOf(pairs, AllPairs(t))
    requires y < |s| && Inner(t, y)
    ensures forall g <- groups :: g in AllGroups(t)
    ensures var r := Normalized(t, s, flip, pri, groups, pairs)[y].visible;
      || r == (s[y].visible || IsForced(t, y))
      || (Twin(t, y).Some? && Twin(t, y).value < |s| && r == (s[Twin(t, y).value].visible || IsForced(t, y)))
  {
    hide RowsLinked, GroupsLinked, PathsRegular, FlipsRegular, Separate, Twin, GroupFold, FlipFold, Forced;
    InnerBeforeFlip(t, s, groups, pri + 1, y);
    if ValidFlip(flip) {
      var g := GroupFold(t, Forced(t, s, pri + 1), groups, pri + 2);
      InnerUnderFlip(t, g, pairs, flip, pri + 4, y);
      if Twin(t, y).Some? {
        TwinIsInner(t, y);
        InnerBeforeFlip(t, s, groups, pri + 1, Twin(t, y).value);
      }
    }
  }

  // ---------- favourites ----------

  /** The place of the vector that layer `j` takes its visibility from: its own or its counterpart's, whichever
      of those that pass from number `k` on comes later. */
  ghost function Setter(t: Tables, filter: seq<bool>, k: nat, j: nat): (m: Option<nat>)
    requires WellFormed(t) && j < |t.layers|
    ensures m.Some? ==> k <= m.value < |filter|
  {
    Later(filter, k, j, if Twin(t, j).Some? then Twin(t, j).value else j)
  }

  /** The larger of `i` and `j` that passes. */
  function Later(filter: seq<bool>, k: nat, j: nat, i: nat): (m: Option<nat>)
    ensures m.Some? ==> k <= m.value < |filter|
  {
    var own, other := k <= j < |filter| && filter[j], k <= i < |filter| && filter[i];
    if own && (!other || i <= j) then Some(j) else if other then Some(i) else None
  }

  lemma LaterStep(filter: seq<bool>, k: nat, j: nat, i: nat)
    requires k < |filter|
    ensures Later(filter, k, j, i) ==
      if Later(filter, k + 1, j, i).Some? then Later(filter, k + 1, j, i)
      else if filter[k] && (j == k || i == k) then Some(k) else None
  {}

  lemma {:induction false} SetPassingShared(t: Tables, s: States, filter: seq<bool>, v: seq<bool>, k: nat, pri: int)
    requires Fits(t, s) && Synced(t) && |filter| <= |v| && |filter| <= |s| && k <= |filter|
    ensures forall j :: 0 <= j < |s| ==>
      SetPassing(t, s, filter, v, k, pri)[j] ==
        match Setter(t, filter, k, j) case None => s[j] case Some(m) => LayerState(v[m], pri)
    decreases |filter| - k
  {
    hide RowsLinked, GroupsLinked, Synced, SetState, Setter;
    if k == |filter| {
      NobodySets(t, filter);
    } else {
      var s1 := if filter[k] then SetState(t, s, k, v[k], pri) else s;
      SetPassingShared(t, s1, filter, v, k + 1, pri);
      hide SetPassing;
      if filter[k] {
        SetStateMeaning(t, s, k, v[k], pri);
      }
      forall j: nat | j < |s|
        ensures Setter(t, filter, k, j) ==
          if Setter(t, filter, k + 1, j).Some? then Setter(t, filter, k + 1, j)
          else if filter[k] && (j == k || Twin(t, k) == Some(j)) then Some(k) else None
      {
        SetterStep(t, filter, k, j);
      }
    }
  }

  lemma NobodySets(t: Tables, filter: seq<bool>)
    requires WellFormed(t)
    ensures forall j: nat :: j < |t.layers| ==> Setter(t, filter, |filter|, j) == None
  {
    hide WellFormed, Twin;
  }

  lemma SetterStep(t: Tables, filter: seq<bool>, k: nat, j: nat)
    requires Synced(t) && k < |filter| && k < |t.layers| && j < |t.layers|
    ensures Setter(t, filter, k, j) ==
      if Setter(t, filter, k + 1, j).Some? then Setter(t, filter, k + 1, j)
      else if filter[k] && (j == k || Twin(t, k) == Some(j)) then Some(k) else None
  {
    SyncedIs(t);
    hide Synced, Separate, WellFormed, PathsRegular, Later, Twin;
    LaterStep(filter, k, j, if Twin(t, j).Some? then Twin(t, j).value else j);
    if Twin(t, j).Some? {
      TwinBack(t, j);
    }
    if Twin(t, k).Some? {
      TwinBack(t, k);
    }
  }

  /** What an `F` command (`whole`) or an `S` command does to a finished tree: a layer takes the recorded visibility
      of the later of itself and its counterpart among those recorded, at one fresh priority. */
  lemma SharedRecordMeaning(t: Tables, sc: Scratch, raw: RawState, whole: bool)
    requires Fits(t, sc.states) && Synced(t)
    ensures var r := SetRecord(t, sc, raw, whole);
      && (r.Panics? <==> (raw.filter.Some? || whole) && !RecordFits(|sc.states|, raw)) && !r.Failed?
      && (r.Ok? ==> r.value.priority == sc.priority + 1 && r.value.flip == sc.flip)
      && (r.Ok? ==> forall j :: 0 <= j < |sc.states| ==> RecordedAt(t, sc, raw, whole, j, r.value.states[j]))
  {
    hide WellFormed, Synced, Setter;
    if RecordFits(|sc.states|, raw) {
      match raw.filter
      case None => SetPassingShared(t, sc.states, AllPass(|raw.visible|), raw.visible, 0, sc.priority + 1);
      case Some(f) => SetPassingShared(t, sc.states, f, raw.visible, 0, sc.priority + 1);
    }
  }

  /** The layers that are recorded, as a filter. */
  function RecordFilter(raw: RawState, whole: bool): seq<bool>
  {
    match raw.filter
    case None => if whole then AllPass(|raw.visible|) else []
    case Some(f) => f
  }

  ghost predicate RecordedAt(t: Tables, sc: Scratch, raw: RawState, whole: bool, j: nat, st: LayerState)
    requires Fits(t, sc.states) && j < |sc.states|
  {
    match Setter(t, RecordFilter(raw, whole), 0, j)
    case None => st == sc.states[j]
    case Some(m) => m < |raw.visible| && st == LayerState(raw.visible[m], sc.priority + 1)
  }

  // ---------- exclusive changes ----------

  /** `j` is one of the listed layers outside the radio groups. */
  predicate Listed(t: Tables, sibs: seq<SeqID>, j: nat)
    requires j < |t.layers|
  {
    t.layers[j].seqId in sibs && !IsGroup(t.layers[j].name)
  }

  /** The visibility that exclusively showing or hiding `id` gives layer `j`, if `j` is listed or the counterpart
      of a listed layer; other layers stay. */
  ghost predicate SetBy(t: Tables, sibs: seq<SeqID>, id: SeqID, visible: bool, lo: int, hi: int, j: nat, before: LayerState, st: LayerState)
    requires WellFormed(t) && j < |t.layers|
  {
    if Listed(t, sibs, j) then st.visible == (IdOf(t, j) == id && visible) && lo < st.priority <= hi
    else if TwinListed(t, sibs, j) then
      st.visible == (IdOf(t, Twin(t, j).value) == id && visible) && lo < st.priority <= hi
    else st == before
  }

  ghost predicate TwinListed(t: Tables, sibs: seq<SeqID>, j: nat)
    requires WellFormed(t) && j < |t.layers|
  {
    Twin(t, j).Some? && Twin(t, j).value < |t.layers| && Listed(t, sibs, Twin(t, j).value)
  }

  /** No listed layer is the counterpart of another one. */
  ghost predicate NoTwinsListed(t: Tables, sibs: seq<SeqID>)
    requires WellFormed(t)
  {
    forall j: nat :: j < |t.layers| && Listed(t, sibs, j) ==> !TwinListed(t, sibs, j)
  }

  lemma ListedStep(t: Tables, sibs: seq<SeqID>, j: nat)
    requires WellFormed(t) && sibs != [] && j < |t.layers|
    ensures Listed(t, sibs, j) <==> Listed(t, sibs[1..], j) || (Find(t, sibs[0]) == Some(j) && !IsGroup(t.layers[j].name))
  {
    RowIsFound(t, j);
    MemberIsFound(t, sibs[0]);
    assert sibs == [sibs[0]] + sibs[1..];
  }

  lemma MemberIsFound(t: Tables, id: SeqID)
    requires WellFormed(t)
    ensures Find(t, id).Some? ==> IdOf(t, Find(t, id).value) == id
  {}

  lemma {:induction false} SetSiblingsShared(t: Tables, s: States, sibs: seq<SeqID>, id: SeqID, visible: bool, pri: int)
    requires Fits(t, s) && Synced(t) && NoTwinsListed(t, sibs)
    ensures var r := SetSiblings(t, s, sibs, id, visible, pri);
      pri <= r.1 && forall j: nat :: j < |s| ==> SetBy(t, sibs, id, visible, pri, r.1, j, s[j], r.0[j])
    decreases |sibs|
  {
    hide RowsLinked, GroupsLinked, Synced, IsGroup, SetState, SetBy, Listed, TwinListed, NoTwinsListed;
    if sibs == [] {
      NobodyListed(t, s, id, visible, pri);
    } else {
      var rest, f := sibs[1..], Find(t, sibs[0]);
      FewerListed(t, sibs);
      var skip := f.None? || IsGroup(t.layers[f.value].name);
      var s1 := if skip then s else SetState(t, s, f.value, id == sibs[0] && visible, pri + 1);
      var pri1 := if skip then pri else pri + 1;
      SetSiblingsShared(t, s1, rest, id, visible, pri1);
      var r := SetSiblings(t, s1, rest, id, visible, pri1);
      assert r == SetSiblings(t, s, sibs, id, visible, pri);
      hide SetSiblings;
      if !skip {
        SetStateMeaning(t, s, f.value, id == sibs[0] && visible, pri + 1);
      }
      forall j: nat | j < |s|
        ensures SetBy(t, sibs, id, visible, pri, r.1, j, s[j], r.0[j])
      {
        if skip {
          HeadSkipped(t, sibs, id, visible, pri, r.1, j, s[j], r.0[j]);
        } else {
          HeadSet(t, sibs, id, visible, pri, r.1, j, s[j], s1[j], r.0[j], f.value);
        }
      }
    }
  }

  lemma NobodyListed(t: Tables, s: States, id: SeqID, visible: bool, pri: int)
    requires Fits(t, s)
    ensures forall j: nat :: j < |s| ==> SetBy(t, [], id, visible, pri, pri, j, s[j], s[j])
  {
    hide WellFormed, Twin;
  }

  lemma FewerListed(t: Tables, sibs: seq<SeqID>)
    requires WellFormed(t) && sibs != [] && NoTwinsListed(t, sibs)
    ensures NoTwinsListed(t, sibs[1..])
  {
    hide WellFormed, IsGroup, Twin;
    forall j: nat | j < |t.layers| && Listed(t, sibs[1..], j)
      ensures !TwinListed(t, sibs[1..], j)
    {
      assert sibs == [sibs[0]] + sibs[1..] && Listed(t, sibs, j) && !TwinListed(t, sibs, j);
    }
  }

  lemma HeadSkipped(t: Tables, sibs: seq<SeqID>, id: SeqID, visible: bool, pri: int, hi: int, j: nat, before: LayerState, st: LayerState)
    requires WellFormed(t) && sibs != [] && j < |t.layers|
    requires Find(t, sibs[0]).None? || IsGroup(t.layers[Find(t, sibs[0]).value].name)
    requires SetBy(t, sibs[1..], id, visible, pri, hi, j, before, st)
    ensures SetBy(t, sibs, id, visible, pri, hi, j, before, st)
  {
    hide WellFormed, Listed, IsGroup, Twin;
    ListedStep(t, sibs, j);
    if Twin(t, j).Some? && Twin(t, j).value < |t.layers| {
      ListedStep(t, sibs, Twin(t, j).value);
    }
  }

  lemma HeadSet(t: Tables, sibs: seq<SeqID>, id: SeqID, visible: bool, pri: int, hi: int, j: nat, before: LayerState,
                mid: LayerState, st: LayerState, x: nat)
    requires Synced(t) && sibs != [] && j < |t.layers| && NoTwinsListed(t, sibs) && pri + 1 <= hi
    requires Find(t, sibs[0]) == Some(x) && x < |t.layers| && !IsGroup(t.layers[x].name)
    requires mid == if j == x || Twin(t, x) == Some(j) then LayerState(id == sibs[0] && visible, pri + 1) else before
    requires SetBy(t, sibs[1..], id, visible, pri + 1, hi, j, mid, st)
    ensures SetBy(t, sibs, id, visible, pri, hi, j, before, st)
  {
    SyncedIs(t);
    hide Synced, WellFormed, Separate, PathsRegular, SetBy, Listed, IsGroup, Twin;
    MemberIsFound(t, sibs[0]);
    ListedStep(t, sibs, j);
    if Twin(t, x).Some? {
      TwinBack(t, x);
    }
    if Twin(t, j).Some? {
      var k := Twin(t, j).value;
      TwinBack(t, j);
      ListedStep(t, sibs, k);
      HeadSetTwin(t, sibs, id, visible, pri, hi, j, k, before, mid, st, x);
    } else {
      HeadSetAlone(t, sibs, id, visible, pri, hi, j, before, mid, st, x);
    }
  }

  lemma HeadSetTwin(t: Tables, sibs: seq<SeqID>, id: SeqID, visible: bool, pri: int, hi: int, j: nat, k: nat, before: LayerState,
                    mid: LayerState, st: LayerState, x: nat)
    requires WellFormed(t) && sibs != [] && j < |t.layers| && k < |t.layers| && x < |t.layers| && pri + 1 <= hi
    requires Twin(t, j) == Some(k) && IdOf(t, x) == sibs[0]
    requires Listed(t, sibs, j) <==> Listed(t, sibs[1..], j) || j == x
    requires Listed(t, sibs, k) <==> Listed(t, sibs[1..], k) || k == x
    requires Listed(t, sibs, j) ==> !Listed(t, sibs, k)
    requires mid == if j == x || k == x then LayerState(id == sibs[0] && visible, pri + 1) else before
    requires SetBy(t, sibs[1..], id, visible, pri + 1, hi, j, mid, st)
    ensures SetBy(t, sibs, id, visible, pri, hi, j, before, st)
  {
    hide WellFormed, Listed, Twin, IdOf;
  }

  lemma HeadSetAlone(t: Tables, sibs: seq<SeqID>, id: SeqID, visible: bool, pri: int, hi: int, j: nat, before: LayerState,
                     mid: LayerState, st: LayerState, x: nat)
    requires WellFormed(t) && sibs != [] && j < |t.layers| && x < |t.layers| && pri + 1 <= hi
    requires Twin(t, j).None? && IdOf(t, x) == sibs[0]
    requires Listed(t, sibs, j) <==> Listed(t, sibs[1..], j) || j == x
    requires mid == if j == x then LayerState(id == sibs[0] && visible, pri + 1) else before
    requires SetBy(t, sibs[1..], id, visible, pri + 1, hi, j, mid, st)
    ensures SetBy(t, sibs, id, visible, pri, hi, j, before, st)
  {
    hide WellFormed, Listed, Twin, IdOf;
  }

  /** Counterparts are not siblings. */
  lemma TwinsNotSiblings(t: Tables, j: nat)
    requires Synced(t) && j < |t.layers| && Twin(t, j).Some?
    ensures Twin(t, j).value < |t.layers| && t.layers[Twin(t, j).value].parent != t.layers[j].parent
  {
    SyncedIs(t);
    hide Synced, WellFormed, PathsRegular, PairApart, InRegion, Across, Twin;
    var k := Twin(t, j).value;
    TwinBack(t, j);
    var p :| p in AllPairs(t) && Placed(t, p) && Across(t, p, j) == Some(k);
    AcrossNotSiblings(t, p, j);
  }

  lemma AcrossNotSiblings(t: Tables, p: FlipPair, j: nat)
    requires WellFormed(t) && PathsRegular(t) && PairApart(t, p) && j < |t.layers| && Across(t, p, j).Some?
    ensures t.layers[Across(t, p, j).value].parent != t.layers[j].parent
  {
    hide RowsLinked, GroupsLinked, PathsRegular, Image;
    var a, b := Original(t, p), Mirror(t, p);
    if j != a && Image(t, a, b, j).Some? {
      ParentsApart(t, a, b, j);
    } else {
      ParentsApart(t, b, a, j);
    }
  }

  lemma ParentsApart(t: Tables, a: nat, b: nat, j: nat)
    requires WellFormed(t) && PathsRegular(t) && a < |t.layers| && b < |t.layers| && j < |t.layers| && LayerCopy.Apart(t, a, b)
    requires j != a && Image(t, a, b, j).Some?
    ensures t.layers[Image(t, a, b, j).value].parent != t.layers[j].parent
  {
    hide RowsLinked, GroupsLinked, PathsRegular, Image;
    AcrossOneWay(t, a, b, j);
    ParentUnder(t, j, a);
    ParentUnder(t, Image(t, a, b, j).value, b);
    var q: nat := t.layers[j].parent;
    if t.layers[Image(t, a, b, j).value].parent == q {
      ApartSubtrees(t, a, b, q, q);
    }
  }

  lemma ParentUnder(t: Tables, j: nat, a: nat)
    requires RowsLinked(t) && j < |t.layers| && AtOrUnder(t, j, a) && j != a
    ensures 0 <= t.layers[j].parent < |t.layers| && AtOrUnder(t, t.layers[j].parent, a)
  {}

  /** What an exclusive change gives layer `j` of a finished tree: among the siblings outside the radio groups, and
      among their counterparts, exactly the named layer and its counterpart are visible, none when hiding; all
      other layers keep their state. */
  ghost predicate ExclusiveAt(t: Tables, fi: nat, visible: bool, lo: int, hi: int, j: nat, before: LayerState, st: LayerState)
    requires WellFormed(t) && fi < |t.layers| && j < |t.layers|
  {
    var k := if Twin(t, j).Some? && Twin(t, j).value < |t.layers| then Twin(t, j).value else j;
    if SameParent(t, fi, j) && !IsGroup(t.layers[j].name) then st.visible == (j == fi && visible) && lo < st.priority <= hi
    else if k != j && SameParent(t, fi, k) && !IsGroup(t.layers[k].name) then
      st.visible == (k == fi && visible) && lo < st.priority <= hi
    else st == before
  }

  lemma SharedExclusiveMeaning(t: Tables, s: States, fi: nat, visible: bool, pri: int)
    requires Fits(t, s) && Synced(t) && RootsLinked(t) && fi < |s|
    ensures var r := Exclusive(t, s, fi, visible, pri);
      && pri <= r.1
      && (IsGroup(t.layers[fi].name) ==> r.1 == pri && forall j: nat :: j < |s| ==>
           r.0[j] == if j == fi || Twin(t, fi) == Some(j) then LayerState(visible, pri) else s[j])
      && (!IsGroup(t.layers[fi].name) ==> forall j: nat :: j < |s| ==>
           ExclusiveAt(t, fi, visible, pri, r.1, j, s[j], r.0[j]))
  {
    hide RowsLinked, GroupsLinked, Synced, RootsLinked, IsGroup, SetState, SetSiblings, SetBy, NoTwinsListed, ExclusiveAt, Siblings;
    if IsGroup(t.layers[fi].name) {
      SetStateMeaning(t, s, fi, visible, pri);
    } else {
      var sibs, r := Siblings(t, fi), Exclusive(t, s, fi, visible, pri);
      SiblingsNoTwins(t, fi);
      SetSiblingsShared(t, s, sibs, t.layers[fi].seqId, visible, pri);
      forall j: nat | j < |s|
        ensures ExclusiveAt(t, fi, visible, pri, r.1, j, s[j], r.0[j])
      {
        SetByIsExclusive(t, fi, visible, pri, r.1, j, s[j], r.0[j]);
      }
    }
  }

  lemma SiblingsNoTwins(t: Tables, fi: nat)
    requires Synced(t) && RootsLinked(t) && fi < |t.layers|
    ensures NoTwinsListed(t, Siblings(t, fi))
  {
    SyncedIs(t);
    hide WellFormed, Separate, PathsRegular, SyncedAlone, IsGroup, RootsLinked, Siblings, Twin;
    forall j: nat | j < |t.layers| && Listed(t, Siblings(t, fi), j)
      ensures !TwinListed(t, Siblings(t, fi), j)
    {
      SiblingsShareParent(t, fi, j);
      if Twin(t, j).Some? {
        TwinsNotSiblings(t, j);
        SiblingsShareParent(t, fi, Twin(t, j).value);
      }
    }
  }

  lemma ListedIsSibling(t: Tables, fi: nat, j: nat)
    requires WellFormed(t) && RootsLinked(t) && fi < |t.layers| && j < |t.layers|
    ensures Listed(t, Siblings(t, fi), j) <==> SameParent(t, fi, j) && !IsGroup(t.layers[j].name)
    ensures IdOf(t, j) == IdOf(t, fi) <==> j == fi
  {
    RowIsFound(t, fi);
    RowIsFound(t, j);
    hide WellFormed, RootsLinked, Siblings, SameParent;
    SiblingsShareParent(t, fi, j);
  }

  lemma SetByIsExclusive(t: Tables, fi: nat, visible: bool, lo: int, hi: int, j: nat, before: LayerState, st: LayerState)
    requires Synced(t) && RootsLinked(t) && fi < |t.layers| && j < |t.layers|
    requires SetBy(t, Siblings(t, fi), IdOf(t, fi), visible, lo, hi, j, before, st)
    ensures ExclusiveAt(t, fi, visible, lo, hi, j, before, st)
  {
    SyncedIs(t);
    hide *;
    ListedIsSibling(t, fi, j);
    if Twin(t, j).Some? {
      var k := Twin(t, j).value;
      TwinBack(t, j);
      ListedIsSibling(t, fi, k);
      WithTwin(t, fi, visible, lo, hi, j, k, before, st);
    } else {
      WithoutTwin(t, fi, visible, lo, hi, j, before, st);
    }
  }

  lemma WithTwin(t: Tables, fi: nat, visible: bool, lo: int, hi: int, j: nat, k: nat, before: LayerState, st: LayerState)
    requires WellFormed(t) && fi < |t.layers| && j < |t.layers| && k < |t.layers| && k != j && Twin(t, j) == Some(k)
    requires SetBy(t, Siblings(t, fi), IdOf(t, fi), visible, lo, hi, j, before, st)
    requires Listed(t, Siblings(t, fi), j) <==> SameParent(t, fi, j) && !IsGroup(t.layers[j].name)
    requires Listed(t, Siblings(t, fi), k) <==> SameParent(t, fi, k) && !IsGroup(t.layers[k].name)
    requires (IdOf(t, j) == IdOf(t, fi) <==> j == fi) && (IdOf(t, k) == IdOf(t, fi) <==> k == fi)
    ensures ExclusiveAt(t, fi, visible, lo, hi, j, before, st)
  {
    hide WellFormed, IsGroup, Siblings, Listed, SameParent, Twin, IdOf;
  }

  lemma WithoutTwin(t: Tables, fi: nat, visible: bool, lo: int, hi: int, j: nat, before: LayerState, st: LayerState)
    requires WellFormed(t) && fi < |t.layers| && j < |t.layers| && Twin(t, j).None?
    requires SetBy(t, Siblings(t, fi), IdOf(t, fi), visible, lo, hi, j, before, st)
    requires Listed(t, Siblings(t, fi), j) <==> SameParent(t, fi, j) && !IsGroup(t.layers[j].name)
    requires IdOf(t, j) == IdOf(t, fi) <==> j == fi
    ensures ExclusiveAt(t, fi, visible, lo, hi, j, before, st)
  {
    hide WellFormed, IsGroup, Siblings, Listed, SameParent, Twin, IdOf;
  }
}
