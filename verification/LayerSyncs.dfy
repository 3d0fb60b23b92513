/** Which layers the two sides of a flip pair share (`registerSyncs` of `src/go/img/layermgr.go`). */
module LayerSyncs {
  import opened Names
  import opened LayerTables
  import opened LayerStates
  import opened LayerCopy
  import opened LayerFlips

  type SyncMap = map<SeqID, seq<SeqID>>

  function IdOf(t: Tables, i: nat): SeqID
    requires i < |t.layers|
  {
    t.layers[i].seqId
  }

  function Joined(t: Tables, m: SyncMap, c0: nat, c1: nat): SyncMap
    requires c0 < |t.layers| && c1 < |t.layers|
  {
    m[IdOf(t, c0) := [IdOf(t, c0), IdOf(t, c1)]][IdOf(t, c1) := [IdOf(t, c0), IdOf(t, c1)]]
  }

  function Syncs(t: Tables, m: SyncMap, fi0: nat, fi1: nat): SyncMap
    requires WellFormed(t) && fi0 < |t.layers| && fi1 < |t.layers|
    decreases |t.layers| - fi0, |t.layers[fi0].children| + 1
  {
    SyncChildren(t, m, fi0, fi1, 0)
  }

  /** The loop over the children of `fi0` from number `k` on. */
  function SyncChildren(t: Tables, m: SyncMap, fi0: nat, fi1: nat, k: nat): SyncMap
    requires WellFormed(t) && fi0 < |t.layers| && fi1 < |t.layers| && k <= |t.layers[fi0].children|
    decreases |t.layers| - fi0, |t.layers[fi0].children| - k
  {
    if k == |t.layers[fi0].children| then m
    else
      match ImageOfChild(t, fi0, fi1, k)
      case None => SyncChildren(t, m, fi0, fi1, k + 1)
      case Some((c0, c1)) =>
        var m1 := Joined(t, m, c0, c1);
        var m2 := if |t.layers[c0].children| > 0 && |t.layers[c1].children| > 0 then Syncs(t, m1, c0, c1) else m1;
        SyncChildren(t, m2, fi0, fi1, k + 1)
  }

  class SyncBuilder {
    const t: Tables
    var syncedMap: SyncMap

    constructor (t: Tables)
      ensures this.t == t && syncedMap == map[]
    {
      this.t := t;
      syncedMap := map[];
    }

    /** `registerSyncs` */
    method RegisterSyncs(fi0: nat, fi1: nat)
      requires WellFormed(t) && fi0 < |t.layers| && fi1 < |t.layers|
      modifies this
      ensures syncedMap == Syncs(t, old(syncedMap), fi0, fi1)
      decreases |t.layers| - fi0
    {
      hide WellFormed;
      for k := 0 to |t.layers[fi0].children|
        invariant SyncChildren(t, syncedMap, fi0, fi1, k) == Syncs(t, old(syncedMap), fi0, fi1)
      {
        var c := ImageOfChild(t, fi0, fi1, k);
        if c.None? {
          continue;
        }
        var (c0, c1) := c.value;
        syncedMap := Joined(t, syncedMap, c0, c1);
        if |t.layers[c0].children| > 0 && |t.layers[c1].children| > 0 {
          RegisterSyncs(c0, c1);
        }
      }
    }
  }

  // ---------- what is shared ----------

  /** The group in which layer `j` ends up: itself and the layer with the same path on the other side. */
  function SyncOf(t: Tables, fi0: nat, fi1: nat, j: nat): Option<seq<SeqID>>
    requires WellFormed(t) && fi0 < |t.layers| && fi1 < |t.layers| && j < |t.layers|
  {
    if j != fi0 && Image(t, fi0, fi1, j).Some? then Some([IdOf(t, j), IdOf(t, Image(t, fi0, fi1, j).value)])
    else if j != fi1 && Image(t, fi1, fi0, j).Some? then Some([IdOf(t, Image(t, fi1, fi0, j).value), IdOf(t, j)])
    else None
  }

  /** The layer of the first side that stands for `j`. */
  function FirstSide(t: Tables, fi0: nat, fi1: nat, j: nat): Option<nat>
    requires WellFormed(t) && fi0 < |t.layers| && fi1 < |t.layers| && j < |t.layers|
  {
    if j != fi0 && Image(t, fi0, fi1, j).Some? then Some(j)
    else if j != fi1 then Image(t, fi1, fi0, j)
    else None
  }

  lemma FirstSideMeaning(t: Tables, fi0: nat, fi1: nat, j: nat)
    requires WellFormed(t) && PathsRegular(t) && fi0 < |t.layers| && fi1 < |t.layers| && j < |t.layers| && Apart(t, fi0, fi1)
    requires FirstSide(t, fi0, fi1, j).Some?
    ensures var d := FirstSide(t, fi0, fi1, j).value;
      && d < |t.layers| && d != fi0 && AtOrUnder(t, d, fi0)
      && Image(t, fi0, fi1, d).Some? && (j == d || j == Image(t, fi0, fi1, d).value)
      && SyncOf(t, fi0, fi1, j) == Some([IdOf(t, d), IdOf(t, Image(t, fi0, fi1, d).value)])
  {
    hide RowsLinked, GroupsLinked, PathsRegular, Image;
    if j != fi0 && Image(t, fi0, fi1, j).Some? {
      ImageDomain(t, fi0, fi1, j);
    } else {
      ImageDomain(t, fi1, fi0, j);
      ImageInverse(t, fi1, fi0, j);
    }
  }

  /** What registering from child `k` on makes of the entry of `j`. */
  ghost predicate SyncedFrom(t: Tables, m: SyncMap, r: SyncMap, fi0: nat, fi1: nat, k: nat, j: nat)
    requires WellFormed(t) && PathsRegular(t) && fi0 < |t.layers| && fi1 < |t.layers| && j < |t.layers| && Apart(t, fi0, fi1)
  {
    var d := FirstSide(t, fi0, fi1, j);
    if d.Some? && (FirstSideMeaning(t, fi0, fi1, j); FromChild(t, fi0, k, d.value))
    then Entry(r, IdOf(t, j)) == SyncOf(t, fi0, fi1, j)
    else Entry(r, IdOf(t, j)) == Entry(m, IdOf(t, j))
  }

  function Entry(m: SyncMap, id: SeqID): Option<seq<SeqID>>
  {
    if id in m then Some(m[id]) else None
  }

  lemma {:induction false} SyncChildrenMeaning(t: Tables, m: SyncMap, fi0: nat, fi1: nat, k: nat)
    requires WellFormed(t) && PathsRegular(t) && fi0 < |t.layers| && fi1 < |t.layers| && Apart(t, fi0, fi1)
    requires k <= |t.layers[fi0].children|
    ensures forall j: nat :: j < |t.layers| ==> SyncedFrom(t, m, SyncChildren(t, m, fi0, fi1, k), fi0, fi1, k, j)
    decreases |t.layers| - fi0, |t.layers[fi0].children| - k
  {
    hide RowsLinked, GroupsLinked, PathsRegular, Image, FromChild;
    var r := SyncChildren(t, m, fi0, fi1, k);
    if k == |t.layers[fi0].children| {
      forall j: nat | j < |t.layers|
        ensures SyncedFrom(t, m, r, fi0, fi1, k, j)
      {
        if FirstSide(t, fi0, fi1, j).Some? {
          FirstSideMeaning(t, fi0, fi1, j);
          NoChildLeft(t, fi0, FirstSide(t, fi0, fi1, j).value);
        }
      }
      return;
    }
    var next := k + 1;
    match ImageOfChild(t, fi0, fi1, k)
    case None =>
      assert r == SyncChildren(t, m, fi0, fi1, next);
      SyncChildrenMeaning(t, m, fi0, fi1, next);
      hide SyncChildren;
      forall j: nat | j < |t.layers|
        ensures SyncedFrom(t, m, r, fi0, fi1, k, j)
      {
        assert SyncedFrom(t, m, r, fi0, fi1, next, j);
        if FirstSide(t, fi0, fi1, j).Some? {
          FirstSideMeaning(t, fi0, fi1, j);
          UnmatchedChild(t, fi0, fi1, k, FirstSide(t, fi0, fi1, j).value);
        }
      }
    case Some((c0, c1)) =>
      MatchedChild(t, fi0, fi1, k);
      var m1 := Joined(t, m, c0, c1);
      var deeper := |t.layers[c0].children| > 0 && |t.layers[c1].children| > 0;
      var m2 := if deeper then Syncs(t, m1, c0, c1) else m1;
      assert r == SyncChildren(t, m2, fi0, fi1, next);
      if deeper {
        assert m2 == SyncChildren(t, m1, c0, c1, 0);
        SyncChildrenMeaning(t, m1, c0, c1, 0);
      }
      SyncChildrenMeaning(t, m2, fi0, fi1, next);
      hide SyncChildren, Syncs;
      forall j: nat | j < |t.layers|
        ensures SyncedFrom(t, m, r, fi0, fi1, k, j)
      {
        assert deeper ==> SyncedFrom(t, m1, m2, c0, c1, 0, j);
        assert SyncedFrom(t, m2, r, fi0, fi1, next, j);
        OneChildSynced(t, m, m2, r, fi0, fi1, k, c0, c1, j);
      }
  }

  lemma NoChildLeft(t: Tables, fi0: nat, d: nat)
    requires WellFormed(t) && fi0 < |t.layers| && d < |t.layers|
    ensures !FromChild(t, fi0, |t.layers[fi0].children|, d)
  {}

  lemma UnmatchedChild(t: Tables, fi0: nat, fi1: nat, k: nat, d: nat)
    requires WellFormed(t) && PathsRegular(t) && fi0 < |t.layers| && fi1 < |t.layers| && d < |t.layers|
    requires k < |t.layers[fi0].children| && ImageOfChild(t, fi0, fi1, k).None? && Image(t, fi0, fi1, d).Some?
    ensures FromChild(t, fi0, k, d) == FromChild(t, fi0, k + 1, d)
  {
    hide RowsLinked, GroupsLinked, PathsRegular, Image;
    if ReachedBy(t, fi0, k, d) {
      ImageOfAncestor(t, fi0, fi1, FindChild(t, fi0, k).value, d);
      ImageOfChildIsImage(t, fi0, fi1, k);
      assert false;
    }
  }

  lemma MatchedChild(t: Tables, fi0: nat, fi1: nat, k: nat)
    requires WellFormed(t) && PathsRegular(t) && fi0 < |t.layers| && fi1 < |t.layers| && Apart(t, fi0, fi1)
    requires k < |t.layers[fi0].children| && ImageOfChild(t, fi0, fi1, k).Some?
    ensures var (c0, c1) := ImageOfChild(t, fi0, fi1, k).value;
      && FindChild(t, fi0, k) == Some(c0) && t.layers[c0].parent == fi0 && t.layers[c1].parent == fi1
      && AtOrUnder(t, c0, fi0) && AtOrUnder(t, c1, fi1) && c0 != fi0 && c1 != fi1 && Apart(t, c0, c1)
      && Image(t, fi0, fi1, c0) == Some(c1) && Image(t, fi1, fi0, c1) == Some(c0)
  {
    ImageOfChildIsImage(t, fi0, fi1, k);
    var (c0, c1) := ImageOfChild(t, fi0, fi1, k).value;
    assert AtOrUnder(t, c0, fi0) && AtOrUnder(t, c1, fi1);
    ApartSubtrees(t, fi0, fi1, c0, c1);
  }

  /** The entry of `j` once child `k` has been registered. */
  lemma OneChildSynced(t: Tables, m: SyncMap, m2: SyncMap, r: SyncMap, fi0: nat, fi1: nat, k: nat, c0: nat, c1: nat, j: nat)
    requires WellFormed(t) && PathsRegular(t) && fi0 < |t.layers| && fi1 < |t.layers| && j < |t.layers| && Apart(t, fi0, fi1)
    requires k < |t.layers[fi0].children| && c0 < |t.layers| && c1 < |t.layers|
    requires FindChild(t, fi0, k) == Some(c0) && AtOrUnder(t, c0, fi0) && AtOrUnder(t, c1, fi1) && c0 != fi0 && c1 != fi1
    requires Apart(t, c0, c1) && Image(t, fi0, fi1, c0) == Some(c1) && Image(t, fi1, fi0, c1) == Some(c0)
    requires if |t.layers[c0].children| > 0 && |t.layers[c1].children| > 0
             then SyncedFrom(t, Joined(t, m, c0, c1), m2, c0, c1, 0, j)
             else m2 == Joined(t, m, c0, c1)
    requires SyncedFrom(t, m2, r, fi0, fi1, k + 1, j)
    ensures SyncedFrom(t, m, r, fi0, fi1, k, j)
  {
    hide RowsLinked, GroupsLinked, PathsRegular, Image, ReachedBy, SyncOf, FirstSide;
    ChildEntry(t, m, m2, fi0, fi1, c0, c1, j);
    var d := FirstSide(t, fi0, fi1, j);
    if d.Some? {
      FirstSideMeaning(t, fi0, fi1, j);
      FromNext(t, fi0, k, c0, d.value);
    }
  }

  lemma FromNext(t: Tables, fi0: nat, k: nat, c0: nat, d: nat)
    requires WellFormed(t) && fi0 < |t.layers| && d < |t.layers| && k < |t.layers[fi0].children| && c0 < |t.layers|
    requires FindChild(t, fi0, k) == Some(c0)
    ensures FromChild(t, fi0, k, d) <==> FromChild(t, fi0, k + 1, d) || AtOrUnder(t, d, c0)
  {
    hide RowsLinked, GroupsLinked;
    assert ReachedBy(t, fi0, k, d) <==> AtOrUnder(t, d, c0);
  }

  /** Registering the child enters exactly what lies at or below it. */
  lemma ChildEntry(t: Tables, m: SyncMap, m2: SyncMap, fi0: nat, fi1: nat, c0: nat, c1: nat, j: nat)
    requires WellFormed(t) && PathsRegular(t) && fi0 < |t.layers| && fi1 < |t.layers| && j < |t.layers| && Apart(t, fi0, fi1)
    requires c0 < |t.layers| && c1 < |t.layers|
    requires AtOrUnder(t, c0, fi0) && AtOrUnder(t, c1, fi1) && c0 != fi0 && c1 != fi1
    requires Apart(t, c0, c1) && Image(t, fi0, fi1, c0) == Some(c1) && Image(t, fi1, fi0, c1) == Some(c0)
    requires if |t.layers[c0].children| > 0 && |t.layers[c1].children| > 0
             then SyncedFrom(t, Joined(t, m, c0, c1), m2, c0, c1, 0, j)
             else m2 == Joined(t, m, c0, c1)
    ensures var d := FirstSide(t, fi0, fi1, j);
      Entry(m2, IdOf(t, j)) ==
        if d.Some? && d.value < |t.layers| && AtOrUnder(t, d.value, c0) then SyncOf(t, fi0, fi1, j) else Entry(m, IdOf(t, j))
  {
    hide RowsLinked, GroupsLinked, PathsRegular, Image, FromChild;
    IdsDiffer(t, j, c0);
    IdsDiffer(t, j, c1);
    InnerSide(t, fi0, fi1, c0, c1, j);
    if FirstSide(t, c0, c1, j).Some? {
      FirstSideMeaning(t, c0, c1, j);
      FromFirstChild(t, c0, FirstSide(t, c0, c1, j).value);
      ChildrenListed(t, c0, FirstSide(t, c0, c1, j).value);
      ImageDomain(t, c0, c1, FirstSide(t, c0, c1, j).value);
      ImageInverse(t, c0, c1, FirstSide(t, c0, c1, j).value);
      ChildrenListed(t, c1, Image(t, c0, c1, FirstSide(t, c0, c1, j).value).value);
    }
  }

  lemma IdsDiffer(t: Tables, i: nat, j: nat)
    requires WellFormed(t) && i < |t.layers| && j < |t.layers|
    ensures IdOf(t, i) == IdOf(t, j) <==> i == j
  {}

  lemma ChildrenListed(t: Tables, c: nat, d: nat)
    requires WellFormed(t) && c < |t.layers| && d < |t.layers| && AtOrUnder(t, d, c) && d != c
    ensures |t.layers[c].children| > 0
  {
    var b := BranchOf(t, d, c);
    assert t.layers[b].seqId in t.layers[c].children;
  }

  /** Below matching children the two sides correspond as they do in the whole pair. */
  lemma InnerSide(t: Tables, fi0: nat, fi1: nat, c0: nat, c1: nat, j: nat)
    requires WellFormed(t) && PathsRegular(t) && fi0 < |t.layers| && fi1 < |t.layers| && j < |t.layers| && Apart(t, fi0, fi1)
    requires c0 < |t.layers| && c1 < |t.layers|
    requires AtOrUnder(t, c0, fi0) && AtOrUnder(t, c1, fi1) && c0 != fi0 && c1 != fi1
    requires Apart(t, c0, c1) && Image(t, fi0, fi1, c0) == Some(c1) && Image(t, fi1, fi0, c1) == Some(c0)
    ensures var d := FirstSide(t, fi0, fi1, j);
      d.Some? && d.value < |t.layers| && AtOrUnder(t, d.value, c0) <==> j == c0 || j == c1 || FirstSide(t, c0, c1, j).Some?
    ensures j == c0 || j == c1 ==> SyncOf(t, fi0, fi1, j) == Some([IdOf(t, c0), IdOf(t, c1)])
    ensures j != c0 && j != c1 && FirstSide(t, c0, c1, j).Some? ==> SyncOf(t, fi0, fi1, j) == SyncOf(t, c0, c1, j)
  {
    hide RowsLinked, GroupsLinked, PathsRegular, Image;
    OneSided(t, fi0, fi1, j);
    OneSided(t, fi1, fi0, j);
    OneSided(t, c0, c1, j);
    OneSided(t, c1, c0, j);
    UnderIsLater(t, c0, fi0);
    UnderIsLater(t, c1, fi1);
    SelfImage(t, c0, c1);
    SelfImage(t, c1, c0);
    if AtOrUnder(t, j, fi0) {
      if AtOrUnder(t, j, c0) {
        UnderIsLater(t, j, c0);
        ImageInner(t, fi0, fi1, c0, j);
      }
      if AtOrUnder(t, j, c1) {
        ApartSubtrees(t, fi0, fi1, j, c1);
        assert false;
      }
    } else {
      if AtOrUnder(t, j, c0) {
        UnderTransitive(t, j, c0, fi0);
        assert false;
      }
      if AtOrUnder(t, j, c1) {
        UnderIsLater(t, j, c1);
        ImageInner(t, fi1, fi0, c1, j);
      }
      BranchImages(t, fi0, fi1, c0, c1, j);
    }
  }

  lemma SelfImage(t: Tables, a: nat, b: nat)
    requires WellFormed(t) && a < |t.layers| && b < |t.layers|
    ensures Image(t, a, b, a) == Some(b)
  {}

  /** Only layers at or below a side have an image on the other. */
  lemma OneSided(t: Tables, a: nat, b: nat, j: nat)
    requires WellFormed(t) && PathsRegular(t) && a < |t.layers| && b < |t.layers| && j < |t.layers| && Apart(t, a, b)
    ensures Image(t, a, b, j).Some? ==> AtOrUnder(t, j, a) && !AtOrUnder(t, j, b)
  {
    hide RowsLinked, GroupsLinked, PathsRegular, Image;
    if Image(t, a, b, j).Some? {
      ImageDomain(t, a, b, j);
      if AtOrUnder(t, j, b) {
        ApartSubtrees(t, a, b, j, j);
      }
    }
  }

  /** After registering a pair, a layer is shared exactly if it lies strictly below one side and the
      other side has a layer of the same path, and then with that layer alone. */
  lemma SyncMeaning(t: Tables, m: SyncMap, fi0: nat, fi1: nat, j: nat)
    requires WellFormed(t) && PathsRegular(t) && fi0 < |t.layers| && fi1 < |t.layers| && j < |t.layers| && Apart(t, fi0, fi1)
    ensures Entry(Syncs(t, m, fi0, fi1), IdOf(t, j)) ==
      if SyncOf(t, fi0, fi1, j).Some? then SyncOf(t, fi0, fi1, j) else Entry(m, IdOf(t, j))
  {
    SyncChildrenMeaning(t, m, fi0, fi1, 0);
    hide RowsLinked, GroupsLinked, PathsRegular, Image, SyncChildren, FromChild;
    assert SyncedFrom(t, m, SyncChildren(t, m, fi0, fi1, 0), fi0, fi1, 0, j);
    if FirstSide(t, fi0, fi1, j).Some? {
      FirstSideMeaning(t, fi0, fi1, j);
      FromFirstChild(t, fi0, FirstSide(t, fi0, fi1, j).value);
    }
  }

  // ---------- all pairs ----------

  function SyncPair(t: Tables, m: SyncMap, p: FlipPair): SyncMap
    requires WellFormed(t)
  {
    if p.original in t.mapped && p.mirror in t.mapped then Syncs(t, m, Find(t, p.original).value, Find(t, p.mirror).value) else m
  }

  /** The pairs are registered one after another, some of them more than once: each stands in its map
      under both sides, and a mirror with several suffixes in several maps. */
  function SyncFold(t: Tables, ps: seq<FlipPair>): SyncMap
    requires WellFormed(t)
  {
    if ps == [] then map[] else SyncPair(t, SyncFold(t, ps[..|ps| - 1]), ps[|ps| - 1])
  }

  /** What the pair `p` shares layer `j` with. */
  function PairSync(t: Tables, p: FlipPair, j: nat): Option<seq<SeqID>>
    requires WellFormed(t) && Placed(t, p) && j < |t.layers|
  {
    SyncOf(t, Original(t, p), Mirror(t, p), j)
  }

  lemma SyncInRegion(t: Tables, p: FlipPair, j: nat)
    requires WellFormed(t) && PathsRegular(t) && Placed(t, p) && j < |t.layers| && PairSync(t, p, j).Some?
    ensures InRegion(t, p, j)
  {
    hide RowsLinked, GroupsLinked, PathsRegular, Image;
    if Image(t, Original(t, p), Mirror(t, p), j).Some? {
      ImageDomain(t, Original(t, p), Mirror(t, p), j);
    } else {
      ImageDomain(t, Mirror(t, p), Original(t, p), j);
    }
  }

  /** The final entry of a layer: what the one pair around it says, or nothing. */
  ghost predicate SyncedAs(t: Tables, ps: seq<FlipPair>, e: Option<seq<SeqID>>, j: nat)
    requires WellFormed(t) && j < |t.layers| && forall p <- ps :: Placed(t, p)
  {
    && (forall p <- ps :: PairSync(t, p, j).Some? ==> e == PairSync(t, p, j))
    && ((forall p <- ps :: PairSync(t, p, j).None?) ==> e == None)
  }

  /** After all registrations, in whatever order and however often, a layer is shared exactly if the pair
      around it has a layer of the same path on its other side, and then with that layer alone. */
  lemma {:induction false} SyncFoldMeaning(t: Tables, ps: seq<FlipPair>, j: nat)
    requires Separate(t) && PathsRegular(t) && j < |t.layers| && forall p <- ps :: p in AllPairs(t)
    ensures SyncedAs(t, ps, Entry(SyncFold(t, ps), IdOf(t, j)), j)
    decreases |ps|
  {
    hide WellFormed, PathsRegular, Syncs, PairSync, SyncOf;
    if ps != [] {
      var init, last := ps[..|ps| - 1], ps[|ps| - 1];
      assert ps == init + [last] && last in ps && forall p <- init :: p in ps;
      SyncFoldMeaning(t, init, j);
      LastSync(t, SyncFold(t, init), last, j);
      if PairSync(t, last, j).Some? {
        SyncInRegion(t, last, j);
        forall p | p in init && PairSync(t, p, j).Some?
          ensures p == last
        {
          SyncInRegion(t, p, j);
        }
      }
    }
  }

  lemma LastSync(t: Tables, m: SyncMap, p: FlipPair, j: nat)
    requires Separate(t) && PathsRegular(t) && j < |t.layers| && p in AllPairs(t)
    ensures Placed(t, p)
    ensures Entry(SyncPair(t, m, p), IdOf(t, j)) ==
      if PairSync(t, p, j).Some? then PairSync(t, p, j) else Entry(m, IdOf(t, j))
  {
    hide WellFormed, PathsRegular, Syncs, SyncOf;
    SyncMeaning(t, m, Original(t, p), Mirror(t, p), j);
  }

  /** Only layers get entries. */
  ghost predicate OnlyLayers(t: Tables, m: SyncMap)
  {
    forall id <- m :: exists j :: 0 <= j < |t.layers| && t.layers[j].seqId == id
  }

  lemma {:induction false} SyncsOnlyLayers(t: Tables, m: SyncMap, fi0: nat, fi1: nat, k: nat)
    requires WellFormed(t) && fi0 < |t.layers| && fi1 < |t.layers| && k <= |t.layers[fi0].children| && OnlyLayers(t, m)
    ensures OnlyLayers(t, SyncChildren(t, m, fi0, fi1, k))
    decreases |t.layers| - fi0, |t.layers[fi0].children| - k
  {
    hide RowsLinked, GroupsLinked;
    if k < |t.layers[fi0].children| {
      match ImageOfChild(t, fi0, fi1, k)
      case None => SyncsOnlyLayers(t, m, fi0, fi1, k + 1);
      case Some((c0, c1)) =>
        var m1 := Joined(t, m, c0, c1);
        assert OnlyLayers(t, m1);
        if |t.layers[c0].children| > 0 && |t.layers[c1].children| > 0 {
          SyncsOnlyLayers(t, m1, c0, c1, 0);
          SyncsOnlyLayers(t, Syncs(t, m1, c0, c1), fi0, fi1, k + 1);
        } else {
          SyncsOnlyLayers(t, m1, fi0, fi1, k + 1);
        }
    }
  }

  lemma {:induction false} FoldOnlyLayers(t: Tables, ps: seq<FlipPair>)
    requires WellFormed(t)
    ensures OnlyLayers(t, SyncFold(t, ps))
  {
    hide WellFormed, OnlyLayers, SyncChildren;
    if ps == [] {
      NoLayers(t);
    } else {
      var p := ps[|ps| - 1];
      FoldOnlyLayers(t, ps[..|ps| - 1]);
      if p.original in t.mapped && p.mirror in t.mapped {
        SyncsOnlyLayers(t, SyncFold(t, ps[..|ps| - 1]), Find(t, p.original).value, Find(t, p.mirror).value, 0);
      }
    }
  }

  lemma NoLayers(t: Tables)
    ensures OnlyLayers(t, map[])
  {}

  /** The synced layers do not depend on the order in which Go iterates the three maps. */
  lemma SyncOrderIrrelevant(t: Tables, p1: seq<FlipPair>, p2: seq<FlipPair>)
    requires Separate(t) && PathsRegular(t)
    requires forall p :: p in p1 <==> p in AllPairs(t)
    requires forall p :: p in p2 <==> p in AllPairs(t)
    ensures SyncFold(t, p1) == SyncFold(t, p2)
  {
    hide WellFormed, PathsRegular, SyncFold, PairSync;
    var a, b := SyncFold(t, p1), SyncFold(t, p2);
    FoldOnlyLayers(t, p1);
    FoldOnlyLayers(t, p2);
    forall j: nat | j < |t.layers|
      ensures Entry(a, IdOf(t, j)) == Entry(b, IdOf(t, j))
    {
      SyncFoldMeaning(t, p1, j);
      SyncFoldMeaning(t, p2, j);
    }
    forall id
      ensures Entry(a, id) == Entry(b, id)
    {
      if id in a || id in b {
        var j :| 0 <= j < |t.layers| && t.layers[j].seqId == id;
        assert IdOf(t, j) == id;
      }
    }
    SameEntries(a, b);
  }

  lemma SameEntries(a: SyncMap, b: SyncMap)
    requires forall id :: Entry(a, id) == Entry(b, id)
    ensures a == b
  {
    forall id
      ensures id in a <==> id in b
      ensures id in a ==> a[id] == b[id]
    {
      assert Entry(a, id) == Entry(b, id);
    }
    assert a.Keys == b.Keys;
  }
}
