/** What a flip does to a tree with regular pairs, whatever the map iteration order. */
module LayerFlips {
  import opened Names
  import opened LayerTables
  import opened LayerStates
  import opened LayerCopy

  // ---------- regular flip pairs ----------

  /** A pair as seen by the flip phase. */
  ghost predicate PairRegular(t: Tables, p: FlipPair)
    requires WellFormed(t)
  {
    && p.original in t.mapped && p.mirror in t.mapped && p.original != p.mirror
    && t.layers[Find(t, p.original).value].parent == t.layers[Find(t, p.mirror).value].parent
    && (p.original in t.groupMap <==> p.mirror in t.groupMap)
    && SamePaths(t, Find(t, p.original).value, Find(t, p.mirror).value)
    && SamePaths(t, Find(t, p.mirror).value, Find(t, p.original).value)
  }

  /** Every layer below `a` has a counterpart below `b`. */
  ghost predicate SamePaths(t: Tables, a: nat, b: nat)
    requires WellFormed(t) && a < |t.layers| && b < |t.layers|
  {
    forall d :: 0 <= d < |t.layers| && AtOrUnder(t, d, a) ==> Image(t, a, b, d).Some?
  }

  function Ids(p: FlipPair): set<SeqID> { {p.original, p.mirror} }

  /** Each layer is in at most one pair, pairs are not nested, and both sides of a pair have
      the same paths below them and agree on being a radio-group member. */
  ghost predicate FlipsRegular(t: Tables)
    requires WellFormed(t)
  {
    && (forall p <- AllPairs(t) :: PairRegular(t, p))
    && (forall p, q :: p in AllPairs(t) && q in AllPairs(t) && p != q ==> Ids(p) !! Ids(q))
    && (forall p, q :: p in AllPairs(t) && q in AllPairs(t) ==> NotNested(t, p, q))
  }

  /** No side of `p` lies at or below another side of `q`. */
  ghost predicate NotNested(t: Tables, p: FlipPair, q: FlipPair)
    requires WellFormed(t)
  {
    forall a, b :: a in Ids(p) && b in Ids(q) && a != b ==> NotBelow(t, a, b)
  }

  predicate NotBelow(t: Tables, a: SeqID, b: SeqID)
    requires WellFormed(t)
  {
    Find(t, a).Some? && Find(t, b).Some? && !AtOrUnder(t, Find(t, a).value, Find(t, b).value)
  }

  ghost predicate Regular(t: Tables)
  {
    WellFormed(t) && PathsRegular(t) && FlipsRegular(t)
  }

  predicate Placed(t: Tables, p: FlipPair) { p.original in t.mapped && p.mirror in t.mapped }

  function Original(t: Tables, p: FlipPair): (i: nat)
    requires WellFormed(t) && Placed(t, p)
    ensures i < |t.layers| && t.layers[i].seqId == p.original
  {
    Find(t, p.original).value
  }

  function Mirror(t: Tables, p: FlipPair): (i: nat)
    requires WellFormed(t) && Placed(t, p)
    ensures i < |t.layers| && t.layers[i].seqId == p.mirror
  {
    Find(t, p.mirror).value
  }

  /** The side that the flip hides, and the one it shows. */
  function HiddenSide(t: Tables, p: FlipPair, flip: int): (i: nat)
    requires WellFormed(t) && Placed(t, p)
    ensures i < |t.layers|
  {
    if MirrorShown(t, p, flip) then Original(t, p) else Mirror(t, p)
  }

  function ShownSide(t: Tables, p: FlipPair, flip: int): (i: nat)
    requires WellFormed(t) && Placed(t, p)
    ensures i < |t.layers|
  {
    if MirrorShown(t, p, flip) then Mirror(t, p) else Original(t, p)
  }

  /** The layers a pair is about: both sides and everything below them. */
  predicate InRegion(t: Tables, p: FlipPair, j: nat)
    requires WellFormed(t) && Placed(t, p) && j < |t.layers|
  {
    AtOrUnder(t, j, Original(t, p)) || AtOrUnder(t, j, Mirror(t, p))
  }

  /** The two sides of a pair do not lie in each other. */
  ghost predicate PairApart(t: Tables, p: FlipPair)
    requires WellFormed(t)
  {
    && Placed(t, p)
    && Original(t, p) != Mirror(t, p)
    && Apart(t, Original(t, p), Mirror(t, p))
    && Apart(t, Mirror(t, p), Original(t, p))
  }

  /** All a flip needs of the tree: pairs with disjoint regions. */
  ghost predicate Separate(t: Tables)
  {
    && WellFormed(t)
    && (forall p <- AllPairs(t) :: Placed(t, p))
    && (forall p <- AllPairs(t) :: PairApart(t, p))
    && (forall p, q, j :: p in AllPairs(t) && q in AllPairs(t) && p != q && 0 <= j < |t.layers| && InRegion(t, p, j)
         ==> !InRegion(t, q, j))
  }

  lemma RegularIsSeparate(t: Tables)
    requires Regular(t)
    ensures Separate(t)
  {
    hide RowsLinked, GroupsLinked, PathsRegular, AtOrUnder;
    forall p | p in AllPairs(t)
      ensures PairApart(t, p)
    {
      assert PairRegular(t, p) && NotNested(t, p, p);
      assert NotBelow(t, p.original, p.mirror) && NotBelow(t, p.mirror, p.original);
    }
    forall p, q, j | p in AllPairs(t) && q in AllPairs(t) && p != q && 0 <= j < |t.layers| && InRegion(t, p, j)
      ensures !InRegion(t, q, j)
    {
      RegionsDisjoint(t, p, q, j);
    }
  }

  lemma RegionsDisjoint(t: Tables, p: FlipPair, q: FlipPair, j: nat)
    requires Regular(t) && p in AllPairs(t) && q in AllPairs(t) && p != q && j < |t.layers|
    requires Placed(t, p) && Placed(t, q) && InRegion(t, p, j)
    ensures !InRegion(t, q, j)
  {
    if InRegion(t, q, j) {
      var a := if AtOrUnder(t, j, Original(t, p)) then p.original else p.mirror;
      var b := if AtOrUnder(t, j, Original(t, q)) then q.original else q.mirror;
      var x, y := Find(t, a).value, Find(t, b).value;
      assert a in Ids(p) && b in Ids(q) && NotNested(t, p, q) && NotNested(t, q, p);
      assert NotBelow(t, a, b) && NotBelow(t, b, a);
      UnderLinear(t, j, x, y);
      assert false;
    }
  }

  // ---------- one pair ----------

  predicate Active(t: Tables, s: States, p: FlipPair)
    requires Fits(t, s) && Placed(t, p)
  {
    s[Original(t, p)].visible || s[Mirror(t, p)].visible
  }

  /** Layer `j` after a pair with a visible side has been flipped. */
  function FlipAt(t: Tables, s: States, p: FlipPair, flip: int, pri: int, j: nat): LayerState
    requires Fits(t, s) && Placed(t, p) && j < |s|
  {
    var hidden, shown := HiddenSide(t, p, flip), ShownSide(t, p, flip);
    if !Active(t, s, p) then s[j]
    else if j == hidden then LayerState(false, Min(s[hidden].priority, s[shown].priority))
    else if j == shown then LayerState(true, Max(s[hidden].priority, s[shown].priority))
    else CopyAt(t, s, hidden, shown, pri, j)
  }

  lemma FlipOneMeaning(t: Tables, s: States, p: FlipPair, flip: int, pri: int)
    requires Fits(t, s) && PathsRegular(t) && PairApart(t, p)
    ensures forall j :: 0 <= j < |s| ==>
      FlipOne(t, s, p, MirrorShown(t, p, flip), pri)[j] == FlipAt(t, s, p, flip, pri, j)
  {
    hide RowsLinked, GroupsLinked, PathsRegular;
    var hidden, shown := HiddenSide(t, p, flip), ShownSide(t, p, flip);
    if Active(t, s, p) {
      var lo, hi := Min(s[hidden].priority, s[shown].priority), Max(s[hidden].priority, s[shown].priority);
      var s1 := s[hidden := LayerState(false, lo)][shown := LayerState(true, hi)];
      CopyMeaning(t, s1, hidden, shown, pri);
      forall j | 0 <= j < |s|
        ensures CopyAt(t, s1, hidden, shown, pri, j) == FlipAt(t, s, p, flip, pri, j)
      {
        CopyIgnoresSides(t, s, s1, hidden, shown, pri, j);
      }
    }
  }

  /** Neither side is a source of the copy, and the hidden side is no target. */
  lemma CopyIgnoresSides(t: Tables, s: States, s1: States, hidden: nat, shown: nat, pri: int, j: nat)
    requires Fits(t, s) && PathsRegular(t) && hidden < |s| && shown < |s| && j < |s| && Apart(t, hidden, shown)
    requires |s1| == |s| && forall i :: 0 <= i < |s| && i != hidden && i != shown ==> s1[i] == s[i]
    ensures j == hidden || j == shown ==> CopyAt(t, s1, hidden, shown, pri, j) == s1[j]
    ensures j != hidden && j != shown ==> CopyAt(t, s1, hidden, shown, pri, j) == CopyAt(t, s, hidden, shown, pri, j)
  {
    if Image(t, shown, hidden, j).Some? && j != shown {
      var d := Image(t, shown, hidden, j).value;
      ImageDomain(t, shown, hidden, j);
      ImageInverse(t, shown, hidden, j);
      ApartSubtrees(t, hidden, shown, d, shown);
      ApartSubtrees(t, hidden, shown, hidden, j);
    }
  }

  lemma FlipStaysInRegion(t: Tables, s: States, p: FlipPair, flip: int, pri: int, j: nat)
    requires Fits(t, s) && PathsRegular(t) && Placed(t, p) && j < |s|
    ensures !InRegion(t, p, j) ==> FlipAt(t, s, p, flip, pri, j) == s[j]
  {
    var hidden, shown := HiddenSide(t, p, flip), ShownSide(t, p, flip);
    if Image(t, shown, hidden, j).Some? {
      ImageDomain(t, shown, hidden, j);
    }
  }

  /** What a flip does to a region depends on that region only. */
  lemma FlipReadsRegion(t: Tables, s: States, r: States, p: FlipPair, flip: int, pri: int, j: nat)
    requires Fits(t, s) && Fits(t, r) && PathsRegular(t) && Placed(t, p) && j < |s| && InRegion(t, p, j)
    requires forall i :: 0 <= i < |s| && InRegion(t, p, i) ==> s[i] == r[i]
    ensures FlipAt(t, s, p, flip, pri, j) == FlipAt(t, r, p, flip, pri, j)
  {
    hide WellFormed, PathsRegular;
    var hidden, shown := HiddenSide(t, p, flip), ShownSide(t, p, flip);
    assert InRegion(t, p, hidden) && InRegion(t, p, shown);
    assert s[hidden] == r[hidden] && s[shown] == r[shown];
    if Image(t, shown, hidden, j).Some? {
      var d := Image(t, shown, hidden, j).value;
      ImageDomain(t, shown, hidden, j);
      assert InRegion(t, p, d);
    }
  }

  // ---------- all pairs ----------

  /** `r` is `s` with every pair of `done` flipped, each from its state in `s`. */
  ghost predicate Flipped(t: Tables, s: States, r: States, done: set<FlipPair>, flip: int, pri: int)
    requires Fits(t, s) && Fits(t, r) && forall p <- done :: Placed(t, p)
  {
    && (forall p, j :: p in done && 0 <= j < |s| && InRegion(t, p, j) ==> r[j] == FlipAt(t, s, p, flip, pri, j))
    && (forall j :: 0 <= j < |s| && (forall p <- done :: !InRegion(t, p, j)) ==> r[j] == s[j])
  }

  /** Whatever the iteration order, the flip phase has this one result. */
  lemma {:induction false} FlipFoldMeaning(t: Tables, s: States, order: seq<FlipPair>, done: set<FlipPair>, flip: int, pri: int)
    requires Fits(t, s) && PathsRegular(t) && Separate(t) && OrderOf(order, done) && done <= AllPairs(t)
    ensures Flipped(t, s, FlipFold(t, s, order, flip, pri), done, flip, pri)
    decreases |order|
  {
    hide WellFormed, PathsRegular, Separate, OrderOf, AllPairs, FlipAt, Flipped, FlipOne, InRegion;
    if order == [] {
      NothingFlipped(t, s, done, flip, pri);
    } else {
      var last, front := order[|order| - 1], order[..|order| - 1];
      var before := done - {last};
      OrderShrinks(order, done);
      FlipFoldMeaning(t, s, front, before, flip, pri);
      SeparatePair(t, last);
      PairsPlaced(t, before + {last});
      FlipOneMeaning(t, FlipFold(t, s, front, flip, pri), last, flip, pri);
      FlipStep(t, s, FlipFold(t, s, front, flip, pri), FlipFold(t, s, order, flip, pri), before, last, flip, pri);
      assert before + {last} == done;
    }
  }

  lemma NothingFlipped(t: Tables, s: States, done: set<FlipPair>, flip: int, pri: int)
    requires Fits(t, s) && OrderOf([], done)
    ensures Flipped(t, s, s, done, flip, pri)
  {
    assert done == {};
  }

  lemma SeparatePair(t: Tables, p: FlipPair)
    requires Separate(t) && p in AllPairs(t)
    ensures PairApart(t, p) && Placed(t, p)
  {}

  /** Flipping other pairs leaves the region of `last` as it was. */
  lemma RegionUntouched(t: Tables, s: States, r: States, before: set<FlipPair>, last: FlipPair, flip: int, pri: int)
    requires WellFormed(t) && forall p <- before + {last} :: Placed(t, p)
    requires Fits(t, s) && Fits(t, r) && Separate(t) && before <= AllPairs(t)
    requires last in AllPairs(t) && last !in before
    requires Flipped(t, s, r, before, flip, pri)
    ensures forall i :: 0 <= i < |s| && InRegion(t, last, i) ==> s[i] == r[i]
  {
    hide WellFormed, PairApart, FlipAt, InRegion;
    forall i | 0 <= i < |s| && InRegion(t, last, i)
      ensures s[i] == r[i]
    {
      assert forall p <- before :: !InRegion(t, p, i);
    }
  }

  lemma PairsPlaced(t: Tables, ps: set<FlipPair>)
    requires Separate(t) && ps <= AllPairs(t)
    ensures forall p <- ps :: Placed(t, p)
  {}

  lemma FlipStep(t: Tables, s: States, r: States, r1: States, before: set<FlipPair>, last: FlipPair, flip: int, pri: int)
    requires WellFormed(t) && forall p <- before + {last} :: Placed(t, p)
    requires Fits(t, s) && Fits(t, r) && Fits(t, r1) && PathsRegular(t) && Separate(t) && before <= AllPairs(t)
    requires last in AllPairs(t) && last !in before
    requires Flipped(t, s, r, before, flip, pri)
    requires forall j :: 0 <= j < |s| ==> r1[j] == FlipAt(t, r, last, flip, pri, j)
    ensures Flipped(t, s, r1, before + {last}, flip, pri)
  {
    hide WellFormed, PathsRegular, FlipAt, InRegion, PairApart, Flipped;
    RegionUntouched(t, s, r, before, last, flip, pri);
    forall j | 0 <= j < |s|
      ensures InRegion(t, last, j) ==> r1[j] == FlipAt(t, s, last, flip, pri, j)
      ensures !InRegion(t, last, j) ==> r1[j] == r[j]
    {
      FlipStaysInRegion(t, r, last, flip, pri, j);
      if InRegion(t, last, j) {
        FlipReadsRegion(t, s, r, last, flip, pri, j);
      }
    }
    forall p, j | p in before && 0 <= j < |s| && InRegion(t, p, j)
      ensures !InRegion(t, last, j)
    {
      RegionsApart(t, p, last, j);
    }
    OneMoreFlipped(t, s, r, r1, before, last, flip, pri);
  }

  lemma RegionsApart(t: Tables, p: FlipPair, q: FlipPair, j: nat)
    requires Separate(t) && p in AllPairs(t) && q in AllPairs(t) && p != q && j < |t.layers| && InRegion(t, p, j)
    ensures !InRegion(t, q, j)
  {
    hide WellFormed, PairApart, InRegion;
  }

  lemma OneMoreFlipped(t: Tables, s: States, r: States, r1: States, before: set<FlipPair>, last: FlipPair, flip: int, pri: int)
    requires Fits(t, s) && Fits(t, r) && Fits(t, r1) && (forall p <- before :: Placed(t, p)) && Placed(t, last)
    requires Flipped(t, s, r, before, flip, pri)
    requires forall p, j :: p in before && 0 <= j < |s| && InRegion(t, p, j) ==> !InRegion(t, last, j)
    requires forall j :: 0 <= j < |s| ==>
      r1[j] == if InRegion(t, last, j) then FlipAt(t, s, last, flip, pri, j) else r[j]
    ensures Flipped(t, s, r1, before + {last}, flip, pri)
  {
    hide WellFormed, FlipAt, InRegion, Placed;
  }

  lemma FlippedUnique(t: Tables, s: States, r1: States, r2: States, done: set<FlipPair>, flip: int, pri: int)
    requires Fits(t, s) && Fits(t, r1) && Fits(t, r2) && forall p <- done :: Placed(t, p)
    requires Flipped(t, s, r1, done, flip, pri) && Flipped(t, s, r2, done, flip, pri)
    ensures r1 == r2
  {
    forall j | 0 <= j < |s|
      ensures r1[j] == r2[j]
    {
      if exists p :: p in done && InRegion(t, p, j) {
        var p :| p in done && InRegion(t, p, j);
      }
    }
  }

  /** Two runs of `SetFlip` that meet the pairs in different orders agree. */
  lemma FlipOrderIrrelevant(t: Tables, s: States, o1: seq<FlipPair>, o2: seq<FlipPair>, flip: int, pri: int)
    requires Fits(t, s) && PathsRegular(t) && Separate(t) && OrderOf(o1, AllPairs(t)) && OrderOf(o2, AllPairs(t))
    ensures FlipFold(t, s, o1, flip, pri) == FlipFold(t, s, o2, flip, pri)
  {
    FlipFoldMeaning(t, s, o1, AllPairs(t), flip, pri);
    FlipFoldMeaning(t, s, o2, AllPairs(t), flip, pri);
    FlippedUnique(t, s, FlipFold(t, s, o1, flip, pri), FlipFold(t, s, o2, flip, pri), AllPairs(t), flip, pri);
  }

  /** What a flip promises for a layer `j` in the region of `p`, whose new state is `st`: a pair
      with a visible side ends with exactly the side the flip asks for, whose descendants take
      over the visibility of their counterparts; the hidden side's descendants keep theirs. */
  ghost predicate FlippedLayer(t: Tables, s: States, p: FlipPair, flip: int, j: nat, st: LayerState)
    requires Fits(t, s) && Placed(t, p) && j < |s|
  {
    var hidden, shown := HiddenSide(t, p, flip), ShownSide(t, p, flip);
    if !Active(t, s, p) then st == s[j]
    else if j == hidden then !st.visible
    else if j == shown then st.visible
    else
      && (AtOrUnder(t, j, hidden) ==> st == s[j])
      && (AtOrUnder(t, j, shown) ==>
           Image(t, shown, hidden, j).Some? && st.visible == s[Image(t, shown, hidden, j).value].visible)
  }

  /** What `SetFlip` does to a tree with regular pairs, in whatever order it meets them. */
  ghost predicate FlipsDone(t: Tables, s: States, flip: int, r: States)
    requires Fits(t, s) && Fits(t, r) && forall p <- AllPairs(t) :: Placed(t, p)
  {
    && (forall p, j :: p in AllPairs(t) && 0 <= j < |s| && InRegion(t, p, j) ==> FlippedLayer(t, s, p, flip, j, r[j]))
    && (forall j :: 0 <= j < |s| && (forall p <- AllPairs(t) :: !InRegion(t, p, j)) ==> r[j] == s[j])
  }

  lemma FlipMeaning(t: Tables, s: States, order: seq<FlipPair>, flip: int, pri: int)
    requires Fits(t, s) && Regular(t) && OrderOf(order, AllPairs(t))
    ensures Separate(t) && FlipsDone(t, s, flip, FlipFold(t, s, order, flip, pri))
  {
    RegularIsSeparate(t);
    hide RowsLinked, GroupsLinked, PathsRegular, FlipsRegular, FlippedLayer, FlipAt, InRegion, FlipFold;
    FlipFoldMeaning(t, s, order, AllPairs(t), flip, pri);
    var r := FlipFold(t, s, order, flip, pri);
    forall p, j | p in AllPairs(t) && 0 <= j < |s| && InRegion(t, p, j)
      ensures FlippedLayer(t, s, p, flip, j, r[j])
    {
      hide RowsLinked, GroupsLinked, PathsRegular, FlippedLayer, FlipAt, InRegion, OrderOf;
      SeparatePair(t, p);
      RegularPair(t, p);
      FlippedLayerHolds(t, s, p, flip, pri, j);
    }
  }

  lemma RegularPair(t: Tables, p: FlipPair)
    requires Regular(t) && p in AllPairs(t)
    ensures PairRegular(t, p)
  {}

  lemma FlippedLayerHolds(t: Tables, s: States, p: FlipPair, flip: int, pri: int, j: nat)
    requires Fits(t, s) && PathsRegular(t) && PairApart(t, p) && PairRegular(t, p) && j < |s|
    ensures FlippedLayer(t, s, p, flip, j, FlipAt(t, s, p, flip, pri, j))
  {
    hide RowsLinked, GroupsLinked, PathsRegular;
    var hidden, shown := HiddenSide(t, p, flip), ShownSide(t, p, flip);
    assert SamePaths(t, shown, hidden);
    if Image(t, shown, hidden, j).Some? {
      ImageDomain(t, shown, hidden, j);
      if AtOrUnder(t, j, hidden) {
        ApartSubtrees(t, hidden, shown, j, j);
      }
    }
    if AtOrUnder(t, j, hidden) {
      ApartSubtrees(t, hidden, shown, j, shown);
    }
  }
}
