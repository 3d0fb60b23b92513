/** Normal states: what every `Apply` leaves behind, and that applying again changes nothing. */
module LayerNormal {
  import opened Names
  import opened LayerTables
  import opened LayerStates
  import opened LayerFlips
  import opened LayerGroups
  import opened LayerCopy

  // ---------- the flip phase keeps the groups ----------

  /** A radio layer below the shown side and its counterpart are radio layers of corresponding parents. */
  lemma RadioImage(t: Tables, a: nat, b: nat, w: nat, j: nat)
    requires WellFormed(t) && PathsRegular(t) && a < |t.layers| && b < |t.layers| && w < |t.layers| && j < |t.layers|
    requires AtOrUnder(t, w, a) && Radio(t, w, j) && Image(t, a, b, j).Some?
    ensures Image(t, a, b, w).Some? && Radio(t, Image(t, a, b, w).value, Image(t, a, b, j).value)
    ensures j != a
  {
    UnderIsLater(t, w, a);
    ImageStep(t, a, b, j);
  }

  /** Below a flipped pair, the groups of the shown side become those of the hidden side. */
  lemma GroupBelowShown(t: Tables, s: States, p: FlipPair, flip: int, r: States, w: nat)
    requires Fits(t, s) && Fits(t, r) && PathsRegular(t) && PairApart(t, p) && PairRegular(t, p) && Active(t, s, p)
    requires w < |s| && AtOrUnder(t, w, ShownSide(t, p, flip))
    requires forall j :: 0 <= j < |s| && InRegion(t, p, j) ==> FlippedLayer(t, s, p, flip, j, r[j])
    requires Image(t, ShownSide(t, p, flip), HiddenSide(t, p, flip), w).Some?
    requires OneVisible(t, s, Image(t, ShownSide(t, p, flip), HiddenSide(t, p, flip), w).value)
    ensures OneVisible(t, r, w)
  {
    hide RowsLinked, GroupsLinked, PathsRegular;
    var hidden, shown := HiddenSide(t, p, flip), ShownSide(t, p, flip);
    var w0 := Image(t, shown, hidden, w).value;
    var x0 :| OnlyVisible(t, s, w0, x0);
    ImageInverse(t, shown, hidden, w);
    ImageDomain(t, shown, hidden, w);
    assert SamePaths(t, hidden, shown) && AtOrUnder(t, x0, hidden);
    RadioImage(t, hidden, shown, w0, x0);
    ImageInverse(t, hidden, shown, x0);
    ImageDomain(t, hidden, shown, x0);
    var x := Image(t, hidden, shown, x0).value;
    assert Radio(t, w, x) && InRegion(t, p, x);
    NotASide(t, p, flip, w, x);
    assert r[x].visible;
    forall y | 0 <= y < |s| && Radio(t, w, y) && r[y].visible
      ensures y == x
    {
      assert AtOrUnder(t, y, shown) && InRegion(t, p, y);
      NotASide(t, p, flip, w, y);
      RadioImage(t, shown, hidden, w, y);
      ImageInverse(t, shown, hidden, y);
      assert Image(t, shown, hidden, y).value == x0;
    }
    assert OnlyVisible(t, r, w, x);
  }

  /** A child of a layer in the shown side's subtree is neither of the two sides. */
  lemma NotASide(t: Tables, p: FlipPair, flip: int, w: nat, y: nat)
    requires WellFormed(t) && PairApart(t, p) && w < |t.layers| && y < |t.layers|
    requires AtOrUnder(t, w, ShownSide(t, p, flip)) && t.layers[y].parent == w
    ensures y != ShownSide(t, p, flip) && y != HiddenSide(t, p, flip)
  {
    UnderIsLater(t, w, ShownSide(t, p, flip));
  }

  /** A layer of a region whose parent lies outside it is one of the two sides. */
  lemma SideOfRegion(t: Tables, p: FlipPair, w: int, j: nat)
    requires WellFormed(t) && Placed(t, p) && j < |t.layers| && InRegion(t, p, j) && t.layers[j].parent == w
    requires 0 <= w ==> !InRegion(t, p, w)
    ensures j == Original(t, p) || j == Mirror(t, p)
  {}

  lemma SidesRadioAlike(t: Tables, p: FlipPair, w: int)
    requires WellFormed(t) && PairRegular(t, p)
    ensures Radio(t, w, Original(t, p)) <==> Radio(t, w, Mirror(t, p))
  {}

  /** Outside `x`, no pair with a side among the radio layers of `w` is active. */
  lemma OtherPairsInactive(t: Tables, s: States, w: int, x: nat, q: FlipPair, y: nat)
    requires Fits(t, s) && PairRegular(t, q) && OnlyVisible(t, s, w, x)
    requires y < |s| && Radio(t, w, y) && InRegion(t, q, y) && !InRegion(t, q, x)
    requires 0 <= w ==> !InRegion(t, q, w)
    ensures !Active(t, s, q)
  {
    SideOfRegion(t, q, w, y);
    SidesRadioAlike(t, q, w);
    assert InRegion(t, q, Original(t, q)) && InRegion(t, q, Mirror(t, q));
  }

  /** A group whose parent is in no pair's subtree keeps exactly one visible layer. */
  lemma GroupElsewhere(t: Tables, s: States, flip: int, r: States, w: int)
    requires Fits(t, s) && Fits(t, r) && Separate(t) && FlipsDone(t, s, flip, r)
    requires forall p <- AllPairs(t) :: PairRegular(t, p)
    requires w < |s| && (w >= 0 ==> forall p <- AllPairs(t) :: !InRegion(t, p, w))
    requires OneVisible(t, s, w)
    ensures OneVisible(t, r, w)
  {
    hide WellFormed, PairApart, FlippedLayer, InRegion, PairRegular, Active;
    var x: nat :| OnlyVisible(t, s, w, x);
    var z := x;
    if exists p :: p in AllPairs(t) && InRegion(t, p, x) {
      var p :| p in AllPairs(t) && InRegion(t, p, x);
      z := ShownSide(t, p, flip);
      VisibleSide(t, s, p, flip, r, w, x);
    }
    forall y | 0 <= y < |s| && Radio(t, w, y) && r[y].visible
      ensures y == z
    {
      if exists q :: q in AllPairs(t) && InRegion(t, q, y) {
        var q :| q in AllPairs(t) && InRegion(t, q, y);
        if InRegion(t, q, x) {
          VisibleSide(t, s, q, flip, r, w, x);
          HiddenIsHidden(t, s, q, flip, r, w, x, y);
        } else {
          OtherPairsInactive(t, s, w, x, q, y);
          InactiveUnchanged(t, s, q, flip, r, y);
          assert false;
        }
      }
    }
    assert OnlyVisible(t, r, w, z);
  }

  lemma VisibleSide(t: Tables, s: States, p: FlipPair, flip: int, r: States, w: int, x: nat)
    requires Fits(t, s) && Fits(t, r) && PairApart(t, p) && PairRegular(t, p) && x < |s| && InRegion(t, p, x)
    requires Radio(t, w, x) && s[x].visible && (0 <= w ==> !InRegion(t, p, w))
    requires forall j :: 0 <= j < |s| && InRegion(t, p, j) ==> FlippedLayer(t, s, p, flip, j, r[j])
    ensures Active(t, s, p) && r[ShownSide(t, p, flip)].visible && Radio(t, w, ShownSide(t, p, flip))
    ensures InRegion(t, p, ShownSide(t, p, flip))
  {
    SideOfRegion(t, p, w, x);
    SidesRadioAlike(t, p, w);
    assert InRegion(t, p, ShownSide(t, p, flip));
  }

  lemma HiddenIsHidden(t: Tables, s: States, p: FlipPair, flip: int, r: States, w: int, x: nat, y: nat)
    requires Fits(t, s) && Fits(t, r) && PairApart(t, p) && y < |s| && InRegion(t, p, y) && Active(t, s, p)
    requires Radio(t, w, y) && (0 <= w ==> !InRegion(t, p, w)) && r[y].visible
    requires forall j :: 0 <= j < |s| && InRegion(t, p, j) ==> FlippedLayer(t, s, p, flip, j, r[j])
    ensures y == ShownSide(t, p, flip)
  {
    SideOfRegion(t, p, w, y);
  }

  lemma InactiveUnchanged(t: Tables, s: States, p: FlipPair, flip: int, r: States, y: nat)
    requires Fits(t, s) && Fits(t, r) && Placed(t, p) && y < |s| && InRegion(t, p, y) && !Active(t, s, p)
    requires forall j :: 0 <= j < |s| && InRegion(t, p, j) ==> FlippedLayer(t, s, p, flip, j, r[j])
    ensures r[y] == s[y]
  {}

  /** A group inside the subtree of a pair. */
  lemma GroupInRegion(t: Tables, s: States, p: FlipPair, flip: int, r: States, g: Group)
    requires Fits(t, s) && Fits(t, r) && PathsRegular(t) && PairApart(t, p) && PairRegular(t, p)
    requires g in AllGroups(t) && 0 <= g.owner < |s| && InRegion(t, p, g.owner)
    requires forall j :: 0 <= j < |s| && InRegion(t, p, j) ==> FlippedLayer(t, s, p, flip, j, r[j])
    requires AllOneVisible(t, s)
    ensures OneVisible(t, r, g.owner)
  {
    hide RowsLinked, PathsRegular;
    var hidden, shown, w := HiddenSide(t, p, flip), ShownSide(t, p, flip), g.owner as nat;
    var x: nat :| OnlyVisible(t, s, w, x);
    if Active(t, s, p) && AtOrUnder(t, w, shown) {
      assert SamePaths(t, shown, hidden) && AtOrUnder(t, x, shown);
      RadioImage(t, shown, hidden, w, x);
      var w0, x0 := Image(t, shown, hidden, w).value, Image(t, shown, hidden, x).value;
      RadioHasGroup(t, w0, x0);
      GroupBelowShown(t, s, p, flip, r, w);
    } else {
      forall j | 0 <= j < |s| && Radio(t, w, j)
        ensures r[j] == s[j]
      {
        assert InRegion(t, p, j);
        if Active(t, s, p) {
          UnderIsLater(t, w, hidden);
          ApartSubtrees(t, hidden, shown, j, shown);
        }
      }
      assert OnlyVisible(t, r, w, x);
    }
  }

  lemma RadioHasGroup(t: Tables, w: int, x: nat)
    requires WellFormed(t) && x < |t.layers| && Radio(t, w, x)
    ensures exists g :: g in AllGroups(t) && g.owner == w
  {
    var id := t.layers[x].seqId;
    assert id in t.groupMap && t.groupMap[id] in AllGroups(t);
  }

  /** Flipping keeps exactly one visible layer in every radio group. */
  lemma FlipKeepsGroups(t: Tables, s: States, flip: int, r: States)
    requires Fits(t, s) && Fits(t, r) && Regular(t) && Separate(t) && FlipsDone(t, s, flip, r)
    requires AllOneVisible(t, s)
    ensures AllOneVisible(t, r)
  {
    forall g | g in AllGroups(t)
      ensures OneVisible(t, r, g.owner)
    {
      GroupOwner(t, g);
      if g.owner >= 0 && exists p :: p in AllPairs(t) && InRegion(t, p, g.owner) {
        var p :| p in AllPairs(t) && InRegion(t, p, g.owner);
        GroupInRegion(t, s, p, flip, r, g);
      } else {
        GroupElsewhere(t, s, flip, r, g.owner);
      }
    }
  }

  lemma GroupOwner(t: Tables, g: Group)
    requires WellFormed(t) && g in AllGroups(t)
    ensures -1 <= g.owner < |t.layers|
  {
    var id := KeyOfValue(t.groupMap, g);
  }

  // ---------- normal states ----------

  predicate IsForced(t: Tables, j: nat)
    requires j < |t.layers|
  {
    t.layers[j].seqId in t.forceVisible
  }

  /** The side of some pair that `flip` hides while the other one is visible. */
  ghost predicate Replaced(t: Tables, s: States, flip: int, j: nat)
    requires Fits(t, s) && (forall p <- AllPairs(t) :: Placed(t, p))
  {
    exists p :: p in AllPairs(t) && j == HiddenSide(t, p, flip) && s[ShownSide(t, p, flip)].visible
  }

  /** The shown side of a pair agrees with its counterpart, layer by layer, and the hidden side is hidden. */
  ghost predicate PairSettled(t: Tables, s: States, p: FlipPair, flip: int)
    requires Fits(t, s) && Placed(t, p)
  {
    var hidden, shown := HiddenSide(t, p, flip), ShownSide(t, p, flip);
    && !s[hidden].visible
    && (s[shown].visible ==>
         forall j :: 0 <= j < |s| && j != shown && Image(t, shown, hidden, j).Some? ==>
           s[j].visible == s[Image(t, shown, hidden, j).value].visible)
  }

  ghost predicate Normal(t: Tables, s: States, flip: int)
    requires Fits(t, s) && (forall p <- AllPairs(t) :: Placed(t, p))
  {
    && (forall j :: 0 <= j < |s| && IsForced(t, j) ==> s[j].visible || Replaced(t, s, flip, j))
    && AllOneVisible(t, s)
    && (forall p <- AllPairs(t) :: PairSettled(t, s, p, flip))
  }

  /** Before the flip phase every forced layer is visible and every group has one visible layer. */
  lemma BeforeFlip(t: Tables, s: States, pri: int, groups: seq<Group>)
    requires Fits(t, s) && OrderOf(groups, AllGroups(t))
    ensures var g := GroupFold(t, Forced(t, s, pri + 1), groups, pri + 2);
      && AllOneVisible(t, g)
      && (forall j :: 0 <= j < |s| && IsForced(t, j) ==> g[j].visible)
  {
    GroupPhaseMeaning(t, Forced(t, s, pri + 1), groups, pri + 2);
    forall j | 0 <= j < |s| && IsForced(t, j)
      ensures !IsGroup(t.layers[j].name)
    {
      assert IsForceVisible(t.layers[j].name);
    }
  }

  lemma ForcedImage(t: Tables, a: nat, b: nat, j: nat)
    requires WellFormed(t) && PathsRegular(t) && a < |t.layers| && b < |t.layers| && j < |t.layers| && j != a
    requires Image(t, a, b, j).Some? && IsForced(t, j)
    ensures IsForced(t, Image(t, a, b, j).value)
  {
    ImageStep(t, a, b, j);
    assert IsForceVisible(t.layers[j].name);
  }

  lemma FlippedForced(t: Tables, g: States, p: FlipPair, flip: int, r: States, j: nat)
    requires Fits(t, g) && Fits(t, r) && PathsRegular(t) && PairApart(t, p) && p in AllPairs(t)
    requires forall i :: 0 <= i < |g| && IsForced(t, i) ==> g[i].visible
    requires forall i :: 0 <= i < |g| && InRegion(t, p, i) ==> FlippedLayer(t, g, p, flip, i, r[i])
    requires forall q <- AllPairs(t) :: Placed(t, q)
    requires j < |g| && InRegion(t, p, j) && IsForced(t, j)
    ensures r[j].visible || Replaced(t, r, flip, j)
  {
    var hidden, shown := HiddenSide(t, p, flip), ShownSide(t, p, flip);
    assert InRegion(t, p, shown) && FlippedLayer(t, g, p, flip, shown, r[shown]);
    assert FlippedLayer(t, g, p, flip, j, r[j]);
    if Active(t, g, p) && j != hidden && j != shown && AtOrUnder(t, j, shown) {
      ForcedImage(t, shown, hidden, j);
    }
  }

  lemma FlippedSettled(t: Tables, g: States, p: FlipPair, flip: int, r: States)
    requires Fits(t, g) && Fits(t, r) && PathsRegular(t) && PairApart(t, p)
    requires forall i :: 0 <= i < |g| && InRegion(t, p, i) ==> FlippedLayer(t, g, p, flip, i, r[i])
    ensures PairSettled(t, r, p, flip)
  {
    var hidden, shown := HiddenSide(t, p, flip), ShownSide(t, p, flip);
    assert InRegion(t, p, hidden) && InRegion(t, p, shown);
    assert FlippedLayer(t, g, p, flip, hidden, r[hidden]) && FlippedLayer(t, g, p, flip, shown, r[shown]);
    forall j | 0 <= j < |g| && j != shown && Image(t, shown, hidden, j).Some? && r[shown].visible
      ensures r[j].visible == r[Image(t, shown, hidden, j).value].visible
    {
      var d := Image(t, shown, hidden, j).value;
      ImageDomain(t, shown, hidden, j);
      ImageInverse(t, shown, hidden, j);
      ApartSubtrees(t, hidden, shown, d, j);
      ApartSubtrees(t, hidden, shown, d, shown);
      ApartSubtrees(t, hidden, shown, hidden, j);
      assert FlippedLayer(t, g, p, flip, j, r[j]) && FlippedLayer(t, g, p, flip, d, r[d]);
    }
  }

  /** Every `Apply` ends in a normal state, whatever the state it starts from. */
  lemma ApplyIsNormal(t: Tables, s: States, flip: int, pri: int, groups: seq<Group>, pairs: seq<FlipPair>)
    requires Regular(t) && Fits(t, s) && ValidFlip(flip)
    requires OrderOf(groups, AllGroups(t)) && OrderOf(pairs, AllPairs(t))
    ensures Separate(t) && Normal(t, Normalized(t, s, flip, pri, groups, pairs), flip)
  {
    hide RowsLinked, GroupsLinked, PathsRegular, FlipsRegular, Separate, OrderOf, AllOneVisible, PairSettled, FlipsDone;
    OrderWithin(groups, AllGroups(t), AllGroups(t));
    var g := GroupFold(t, Forced(t, s, pri + 1), groups, pri + 2);
    var r := Normalized(t, s, flip, pri, groups, pairs);
    BeforeFlip(t, s, pri, groups);
    FlipMeaning(t, g, pairs, flip, pri + 4);
    FlipKeepsGroups(t, g, flip, r);
    FlippedIsNormal(t, g, flip, r);
  }

  lemma FlippedIsNormal(t: Tables, g: States, flip: int, r: States)
    requires Fits(t, g) && Fits(t, r) && PathsRegular(t) && Separate(t) && FlipsDone(t, g, flip, r)
    requires forall i :: 0 <= i < |g| && IsForced(t, i) ==> g[i].visible
    requires AllOneVisible(t, r)
    ensures Normal(t, r, flip)
  {
    hide WellFormed, PathsRegular, FlippedLayer, InRegion, AllOneVisible, PairSettled, PairApart;
    forall j | 0 <= j < |g| && IsForced(t, j)
      ensures r[j].visible || Replaced(t, r, flip, j)
    {
      if exists p :: p in AllPairs(t) && InRegion(t, p, j) {
        var p :| p in AllPairs(t) && InRegion(t, p, j);
        FlippedForced(t, g, p, flip, r, j);
      }
    }
    forall p | p in AllPairs(t)
      ensures PairSettled(t, r, p, flip)
    {
      FlippedSettled(t, g, p, flip, r);
    }
  }

  // ---------- normal states are fixed points ----------

  /** In a normal state, forcing shows at most hidden sides of pairs again. */
  lemma ForcedAgain(t: Tables, s: States, flip: int, p: FlipPair, j: nat)
    requires Fits(t, s) && Separate(t) && Normal(t, s, flip) && p in AllPairs(t)
    requires j < |s| && InRegion(t, p, j) && IsForced(t, j)
    ensures s[j].visible || (j == HiddenSide(t, p, flip) && s[ShownSide(t, p, flip)].visible)
  {
    if !s[j].visible {
      var q :| q in AllPairs(t) && j == HiddenSide(t, q, flip) && s[ShownSide(t, q, flip)].visible;
      assert InRegion(t, q, j);
    }
  }

  /** The group phase confirms the one visible layer of every group. */
  lemma GroupPhaseKeeps(t: Tables, s: States, pri: int, groups: seq<Group>)
    requires Fits(t, s) && OrderOf(groups, AllGroups(t)) && AllOneVisible(t, s)
    requires forall j :: 0 <= j < |s| ==> s[j].priority > -1
    ensures Visibility(GroupFold(t, s, groups, pri)) == Visibility(s)
  {
    hide RowsLinked, GroupsLinked, OrderOf, OneVisible, GroupFold;
    OrderWithin(groups, AllGroups(t), AllGroups(t));
    var r := GroupFold(t, s, groups, pri);
    GroupPhaseMeaning(t, s, groups, pri);
    forall j: nat | j < |s|
      ensures r[j].visible == s[j].visible
    {
      if IsGroup(t.layers[j].name) {
        var g := GroupOfLayer(t, j);
        WinnerIsVisible(t, s, g);
      }
    }
  }

  lemma GroupOfLayer(t: Tables, j: nat) returns (g: Group)
    requires WellFormed(t) && j < |t.layers| && IsGroup(t.layers[j].name)
    ensures g in AllGroups(t) && Radio(t, g.owner, j)
  {
    g := t.groupMap[t.layers[j].seqId];
    GroupIsRadio(t, g, j);
  }

  lemma WinnerIsVisible(t: Tables, s: States, g: Group)
    requires Fits(t, s) && g in AllGroups(t) && |g.members| > 0 && Members(t, g.members)
    requires OneVisible(t, s, g.owner) && forall j :: 0 <= j < |s| ==> s[j].priority > -1
    ensures OnlyVisible(t, s, g.owner, Find(t, Winner(t, s, g.members)).value)
  {
    var x: nat :| OnlyVisible(t, s, g.owner, x);
    GroupIsRadio(t, g, x);
    assert StateOf(t, s, t.layers[x].seqId) == s[x];
    GroupIsRadio(t, g, Find(t, Winner(t, s, g.members)).value);
  }

  lemma SettledFlip(t: Tables, s: States, g: States, p: FlipPair, flip: int, r: States, j: nat)
    requires Fits(t, s) && Fits(t, g) && Fits(t, r) && PathsRegular(t) && Separate(t) && Normal(t, s, flip)
    requires p in AllPairs(t)
    requires forall i: nat :: i < |s| ==> g[i].visible == (IsForced(t, i) || s[i].visible)
    requires forall i :: 0 <= i < |s| && InRegion(t, p, i) ==> FlippedLayer(t, g, p, flip, i, r[i])
    requires j < |s| && InRegion(t, p, j)
    ensures r[j].visible == s[j].visible
  {
    hide RowsLinked, GroupsLinked, AllOneVisible;
    var hidden, shown := HiddenSide(t, p, flip), ShownSide(t, p, flip);
    assert InRegion(t, p, hidden) && InRegion(t, p, shown) && hidden != shown && PairSettled(t, s, p, flip);
    if IsForced(t, hidden) { ForcedAgain(t, s, flip, p, hidden); }
    if IsForced(t, shown) { ForcedAgain(t, s, flip, p, shown); }
    assert Active(t, g, p) <==> s[shown].visible;
    if IsForced(t, j) { ForcedAgain(t, s, flip, p, j); }
    if Active(t, g, p) && j != hidden && j != shown && AtOrUnder(t, j, shown) {
      var d := Image(t, shown, hidden, j).value;
      ImageDomain(t, shown, hidden, j);
      ImageInverse(t, shown, hidden, j);
      assert InRegion(t, p, d);
      if IsForced(t, d) { ForcedAgain(t, s, flip, p, d); }
    }
  }

  lemma NormalFlip(t: Tables, s: States, g: States, flip: int, r: States)
    requires Fits(t, s) && Fits(t, g) && Fits(t, r) && PathsRegular(t) && Separate(t) && Normal(t, s, flip)
    requires forall i: nat :: i < |s| ==> g[i].visible == (IsForced(t, i) || s[i].visible)
    requires FlipsDone(t, g, flip, r)
    ensures Visibility(r) == Visibility(s)
  {
    hide WellFormed, PathsRegular, FlippedLayer, InRegion, PairApart, AllOneVisible, PairSettled;
    forall j: nat | j < |s|
      ensures r[j].visible == s[j].visible
    {
      if exists p :: p in AllPairs(t) && InRegion(t, p, j) {
        var p :| p in AllPairs(t) && InRegion(t, p, j);
        SettledFlip(t, s, g, p, flip, r, j);
      } else if IsForced(t, j) {
        NotReplaced(t, s, flip, j);
      }
    }
  }

  /** Applying to a normal state keeps its visibility, whatever the priorities and orders. */
  lemma NormalIsFixed(t: Tables, s: States, flip: int, pri: int, groups: seq<Group>, pairs: seq<FlipPair>)
    requires Regular(t) && Separate(t) && Fits(t, s) && ValidFlip(flip) && Normal(t, s, flip)
    requires OrderOf(groups, AllGroups(t)) && OrderOf(pairs, AllPairs(t))
    requires pri >= -1 && forall j :: 0 <= j < |s| ==> s[j].priority > -1
    ensures Visibility(Normalized(t, s, flip, pri, groups, pairs)) == Visibility(s)
  {
    hide RowsLinked, GroupsLinked, PathsRegular, FlipsRegular, Separate, OrderOf, AllOneVisible, PairSettled, FlipsDone;
    OrderWithin(groups, AllGroups(t), AllGroups(t));
    var f := Forced(t, s, pri + 1);
    var g := GroupFold(t, f, groups, pri + 2);
    ForcingKeepsGroups(t, s, pri + 1);
    GroupPhaseKeeps(t, f, pri + 2, groups);
    FlipMeaning(t, g, pairs, flip, pri + 4);
    forall i: nat | i < |s|
      ensures g[i].visible == (IsForced(t, i) || s[i].visible)
    {
      assert Visibility(g)[i] == Visibility(f)[i];
    }
    NormalFlip(t, s, g, flip, Normalized(t, s, flip, pri, groups, pairs));
  }

  lemma NotReplaced(t: Tables, s: States, flip: int, j: nat)
    requires Fits(t, s) && (forall p <- AllPairs(t) :: Placed(t, p))
    requires j < |s| && forall p <- AllPairs(t) :: !InRegion(t, p, j)
    ensures !Replaced(t, s, flip, j)
  {
    forall p | p in AllPairs(t)
      ensures j != HiddenSide(t, p, flip)
    {
      assert !InRegion(t, p, j);
    }
  }

  lemma ForcingKeepsGroups(t: Tables, s: States, pri: int)
    requires Fits(t, s) && AllOneVisible(t, s)
    ensures AllOneVisible(t, Forced(t, s, pri))
    ensures forall j: nat :: j < |s| ==> Forced(t, s, pri)[j].visible == (IsForced(t, j) || s[j].visible)
  {
    var f := Forced(t, s, pri);
    forall j | 0 <= j < |s| && IsGroup(t.layers[j].name)
      ensures f[j] == s[j]
    {
      assert !IsForceVisible(t.layers[j].name);
    }
    forall g | g in AllGroups(t)
      ensures OneVisible(t, f, g.owner)
    {
      assert OneVisible(t, s, g.owner);
      var x: nat :| OnlyVisible(t, s, g.owner, x);
      assert OnlyVisible(t, f, g.owner, x);
    }
  }

  /** The result of `Apply` does not depend on the order in which Go iterates its maps. */
  lemma ApplyOrderIrrelevant(t: Tables, s: States, flip: int, pri: int,
                             g1: seq<Group>, p1: seq<FlipPair>, g2: seq<Group>, p2: seq<FlipPair>)
    requires Regular(t) && Fits(t, s)
    requires OrderOf(g1, AllGroups(t)) && OrderOf(g2, AllGroups(t))
    requires OrderOf(p1, AllPairs(t)) && OrderOf(p2, AllPairs(t))
    ensures Normalized(t, s, flip, pri, g1, p1) == Normalized(t, s, flip, pri, g2, p2)
  {
    RegularIsSeparate(t);
    GroupOrderIrrelevant(t, Forced(t, s, pri + 1), g1, g2, pri + 2);
    FlipOrderIrrelevant(t, GroupFold(t, Forced(t, s, pri + 1), g1, pri + 2), p1, p2, flip, pri + 4);
  }
}
