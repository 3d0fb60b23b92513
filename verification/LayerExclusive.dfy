/** What showing or hiding a layer exclusively does to its siblings and to everything else
    (`SetVisibleExclusive` of `src/go/img/layerstate.go`). */
module LayerExclusive {
  import opened Names
  import opened LayerTables
  import opened LayerStates
  import opened LayerBuild
  import opened LayerPaths
  import opened LayerWellFormed

  /** The root list holds exactly the layers without a parent. */
  ghost predicate RootsLinked(t: Tables)
  {
    && (forall i :: 0 <= i < |t.layers| ==> (t.layers[i].parent < 0 <==> t.layers[i].seqId in t.roots))
    && forall i :: 0 <= i < |t.layers| ==> t.layers[i].parent >= -1
  }

  /** Every built tree has linked roots. */
  lemma BuiltRootsAreLinked(roots: seq<Tree>)
    requires DistinctIds(Build(roots).layers)
    ensures RootsLinked(Build(roots))
  {
    hide EnumList, RowOk, ChildrenDone;
    var t := Build(roots);
    RowsAreBuilt(roots);
    forall i | 0 <= i < |t.layers|
      ensures t.layers[i].parent >= -1
      ensures t.layers[i].parent < 0 <==> t.layers[i].seqId in t.roots
    {
      RowLinks(t.layers, i);
      var id, name := t.layers[i].seqId, t.layers[i].name;
      if t.layers[i].parent < 0 {
        DirectRows(roots, "", map[], -1, 0, id, name);
        assert DirectRow(t.layers, -1, id, name);
        var k :| 0 <= k < |roots| && roots[k].seqId == id && roots[k].name == name;
        assert Ids(roots)[k] == id;
      }
      if id in t.roots {
        RootIsTop(roots, i);
      }
    }
  }

  lemma RootIsTop(roots: seq<Tree>, i: nat)
    requires DistinctIds(Build(roots).layers) && i < |Build(roots).layers| && Build(roots).layers[i].seqId in Ids(roots)
    ensures Build(roots).layers[i].parent == -1
  {
    hide EnumList;
    var rows := Build(roots).layers;
    var id := rows[i].seqId;
    var k :| 0 <= k < |roots| && Ids(roots)[k] == id;
    DirectRows(roots, "", map[], -1, 0, id, roots[k].name);
    assert Child(roots, id, roots[k].name);
    var m :| 0 <= m < |rows| && rows[m].seqId == id && rows[m].parent == -1 && rows[m].name == roots[k].name;
    assert m == i;
  }

  predicate SameParent(t: Tables, i: nat, j: nat)
    requires i < |t.layers| && j < |t.layers|
  {
    t.layers[i].parent == t.layers[j].parent
  }

  /** The sibling list of a layer holds exactly the layers with its parent. */
  lemma SiblingsShareParent(t: Tables, fi: nat, j: nat)
    requires WellFormed(t) && RootsLinked(t) && fi < |t.layers| && j < |t.layers|
    ensures t.layers[j].seqId in Siblings(t, fi) <==> SameParent(t, fi, j)
  {
    var p := t.layers[fi].parent;
    if p >= 0 && t.layers[j].seqId in t.layers[p].children {
      assert t.mapped[t.layers[j].seqId] == j;
    }
  }

  /** The loop over the siblings sets those outside the radio groups, and only them. */
  lemma {:induction false} SetSiblingsMeaning(t: Tables, s: States, sibs: seq<SeqID>, id: SeqID, visible: bool, pri: int)
    requires Fits(t, s)
    requires forall j :: 0 <= j < |s| && t.layers[j].seqId in sibs && !IsGroup(t.layers[j].name) ==>
      t.layers[j].seqId !in t.syncedMap
    ensures var r := SetSiblings(t, s, sibs, id, visible, pri);
      && pri <= r.1
      && forall j :: 0 <= j < |s| ==>
           if t.layers[j].seqId in sibs && !IsGroup(t.layers[j].name)
           then r.0[j].visible == (t.layers[j].seqId == id && visible) && pri < r.0[j].priority <= r.1
           else r.0[j] == s[j]
    decreases |sibs|
  {
    hide IsGroup, WellFormed, SetState;
    if sibs != [] {
      var rest := sibs[1..];
      assert forall x :: x in sibs <==> x == sibs[0] || x in rest;
      IdsOfRows(t, sibs[0]);
      var f := Find(t, sibs[0]);
      if f.None? || IsGroup(t.layers[f.value].name) {
        SetSiblingsMeaning(t, s, rest, id, visible, pri);
      } else {
        SetUnsynced(t, s, f.value, id == sibs[0] && visible, pri + 1);
        var s1 := s[f.value := LayerState(id == sibs[0] && visible, pri + 1)];
        SetSiblingsMeaning(t, s1, rest, id, visible, pri + 1);
      }
    }
  }

  lemma SetUnsynced(t: Tables, s: States, fi: nat, visible: bool, pri: int)
    requires Fits(t, s) && fi < |s| && t.layers[fi].seqId !in t.syncedMap
    ensures SetState(t, s, fi, visible, pri) == s[fi := LayerState(visible, pri)]
  {
    hide WellFormed;
  }

  lemma IdsOfRows(t: Tables, id: SeqID)
    requires WellFormed(t)
    ensures forall j :: 0 <= j < |t.layers| && t.layers[j].seqId == id ==> Find(t, id) == Some(j)
  {}

  /** Of a layer's siblings outside the radio groups exactly the layer itself is visible afterwards, none
      when hiding; group siblings and all layers elsewhere keep their state.  A group layer is only set. */
  lemma ExclusiveMeaning(t: Tables, s: States, fi: nat, visible: bool, pri: int)
    requires Fits(t, s) && RootsLinked(t) && fi < |s|
    requires forall j :: 0 <= j < |s| && SameParent(t, fi, j) ==> t.layers[j].seqId !in t.syncedMap
    ensures var r := Exclusive(t, s, fi, visible, pri);
      && pri <= r.1
      && (IsGroup(t.layers[fi].name) ==> r == (s[fi := LayerState(visible, pri)], pri))
      && (!IsGroup(t.layers[fi].name) ==> forall j :: 0 <= j < |s| ==>
           if SameParent(t, fi, j) && !IsGroup(t.layers[j].name)
           then r.0[j].visible == (j == fi && visible) && pri < r.0[j].priority <= r.1
           else r.0[j] == s[j])
  {
    hide IsGroup, GroupsLinked;
    var sibs := Siblings(t, fi);
    forall j: nat | j < |s|
      ensures t.layers[j].seqId in sibs <==> SameParent(t, fi, j)
      ensures t.layers[j].seqId == t.layers[fi].seqId <==> j == fi
    {
      SiblingsShareParent(t, fi, j);
    }
    if !IsGroup(t.layers[fi].name) {
      SetSiblingsMeaning(t, s, sibs, t.layers[fi].seqId, visible, pri);
    }
  }

  /** `id` or a layer synced with it. */
  predicate Reaches(t: Tables, id: SeqID, other: SeqID)
  {
    other == id || (id in t.syncedMap && other in t.syncedMap[id])
  }

  lemma {:induction false} SetManyElsewhere(t: Tables, s: States, ids: seq<SeqID>, visible: bool, pri: int, j: nat)
    requires Fits(t, s) && j < |s| && t.layers[j].seqId !in ids
    ensures SetMany(t, s, ids, visible, pri)[j] == s[j]
  {
    if ids != [] {
      SetManyElsewhere(t, s, ids[..|ids| - 1], visible, pri, j);
    }
  }

  lemma {:induction false} SetSiblingsElsewhere(t: Tables, s: States, sibs: seq<SeqID>, id: SeqID, visible: bool, pri: int, j: nat)
    requires Fits(t, s) && j < |s|
    requires forall i :: 0 <= i < |t.layers| && t.layers[i].seqId in sibs && !IsGroup(t.layers[i].name) ==>
      !Reaches(t, t.layers[i].seqId, t.layers[j].seqId)
    ensures SetSiblings(t, s, sibs, id, visible, pri).0[j] == s[j]
    decreases |sibs|
  {
    hide IsGroup, GroupsLinked;
    if sibs != [] {
      var rest := sibs[1..];
      assert forall x :: x in rest ==> x in sibs;
      var f := Find(t, sibs[0]);
      if f.None? || IsGroup(t.layers[f.value].name) {
        SetSiblingsElsewhere(t, s, rest, id, visible, pri, j);
      } else {
        assert !Reaches(t, sibs[0], t.layers[j].seqId);
        var s1 := SetState(t, s, f.value, id == sibs[0] && visible, pri + 1);
        if sibs[0] in t.syncedMap {
          SetManyElsewhere(t, s, t.syncedMap[sibs[0]], id == sibs[0] && visible, pri + 1, j);
        }
        SetSiblingsElsewhere(t, s1, rest, id, visible, pri + 1, j);
      }
    }
  }

  /** With synced layers: whatever is no sibling outside the groups, nor synced with one, keeps its state. */
  lemma ExclusiveElsewhere(t: Tables, s: States, fi: nat, visible: bool, pri: int, j: nat)
    requires Fits(t, s) && RootsLinked(t) && fi < |s| && j < |s| && !IsGroup(t.layers[fi].name)
    requires forall i :: 0 <= i < |s| && SameParent(t, fi, i) && !IsGroup(t.layers[i].name) ==>
      !Reaches(t, t.layers[i].seqId, t.layers[j].seqId)
    ensures Exclusive(t, s, fi, visible, pri).0[j] == s[j]
  {
    hide IsGroup, GroupsLinked, Reaches;
    forall i: nat | i < |s|
      ensures t.layers[i].seqId in Siblings(t, fi) <==> SameParent(t, fi, i)
    {
      SiblingsShareParent(t, fi, i);
    }
    SetSiblingsElsewhere(t, s, Siblings(t, fi), t.layers[fi].seqId, visible, pri, j);
  }
}
