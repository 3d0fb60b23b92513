/** Every tree with distinct sequence numbers builds well-formed tables: rows and maps agree, and
    the radio group of a layer is exactly its group-named siblings. */
module LayerWellFormed {
  import opened Names
  import opened LayerTables
  import opened LayerBuild
  import opened LayerPaths

  /** `g` files exactly the group-named rows at or below sibling list `low`, each under its own list. */
  ghost predicate Files(rows: seq<Layer>, low: int, g: map<SeqID, Group>)
  {
    && (forall k :: 0 <= k < |rows| && rows[k].parent >= low && IsGroup(rows[k].name) ==>
         rows[k].seqId in g && g[rows[k].seqId].owner == rows[k].parent)
    && (forall id <- g :: GroupRow(rows, low, id))
    && Closed(g)
  }

  lemma ClosedUnion(g: map<SeqID, Group>, h: map<SeqID, Group>)
    requires Closed(g) && Closed(h) && g.Keys !! h.Keys
    requires forall x, y :: x in g && y in h ==> g[x].owner != h[y].owner
    ensures Closed(g + h)
  {
    var u := g + h;
    forall id | id in u
      ensures id in u[id].members && forall m <- u[id].members :: m in u && u[m] == u[id]
    {
      UnionMembers(g, h, id);
    }
    forall x, y | x in u && y in u && u[x].owner == u[y].owner
      ensures u[x] == u[y]
    {
      assert x in g <==> y in g;
    }
  }

  lemma UnionMembers(g: map<SeqID, Group>, h: map<SeqID, Group>, id: SeqID)
    requires Closed(g) && Closed(h) && g.Keys !! h.Keys && id in g + h
    ensures var u := g + h; id in u[id].members && forall m <- u[id].members :: m in u && u[m] == u[id]
  {}

  ghost predicate GroupRow(rows: seq<Layer>, low: int, id: SeqID)
  {
    exists k :: 0 <= k < |rows| && rows[k].seqId == id && rows[k].parent >= low && IsGroup(rows[k].name)
  }

  lemma OwnerInRange(rows: seq<Layer>, low: int, g: map<SeqID, Group>, id: SeqID) returns (k: nat)
    requires Files(rows, low, g) && id in g
    ensures k < |rows| && rows[k].seqId == id && rows[k].parent == g[id].owner && g[id].owner >= low
  {
    assert GroupRow(rows, low, id);
    k :| 0 <= k < |rows| && rows[k].seqId == id && rows[k].parent >= low && IsGroup(rows[k].name);
  }

  lemma AcrossDiffer(a: seq<Layer>, b: seq<Layer>, k: nat, j: nat)
    requires DistinctIds(a + b) && k < |a| && j < |b|
    ensures a[k].seqId != b[j].seqId
  {
    assert (a + b)[k] == a[k] && (a + b)[|a| + j] == b[j];
  }

  lemma FilesUnion(a: seq<Layer>, b: seq<Layer>, low: int, mid: int, g: map<SeqID, Group>, h: map<SeqID, Group>)
    requires low <= mid && DistinctIds(a + b) && Files(a, low, g) && Files(b, mid, h)
    requires forall r <- a :: r.parent < mid
    requires forall r <- b :: r.parent >= low ==> r.parent >= mid
    ensures Files(a + b, low, g + h)
  {
    hide IsGroup, Closed;
    var all, u := a + b, g + h;
    forall id | id in g
      ensures id !in h && g[id].owner < mid && GroupRow(all, low, id)
    {
      var k := OwnerInRange(a, low, g, id);
      assert a[k] in a && all[k] == a[k];
      if id in h {
        var j := OwnerInRange(b, mid, h, id);
        AcrossDiffer(a, b, k, j);
      }
      assert GroupRow(a, low, id);
      var i :| 0 <= i < |a| && a[i].seqId == id && a[i].parent >= low && IsGroup(a[i].name);
      assert all[i] == a[i];
    }
    forall id | id in h
      ensures h[id].owner >= mid && GroupRow(all, low, id)
    {
      var j := OwnerInRange(b, mid, h, id);
      assert GroupRow(b, mid, id);
      var i :| 0 <= i < |b| && b[i].seqId == id && b[i].parent >= mid && IsGroup(b[i].name);
      assert all[|a| + i] == b[i];
    }
    assert g.Keys !! h.Keys by {
      assert forall id <- g.Keys :: id !in h.Keys;
    }
    ClosedUnion(g, h);
    forall k | 0 <= k < |all| && all[k].parent >= low && IsGroup(all[k].name)
      ensures all[k].seqId in u && u[all[k].seqId].owner == all[k].parent
    {
      if k < |a| {
        assert a[k] == all[k];
      } else {
        assert b[k - |a|] == all[k] && all[k] in b;
      }
    }
  }

  // ---------- the rows of one sibling list ----------

  ghost predicate Child(ls: seq<Tree>, id: SeqID, name: string)
  {
    exists i :: 0 <= i < |ls| && ls[i].seqId == id && ls[i].name == name
  }

  ghost predicate DirectRow(rows: seq<Layer>, parent: int, id: SeqID, name: string)
  {
    exists k :: 0 <= k < |rows| && rows[k].seqId == id && rows[k].parent == parent && rows[k].name == name
  }

  lemma {:induction false} RowsBelow(l: Tree, path: string, parent: int, base: nat)
    requires parent < base
    ensures var rows := EnumRows(l, path, parent, base);
      && rows[0].parent == parent && rows[0].seqId == l.seqId && rows[0].name == l.name
      && forall k :: 1 <= k < |rows| ==> base <= rows[k].parent < base + |rows|
    decreases l, 0
  {
    var below := EnumList(l.children, path, map[], base, base + 1);
    ListBelow(l.children, path, map[], base, base + 1);
    var rows := EnumRows(l, path, parent, base);
    assert forall k :: 1 <= k < |rows| ==> rows[k] == below[k - 1];
  }

  lemma {:induction false} ListBelow(ls: seq<Tree>, dir: string, dup: map<string, nat>, parent: int, base: nat)
    requires parent < base
    ensures ParentsIn(EnumList(ls, dir, dup, parent, base), parent, base)
    decreases ls, 1
  {
    hide EnumRows, PathOf, Number;
    if ls != [] {
      var first := EnumRows(ls[0], PathOf(dir, dup, ls[0].name), parent, base);
      RowsBelow(ls[0], PathOf(dir, dup, ls[0].name), parent, base);
      ListBelow(ls[1..], dir, dup[ls[0].name := Number(dup, ls[0].name)], parent, base + |first|);
    }
  }

  /** The direct rows of a sibling list are its members. */
  lemma {:induction false} DirectRows(ls: seq<Tree>, dir: string, dup: map<string, nat>, parent: int, base: nat, id: SeqID, name: string)
    requires parent < base
    ensures DirectRow(EnumList(ls, dir, dup, parent, base), parent, id, name) <==> Child(ls, id, name)
    decreases |ls|
  {
    hide EnumRows, PathOf, Number;
    if ls != [] {
      var d := dup[ls[0].name := Number(dup, ls[0].name)];
      var first := EnumRows(ls[0], PathOf(dir, dup, ls[0].name), parent, base);
      var rest := EnumList(ls[1..], dir, d, parent, base + |first|);
      RowsBelow(ls[0], PathOf(dir, dup, ls[0].name), parent, base);
      DirectRows(ls[1..], dir, d, parent, base + |first|, id, name);
      assert Child(ls, id, name) <==> (ls[0].seqId == id && ls[0].name == name) || Child(ls[1..], id, name) by {
        ChildStep(ls, id, name);
      }
      DirectStep(first, rest, parent, id, name);
    }
  }

  lemma ChildStep(ls: seq<Tree>, id: SeqID, name: string)
    requires ls != []
    ensures Child(ls, id, name) <==> (ls[0].seqId == id && ls[0].name == name) || Child(ls[1..], id, name)
  {
    if Child(ls[1..], id, name) {
      var i :| 0 <= i < |ls[1..]| && ls[1..][i].seqId == id && ls[1..][i].name == name;
      assert ls[i + 1].seqId == id;
    }
    if Child(ls, id, name) {
      var i :| 0 <= i < |ls| && ls[i].seqId == id && ls[i].name == name;
      if i > 0 {
        assert ls[1..][i - 1].seqId == id;
      }
    }
  }

  lemma DirectStep(first: seq<Layer>, rest: seq<Layer>, parent: int, id: SeqID, name: string)
    requires |first| >= 1 && first[0].parent == parent
    requires forall k :: 1 <= k < |first| ==> first[k].parent != parent
    ensures DirectRow(first + rest, parent, id, name) <==>
      (first[0].seqId == id && first[0].name == name) || DirectRow(rest, parent, id, name)
  {
    var all := first + rest;
    if DirectRow(rest, parent, id, name) {
      var i :| 0 <= i < |rest| && rest[i].seqId == id && rest[i].parent == parent && rest[i].name == name;
      assert all[|first| + i] == rest[i];
    }
    if DirectRow(all, parent, id, name) {
      var i :| 0 <= i < |all| && all[i].seqId == id && all[i].parent == parent && all[i].name == name;
      if i > 0 {
        assert rest[i - |first|] == all[i];
      }
    }
    if first[0].seqId == id && first[0].name == name {
      assert all[0].seqId == id;
    }
  }

  lemma {:induction false} GroupIdsMeaning(ls: seq<Tree>, id: SeqID)
    ensures id in GroupIds(ls) <==> exists i :: 0 <= i < |ls| && ls[i].seqId == id && IsGroup(ls[i].name)
  {
    hide IsGroup;
    if ls != [] {
      var init := ls[..|ls| - 1];
      GroupIdsMeaning(init, id);
      if id in GroupIds(init) {
        var i :| 0 <= i < |init| && init[i].seqId == id && IsGroup(init[i].name);
        assert ls[i] == init[i];
      }
      if i :| 0 <= i < |ls| && ls[i].seqId == id && IsGroup(ls[i].name) {
        if i < |ls| - 1 {
          assert init[i] == ls[i];
        }
      }
    }
  }

  /** The group of a sibling list holds exactly its group-named rows. */
  lemma GroupIdsAreRows(ls: seq<Tree>, dir: string, dup: map<string, nat>, parent: int, base: nat, id: SeqID)
    requires parent < base
    ensures id in GroupIds(ls) <==>
      exists k :: 0 <= k < |EnumList(ls, dir, dup, parent, base)| && GroupAt(EnumList(ls, dir, dup, parent, base)[k], parent, id)
  {
    hide EnumList, IsGroup;
    var rows := EnumList(ls, dir, dup, parent, base);
    GroupIdsMeaning(ls, id);
    if id in GroupIds(ls) {
      var i :| 0 <= i < |ls| && ls[i].seqId == id && IsGroup(ls[i].name);
      DirectRows(ls, dir, dup, parent, base, id, ls[i].name);
      assert Child(ls, id, ls[i].name);
      var k :| 0 <= k < |rows| && rows[k].seqId == id && rows[k].parent == parent && rows[k].name == ls[i].name;
      assert GroupAt(rows[k], parent, id);
    }
    if k :| 0 <= k < |rows| && GroupAt(rows[k], parent, id) {
      DirectRows(ls, dir, dup, parent, base, id, rows[k].name);
      assert DirectRow(rows, parent, id, rows[k].name);
      var i :| 0 <= i < |ls| && ls[i].seqId == id && ls[i].name == rows[k].name;
    }
  }

  ghost predicate GroupAt(r: Layer, parent: int, id: SeqID)
  {
    r.parent == parent && r.seqId == id && IsGroup(r.name)
  }

  // ---------- all groups ----------

  /** Adding the group of the list itself to the groups below it. */
  lemma AddOwnGroup(rows: seq<Layer>, parent: int, base: nat, inner: map<SeqID, Group>, g: seq<SeqID>)
    requires parent < base && DistinctIds(rows) && ParentsIn(rows, parent, base) && Files(rows, base, inner)
    requires forall id :: id in g <==> exists k :: 0 <= k < |rows| && GroupAt(rows[k], parent, id)
    ensures Files(rows, parent, inner + GroupEntries(g, parent))
  {
    hide IsGroup, Closed;
    var own := GroupEntries(g, parent);
    OwnIsClosed(g, parent);
    var u := inner + own;
    forall id | id in inner
      ensures id !in g && inner[id].owner >= base && GroupRow(rows, parent, id)
    {
      var j := OwnerInRange(rows, base, inner, id);
      assert GroupRow(rows, base, id);
      var i :| 0 <= i < |rows| && rows[i].seqId == id && rows[i].parent >= base && IsGroup(rows[i].name);
      assert rows[i].parent >= parent;
    }
    forall id | id in own
      ensures GroupRow(rows, parent, id)
    {
      var k :| 0 <= k < |rows| && GroupAt(rows[k], parent, id);
      assert rows[k].seqId == id;
    }
    ClosedUnion(inner, own);
    forall k | 0 <= k < |rows| && rows[k].parent >= parent && IsGroup(rows[k].name)
      ensures rows[k].seqId in u && u[rows[k].seqId].owner == rows[k].parent
    {
      assert rows[k] in rows;
      if rows[k].parent == parent {
        assert GroupAt(rows[k], parent, rows[k].seqId);
      }
    }
  }

  lemma OwnIsClosed(g: seq<SeqID>, parent: int)
    ensures Closed(GroupEntries(g, parent))
  {}

  lemma {:induction false} TotalFiles(ls: seq<Tree>, dir: string, dup: map<string, nat>, parent: int, base: nat)
    requires parent < base && DistinctIds(EnumList(ls, dir, dup, parent, base))
    ensures Files(EnumList(ls, dir, dup, parent, base), parent, InnerGroups(ls, base) + GroupEntries(GroupIds(ls), parent))
    decreases ls, 2
  {
    hide EnumList, InnerGroups, GroupEntries, Files, GroupIds, GroupAt;
    InnerFiles(ls, dir, dup, parent, base);
    ListBelow(ls, dir, dup, parent, base);
    var rows := EnumList(ls, dir, dup, parent, base);
    forall id
      ensures id in GroupIds(ls) <==> exists k :: 0 <= k < |rows| && GroupAt(rows[k], parent, id)
    {
      GroupIdsAreRows(ls, dir, dup, parent, base, id);
    }
    AddOwnGroup(rows, parent, base, InnerGroups(ls, base), GroupIds(ls));
  }

  lemma PartsDistinct(a: seq<Layer>, b: seq<Layer>)
    requires DistinctIds(a + b)
    ensures DistinctIds(a) && DistinctIds(b)
  {
    assert forall i :: 0 <= i < |a| ==> (a + b)[i] == a[i];
    assert forall i :: 0 <= i < |b| ==> (a + b)[|a| + i] == b[i];
  }

  /** A row that heads its subtree is filed elsewhere. */
  lemma HeadIsElsewhere(row: Layer, below: seq<Layer>, low: int, g: map<SeqID, Group>)
    requires row.parent < low && Files(below, low, g)
    ensures Files([row] + below, low, g)
  {
    hide IsGroup;
    var all := [row] + below;
    assert forall k :: 0 <= k < |below| ==> all[k + 1] == below[k];
    forall id | id in g
      ensures GroupRow(all, low, id)
    {
      assert GroupRow(below, low, id);
      var i :| 0 <= i < |below| && below[i].seqId == id && below[i].parent >= low && IsGroup(below[i].name);
      assert all[i + 1] == below[i];
    }
  }

  lemma {:induction false} InnerFiles(ls: seq<Tree>, dir: string, dup: map<string, nat>, parent: int, base: nat)
    requires parent < base && DistinctIds(EnumList(ls, dir, dup, parent, base))
    ensures Files(EnumList(ls, dir, dup, parent, base), base, InnerGroups(ls, base))
    decreases ls, 1
  {
    hide Files, DistinctIds, PathOf, Number, GroupIds, GroupEntries, ParentsIn;
    if ls == [] {
      NothingFiled(base);
    } else {
      var l, d, path := ls[0], dup[ls[0].name := Number(dup, ls[0].name)], PathOf(dir, dup, ls[0].name);
      var first := EnumRows(l, path, parent, base);
      var rest := EnumList(ls[1..], dir, d, parent, base + |first|);
      var row := Layer(l.name, l.seqId, path, parent, Ids(l.children));
      var below := EnumList(l.children, path, map[], base, base + 1);
      PartsDistinct(first, rest);
      PartsDistinct([row], below);
      TotalFiles(l.children, path, map[], base, base + 1);
      HeadIsElsewhere(row, below, base, GroupsBelow(l, base));
      SizeOfRows(l, path, parent, base);
      InnerFiles(ls[1..], dir, d, parent, base + |first|);
      ListRanges(l, ls[1..], path, dir, d, parent, base);
      FilesUnion(first, rest, base, base + |first|, GroupsBelow(l, base), InnerGroups(ls[1..], base + |first|));
    }
  }

  lemma ListRanges(l: Tree, ls: seq<Tree>, path: string, dir: string, dup: map<string, nat>, parent: int, base: nat)
    requires parent < base
    ensures var first := EnumRows(l, path, parent, base);
      && (forall r <- first :: r.parent < base + |first|)
      && (forall r <- EnumList(ls, dir, dup, parent, base + |first|) :: r.parent >= base ==> r.parent >= base + |first|)
  {
    hide EnumRows, EnumList;
    var first := EnumRows(l, path, parent, base);
    RowsBelow(l, path, parent, base);
    ListBelow(ls, dir, dup, parent, base + |first|);
    forall r <- first
      ensures r.parent < base + |first|
    {
      var k :| 0 <= k < |first| && first[k] == r;
    }
  }

  lemma NothingFiled(low: int)
    ensures Files([], low, map[])
  {}

  // ---------- the tables ----------

  lemma BuiltRowsAreLinked(roots: seq<Tree>)
    requires DistinctIds(Build(roots).layers)
    ensures RowsLinked(Build(roots))
  {
    hide EnumList, MappedOf, FullPathOf, LinkedFrom, DistinctIds;
    var t := Build(roots);
    RowsAreBuilt(roots);
    MappedOfMeaning(t.layers);
    FullPathOfMeaning(t.layers);
    forall i | 0 <= i < |t.layers|
      ensures -1 <= t.layers[i].parent < i
      ensures t.layers[i].parent >= 0 ==> t.layers[i].seqId in t.layers[t.layers[i].parent].children
    {
      RowLinks(t.layers, i);
    }
    forall i, c | 0 <= i < |t.layers| && c in t.layers[i].children && c in t.mapped
      ensures t.layers[t.mapped[c]].parent == i
      ensures |t.layers[i].fullPath| <= |t.layers[t.mapped[c]].fullPath|
    {
      var k := ChildLinks(t.layers, i, c);
      assert t.mapped[c] == k;
    }
  }

  lemma RowLinks(rows: seq<Layer>, i: nat)
    requires LinkedFrom(rows, 0) && i < |rows|
    ensures -1 <= rows[i].parent < i
    ensures rows[i].parent >= 0 ==> rows[i].seqId in rows[rows[i].parent].children
    ensures rows[i].parent >= 0 ==> |rows[rows[i].parent].fullPath| <= |rows[i].fullPath|
  {
    hide ChildrenDone;
    assert RowOk(rows, i);
    var n := RowLabel(rows, i);
  }

  lemma ChildLinks(rows: seq<Layer>, i: nat, c: SeqID) returns (k: nat)
    requires LinkedFrom(rows, 0) && i < |rows| && c in rows[i].children
    ensures k < |rows| && rows[k].seqId == c && rows[k].parent == i
    ensures |rows[i].fullPath| <= |rows[k].fullPath|
  {
    assert ChildrenDone(rows, i) && HasChildRow(rows, i, c);
    k :| 0 <= k < |rows| && rows[k].seqId == c && rows[k].parent == i;
    RowLinks(rows, k);
  }

  lemma BuiltGroupsAreLinked(roots: seq<Tree>)
    requires DistinctIds(Build(roots).layers)
    ensures RowsLinked(Build(roots)) && GroupsLinked(Build(roots))
  {
    hide EnumList, MappedOf, FullPathOf, InnerGroups, GroupEntries, RowsLinked, Files, DistinctIds, GroupIds, GroupsLinked;
    BuiltRowsAreLinked(roots);
    TotalFiles(roots, "", map[], -1, 0);
    FiledIsLinked(Build(roots));
  }

  lemma FiledIsLinked(t: Tables)
    requires RowsLinked(t) && Files(t.layers, -1, t.groupMap)
    ensures GroupsLinked(t)
  {
    FiledRows(t);
    MappedInRange(t);
    hide IsGroup, Closed, Files, RowsLinked;
    forall id | id in t.groupMap
      ensures id in t.mapped && t.groupMap[id].owner == t.layers[t.mapped[id]].parent
    {
      FiledRow(t, id);
    }
  }

  lemma MappedInRange(t: Tables)
    requires RowsLinked(t)
    ensures forall id <- t.mapped :: t.mapped[id] < |t.layers|
  {}

  lemma FiledRow(t: Tables, id: SeqID)
    requires RowsLinked(t) && Files(t.layers, -1, t.groupMap) && id in t.groupMap
    ensures id in t.mapped && t.groupMap[id].owner == t.layers[t.mapped[id]].parent && IsGroup(t.layers[t.mapped[id]].name)
  {
    hide IsGroup, Closed;
    assert GroupRow(t.layers, -1, id);
    var k :| 0 <= k < |t.layers| && t.layers[k].seqId == id && t.layers[k].parent >= -1 && IsGroup(t.layers[k].name);
    assert t.mapped[id] == k;
  }

  lemma FiledRows(t: Tables)
    requires RowsLinked(t) && Files(t.layers, -1, t.groupMap)
    ensures Closed(t.groupMap)
    ensures forall i :: 0 <= i < |t.layers| ==> (t.layers[i].seqId in t.groupMap <==> IsGroup(t.layers[i].name))
  {
    hide IsGroup, Closed;
  }

  /** The tables of every tree with distinct sequence numbers are well formed. */
  lemma BuiltIsWellFormed(roots: seq<Tree>)
    requires DistinctIds(Build(roots).layers)
    ensures WellFormed(Build(roots))
  {
    hide EnumList, MappedOf, FullPathOf, InnerGroups, GroupEntries, RowsLinked, GroupsLinked, IsForceVisible;
    var t := Build(roots);
    BuiltGroupsAreLinked(roots);
    MappedOfMeaning(t.layers);
    forall i | 0 <= i < |t.layers| && t.layers[i].seqId in t.forceVisible
      ensures IsForceVisible(t.layers[i].name)
    {
      var k :| 0 <= k < |t.layers| && IsForceVisible(t.layers[k].name) && t.layers[k].seqId == t.layers[i].seqId;
      assert t.mapped[t.layers[k].seqId] == k == i;
    }
  }
}
