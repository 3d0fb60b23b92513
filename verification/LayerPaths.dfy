/** What the built tables guarantee: linked rows and groups for every tree, and regular paths
    when no name holds a backslash and no top-level name is empty. */
module LayerPaths {
  import opened Names
  import opened LayerTables
  import opened LayerBuild
  import Prop

  // ---------- the maps ----------

  ghost predicate DistinctIds(rows: seq<Layer>)
  {
    forall i, j :: 0 <= i < j < |rows| ==> rows[i].seqId != rows[j].seqId
  }

  lemma {:induction false} MappedOfMeaning(rows: seq<Layer>)
    requires DistinctIds(rows)
    ensures forall i :: 0 <= i < |rows| ==> rows[i].seqId in MappedOf(rows) && MappedOf(rows)[rows[i].seqId] == i
    ensures forall id <- MappedOf(rows) :: MappedOf(rows)[id] < |rows| && rows[MappedOf(rows)[id]].seqId == id
  {
    if rows != [] {
      MappedOfMeaning(rows[..|rows| - 1]);
    }
  }

  lemma {:induction false} FullPathOfMeaning(rows: seq<Layer>)
    ensures forall i :: 0 <= i < |rows| ==> rows[i].fullPath in FullPathOf(rows)
    ensures forall p <- FullPathOf(rows) :: FullPathOf(rows)[p] < |rows| && rows[FullPathOf(rows)[p]].fullPath == p
  {
    if rows != [] {
      FullPathOfMeaning(rows[..|rows| - 1]);
    }
  }

  // ---------- links between rows ----------

  /** Row `i` is listed by its parent and continues its parent's path. */
  ghost predicate RowOk(rows: seq<Layer>, i: nat)
    requires i < |rows|
  {
    var p := rows[i].parent;
    && -1 <= p < i
    && (p >= 0 ==> rows[i].seqId in rows[p].children)
    && SomeLabel(rows[i], if p >= 0 then rows[p].fullPath else "")
  }

  ghost predicate SomeLabel(row: Layer, dir: string)
  {
    exists n: nat :: Labelled(row, dir, n)
  }

  ghost predicate Labelled(row: Layer, dir: string, n: nat)
  {
    row.fullPath == PathBelow(dir, Escaped(Raw(row.name, n)))
  }

  /** Every child that row `i` lists has a row. */
  ghost predicate ChildrenDone(rows: seq<Layer>, i: nat)
    requires i < |rows|
  {
    forall c <- rows[i].children :: HasChildRow(rows, i, c)
  }

  ghost predicate HasChildRow(rows: seq<Layer>, p: int, c: SeqID)
  {
    exists k :: 0 <= k < |rows| && rows[k].seqId == c && rows[k].parent == p
  }

  ghost predicate LinkedFrom(rows: seq<Layer>, base: nat)
    requires base <= |rows|
  {
    forall i :: base <= i < |rows| ==> RowOk(rows, i) && ChildrenDone(rows, i)
  }

  lemma RowOkExtends(rows: seq<Layer>, more: seq<Layer>, i: nat)
    requires i < |rows| && RowOk(rows, i) && ChildrenDone(rows, i)
    ensures RowOk(rows + more, i) && ChildrenDone(rows + more, i)
  {
    var all := rows + more;
    forall c | c in all[i].children
      ensures HasChildRow(all, i, c)
    {
      assert HasChildRow(rows, i, c);
      var k :| 0 <= k < |rows| && rows[k].seqId == c && rows[k].parent == i;
      assert all[k] == rows[k];
    }
  }

  ghost predicate Parented(prefix: seq<Layer>, parent: int, dir: string)
  {
    && -1 <= parent < |prefix|
    && dir == if parent >= 0 then prefix[parent].fullPath else ""
  }

  lemma {:induction false} RowsLinkedBelow(prefix: seq<Layer>, l: Tree, path: string, parent: int, dir: string, n: nat)
    requires Parented(prefix, parent, dir) && (parent >= 0 ==> l.seqId in prefix[parent].children)
    requires path == PathBelow(dir, Escaped(Raw(l.name, n)))
    ensures LinkedFrom(prefix + EnumRows(l, path, parent, |prefix|), |prefix|)
    ensures HasChildRow(prefix + EnumRows(l, path, parent, |prefix|), parent, l.seqId)
    decreases l, 0
  {
    hide EnumList, Raw, Escaped, PathBelow;
    var row := Layer(l.name, l.seqId, path, parent, Ids(l.children));
    var start, base := prefix + [row], |prefix|;
    var below := EnumList(l.children, path, map[], base, base + 1);
    var all := start + below;
    assert prefix + EnumRows(l, path, parent, base) == all;
    forall c <- l.children
      ensures c.seqId in start[base].children
    {
      var k :| 0 <= k < |l.children| && l.children[k] == c;
      assert Ids(l.children)[k] == c.seqId;
    }
    ListLinked(start, l.children, path, map[], base);
    assert all[base] == row;
    assert Labelled(all[base], if parent >= 0 then all[parent].fullPath else "", n);
    forall c | c in all[base].children
      ensures HasChildRow(all, base, c)
    {
      var k :| 0 <= k < |l.children| && l.children[k].seqId == c;
    }
  }

  lemma LinkedJoin(rows: seq<Layer>, more: seq<Layer>, base: nat)
    requires base <= |rows| && LinkedFrom(rows, base) && LinkedFrom(rows + more, |rows|)
    ensures LinkedFrom(rows + more, base)
  {
    hide RowOk, ChildrenDone;
    forall i | base <= i < |rows|
      ensures RowOk(rows + more, i) && ChildrenDone(rows + more, i)
    {
      RowOkExtends(rows, more, i);
    }
  }

  lemma HasChildExtends(rows: seq<Layer>, more: seq<Layer>, p: int, c: SeqID)
    requires HasChildRow(rows, p, c)
    ensures HasChildRow(rows + more, p, c)
  {
    var k :| 0 <= k < |rows| && rows[k].seqId == c && rows[k].parent == p;
    assert (rows + more)[k] == rows[k];
  }

  lemma {:induction false} ListLinked(prefix: seq<Layer>, ls: seq<Tree>, dir: string, dup: map<string, nat>, parent: int)
    requires Parented(prefix, parent, dir)
    requires parent >= 0 ==> forall l <- ls :: l.seqId in prefix[parent].children
    ensures LinkedFrom(RowsPending(prefix, ls, dir, dup, parent), |prefix|)
    ensures forall k :: 0 <= k < |ls| ==> HasChildRow(RowsPending(prefix, ls, dir, dup, parent), parent, ls[k].seqId)
    decreases ls, 1
  {
    hide RowOk, ChildrenDone, LinkedFrom, EnumRows, PathOf, HasChildRow, EnumList;
    if ls == [] {
      assert EnumList(ls, dir, dup, parent, |prefix|) == [] by { EnumNothing(dir, dup, parent, |prefix|); }
      assert RowsPending(prefix, ls, dir, dup, parent) == prefix;
      NothingLinked(prefix);
    } else {
      var l, n := ls[0], Number(dup, ls[0].name);
      var mid := prefix + EnumRows(l, PathOf(dir, dup, l.name), parent, |prefix|);
      var rest := EnumList(ls[1..], dir, dup[l.name := n], parent, |mid|);
      RowsStep(prefix, ls, dir, dup, parent);
      assert forall x <- ls[1..] :: x in ls;
      assert PathOf(dir, dup, l.name) == PathBelow(dir, Escaped(Raw(l.name, n))) by { PathOfMeaning(dir, dup, l.name); }
      RowsLinkedBelow(prefix, l, PathOf(dir, dup, l.name), parent, dir, n);
      ListLinked(mid, ls[1..], dir, dup[l.name := n], parent);
      LinkedJoin(mid, rest, |prefix|);
      HasChildExtends(mid, rest, parent, l.seqId);
      forall k | 0 <= k < |ls|
        ensures HasChildRow(mid + rest, parent, ls[k].seqId)
      {
        if k > 0 {
          assert ls[1..][k - 1] == ls[k];
        }
      }
    }
  }

  lemma EnumNothing(dir: string, dup: map<string, nat>, parent: int, base: nat)
    ensures EnumList([], dir, dup, parent, base) == []
  {}

  lemma PathOfMeaning(dir: string, dup: map<string, nat>, name: string)
    ensures PathOf(dir, dup, name) == PathBelow(dir, Escaped(Raw(name, Number(dup, name))))
  {}

  lemma NothingLinked(rows: seq<Layer>)
    ensures LinkedFrom(rows, |rows|)
  {}

  // ---------- siblings get different parts ----------

  predicate Plain(name: string) { '\\' !in name }

  ghost predicate PlainTree(l: Tree)
    decreases l, 0
  {
    Plain(l.name) && PlainList(l.children)
  }

  ghost predicate PlainList(ls: seq<Tree>)
    decreases ls, 1
  {
    ls == [] || (PlainTree(ls[0]) && PlainList(ls[1..]))
  }

  /** Rows that belong to no later sibling list than `[base, base + |rows|)`. */
  ghost predicate ParentsIn(rows: seq<Layer>, parent: int, base: nat)
  {
    forall r <- rows :: r.parent == parent || base <= r.parent < base + |rows|
  }

  ghost predicate SiblingsDiffer(rows: seq<Layer>)
  {
    forall i, j :: 0 <= i < j < |rows| && rows[i].parent == rows[j].parent ==> rows[i].fullPath != rows[j].fullPath
  }

  /** A direct row whose number is not below what `dup` hands out next. */
  ghost predicate FreshLabel(row: Layer, dir: string, dup: map<string, nat>)
  {
    exists n: nat :: n >= Number(dup, row.name) && Labelled(row, dir, n)
  }

  ghost predicate DirectFresh(rows: seq<Layer>, parent: int, dir: string, dup: map<string, nat>)
  {
    forall r <- rows :: r.parent == parent ==> FreshLabel(r, dir, dup)
  }

  ghost predicate AllPlain(rows: seq<Layer>)
  {
    forall r <- rows :: Plain(r.name)
  }

  /** A numbered name determines the name and the number. */
  lemma RawInjective(a: string, m: nat, b: string, n: nat)
    requires Plain(a) && Plain(b) && Raw(a, m) == Raw(b, n)
    ensures a == b && m == n
  {
    var s := Raw(a, m);
    if m > 0 {
      assert s[|a|] == '\\';
    }
    if n > 0 {
      assert s[|b|] == '\\';
    }
    if m > 0 && n > 0 {
      DecimalRoundTrip(m);
      DecimalRoundTrip(n);
      var da, db := s[|a| + 1..], s[|b| + 1..];
      assert da == Decimal(m) && db == Decimal(n);
      assert |a| == |b| && a == s[..|a|] && b == s[..|b|];
    }
  }

  lemma LabelsDiffer(x: Layer, y: Layer, dir: string, m: nat, n: nat)
    requires Labelled(x, dir, m) && Labelled(y, dir, n) && x.fullPath == y.fullPath && Plain(x.name) && Plain(y.name)
    ensures x.name == y.name && m == n
  {
    var p, q := Escaped(Raw(x.name, m)), Escaped(Raw(y.name, n));
    if dir != "" {
      assert p == x.fullPath[|dir| + 1..] && q == y.fullPath[|dir| + 1..];
    }
    EscapedInjective(Raw(x.name, m), Raw(y.name, n));
    RawInjective(x.name, m, y.name, n);
  }

  lemma FreshAfter(x: Layer, y: Layer, dir: string, dup: map<string, nat>)
    requires Plain(x.name) && Plain(y.name)
    requires Labelled(x, dir, Number(dup, x.name)) && FreshLabel(y, dir, dup[x.name := Number(dup, x.name)])
    ensures x.fullPath != y.fullPath && FreshLabel(y, dir, dup)
  {
    var n: nat :| n >= Number(dup[x.name := Number(dup, x.name)], y.name) && Labelled(y, dir, n);
    if x.fullPath == y.fullPath {
      LabelsDiffer(x, y, dir, Number(dup, x.name), n);
    }
  }

  lemma FirstIsFresh(row: Layer, dir: string, dup: map<string, nat>)
    requires Labelled(row, dir, Number(dup, row.name))
    ensures FreshLabel(row, dir, dup)
  {}

  lemma {:induction false} RowsApart(l: Tree, path: string, parent: int, base: nat)
    requires parent < base && PlainTree(l)
    ensures var rows := EnumRows(l, path, parent, base);
      && rows[0].parent == parent && rows[0].name == l.name && rows[0].fullPath == path
      && AllPlain(rows) && SiblingsDiffer(rows)
      && forall k :: 1 <= k < |rows| ==> base <= rows[k].parent < base + |rows|
    decreases l, 0
  {
    hide EnumList, PathOf, Number;
    ListApart(l.children, path, map[], base, base + 1);
    var below := EnumList(l.children, path, map[], base, base + 1);
    var rows := EnumRows(l, path, parent, base);
    assert forall k :: 1 <= k < |rows| ==> rows[k] == below[k - 1];
  }

  lemma {:induction false} ListApart(ls: seq<Tree>, dir: string, dup: map<string, nat>, parent: int, base: nat)
    requires parent < base && PlainList(ls)
    ensures var rows := EnumList(ls, dir, dup, parent, base);
      && AllPlain(rows) && SiblingsDiffer(rows) && ParentsIn(rows, parent, base) && DirectFresh(rows, parent, dir, dup)
    decreases ls, 1
  {
    hide EnumRows, PathOf, Number, AllPlain, SiblingsDiffer, Labelled;
    if ls == [] {
      NothingApart(parent, base, dir, dup);
    } else {
      var l, n := ls[0], Number(dup, ls[0].name);
      var first := EnumRows(l, PathOf(dir, dup, l.name), parent, base);
      var rest := EnumList(ls[1..], dir, dup[l.name := n], parent, base + |first|);
      RowsApart(l, PathOf(dir, dup, l.name), parent, base);
      ListApart(ls[1..], dir, dup[l.name := n], parent, base + |first|);
      assert Labelled(first[0], dir, n) by {
        PathIsLabelled(first[0], dir, dup);
      }
      ApartJoin(first, rest, dir, dup, parent, base);
    }
  }

  lemma NothingApart(parent: int, base: nat, dir: string, dup: map<string, nat>)
    ensures AllPlain([]) && SiblingsDiffer([]) && ParentsIn([], parent, base) && DirectFresh([], parent, dir, dup)
  {}

  lemma PathIsLabelled(row: Layer, dir: string, dup: map<string, nat>)
    requires row.fullPath == PathOf(dir, dup, row.name)
    ensures Labelled(row, dir, Number(dup, row.name))
  {}

  lemma ApartJoin(first: seq<Layer>, rest: seq<Layer>, dir: string, dup: map<string, nat>, parent: int, base: nat)
    requires parent < base && |first| >= 1
    requires AllPlain(first) && SiblingsDiffer(first) && AllPlain(rest) && SiblingsDiffer(rest)
    requires first[0].parent == parent && Labelled(first[0], dir, Number(dup, first[0].name))
    requires forall k :: 1 <= k < |first| ==> base <= first[k].parent < base + |first|
    requires ParentsIn(rest, parent, base + |first|)
    requires DirectFresh(rest, parent, dir, dup[first[0].name := Number(dup, first[0].name)])
    ensures AllPlain(first + rest) && SiblingsDiffer(first + rest)
    ensures ParentsIn(first + rest, parent, base) && DirectFresh(first + rest, parent, dir, dup)
  {
    hide Labelled, FreshLabel, Number;
    FirstIsFresh(first[0], dir, dup);
    forall r <- rest | r.parent == parent
      ensures r.fullPath != first[0].fullPath && FreshLabel(r, dir, dup)
    {
      FreshAfter(first[0], r, dir, dup);
    }
    var all := first + rest;
    forall i, j | 0 <= i < j < |all| && all[i].parent == all[j].parent
      ensures all[i].fullPath != all[j].fullPath
    {
      if j >= |first| {
        assert all[j] == rest[j - |first|] && all[j] in rest;
        if i >= |first| {
          assert all[i] == rest[i - |first|];
        }
      }
    }
  }

  // ---------- full paths are distinct ----------

  /** What the construction of `rows` leaves us with. */
  ghost predicate PathsBuilt(rows: seq<Layer>)
  {
    && LinkedFrom(rows, 0) && SiblingsDiffer(rows) && AllPlain(rows)
    && TopsNamed(rows)
  }

  ghost predicate TopsNamed(rows: seq<Layer>) { forall r <- rows :: r.parent < 0 ==> r.name != "" }

  lemma {:induction false} TopNamed(ls: seq<Tree>, dir: string, dup: map<string, nat>, base: nat)
    requires PlainList(ls) && forall l <- ls :: l.name != ""
    ensures TopsNamed(EnumList(ls, dir, dup, -1, base))
    decreases |ls|
  {
    hide EnumRows, PathOf, Number, AllPlain, SiblingsDiffer, PlainTree, TopsNamed;
    if ls == [] {
      NothingNamed();
    } else {
      var n := Number(dup, ls[0].name);
      var first := EnumRows(ls[0], PathOf(dir, dup, ls[0].name), -1, base);
      RowsApart(ls[0], PathOf(dir, dup, ls[0].name), -1, base);
      assert forall l <- ls[1..] :: l in ls;
      TopNamed(ls[1..], dir, dup[ls[0].name := n], base + |first|);
      NamedJoin(first, EnumList(ls[1..], dir, dup[ls[0].name := n], -1, base + |first|));
    }
  }

  lemma NothingNamed()
    ensures TopsNamed([])
  {}

  lemma NamedJoin(first: seq<Layer>, rest: seq<Layer>)
    requires first != [] && first[0].name != "" && (forall k :: 1 <= k < |first| ==> first[k].parent >= 0) && TopsNamed(rest)
    ensures TopsNamed(first + rest)
  {}

  lemma RowLabel(rows: seq<Layer>, i: nat) returns (n: nat)
    requires LinkedFrom(rows, 0) && i < |rows|
    ensures -1 <= rows[i].parent < i
    ensures Labelled(rows[i], if rows[i].parent >= 0 then rows[rows[i].parent].fullPath else "", n)
  {
    assert RowOk(rows, i);
    n :| Labelled(rows[i], if rows[i].parent >= 0 then rows[rows[i].parent].fullPath else "", n);
  }

  lemma EscapedNonEmpty(s: string)
    requires s != ""
    ensures Escaped(s) != ""
  {}

  /** Each path is its parent's path, a slash and one slash-free part. */
  lemma {:induction false} PathShape(rows: seq<Layer>, i: nat) returns (n: nat)
    requires PathsBuilt(rows) && i < |rows|
    ensures rows[i].fullPath != "" && -1 <= rows[i].parent < i
    ensures var part := Escaped(Raw(rows[i].name, n));
      '/' !in part && rows[i].fullPath == if rows[i].parent >= 0 then rows[rows[i].parent].fullPath + "/" + part else part
    decreases i
  {
    n := RowLabel(rows, i);
    EscapedIsClean(Raw(rows[i].name, n));
    if rows[i].parent >= 0 {
      var _ := PathShape(rows, rows[i].parent);
    } else {
      assert rows[i] in rows;
      EscapedNonEmpty(Raw(rows[i].name, n));
    }
  }

  lemma {:induction false} PathsDiffer(rows: seq<Layer>, i: nat, j: nat)
    requires PathsBuilt(rows) && i < |rows| && j < |rows| && i != j
    ensures rows[i].fullPath != rows[j].fullPath
    decreases i + j
  {
    var p, q := rows[i].parent, rows[j].parent;
    var m := PathShape(rows, i);
    var n := PathShape(rows, j);
    if p == q {
      return;
    }
    if p >= 0 && q >= 0 {
      PathsDiffer(rows, p, q);
      if rows[i].fullPath == rows[j].fullPath {
        LastSlash(rows[p].fullPath, Escaped(Raw(rows[i].name, m)), rows[q].fullPath, Escaped(Raw(rows[j].name, n)));
      }
    } else if p >= 0 {
      assert rows[i].fullPath[|rows[p].fullPath|] == '/';
    } else {
      assert rows[j].fullPath[|rows[q].fullPath|] == '/';
    }
  }

  ghost predicate PlainTops(roots: seq<Tree>)
  {
    PlainList(roots) && forall l <- roots :: l.name != ""
  }

  lemma RowsAreBuilt(roots: seq<Tree>)
    ensures LinkedFrom(Build(roots).layers, 0)
    ensures PlainTops(roots) ==> PathsBuilt(Build(roots).layers)
  {
    hide RowOk, ChildrenDone, EnumList, Labelled, FreshLabel;
    ListLinked([], roots, "", map[], -1);
    assert [] + Build(roots).layers == Build(roots).layers;
    if PlainTops(roots) {
      ListApart(roots, "", map[], -1, 0);
      TopNamed(roots, "", map[], 0);
    }
  }

  /** Every path of every tree is path-like, so that its encoded form is read back. */
  lemma {:induction false} BuiltPathsArePathLike(rows: seq<Layer>, i: nat)
    requires LinkedFrom(rows, 0) && i < |rows|
    ensures Prop.PathLike(rows[i].fullPath)
    decreases i
  {
    hide Prop.PathLike;
    var n := RowLabel(rows, i);
    var part := Escaped(Raw(rows[i].name, n));
    Prop.EscapedNameIsPathLike(Raw(rows[i].name, n));
    if rows[i].parent >= 0 {
      var above := rows[rows[i].parent].fullPath;
      BuiltPathsArePathLike(rows, rows[i].parent);
      SlashIsPathLike();
      Prop.PathLikeAppend(above, "/");
      Prop.PathLikeAppend(above + "/", part);
    }
  }

  lemma SlashIsPathLike()
    ensures Prop.PathLike("/")
  {}

  lemma PartIsComponent(t: Tables, i: nat) returns (n: nat)
    requires PathsBuilt(t.layers) && i < |t.layers|
    ensures t.layers[i].fullPath != "" && -1 <= t.layers[i].parent < i
    ensures Component(t, i) == Escaped(Raw(t.layers[i].name, n)) && '/' !in Component(t, i)
    ensures t.layers[i].parent >= 0 ==>
      t.layers[i].fullPath == t.layers[t.layers[i].parent].fullPath + "/" + Component(t, i)
  {
    n := PathShape(t.layers, i);
    var p := t.layers[i].parent;
    if p >= 0 {
      assert t.layers[i].fullPath[|t.layers[p].fullPath| + 1..] == Escaped(Raw(t.layers[i].name, n));
    }
  }

  /** No backslash in any name and no empty top-level name: `FullPath` inverts `Layers`, and each path
      is its parent's, a slash and one slash-free part that fixes the layer's name. */
  lemma BuiltPathsAreRegular(roots: seq<Tree>)
    requires PlainTops(roots)
    ensures PathsRegular(Build(roots))
  {
    hide PathsBuilt, Component, EnumList, PlainTops, MappedOf, ForceVisibleOf, InnerGroups, GroupEntries, GroupIds, FlipsOfList, Ids;
    var t := Build(roots);
    RowsAreBuilt(roots);
    FullPathOfMeaning(t.layers);
    forall i | 0 <= i < |t.layers|
      ensures t.layers[i].fullPath in t.fullPath && t.fullPath[t.layers[i].fullPath] == i
      ensures t.layers[i].fullPath != "" && '/' !in Component(t, i)
      ensures t.layers[i].parent < i
      ensures t.layers[i].parent >= 0 ==> t.layers[i].fullPath == t.layers[t.layers[i].parent].fullPath + "/" + Component(t, i)
    {
      var n := PartIsComponent(t, i);
      var k := t.fullPath[t.layers[i].fullPath];
      if k != i {
        PathsDiffer(t.layers, i, k);
      }
    }
    forall i, j | 0 <= i < |t.layers| && 0 <= j < |t.layers| && Component(t, i) == Component(t, j)
      ensures t.layers[i].name == t.layers[j].name
    {
      SamePartSameName(t, i, j);
    }
  }

  lemma SamePartSameName(t: Tables, i: nat, j: nat)
    requires PathsBuilt(t.layers) && i < |t.layers| && j < |t.layers| && Component(t, i) == Component(t, j)
    ensures t.layers[i].name == t.layers[j].name
  {
    hide Component, LinkedFrom, SiblingsDiffer;
    var m := PartIsComponent(t, i);
    var n := PartIsComponent(t, j);
    EscapedInjective(Raw(t.layers[i].name, m), Raw(t.layers[j].name, n));
    assert t.layers[i] in t.layers && t.layers[j] in t.layers;
    RawInjective(t.layers[i].name, m, t.layers[j].name, n);
  }
}
