/** The nodes of a layer tree in document order, each with its sibling list, beside the rows that are
    built from them. */
module LayerPlaces {
  import opened Names
  import opened LayerTables
  import opened LayerBuild
  import opened LayerPaths
  import opened LayerWellFormed

  datatype Place = Place(node: Tree, sibs: seq<Tree>)

  function Places(ls: seq<Tree>, sibs: seq<Tree>): seq<Place>
  {
    if ls == [] then []
    else [Place(ls[0], sibs)] + Places(ls[0].children, ls[0].children) + Places(ls[1..], sibs)
  }

  function AllPlaces(roots: seq<Tree>): seq<Place> { Places(roots, roots) }

  /** Row `k` is made from place `k`; the rows start at number `base`, and those of the outermost list, which
      is `sibs`, have the parent `parent`. */
  ghost predicate Matches(rows: seq<Layer>, ps: seq<Place>, k: nat, sibs: seq<Tree>, parent: int, base: nat)
    requires |rows| == |ps| && k < |ps|
  {
    var row, node := rows[k], ps[k].node;
    && row.name == node.name && row.seqId == node.seqId && row.children == Ids(node.children)
    && (row.parent == parent || base <= row.parent < base + k)
    && ps[k].sibs == (if row.parent == parent then sibs else ps[row.parent - base].node.children)
    && (row.parent != parent ==> base + k <= row.parent + SizeOfList(ps[row.parent - base].node.children))
  }

  ghost predicate AllMatch(rows: seq<Layer>, ps: seq<Place>, sibs: seq<Tree>, parent: int, base: nat)
  {
    |rows| == |ps| && forall k :: 0 <= k < |ps| ==> Matches(rows, ps, k, sibs, parent, base)
  }

  /** Below a list that is followed by another. */
  lemma MatchesJoin(a: seq<Layer>, b: seq<Layer>, pa: seq<Place>, pb: seq<Place>, sibs: seq<Tree>, parent: int, base: nat)
    requires parent < base && AllMatch(a, pa, sibs, parent, base) && AllMatch(b, pb, sibs, parent, base + |a|)
    ensures AllMatch(a + b, pa + pb, sibs, parent, base)
  {
    var rows, ps := a + b, pa + pb;
    forall k | 0 <= k < |ps|
      ensures Matches(rows, ps, k, sibs, parent, base)
    {
      if k < |a| {
        assert Matches(a, pa, k, sibs, parent, base);
      } else {
        assert Matches(b, pb, k - |a|, sibs, parent, base + |a|);
      }
    }
  }

  /** A node in front of the list of its children. */
  lemma MatchesHead(row: Layer, l: Tree, c: seq<Layer>, pc: seq<Place>, sibs: seq<Tree>, parent: int, base: nat)
    requires parent < base && row.name == l.name && row.seqId == l.seqId && row.children == Ids(l.children) && row.parent == parent
    requires AllMatch(c, pc, l.children, base, base + 1) && |c| == SizeOfList(l.children)
    ensures AllMatch([row] + c, [Place(l, sibs)] + pc, sibs, parent, base)
  {
    var rows, ps := [row] + c, [Place(l, sibs)] + pc;
    forall k | 0 <= k < |ps|
      ensures Matches(rows, ps, k, sibs, parent, base)
    {
      if k > 0 {
        assert Matches(c, pc, k - 1, l.children, base, base + 1);
      }
    }
  }

  lemma {:induction false} RowsMatch(ls: seq<Tree>, sibs: seq<Tree>, dir: string, dup: map<string, nat>, parent: int, base: nat)
    requires parent < base
    ensures AllMatch(EnumList(ls, dir, dup, parent, base), Places(ls, sibs), sibs, parent, base)
  {
    hide AllMatch, PathOf, Number;
    if ls == [] {
      NothingMatches(sibs, parent, base);
    } else {
      var l, path, d := ls[0], PathOf(dir, dup, ls[0].name), dup[ls[0].name := Number(dup, ls[0].name)];
      var row := Layer(l.name, l.seqId, path, parent, Ids(l.children));
      var c := EnumList(l.children, path, map[], base, base + 1);
      RowsMatch(l.children, l.children, path, map[], base, base + 1);
      SizeOfEnumList(l.children, path, map[], base, base + 1);
      MatchesHead(row, l, c, Places(l.children, l.children), sibs, parent, base);
      RowsMatch(ls[1..], sibs, dir, d, parent, base + |[row] + c|);
      MatchesJoin([row] + c, EnumList(ls[1..], dir, d, parent, base + |[row] + c|),
                  [Place(l, sibs)] + Places(l.children, l.children), Places(ls[1..], sibs), sibs, parent, base);
    }
  }

  lemma NothingMatches(sibs: seq<Tree>, parent: int, base: nat)
    ensures AllMatch([], [], sibs, parent, base)
  {}

  // ---------- subtrees ----------

  /** Behind row `k` come the rows and places of everything below it. */
  ghost predicate Slice(rows: seq<Layer>, ps: seq<Place>, k: nat, base: nat)
    requires |rows| == |ps| && k < |ps|
  {
    var l := ps[k].node;
    var below := EnumList(l.children, rows[k].fullPath, map[], base + k, base + k + 1);
    && k + 1 + |below| <= |rows|
    && rows[k + 1..k + 1 + |below|] == below
    && ps[k + 1..k + 1 + |below|] == Places(l.children, l.children)
  }

  lemma SliceElement(rows: seq<Layer>, ps: seq<Place>, k: nat, m: nat, base: nat)
    requires |rows| == |ps| && k < |ps| && Slice(rows, ps, k, base)
    requires m < |EnumList(ps[k].node.children, rows[k].fullPath, map[], base + k, base + k + 1)|
    ensures k + 1 + m < |rows| && m < |Places(ps[k].node.children, ps[k].node.children)|
    ensures rows[k + 1 + m] == EnumList(ps[k].node.children, rows[k].fullPath, map[], base + k, base + k + 1)[m]
    ensures ps[k + 1 + m] == Places(ps[k].node.children, ps[k].node.children)[m]
  {
    hide EnumList, Places;
    var n := |EnumList(ps[k].node.children, rows[k].fullPath, map[], base + k, base + k + 1)|;
    assert rows[k + 1..k + 1 + n][m] == rows[k + 1 + m] && ps[k + 1..k + 1 + n][m] == ps[k + 1 + m];
  }

  ghost predicate AllSlices(rows: seq<Layer>, ps: seq<Place>, base: nat)
  {
    |rows| == |ps| && forall k :: 0 <= k < |ps| ==> Slice(rows, ps, k, base)
  }

  lemma SliceOfFirst<T>(a: seq<T>, b: seq<T>, i: nat, j: nat)
    requires i <= j <= |a|
    ensures (a + b)[i..j] == a[i..j]
  {}

  lemma SliceOfSecond<T>(a: seq<T>, b: seq<T>, i: nat, j: nat)
    requires i <= j <= |b|
    ensures (a + b)[|a| + i..|a| + j] == b[i..j]
  {}

  lemma SliceBefore(a: seq<Layer>, b: seq<Layer>, pa: seq<Place>, pb: seq<Place>, k: nat, base: nat)
    requires |a| == |pa| && |b| == |pb| && k < |a| && Slice(a, pa, k, base)
    ensures Slice(a + b, pa + pb, k, base)
  {
    hide EnumList, Places;
    var n := |EnumList(pa[k].node.children, a[k].fullPath, map[], base + k, base + k + 1)|;
    SliceOfFirst(a, b, k + 1, k + 1 + n);
    SliceOfFirst(pa, pb, k + 1, k + 1 + n);
  }

  lemma SliceBehind(a: seq<Layer>, b: seq<Layer>, pa: seq<Place>, pb: seq<Place>, i: nat, base: nat)
    requires |a| == |pa| && |b| == |pb| && i < |b| && Slice(b, pb, i, base + |a|)
    ensures Slice(a + b, pa + pb, |a| + i, base)
  {
    hide EnumList, Places;
    var n := |EnumList(pb[i].node.children, b[i].fullPath, map[], base + |a| + i, base + |a| + i + 1)|;
    SliceOfSecond(a, b, i + 1, i + 1 + n);
    SliceOfSecond(pa, pb, i + 1, i + 1 + n);
  }

  lemma SlicesJoin(a: seq<Layer>, b: seq<Layer>, pa: seq<Place>, pb: seq<Place>, base: nat)
    requires AllSlices(a, pa, base) && AllSlices(b, pb, base + |a|)
    ensures AllSlices(a + b, pa + pb, base)
  {
    hide Slice;
    forall k | 0 <= k < |pa + pb|
      ensures Slice(a + b, pa + pb, k, base)
    {
      if k < |a| {
        SliceBefore(a, b, pa, pb, k, base);
      } else {
        SliceBehind(a, b, pa, pb, k - |a|, base);
      }
    }
  }

  lemma SlicesHead(row: Layer, place: Place, c: seq<Layer>, pc: seq<Place>, base: nat)
    requires c == EnumList(place.node.children, row.fullPath, map[], base, base + 1)
    requires pc == Places(place.node.children, place.node.children) && AllSlices(c, pc, base + 1)
    ensures AllSlices([row] + c, [place] + pc, base)
  {
    hide EnumList, Places, Slice;
    assert Slice([row] + c, [place] + pc, 0, base) by {
      HeadSlice(row, place, c, pc, base);
    }
    forall k | 1 <= k < |[place] + pc|
      ensures Slice([row] + c, [place] + pc, k, base)
    {
      SliceBehind([row], c, [place], pc, k - 1, base);
    }
  }

  lemma HeadSlice(row: Layer, place: Place, c: seq<Layer>, pc: seq<Place>, base: nat)
    requires c == EnumList(place.node.children, row.fullPath, map[], base, base + 1)
    requires pc == Places(place.node.children, place.node.children) && |c| == |pc|
    ensures Slice([row] + c, [place] + pc, 0, base)
  {
    hide EnumList, Places;
    assert ([row] + c)[1..1 + |c|] == c && ([place] + pc)[1..1 + |c|] == pc;
  }

  lemma {:induction false} RowsSlice(ls: seq<Tree>, sibs: seq<Tree>, dir: string, dup: map<string, nat>, parent: int, base: nat)
    ensures AllSlices(EnumList(ls, dir, dup, parent, base), Places(ls, sibs), base)
  {
    hide AllSlices, PathOf, Number;
    if ls == [] {
      NothingSliced(base);
    } else {
      var l, path, d := ls[0], PathOf(dir, dup, ls[0].name), dup[ls[0].name := Number(dup, ls[0].name)];
      var row, place := Layer(l.name, l.seqId, path, parent, Ids(l.children)), Place(l, sibs);
      var c, pc := EnumList(l.children, path, map[], base, base + 1), Places(l.children, l.children);
      RowsSlice(l.children, l.children, path, map[], base, base + 1);
      SlicesHead(row, place, c, pc, base);
      RowsSlice(ls[1..], sibs, dir, d, parent, base + |[row] + c|);
      SlicesJoin([row] + c, EnumList(ls[1..], dir, d, parent, base + |[row] + c|), [place] + pc, Places(ls[1..], sibs), base);
    }
  }

  lemma NothingSliced(base: nat)
    ensures AllSlices([], [], base)
  {}

  // ---------- siblings have rows ----------

  /** Some row with this parent is made from `node`. */
  ghost predicate HasPlace(rows: seq<Layer>, ps: seq<Place>, parent: int, node: Tree)
    requires |rows| == |ps|
  {
    exists k :: 0 <= k < |ps| && ps[k].node == node && rows[k].parent == parent
  }

  lemma SameLength(ls: seq<Tree>, sibs: seq<Tree>, dir: string, dup: map<string, nat>, parent: int, base: nat)
    requires parent < base
    ensures |EnumList(ls, dir, dup, parent, base)| == |Places(ls, sibs)|
  {
    RowsMatch(ls, sibs, dir, dup, parent, base);
  }

  lemma HasPlaceBehind(a: seq<Layer>, pa: seq<Place>, b: seq<Layer>, pb: seq<Place>, parent: int, node: Tree)
    requires |a| == |pa| && |b| == |pb| && HasPlace(b, pb, parent, node)
    ensures HasPlace(a + b, pa + pb, parent, node)
  {
    var rows, ps := a + b, pa + pb;
    var k :| 0 <= k < |pb| && pb[k].node == node && b[k].parent == parent;
    assert ps[|pa| + k] == pb[k] && rows[|a| + k] == b[k];
  }

  lemma {:induction false} MembersHavePlaces(ls: seq<Tree>, sibs: seq<Tree>, dir: string, dup: map<string, nat>, parent: int, base: nat)
    requires parent < base
    ensures |EnumList(ls, dir, dup, parent, base)| == |Places(ls, sibs)|
    ensures forall l <- ls :: HasPlace(EnumList(ls, dir, dup, parent, base), Places(ls, sibs), parent, l)
    decreases |ls|
  {
    hide *;
    SameLength(ls, sibs, dir, dup, parent, base);
    if ls != [] {
      var path, d := PathOf(dir, dup, ls[0].name), dup[ls[0].name := Number(dup, ls[0].name)];
      var first := EnumRows(ls[0], path, parent, base);
      var rest := EnumList(ls[1..], dir, d, parent, base + |first|);
      var pf, pr := [Place(ls[0], sibs)] + Places(ls[0].children, ls[0].children), Places(ls[1..], sibs);
      ListUnfolds(ls, sibs, dir, dup, parent, base);
      MembersHavePlaces(ls[1..], sibs, dir, d, parent, base + |first|);
      RowsBelow(ls[0], path, parent, base);
      HeadHasPlace(first + rest, pf + pr, parent, ls[0]);
      AllHavePlaces(ls, first, pf, rest, pr, parent);
    }
  }

  lemma ListUnfolds(ls: seq<Tree>, sibs: seq<Tree>, dir: string, dup: map<string, nat>, parent: int, base: nat)
    requires ls != []
    ensures var first := EnumRows(ls[0], PathOf(dir, dup, ls[0].name), parent, base);
      EnumList(ls, dir, dup, parent, base) ==
        first + EnumList(ls[1..], dir, dup[ls[0].name := Number(dup, ls[0].name)], parent, base + |first|)
    ensures Places(ls, sibs) == [Place(ls[0], sibs)] + Places(ls[0].children, ls[0].children) + Places(ls[1..], sibs)
  {
    hide EnumRows, PathOf, Number;
  }

  lemma AllHavePlaces(ls: seq<Tree>, first: seq<Layer>, pf: seq<Place>, rest: seq<Layer>, pr: seq<Place>, parent: int)
    requires ls != [] && |first| == |pf| && |rest| == |pr| && HasPlace(first + rest, pf + pr, parent, ls[0])
    requires forall l <- ls[1..] :: HasPlace(rest, pr, parent, l)
    ensures forall l <- ls :: HasPlace(first + rest, pf + pr, parent, l)
  {
    hide HasPlace;
    forall l <- ls
      ensures HasPlace(first + rest, pf + pr, parent, l)
    {
      if l != ls[0] {
        assert l in ls[1..];
        HasPlaceBehind(first, pf, rest, pr, parent, l);
      }
    }
  }

  lemma HeadHasPlace(rows: seq<Layer>, ps: seq<Place>, parent: int, node: Tree)
    requires |rows| == |ps| && ps != [] && ps[0].node == node && rows[0].parent == parent
    ensures HasPlace(rows, ps, parent, node)
  {}

  // ---------- the whole tree ----------

  /** What the rows of a tree and its places have to do with each other. */
  ghost predicate Laid(rows: seq<Layer>, ps: seq<Place>, roots: seq<Tree>)
  {
    AllMatch(rows, ps, roots, -1, 0) && AllSlices(rows, ps, 0)
  }

  lemma TreeIsLaid(roots: seq<Tree>)
    ensures Laid(Build(roots).layers, AllPlaces(roots), roots)
  {
    RowsMatch(roots, roots, "", map[], -1, 0);
    RowsSlice(roots, roots, "", map[], -1, 0);
  }

  /** Every sibling in the list of a place has a row with the same parent. */
  lemma SiblingHasRow(roots: seq<Tree>, k: nat, x: Tree) returns (i: nat)
    requires k < |AllPlaces(roots)| == |Build(roots).layers| && x in AllPlaces(roots)[k].sibs
    ensures i < |AllPlaces(roots)| && AllPlaces(roots)[i].node == x
    ensures Build(roots).layers[i].parent == Build(roots).layers[k].parent
    ensures AllPlaces(roots)[i].sibs == AllPlaces(roots)[k].sibs
  {
    TreeIsLaid(roots);
    hide EnumList, Places;
    var rows, ps := Build(roots).layers, AllPlaces(roots);
    assert Matches(rows, ps, k, roots, -1, 0);
    var p := rows[k].parent;
    if p == -1 {
      MembersHavePlaces(roots, roots, "", map[], -1, 0);
      i :| 0 <= i < |ps| && ps[i].node == x && rows[i].parent == -1;
    } else {
      i := MemberHasRow(rows, ps, roots, p, x);
    }
    assert Matches(rows, ps, i, roots, -1, 0);
  }

  lemma MemberHasRow(rows: seq<Layer>, ps: seq<Place>, roots: seq<Tree>, p: nat, x: Tree) returns (i: nat)
    requires Laid(rows, ps, roots) && p < |ps| && x in ps[p].node.children
    ensures i < |ps| == |rows| && ps[i].node == x && rows[i].parent == p
  {
    hide EnumList, Places, Matches;
    var c := ps[p].node.children;
    assert Slice(rows, ps, p, 0);
    hide Slice;
    MembersHavePlaces(c, c, rows[p].fullPath, map[], p, p + 1);
    var m :| 0 <= m < |Places(c, c)| && Places(c, c)[m].node == x && EnumList(c, rows[p].fullPath, map[], p, p + 1)[m].parent == p;
    SliceElement(rows, ps, p, m, 0);
    i := p + 1 + m;
  }
}
