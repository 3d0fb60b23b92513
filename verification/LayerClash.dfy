/** When exactly the full paths of a layer tree are distinct. */
module LayerClash {
  import opened Names
  import opened LayerTables
  import opened LayerBuild
  import opened LayerPaths
  import opened LayerWellFormed
  import opened LayerPlaces
  import opened LayerPairs

  // ---------- the condition on trees ----------

  ghost predicate Distinct(q: seq<string>) { forall i, j :: 0 <= i < j < |q| ==> q[i] != q[j] }

  /** The names in a sibling list as its paths show them: repeated ones with their number. */
  function Labels(ls: seq<Tree>, dup: map<string, nat>): (r: seq<string>)
    ensures |r| == |ls|
  {
    if ls == [] then []
    else
      var n := Number(dup, ls[0].name);
      [Raw(ls[0].name, n)] + Labels(ls[1..], dup[ls[0].name := n])
  }

  /** The labels of this list are distinct, and so are those of every list below. */
  ghost predicate LabelsDiffer(ls: seq<Tree>)
    decreases ls
  {
    Distinct(Labels(ls, map[])) && forall i :: 0 <= i < |ls| ==> LabelsDiffer(ls[i].children)
  }

  /** The labels of the top level, to which the children of a nameless root belong as well: no slash is
      written below it. */
  function TopLabels(roots: seq<Tree>): seq<string>
  {
    Labels(roots, map[]) + NamelessLabels(roots)
  }

  function NamelessLabels(roots: seq<Tree>): seq<string>
  {
    match FindSibling(roots, "")
    case None => []
    case Some(n) => Labels(n.children, map[])
  }

  ghost predicate PathsDistinct(rows: seq<Layer>)
  {
    forall i, j :: 0 <= i < j < |rows| ==> rows[i].fullPath != rows[j].fullPath
  }

  // ---------- paths and labels of one list ----------

  lemma PathBelowInjective(dir: string, a: string, b: string)
    requires PathBelow(dir, Escaped(a)) == PathBelow(dir, Escaped(b))
    ensures a == b
  {
    if dir != "" {
      assert Escaped(a) == (dir + "/" + Escaped(a))[|dir| + 1..] && Escaped(b) == (dir + "/" + Escaped(b))[|dir| + 1..];
    }
    EscapedInjective(a, b);
  }

  ghost predicate HasDirect(rows: seq<Layer>, parent: int, path: string)
  {
    exists k :: 0 <= k < |rows| && rows[k].parent == parent && rows[k].fullPath == path
  }

  lemma HasDirectJoin(a: seq<Layer>, b: seq<Layer>, parent: int, path: string)
    ensures HasDirect(a + b, parent, path) <==> HasDirect(a, parent, path) || HasDirect(b, parent, path)
  {
    var rows := a + b;
    if HasDirect(a, parent, path) {
      var k :| 0 <= k < |a| && a[k].parent == parent && a[k].fullPath == path;
      assert rows[k] == a[k];
    }
    if HasDirect(b, parent, path) {
      var k :| 0 <= k < |b| && b[k].parent == parent && b[k].fullPath == path;
      assert rows[|a| + k] == b[k];
    }
    if HasDirect(rows, parent, path) {
      var k :| 0 <= k < |rows| && rows[k].parent == parent && rows[k].fullPath == path;
      assert k < |a| ==> a[k] == rows[k];
      assert k >= |a| ==> b[k - |a|] == rows[k];
    }
  }

  /** The direct rows of one subtree: its head. */
  lemma HasDirectHead(l: Tree, path: string, parent: int, base: nat, other: string)
    requires parent < base
    ensures HasDirect(EnumRows(l, path, parent, base), parent, other) <==> other == path
  {
    RowsBelow(l, path, parent, base);
    var rows := EnumRows(l, path, parent, base);
    assert rows[0].fullPath == path;
    hide EnumRows;
  }

  /** The paths of the direct rows are those of the labels. */
  lemma {:induction false} DirectPaths(ls: seq<Tree>, dir: string, dup: map<string, nat>, parent: int, base: nat, tag: string)
    requires parent < base
    ensures HasDirect(EnumList(ls, dir, dup, parent, base), parent, PathBelow(dir, Escaped(tag))) <==> tag in Labels(ls, dup)
    decreases |ls|
  {
    hide EnumRows, PathOf, HasDirect, PathBelow;
    if ls == [] {
      NoDirect(parent, PathBelow(dir, Escaped(tag)));
    } else {
      var l, n, d := ls[0], Number(dup, ls[0].name), dup[ls[0].name := Number(dup, ls[0].name)];
      var first := EnumRows(l, PathOf(dir, dup, l.name), parent, base);
      var rest := EnumList(ls[1..], dir, d, parent, base + |first|);
      PathOfMeaning(dir, dup, l.name);
      HasDirectHead(l, PathOf(dir, dup, l.name), parent, base, PathBelow(dir, Escaped(tag)));
      HasDirectJoin(first, rest, parent, PathBelow(dir, Escaped(tag)));
      DirectPaths(ls[1..], dir, d, parent, base + |first|, tag);
      if PathBelow(dir, Escaped(tag)) == PathBelow(dir, Escaped(Raw(l.name, n))) {
        PathBelowInjective(dir, tag, Raw(l.name, n));
      }
    }
  }

  lemma NoDirect(parent: int, path: string)
    ensures !HasDirect([], parent, path)
  {}

  lemma DistinctStep(x: string, q: seq<string>)
    ensures Distinct([x] + q) <==> x !in q && Distinct(q)
  {
    var all := [x] + q;
    if Distinct(all) {
      forall i | 0 <= i < |q|
        ensures q[i] != x
      {
        assert all[i + 1] == q[i] && all[0] == x;
      }
      forall i, j | 0 <= i < j < |q|
        ensures q[i] != q[j]
      {
        assert all[i + 1] != all[j + 1];
      }
    }
  }

  /** Siblings differ in two parts of a list exactly if they do in each, and the head of the first part is
      not repeated in the second. */
  lemma SiblingsJoin(row: Layer, c: seq<Layer>, rest: seq<Layer>, parent: int, base: nat)
    requires parent < base && row.parent == parent && ParentsIn(c, base, base + 1)
    requires ParentsIn(rest, parent, base + 1 + |c|)
    ensures SiblingsDiffer([row] + c + rest) <==>
      SiblingsDiffer(c) && SiblingsDiffer(rest) && !HasDirect(rest, parent, row.fullPath)
  {
    var rows, n := [row] + c + rest, 1 + |c|;
    if SiblingsDiffer(rows) {
      assert forall k :: 0 <= k < |rest| ==> rows[n + k] == rest[k];
      PartsDiffer([row], c, rest);
      assert rows[0] == row;
    }
    if SiblingsDiffer(c) && SiblingsDiffer(rest) && !HasDirect(rest, parent, row.fullPath) {
      JoinDiffers(row, c, rest, parent, base);
    }
  }

  lemma JoinDiffers(row: Layer, c: seq<Layer>, rest: seq<Layer>, parent: int, base: nat)
    requires parent < base && row.parent == parent && ParentsIn(c, base, base + 1)
    requires ParentsIn(rest, parent, base + 1 + |c|)
    requires SiblingsDiffer(c) && SiblingsDiffer(rest) && !HasDirect(rest, parent, row.fullPath)
    ensures SiblingsDiffer([row] + c + rest)
  {
    var rows := [row] + c + rest;
    forall i, j | 0 <= i < j < |rows| && rows[i].parent == rows[j].parent
      ensures rows[i].fullPath != rows[j].fullPath
    {
      WhereRow(row, c, rest, i);
      WhereRow(row, c, rest, j);
    }
  }

  lemma WhereRow(row: Layer, c: seq<Layer>, rest: seq<Layer>, i: nat)
    requires i < |[row] + c + rest|
    ensures var rows := [row] + c + rest;
      if i == 0 then rows[i] == row
      else if i <= |c| then rows[i] == c[i - 1] && rows[i] in c
      else rows[i] == rest[i - 1 - |c|] && rows[i] in rest
  {}

  lemma PartsDiffer(a: seq<Layer>, c: seq<Layer>, rest: seq<Layer>)
    requires SiblingsDiffer(a + c + rest)
    ensures SiblingsDiffer(c) && SiblingsDiffer(rest)
  {
    var rows := a + c + rest;
    forall i, j | 0 <= i < j < |c| && c[i].parent == c[j].parent
      ensures c[i].fullPath != c[j].fullPath
    {
      assert rows[|a| + i] == c[i] && rows[|a| + j] == c[j];
    }
    forall i, j | 0 <= i < j < |rest| && rest[i].parent == rest[j].parent
      ensures rest[i].fullPath != rest[j].fullPath
    {
      assert rows[|a| + |c| + i] == rest[i] && rows[|a| + |c| + j] == rest[j];
    }
  }

  /** Sibling rows differ exactly if the labels of every list do. */
  lemma {:induction false} SiblingsByLabels(ls: seq<Tree>, dir: string, dup: map<string, nat>, parent: int, base: nat)
    requires parent < base
    ensures SiblingsDiffer(EnumList(ls, dir, dup, parent, base)) <==>
      Distinct(Labels(ls, dup)) && forall i :: 0 <= i < |ls| ==> LabelsDiffer(ls[i].children)
  {
    hide PathOf, Number, SiblingsDiffer, Distinct, ParentsIn, PathBelow, Raw;
    if ls == [] {
      NothingDiffers();
    } else {
      var l, n, d := ls[0], Number(dup, ls[0].name), dup[ls[0].name := Number(dup, ls[0].name)];
      var path := PathOf(dir, dup, l.name);
      var row := Layer(l.name, l.seqId, path, parent, Ids(l.children));
      var c := EnumList(l.children, path, map[], base, base + 1);
      var rest := EnumList(ls[1..], dir, d, parent, base + 1 + |c|);
      assert EnumList(ls, dir, dup, parent, base) == [row] + c + rest;
      assert Labels(ls, dup) == [Raw(l.name, n)] + Labels(ls[1..], d);
      hide EnumList, Labels, LabelsDiffer;
      PathOfMeaning(dir, dup, l.name);
      SiblingsByLabels(l.children, path, map[], base, base + 1);
      SiblingsByLabels(ls[1..], dir, d, parent, base + 1 + |c|);
      ListBelow(l.children, path, map[], base, base + 1);
      ListBelow(ls[1..], dir, d, parent, base + 1 + |c|);
      SiblingsJoin(row, c, rest, parent, base);
      DirectPaths(ls[1..], dir, d, parent, base + 1 + |c|, Raw(l.name, n));
      DistinctStep(Raw(l.name, n), Labels(ls[1..], d));
      ChildrenStep(ls);
      LabelsUnfold(l.children);
    }
  }

  lemma LabelsUnfold(ls: seq<Tree>)
    ensures LabelsDiffer(ls) <==> Distinct(Labels(ls, map[])) && forall i :: 0 <= i < |ls| ==> LabelsDiffer(ls[i].children)
  {}

  lemma ChildrenStep(ls: seq<Tree>)
    requires ls != []
    ensures (forall i :: 0 <= i < |ls| ==> LabelsDiffer(ls[i].children)) <==>
      LabelsDiffer(ls[0].children) && forall i :: 0 <= i < |ls[1..]| ==> LabelsDiffer(ls[1..][i].children)
  {
    hide LabelsDiffer;
    var rest := ls[1..];
    if LabelsDiffer(ls[0].children) && forall i :: 0 <= i < |rest| ==> LabelsDiffer(rest[i].children) {
      forall i | 0 <= i < |ls|
        ensures LabelsDiffer(ls[i].children)
      {
        assert i > 0 ==> ls[i] == rest[i - 1];
      }
    }
    if forall i :: 0 <= i < |ls| ==> LabelsDiffer(ls[i].children) {
      forall i | 0 <= i < |rest|
        ensures LabelsDiffer(rest[i].children)
      {
        assert rest[i] == ls[i + 1];
      }
    }
  }

  lemma NothingDiffers()
    ensures SiblingsDiffer([]) && Distinct([])
  {}

  // ---------- rows without a slash ----------

  function Dir(rows: seq<Layer>, i: nat): string
    requires i < |rows| && rows[i].parent < |rows|
  {
    if rows[i].parent >= 0 then rows[rows[i].parent].fullPath else ""
  }

  /** A top-level row, or one below a top-level row without a path. */
  predicate TopLike(rows: seq<Layer>, i: nat)
    requires i < |rows| && rows[i].parent < |rows|
  {
    var p := rows[i].parent;
    p < 0 || (rows[p].parent < 0 && rows[p].fullPath == "")
  }

  ghost predicate TopsDiffer(rows: seq<Layer>)
    requires forall r <- rows :: r.parent < |rows|
  {
    forall i, j :: 0 <= i < j < |rows| && TopLike(rows, i) && TopLike(rows, j) ==> rows[i].fullPath != rows[j].fullPath
  }

  lemma ParentsInRange(rows: seq<Layer>)
    requires LinkedFrom(rows, 0)
    ensures forall r <- rows :: r.parent < |rows|
  {
    forall r | r in rows
      ensures r.parent < |rows|
    {
      var i :| 0 <= i < |rows| && rows[i] == r;
      var n := RowLabel(rows, i);
    }
  }

  /** Two rows with the same path are siblings or both top-like, unless an earlier pair clashes too. */
  lemma {:induction false} RowsApart(rows: seq<Layer>, i: nat, j: nat)
    requires LinkedFrom(rows, 0) && SiblingsDiffer(rows) && (forall r <- rows :: r.parent < |rows|) && TopsDiffer(rows)
    requires i < |rows| && j < |rows| && i != j
    ensures rows[i].fullPath != rows[j].fullPath
    decreases if i < j then j else i, 1
  {
    hide LinkedFrom, SiblingsDiffer, Escaped;
    if rows[i].fullPath == rows[j].fullPath {
      var m := RowLabel(rows, i);
      var n := RowLabel(rows, j);
      var x, y := Escaped(Raw(rows[i].name, m)), Escaped(Raw(rows[j].name, n));
      EscapedIsClean(Raw(rows[i].name, m));
      EscapedIsClean(Raw(rows[j].name, n));
      assert NeedsEscape('/') && '/' !in x && '/' !in y;
      var d, e := Dir(rows, i), Dir(rows, j);
      if d == "" && e == "" {
        EmptyDirIsTop(rows, i);
        EmptyDirIsTop(rows, j);
        assert false;
      } else if d == "" {
        SlashApart(x, e, y);
      } else if e == "" {
        SlashApart(y, d, x);
      } else {
        LastSlash(d, x, e, y);
        if rows[i].parent == rows[j].parent {
          SiblingPaths(rows, i, j);
        } else {
          RowsApart(rows, rows[i].parent, rows[j].parent);
        }
      }
    }
  }

  lemma SlashApart(x: string, dir: string, y: string)
    requires '/' !in x
    ensures x != dir + "/" + y
  {
    assert (dir + "/" + y)[|dir|] == '/';
  }

  lemma SiblingPaths(rows: seq<Layer>, i: nat, j: nat)
    requires SiblingsDiffer(rows) && i < |rows| && j < |rows| && i != j && rows[i].parent == rows[j].parent
    ensures rows[i].fullPath != rows[j].fullPath
  {}

  lemma {:induction false} EmptyDirIsTop(rows: seq<Layer>, i: nat)
    requires LinkedFrom(rows, 0) && SiblingsDiffer(rows) && (forall r <- rows :: r.parent < |rows|) && TopsDiffer(rows)
    requires i < |rows| && Dir(rows, i) == ""
    ensures TopLike(rows, i)
    decreases i, 0
  {
    hide LinkedFrom, SiblingsDiffer, Escaped;
    var p := rows[i].parent;
    if p >= 0 {
      var _ := RowLabel(rows, i);
      var n := RowLabel(rows, p);
      if rows[p].parent >= 0 {
        assert Dir(rows, p) == "";
        RowsApart(rows, rows[p].parent, p);
      }
    }
  }

  lemma DistinctByRows(rows: seq<Layer>)
    requires LinkedFrom(rows, 0) && forall r <- rows :: r.parent < |rows|
    ensures PathsDistinct(rows) <==> SiblingsDiffer(rows) && TopsDiffer(rows)
  {
    hide LinkedFrom;
    if SiblingsDiffer(rows) && TopsDiffer(rows) {
      forall i, j | 0 <= i < j < |rows|
        ensures rows[i].fullPath != rows[j].fullPath
      {
        RowsApart(rows, i, j);
      }
    }
  }

  // ---------- the nameless root ----------

  /** Every top-level row without a path is that of the first root without a name. */
  ghost predicate NamelessIs(rows: seq<Layer>, ps: seq<Place>, node: Option<Tree>)
  {
    |rows| == |ps| && forall k :: 0 <= k < |ps| && rows[k].parent == -1 && rows[k].fullPath == "" ==> node == Some(ps[k].node)
  }

  lemma {:induction false} NamelessRow(ls: seq<Tree>, sibs: seq<Tree>, dup: map<string, nat>, base: nat)
    requires "" !in dup
    ensures NamelessIs(EnumList(ls, "", dup, -1, base), Places(ls, sibs), FindSibling(ls, ""))
    ensures FindSibling(ls, "").Some? ==> HasDirect(EnumList(ls, "", dup, -1, base), -1, "")
    decreases |ls|
  {
    hide EnumRows, PathOf, HasDirect, FindSibling, NamelessIs;
    SameLength(ls, sibs, "", dup, -1, base);
    NamelessStep(ls);
    if ls == [] {
      NoNameless();
    } else {
      var l, path, n := ls[0], PathOf("", dup, ls[0].name), Number(dup, ls[0].name);
      var d := dup[l.name := n];
      var first := EnumRows(l, path, -1, base);
      var rest := EnumList(ls[1..], "", d, -1, base + |first|);
      var pf, pr := [Place(l, sibs)] + Places(l.children, l.children), Places(ls[1..], sibs);
      assert EnumList(ls, "", dup, -1, base) == first + rest && Places(ls, sibs) == pf + pr;
      hide EnumList, Places;
      PathOfMeaning("", dup, l.name);
      PathOfRoot(l.name, n);
      RowsBelow(l, path, -1, base);
      SameLength(ls[1..], sibs, "", d, -1, base + |first|);
      HasDirectHead(l, path, -1, base, "");
      HasDirectJoin(first, rest, -1, "");
      HeadPath(l, path, base);
      hide PathBelow, Raw, Number;
      if l.name == "" {
        LaterAreNumbered(ls[1..], d, base + |first|);
        NoneDirect(rest, pr, Some(l));
      } else {
        NamelessRow(ls[1..], sibs, d, base + |first|);
      }
      NamelessJoin(first, rest, pf, pr, path, FindSibling(ls, ""));
    }
  }

  lemma HeadPath(l: Tree, path: string, base: nat)
    ensures EnumRows(l, path, -1, base)[0].fullPath == path
  {}

  lemma NoNameless()
    ensures forall node :: NamelessIs([], [], node)
  {}

  lemma NamelessStep(ls: seq<Tree>)
    ensures ls == [] ==> FindSibling(ls, "").None?
    ensures ls != [] ==> FindSibling(ls, "") == if ls[0].name == "" then Some(ls[0]) else FindSibling(ls[1..], "")
  {}

  lemma PathOfRoot(name: string, n: nat)
    ensures PathBelow("", Escaped(Raw(name, n))) == "" <==> name == "" && n == 0
  {
    if Raw(name, n) != "" {
      EscapedNonEmpty(Raw(name, n));
    }
  }

  lemma NoneDirect(rows: seq<Layer>, ps: seq<Place>, node: Option<Tree>)
    requires |rows| == |ps| && !HasDirect(rows, -1, "")
    ensures NamelessIs(rows, ps, node)
  {}

  lemma NamelessJoin(first: seq<Layer>, rest: seq<Layer>, pf: seq<Place>, pr: seq<Place>, path: string, node: Option<Tree>)
    requires |first| >= 1 && |first| == |pf| && NamelessIs(rest, pr, node) && first[0].fullPath == path
    requires forall k :: 1 <= k < |first| ==> first[k].parent != -1
    requires path == "" ==> node == Some(pf[0].node)
    ensures NamelessIs(first + rest, pf + pr, node)
  {
    var rows, ps := first + rest, pf + pr;
    forall k | 0 <= k < |ps| && rows[k].parent == -1 && rows[k].fullPath == ""
      ensures node == Some(ps[k].node)
    {
      if k >= |first| {
        assert rows[k] == rest[k - |first|] && ps[k] == pr[k - |first|];
      }
    }
  }

  lemma {:induction false} LabelsNumbered(ls: seq<Tree>, dup: map<string, nat>)
    requires "" in dup
    ensures "" !in Labels(ls, dup)
    decreases |ls|
  {
    if ls != [] {
      LabelsNumbered(ls[1..], dup[ls[0].name := Number(dup, ls[0].name)]);
    }
  }

  lemma LaterAreNumbered(ls: seq<Tree>, dup: map<string, nat>, base: nat)
    requires "" in dup
    ensures !HasDirect(EnumList(ls, "", dup, -1, base), -1, "")
  {
    hide EnumList, HasDirect;
    LabelsNumbered(ls, dup);
    DirectPaths(ls, "", dup, -1, base, "");
    assert PathBelow("", Escaped("")) == "";
  }

  /** The rows whose parent is row `r` are the direct rows of its slice. */
  lemma DirectOfSlice(roots: seq<Tree>, r: nat, tag: string)
    requires r < |AllPlaces(roots)| == |Build(roots).layers| && Build(roots).layers[r].fullPath == ""
    ensures HasDirect(Build(roots).layers, r, Escaped(tag)) <==> tag in Labels(AllPlaces(roots)[r].node.children, map[])
  {
    hide EnumList, Places, Labels, SizeOfList;
    TreeIsLaid(roots);
    var rows, ps := Build(roots).layers, AllPlaces(roots);
    var c := ps[r].node.children;
    var below := EnumList(c, "", map[], r, r + 1);
    assert Slice(rows, ps, r, 0);
    DirectPaths(c, "", map[], r, r + 1, tag);
    SizeOfEnumList(c, "", map[], r, r + 1);
    forall k | 0 <= k < |rows| && rows[k].parent == r
      ensures r + 1 <= k < r + 1 + |below|
    {
      assert Matches(rows, ps, k, roots, -1, 0);
    }
    hide Slice, HasDirect, Matches;
    DirectOfPart(rows, below, r, Escaped(tag));
  }

  lemma DirectOfPart(rows: seq<Layer>, below: seq<Layer>, r: nat, path: string)
    requires r + 1 + |below| <= |rows| && rows[r + 1..r + 1 + |below|] == below
    requires forall k :: 0 <= k < |rows| && rows[k].parent == r ==> r + 1 <= k < r + 1 + |below|
    ensures HasDirect(rows, r, path) <==> HasDirect(below, r, path)
  {
    if HasDirect(rows, r, path) {
      var k :| 0 <= k < |rows| && rows[k].parent == r && rows[k].fullPath == path;
      assert below[k - r - 1] == rows[k];
    }
    if HasDirect(below, r, path) {
      var k :| 0 <= k < |below| && below[k].parent == r && below[k].fullPath == path;
      assert rows[r + 1 + k] == below[k];
    }
  }

  ghost predicate Disjoint(a: seq<string>, b: seq<string>) { forall x <- a :: x !in b }

  lemma DistinctAppend(a: seq<string>, b: seq<string>)
    ensures Distinct(a + b) <==> Distinct(a) && Distinct(b) && Disjoint(a, b)
  {
    var q := a + b;
    if Distinct(q) {
      forall i, j | 0 <= i < j < |a|
        ensures a[i] != a[j]
      {
        assert q[i] == a[i] && q[j] == a[j];
      }
      forall i, j | 0 <= i < j < |b|
        ensures b[i] != b[j]
      {
        assert q[|a| + i] == b[i] && q[|a| + j] == b[j];
      }
      forall x | x in a
        ensures x !in b
      {
        var i :| 0 <= i < |a| && a[i] == x;
        assert q[i] == x && forall j :: 0 <= j < |b| ==> q[|a| + j] == b[j];
      }
    }
    if Distinct(a) && Distinct(b) && Disjoint(a, b) {
      forall i, j | 0 <= i < j < |q|
        ensures q[i] != q[j]
      {
        assert i < |a| <= j ==> q[i] in a && q[j] in b;
      }
    }
  }

  /** Below distinct siblings, the top level differs exactly if no root shares its label with a child of the
      nameless root. */
  lemma TopsByLabels(roots: seq<Tree>)
    requires LinkedFrom(Build(roots).layers, 0) && SiblingsDiffer(Build(roots).layers)
    requires forall r <- Build(roots).layers :: r.parent < |Build(roots).layers|
    ensures TopsDiffer(Build(roots).layers) <==> Disjoint(Labels(roots, map[]), NamelessLabels(roots))
  {
    hide EnumList, Places, Labels, LinkedFrom, FindSibling;
    var rows, ps := Build(roots).layers, AllPlaces(roots);
    NamelessRow(roots, roots, map[], 0);
    if FindSibling(roots, "").None? {
      NoNamelessTop(roots);
    } else {
      assert HasDirect(rows, -1, "");
      var r :| 0 <= r < |rows| && rows[r].parent == -1 && rows[r].fullPath == "";
      TopsOfNameless(roots, r);
    }
  }

  lemma NoNamelessTop(roots: seq<Tree>)
    requires LinkedFrom(Build(roots).layers, 0) && SiblingsDiffer(Build(roots).layers)
    requires forall r <- Build(roots).layers :: r.parent < |Build(roots).layers|
    requires FindSibling(roots, "").None?
    ensures TopsDiffer(Build(roots).layers) && Disjoint(Labels(roots, map[]), NamelessLabels(roots))
  {
    hide EnumList, Places, Labels, FindSibling;
    var rows := Build(roots).layers;
    NamelessRow(roots, roots, map[], 0);
    forall i, j | 0 <= i < j < |rows| && TopLike(rows, i) && TopLike(rows, j)
      ensures rows[i].fullPath != rows[j].fullPath
    {
      TopParent(rows, i);
      TopParent(rows, j);
    }
  }

  lemma TopParent(rows: seq<Layer>, i: nat)
    requires LinkedFrom(rows, 0) && i < |rows| && rows[i].parent < |rows| && TopLike(rows, i)
    ensures rows[i].parent >= -1
    ensures rows[i].parent >= 0 ==> rows[rows[i].parent].parent == -1 && rows[rows[i].parent].fullPath == ""
  {
    hide LinkedFrom;
    var _ := RowLabel(rows, i);
    if rows[i].parent >= 0 {
      var _ := RowLabel(rows, rows[i].parent);
    }
  }

  lemma TopsOfNameless(roots: seq<Tree>, r: nat)
    requires LinkedFrom(Build(roots).layers, 0) && SiblingsDiffer(Build(roots).layers)
    requires forall x <- Build(roots).layers :: x.parent < |Build(roots).layers|
    requires r < |Build(roots).layers| && Build(roots).layers[r].parent == -1 && Build(roots).layers[r].fullPath == ""
    ensures TopsDiffer(Build(roots).layers) <==> Disjoint(Labels(roots, map[]), NamelessLabels(roots))
  {
    hide EnumList, Places, Labels, LinkedFrom, FindSibling, SiblingsDiffer;
    var rows, ps := Build(roots).layers, AllPlaces(roots);
    NamelessRow(roots, roots, map[], 0);
    assert NamelessLabels(roots) == Labels(ps[r].node.children, map[]);
    var tops, below := Labels(roots, map[]), NamelessLabels(roots);
    if TopsDiffer(rows) {
      forall x | x in tops
        ensures x !in below
      {
        if x in below {
          SharedLabel(roots, r, x);
        }
      }
    }
    if Disjoint(tops, below) {
      forall i, j | 0 <= i < j < |rows| && TopLike(rows, i) && TopLike(rows, j)
        ensures rows[i].fullPath != rows[j].fullPath
      {
        TopRowsApart(roots, r, i, j);
      }
    }
  }

  /** A label on both levels belongs to two top-like rows with one path. */
  lemma SharedLabel(roots: seq<Tree>, r: nat, x: string)
    requires LinkedFrom(Build(roots).layers, 0) && r < |AllPlaces(roots)| == |Build(roots).layers|
    requires forall y <- Build(roots).layers :: y.parent < |Build(roots).layers|
    requires Build(roots).layers[r].parent == -1 && Build(roots).layers[r].fullPath == ""
    requires x in Labels(roots, map[]) && x in Labels(AllPlaces(roots)[r].node.children, map[])
    ensures !TopsDiffer(Build(roots).layers)
  {
    hide EnumList, Places, Labels, LinkedFrom;
    var rows := Build(roots).layers;
    DirectPaths(roots, "", map[], -1, 0, x);
    DirectOfSlice(roots, r, x);
    var i :| 0 <= i < |rows| && rows[i].parent == -1 && rows[i].fullPath == Escaped(x);
    var j :| 0 <= j < |rows| && rows[j].parent == r && rows[j].fullPath == Escaped(x);
    assert TopLike(rows, i) && TopLike(rows, j);
  }

  lemma TopRowsApart(roots: seq<Tree>, r: nat, i: nat, j: nat)
    requires LinkedFrom(Build(roots).layers, 0) && SiblingsDiffer(Build(roots).layers)
    requires forall y <- Build(roots).layers :: y.parent < |Build(roots).layers|
    requires r < |AllPlaces(roots)| == |Build(roots).layers|
    requires Build(roots).layers[r].parent == -1 && Build(roots).layers[r].fullPath == ""
    requires Disjoint(Labels(roots, map[]), Labels(AllPlaces(roots)[r].node.children, map[]))
    requires i < |AllPlaces(roots)| && j < |AllPlaces(roots)| && i != j
    requires TopLike(Build(roots).layers, i) && TopLike(Build(roots).layers, j)
    ensures Build(roots).layers[i].fullPath != Build(roots).layers[j].fullPath
  {
    hide EnumList, Places, Labels, LinkedFrom, SiblingsDiffer;
    var rows := Build(roots).layers;
    TopParent(rows, i);
    TopParent(rows, j);
    if rows[i].parent == rows[j].parent {
      SiblingPaths(rows, i, j);
    } else {
      NamelessIsOne(rows, r, rows[i].parent);
      NamelessIsOne(rows, r, rows[j].parent);
      if rows[i].fullPath == rows[j].fullPath {
        var top, below := if rows[i].parent == -1 then i else j, if rows[i].parent == -1 then j else i;
        var n := RowLabel(rows, top);
        var tag := Raw(rows[top].name, n);
        assert HasDirect(rows, -1, Escaped(tag)) && HasDirect(rows, r, Escaped(tag));
        DirectPaths(roots, "", map[], -1, 0, tag);
        DirectOfSlice(roots, r, tag);
      }
    }
  }

  lemma NamelessIsOne(rows: seq<Layer>, r: nat, p: int)
    requires SiblingsDiffer(rows) && r < |rows| && -1 <= p < |rows| && rows[r].parent == -1 && rows[r].fullPath == ""
    requires p >= 0 ==> rows[p].parent == -1 && rows[p].fullPath == ""
    ensures p == -1 || p == r
  {}

  /** Full paths are distinct if and only if the labels of the top level are, together with those below a root
      without a name, and those of every sibling list below. */
  lemma PathsDistinctIff(roots: seq<Tree>)
    ensures PathsDistinct(Build(roots).layers) <==>
      Distinct(TopLabels(roots)) && forall i :: 0 <= i < |roots| ==> LabelsDiffer(roots[i].children)
  {
    hide EnumList, Labels, LinkedFrom, Distinct, TopsDiffer, PathsDistinct, SiblingsDiffer, Disjoint, NamelessLabels;
    var rows := Build(roots).layers;
    RowsAreBuilt(roots);
    ParentsInRange(rows);
    DistinctByRows(rows);
    SiblingsByLabels(roots, "", map[], -1, 0);
    DistinctAppend(Labels(roots, map[]), NamelessLabels(roots));
    if SiblingsDiffer(rows) {
      TopsByLabels(roots);
    }
    if forall i :: 0 <= i < |roots| ==> LabelsDiffer(roots[i].children) {
      NamelessDiffers(roots);
    }
  }

  lemma NamelessDiffers(roots: seq<Tree>)
    requires forall i :: 0 <= i < |roots| ==> LabelsDiffer(roots[i].children)
    ensures Distinct(NamelessLabels(roots))
  {
    var n := FindSibling(roots, "");
    if n.Some? {
      var i :| 0 <= i < |roots| && roots[i] == n.value;
      LabelsUnfold(roots[i].children);
    }
  }

  /** With names at the top level: exactly if the labels of every sibling list are distinct. */
  lemma NamedPathsDistinctIff(roots: seq<Tree>)
    requires forall l <- roots :: l.name != ""
    ensures PathsDistinct(Build(roots).layers) <==> LabelsDiffer(roots)
  {
    hide EnumList, Labels, Distinct, PathsDistinct;
    PathsDistinctIff(roots);
    assert FindSibling(roots, "").None?;
    assert TopLabels(roots) == Labels(roots, map[]);
    LabelsUnfold(roots);
  }

  lemma RegularIsDistinct(t: Tables)
    requires PathsRegular(t)
    ensures PathsDistinct(t.layers)
  {}

  lemma SameLabelsClash(q: seq<string>, i: nat, j: nat)
    requires i < j < |q| && q[i] == q[j]
    ensures !Distinct(q)
  {}

  /** Two trees whose paths clash: a layer called `a\1` next to two layers called `a`, and a layer below a
      top-level layer without a name. */
  lemma PathsCanClash()
    ensures !PathsRegular(Build([Node("a", 1, []), Node("a", 2, []), Node("a\\1", 3, [])]))
    ensures !PathsRegular(Build([Node("", 1, [Node("b", 2, [])]), Node("b", 3, [])]))
  {
    hide PathsRegular, Distinct, EnumList;
    BackslashLabels();
    NamelessLabelsClash();
    PathsDistinctIff([Node("a", 1, []), Node("a", 2, []), Node("a\\1", 3, [])]);
    PathsDistinctIff([Node("", 1, [Node("b", 2, [])]), Node("b", 3, [])]);
    if PathsRegular(Build([Node("a", 1, []), Node("a", 2, []), Node("a\\1", 3, [])])) {
      RegularIsDistinct(Build([Node("a", 1, []), Node("a", 2, []), Node("a\\1", 3, [])]));
    }
    if PathsRegular(Build([Node("", 1, [Node("b", 2, [])]), Node("b", 3, [])])) {
      RegularIsDistinct(Build([Node("", 1, [Node("b", 2, [])]), Node("b", 3, [])]));
    }
  }

  lemma NextLabel(l: Tree, ls: seq<Tree>, dup: map<string, nat>)
    ensures Labels([l] + ls, dup) == [Raw(l.name, Number(dup, l.name))] + Labels(ls, dup[l.name := Number(dup, l.name)])
  {
    assert ([l] + ls)[1..] == ls;
  }

  lemma BackslashLabels()
    ensures !Distinct(TopLabels([Node("a", 1, []), Node("a", 2, []), Node("a\\1", 3, [])]))
  {
    hide Labels;
    var a, b, c := Node("a", 1, []), Node("a", 2, []), Node("a\\1", 3, []);
    var d: map<string, nat> := map["a" := 0];
    var e: map<string, nat> := map["a" := 1];
    var none: map<string, nat> := map[];
    assert none["a" := 0] == d && d["a" := 1] == e;
    assert |"a\\1"| != |"a"|;
    assert Number(none, "a") == 0 && Number(d, "a") == 1 && Number(e, "a\\1") == 0;
    NextLabel(a, [b, c], none);
    NextLabel(b, [c], d);
    NextLabel(c, [], e);
    assert [a] + [b, c] == [a, b, c] && [b] + [c] == [b, c] && [c] + [] == [c];
    assert Decimal(1) == "1" && Raw("a", 1) == "a\\1" && Raw("a\\1", 0) == "a\\1";
    var q := TopLabels([a, b, c]);
    assert q[1] == "a\\1";
    assert q[2] == "a\\1";
    SameLabelsClash(q, 1, 2);
  }

  lemma NamelessLabelsClash()
    ensures !Distinct(TopLabels([Node("", 1, [Node("b", 2, [])]), Node("b", 3, [])]))
  {
    var b, c := Node("b", 2, []), Node("b", 3, []);
    var a := Node("", 1, [b]);
    hide Labels;
    NextLabel(a, [c], map[]);
    NextLabel(c, [], map["" := 0]);
    NextLabel(b, [], map[]);
    assert [a] + [c] == [a, c] && [c] + [] == [c] && [b] + [] == [b];
    var q := TopLabels([a, c]);
    assert FindSibling([a, c], "") == Some(a);
    assert q[1] == "b" && q[2] == "b";
    SameLabelsClash(q, 1, 2);
  }
}
