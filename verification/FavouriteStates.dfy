/** What favourites remember: the open folders, saved by path and restored in any order, and the
    layers an item or filter lists (`src/go/img/pfv.go`). */
module FavouriteStates {
  import opened Names
  import opened LayerTables
  import opened FavouriteTree

  // ---------- open folders ----------

  function SetOpen(n: Node, pos: Position, open: bool): Node
    requires Valid(n, pos)
    decreases |pos|
  {
    if pos == [] then n.(open := open)
    else n.(children := n.children[pos[0] := SetOpen(n.children[pos[0]], pos[1..], open)])
  }

  lemma {:induction false} SetOpenElsewhere(n: Node, pos: Position, open: bool, q: Position)
    requires Valid(n, pos)
    ensures var r := SetOpen(n, pos, open);
      && (Valid(r, q) <==> Valid(n, q))
      && (Valid(n, q) ==> NamesTo(r, q) == NamesTo(n, q))
      && (Valid(n, q) ==> NodeAt(r, q).open == if q == pos then open else NodeAt(n, q).open)
    decreases |pos|
  {
    if pos != [] && q != [] && q[0] < |n.children| {
      var r := SetOpen(n, pos, open);
      assert pos == [pos[0]] + pos[1..] && q == [q[0]] + q[1..];
      if pos[0] == q[0] {
        SetOpenElsewhere(n.children[pos[0]], pos[1..], open, q[1..]);
      } else {
        assert r.children[q[0]] == n.children[q[0]];
      }
    }
    if pos != [] && q == [] {
      assert SetOpen(n, pos, open).name == n.name;
    }
  }

  lemma {:induction false} SetOpenKeepsDistinct(n: Node, pos: Position, open: bool)
    requires Valid(n, pos) && DistinctNames(n)
    ensures DistinctNames(SetOpen(n, pos, open)) && SetOpen(n, pos, open).name == n.name
    decreases |pos|
  {
    if pos != [] {
      SetOpenKeepsDistinct(n.children[pos[0]], pos[1..], open);
      var r := SetOpen(n, pos, open);
      assert forall i :: 0 <= i < |n.children| && i != pos[0] ==> r.children[i] == n.children[i];
    }
  }

  /** `data` holds the open flag of every node of `root` under its full path, and nothing else. */
  ghost predicate Saves(data: map<string, bool>, root: Node)
  {
    && (forall pos :: Valid(root, pos) ==> FullPath(root, pos) in data && data[FullPath(root, pos)] == NodeAt(root, pos).open)
    && forall path <- data :: IsPath(root, path)
  }

  ghost predicate IsPath(root: Node, path: string)
  {
    exists pos :: Valid(root, pos) && FullPath(root, pos) == path
  }

  /** `serializeNode`: the entries below the node whose ancestors' names are `above`. */
  function SaveBelow(n: Node, above: seq<string>): map<string, bool>
    decreases n, 0, 0
  {
    var names := above + [n.name];
    map[Join(EncodeAll(names), '/') := n.open] + SaveChildren(n.children, names, |n.children|)
  }

  function SaveChildren(children: seq<Node>, above: seq<string>, k: nat): map<string, bool>
    requires k <= |children|
    decreases children, 1, k
  {
    if k == 0 then map[]
    else SaveChildren(children, above, k - 1) + SaveBelow(children[k - 1], above)
  }

  function Save(root: Node): map<string, bool>
  {
    SaveBelow(root, [])
  }

  /** The path of a position below `n`. */
  function PathBelow(n: Node, above: seq<string>, pos: Position): string
    requires Valid(n, pos)
  {
    Join(EncodeAll(above + NamesTo(n, pos)), '/')
  }

  ghost predicate PathsDiffer(n: Node, above: seq<string>)
  {
    forall p, q :: Valid(n, p) && Valid(n, q) && PathBelow(n, above, p) == PathBelow(n, above, q) ==> p == q
  }

  lemma ChildPath(n: Node, above: seq<string>, k: nat, pos: Position)
    requires k < |n.children| && Valid(n.children[k], pos)
    ensures Valid(n, [k] + pos) && PathBelow(n, above, [k] + pos) == PathBelow(n.children[k], above + [n.name], pos)
    ensures NodeAt(n, [k] + pos) == NodeAt(n.children[k], pos)
  {
    var p := [k] + pos;
    assert p[0] == k && p[1..] == pos;
    assert above + NamesTo(n, p) == above + [n.name] + NamesTo(n.children[k], pos);
  }

  ghost predicate SavedAt(data: map<string, bool>, n: Node, above: seq<string>, pos: Position)
    requires Valid(n, pos)
  {
    var path := PathBelow(n, above, pos);
    path in data && data[path] == NodeAt(n, pos).open
  }

  /** Some position below `n` has this path. */
  ghost predicate HasPath(n: Node, above: seq<string>, path: string)
  {
    exists pos :: Valid(n, pos) && PathBelow(n, above, pos) == path
  }

  lemma {:induction false} SaveBelowHolds(n: Node, above: seq<string>, pos: Position)
    requires PathsDiffer(n, above) && Valid(n, pos)
    ensures SavedAt(SaveBelow(n, above), n, above, pos)
    decreases n, 2, 0
  {
    var names := above + [n.name];
    assert above + NamesTo(n, []) == names;
    if pos == [] {
      if PathBelow(n, above, []) in SaveChildren(n.children, names, |n.children|) {
        var k := OnlyPathsChildren(n, above, |n.children|, PathBelow(n, above, []));
        var q :| Valid(n.children[k], q) && PathBelow(n.children[k], names, q) == PathBelow(n, above, []);
        ChildPath(n, above, k, q);
      }
    } else {
      assert [pos[0]] + pos[1..] == pos;
      ChildPath(n, above, pos[0], pos[1..]);
      ChildrenHold(n, above, |n.children|, pos);
    }
  }

  lemma DifferBelow(n: Node, above: seq<string>, k: nat)
    requires PathsDiffer(n, above) && k < |n.children|
    ensures PathsDiffer(n.children[k], above + [n.name])
  {
    forall p, q | Valid(n.children[k], p) && Valid(n.children[k], q) &&
        PathBelow(n.children[k], above + [n.name], p) == PathBelow(n.children[k], above + [n.name], q)
      ensures p == q
    {
      ChildPath(n, above, k, p);
      ChildPath(n, above, k, q);
      assert ([k] + p)[1..] == p && ([k] + q)[1..] == q;
    }
  }

  lemma {:induction false} ChildrenHold(n: Node, above: seq<string>, k: nat, pos: Position)
    requires PathsDiffer(n, above) && k <= |n.children| && pos != [] && pos[0] < k && Valid(n, pos)
    ensures SavedAt(SaveChildren(n.children, above + [n.name], k), n, above, pos)
    decreases n, 1, k
  {
    var names, c := above + [n.name], k - 1;
    assert [pos[0]] + pos[1..] == pos;
    ChildPath(n, above, pos[0], pos[1..]);
    if pos[0] == c {
      DifferBelow(n, above, c);
      SaveBelowHolds(n.children[c], names, pos[1..]);
    } else {
      ChildrenHold(n, above, c, pos);
      if PathBelow(n, above, pos) in SaveBelow(n.children[c], names) {
        OnlyPathsBelow(n.children[c], names, PathBelow(n, above, pos));
        var q :| Valid(n.children[c], q) && PathBelow(n.children[c], names, q) == PathBelow(n, above, pos);
        ChildPath(n, above, c, q);
      }
    }
  }

  lemma {:induction false} OnlyPathsBelow(n: Node, above: seq<string>, path: string)
    requires path in SaveBelow(n, above)
    ensures HasPath(n, above, path)
    decreases n, 2, 0
  {
    var names := above + [n.name];
    if path in SaveChildren(n.children, names, |n.children|) {
      var k := OnlyPathsChildren(n, above, |n.children|, path);
      var q :| Valid(n.children[k], q) && PathBelow(n.children[k], names, q) == path;
      ChildPath(n, above, k, q);
    } else {
      assert above + NamesTo(n, []) == names;
      assert Valid(n, []) && PathBelow(n, above, []) == path;
    }
  }

  lemma {:induction false} OnlyPathsChildren(n: Node, above: seq<string>, k: nat, path: string) returns (c: nat)
    requires k <= |n.children| && path in SaveChildren(n.children, above + [n.name], k)
    ensures c < k && HasPath(n.children[c], above + [n.name], path)
    decreases n, 1, k
  {
    if path in SaveBelow(n.children[k - 1], above + [n.name]) {
      OnlyPathsBelow(n.children[k - 1], above + [n.name], path);
      c := k - 1;
    } else {
      c := OnlyPathsChildren(n, above, k - 1, path);
    }
  }

  lemma SaveIsComplete(root: Node)
    requires DistinctNames(root)
    ensures Saves(Save(root), root)
  {
    assert forall pos | Valid(root, pos) :: [] + NamesTo(root, pos) == NamesTo(root, pos);
    assert PathsDiffer(root, []) by {
      forall p, q | Valid(root, p) && Valid(root, q) && PathBelow(root, [], p) == PathBelow(root, [], q)
        ensures p == q
      {
        FullPathInjective(root, p, q);
      }
    }
    forall pos | Valid(root, pos)
      ensures FullPath(root, pos) in Save(root) && Save(root)[FullPath(root, pos)] == NodeAt(root, pos).open
    {
      SaveBelowHolds(root, [], pos);
    }
    forall path | path in Save(root)
      ensures IsPath(root, path)
    {
      OnlyPathsBelow(root, [], path);
      var pos :| Valid(root, pos) && PathBelow(root, [], pos) == path;
      assert FullPath(root, pos) == path;
    }
  }

  /** The two trees have the same nodes with the same names. */
  ghost predicate SameShape(a: Node, b: Node)
    decreases a
  {
    && a.name == b.name && |a.children| == |b.children|
    && forall i :: 0 <= i < |a.children| ==> SameShape(a.children[i], b.children[i])
  }

  lemma {:induction false} SameShapeSelf(a: Node)
    ensures SameShape(a, a)
  {
    forall i | 0 <= i < |a.children|
      ensures SameShape(a.children[i], a.children[i])
    {
      SameShapeSelf(a.children[i]);
    }
  }

  lemma {:induction false} SetOpenKeepsShape(a: Node, b: Node, pos: Position, open: bool)
    requires SameShape(a, b) && Valid(a, pos)
    ensures SameShape(SetOpen(a, pos, open), b)
    decreases |pos|
  {
    if pos != [] {
      SetOpenKeepsShape(a.children[pos[0]], b.children[pos[0]], pos[1..], open);
      var r := SetOpen(a, pos, open);
      assert forall i :: 0 <= i < |a.children| && i != pos[0] ==> r.children[i] == a.children[i];
    }
  }

  lemma {:induction false} SamePositions(a: Node, b: Node, pos: Position)
    requires SameShape(a, b)
    ensures Valid(a, pos) <==> Valid(b, pos)
    ensures Valid(a, pos) ==> NamesTo(a, pos) == NamesTo(b, pos)
    decreases |pos|
  {
    if pos != [] && pos[0] < |a.children| {
      SamePositions(a.children[pos[0]], b.children[pos[0]], pos[1..]);
    }
  }

  lemma {:induction false} SameChild(a: seq<Node>, b: seq<Node>, name: string)
    requires |a| == |b| && forall i :: 0 <= i < |a| ==> a[i].name == b[i].name
    ensures NamedChild(a, name) == NamedChild(b, name)
  {
    if a != [] {
      SameChild(a[1..], b[1..], name);
    }
  }

  lemma {:induction false} SameLookup(a: Node, b: Node, parts: seq<string>)
    requires SameShape(a, b)
    ensures FindBelow(a, parts) == FindBelow(b, parts)
    ensures FindBelow(a, parts).At? ==> Valid(a, FindBelow(a, parts).pos)
    decreases |parts|
  {
    if parts != [] && DecodeName(parts[0]).Some? {
      var name := DecodeName(parts[0]).value;
      SameChild(a.children, b.children, name);
      var k := NamedChild(a.children, name);
      if k.Some? {
        SameLookup(a.children[k.value], b.children[k.value], parts[1..]);
        var f := FindBelow(a.children[k.value], parts[1..]);
        assert f.At? ==> ([k.value] + f.pos)[1..] == f.pos;
      }
    }
  }

  lemma SameFind(a: Node, b: Node, path: string)
    requires SameShape(a, b)
    ensures FindNode(a, path, false) == FindNode(b, path, false)
    ensures FindNode(a, path, false).At? ==> Valid(a, FindNode(a, path, false).pos)
  {
    if path != "" {
      SameLookup(a, b, Split(path, '/')[1..]);
    }
  }

  /** The flag at `pos` comes from an entry that leads there, or from before if there is none. */
  ghost predicate Restored(root: Node, data: map<string, bool>, pos: Position, open: bool)
    requires Valid(root, pos)
  {
    || (exists path <- data :: LeadsTo(root, path, pos) && data[path] == open)
    || ((forall path <- data :: !LeadsTo(root, path, pos)) && open == NodeAt(root, pos).open)
  }

  ghost predicate LeadsTo(root: Node, path: string, pos: Position)
  {
    FindNode(root, path, false) == At(pos)
  }

  lemma RestoreStep(root: Node, before: Node, pos: Position, path: string, data: map<string, bool>, open: bool, q: Position)
    requires SameShape(before, root) && Valid(root, pos) && Valid(root, q) && Valid(before, pos) && Valid(before, q)
    requires path !in data && LeadsTo(root, path, pos)
    requires Restored(root, data, q, NodeAt(before, q).open)
    ensures Valid(SetOpen(before, pos, open), q)
    ensures Restored(root, data[path := open], q, NodeAt(SetOpen(before, pos, open), q).open)
  {
    SetOpenElsewhere(before, pos, open, q);
    var more := data[path := open];
    if q == pos {
      assert path in more && LeadsTo(root, path, q) && more[path] == open;
    } else if p :| p in data && LeadsTo(root, p, q) && data[p] == NodeAt(before, q).open {
      assert p in more && more[p] == data[p];
    } else {
      assert forall p <- more :: p == path || p in data;
    }
  }

  ghost function Part(data: map<string, bool>, keys: set<string>): map<string, bool>
  {
    data - (data.Keys - keys)
  }

  /** `deserializeNode`: the entries come in the order in which Go happens to visit the map. */
  method RestoreOpen(root: Node, data: map<string, bool>) returns (r: Node, ok: bool)
    ensures SameShape(r, root)
    ensures ok <==> forall path <- data :: !FindNode(root, path, false).Error?
    ensures ok ==> forall pos | Valid(root, pos) :: Valid(r, pos) && Restored(root, data, pos, NodeAt(r, pos).open)
  {
    r, ok := root, true;
    var todo := data.Keys;
    SameShapeSelf(root);
    ghost var seen: set<string> := {};
    while todo != {}
      invariant seen !! todo && seen + todo == data.Keys
      invariant SameShape(r, root)
      invariant forall path <- seen :: !FindNode(root, path, false).Error?
      invariant forall pos | Valid(root, pos) :: Valid(r, pos) && Restored(root, Part(data, seen), pos, NodeAt(r, pos).open)
      decreases todo
    {
      var path :| path in todo;
      SameFind(r, root, path);
      SameShapeSelf(root);
      SameFind(root, root, path);
      var found := FindNode(r, path, false);
      if found.Error? {
        return r, false;
      }
      ghost var before := r;
      if found.At? {
        SetOpenKeepsShape(r, root, found.pos, data[path]);
        r := SetOpen(r, found.pos, data[path]);
      }
      forall pos | Valid(root, pos)
        ensures Valid(r, pos) && Restored(root, Part(data, seen + {path}), pos, NodeAt(r, pos).open)
      {
        assert Part(data, seen + {path}) == Part(data, seen)[path := data[path]];
        if found.At? {
          RestoreStep(root, before, found.pos, path, Part(data, seen), data[path], pos);
        } else {
          RestoreMissing(root, path, Part(data, seen), data[path], pos, NodeAt(r, pos).open);
        }
      }
      todo, seen := todo - {path}, seen + {path};
    }
    assert Part(data, seen) == data;
  }

  lemma RestoreMissing(root: Node, path: string, data: map<string, bool>, x: bool, pos: Position, open: bool)
    requires Valid(root, pos) && path !in data && Restored(root, data, pos, open) && FindNode(root, path, false) == Missing
    ensures Restored(root, data[path := x], pos, open)
  {
    var more := data[path := x];
    if p :| p in data && LeadsTo(root, p, pos) && data[p] == open {
      assert p in more && more[p] == open;
    } else {
      assert forall p <- more :: p == path || p in data;
    }
  }

  /** Restoring what was saved gives every node its saved flag, in any order of the map, whatever
      was open in between; only a root without a name cannot be restored. */
  lemma RestoreUndoesSave(saved: Node, root: Node, pos: Position, open: bool)
    requires DistinctNames(saved) && SameShape(saved, root) && saved.name != "" && Valid(root, pos)
    requires Restored(root, Save(saved), pos, open)
    ensures Valid(saved, pos) && open == NodeAt(saved, pos).open
    ensures forall path <- Save(saved) :: !FindNode(root, path, false).Error?
  {
    SaveIsComplete(saved);
    SamePositions(saved, root, pos);
    SavedLeadsThere(saved, root, pos);
    forall path | path in Save(saved)
      ensures !FindNode(root, path, false).Error?
      ensures LeadsTo(root, path, pos) ==> path == FullPath(saved, pos)
    {
      assert IsPath(saved, path);
      var q :| Valid(saved, q) && FullPath(saved, q) == path;
      SavedLeadsThere(saved, root, q);
    }
  }

  lemma SavedLeadsThere(saved: Node, root: Node, pos: Position)
    requires DistinctNames(saved) && SameShape(saved, root) && saved.name != "" && Valid(saved, pos)
    ensures LeadsTo(root, FullPath(saved, pos), pos)
  {
    FindNodeOfFullPath(saved, pos, false);
    EmptyPathIsNamelessRoot(saved, pos);
    SameFind(saved, root, FullPath(saved, pos));
  }

  /** A tree whose root has no name saves an entry that can never be restored. */
  lemma NamelessRootIsNotRestored(saved: Node, root: Node)
    requires DistinctNames(saved) && saved.name == ""
    ensures exists path <- Save(saved) :: FindNode(root, path, false).Error?
  {
    SaveIsComplete(saved);
    EmptyPathIsNamelessRoot(saved, []);
    assert FullPath(saved, []) in Save(saved);
  }

  // ---------- the layers an item lists ----------

  function NextSlash(l: string, p: nat): (r: Option<nat>)
    requires p <= |l|
    ensures r.Some? ==> p <= r.value < |l| && l[r.value] == '/' && '/' !in l[p..r.value]
    ensures r.None? ==> '/' !in l[p..]
    decreases |l| - p
  {
    if p == |l| then None
    else if l[p] == '/' then Some(p)
    else
      var r := NextSlash(l, p + 1);
      assert r.Some? ==> l[p..r.value] == [l[p]] + l[p + 1..r.value];
      assert l[p..] == [l[p]] + l[p + 1..];
      r
  }

  /** The layers that one line of an item or filter switches on: those on the way down the path, until one
      is missing. */
  function Marked(fullPath: map<string, nat>, l: string, p: nat): set<nat>
    requires p <= |l|
    decreases |l| - p
  {
    match NextSlash(l, p)
    case None => if l in fullPath then {fullPath[l]} else {}
    case Some(q) => if l[..q] in fullPath then {fullPath[l[..q]]} + Marked(fullPath, l, q + 1) else {}
  }

  lemma {:induction false} MarkedAreLayers(t: Tables, l: string, p: nat)
    requires WellFormed(t) && p <= |l|
    ensures forall i <- Marked(t.fullPath, l, p) :: i < |t.layers|
    decreases |l| - p
  {
    hide WellFormed, Marked, NextSlash;
    PathsAreLayers(t);
    MarkedUnfold(t.fullPath, l, p);
    var q := NextSlash(l, p);
    if q.Some? {
      MarkedAreLayers(t, l, q.value + 1);
    }
  }

  lemma PathsAreLayers(t: Tables)
    requires WellFormed(t)
    ensures forall path <- t.fullPath :: t.fullPath[path] < |t.layers|
  {}

  /** With every layer a line switches on go all layers above it. */
  lemma {:induction false} MarkedWithParents(t: Tables, l: string, p: nat, i: nat)
    requires WellFormed(t) && PathsRegular(t) && p <= |l| && i in Marked(t.fullPath, l, p)
    requires p == 0 || (l[p - 1] == '/' && l[..p - 1] in t.fullPath)
    ensures i < |t.layers|
    ensures t.layers[i].parent >= 0 ==>
      t.layers[i].parent in Marked(t.fullPath, l, p) || (p > 0 && t.layers[i].parent == t.fullPath[l[..p - 1]])
    decreases |l| - p
  {
    hide WellFormed, PathsRegular;
    MarkedAreLayers(t, l, p);
    var q := NextSlash(l, p);
    var end := if q.Some? then q.value else |l|;
    assert l[..|l|] == l;
    MarkedUnfold(t.fullPath, l, p);
    hide Marked;
    if l[..end] in t.fullPath && i == t.fullPath[l[..end]] {
      if t.layers[i].parent >= 0 {
        MarkedHead(t, l, p, end, i);
      }
    } else {
      assert l[..(q.value + 1) - 1] == l[..q.value];
      MarkedWithParents(t, l, q.value + 1, i);
    }
  }

  lemma MarkedUnfold(fullPath: map<string, nat>, l: string, p: nat)
    requires p <= |l|
    ensures Marked(fullPath, l, p) ==
      match NextSlash(l, p)
      case None => if l in fullPath then {fullPath[l]} else {}
      case Some(q) => if l[..q] in fullPath then {fullPath[l[..q]]} + Marked(fullPath, l, q + 1) else {}
  {}

  /** A layer named by the part of the line from `p` to `end` hangs below the part before. */
  lemma MarkedHead(t: Tables, l: string, p: nat, end: nat, i: nat)
    requires WellFormed(t) && PathsRegular(t) && p <= end <= |l| && '/' !in l[p..end]
    requires p == 0 || (l[p - 1] == '/' && l[..p - 1] in t.fullPath)
    requires l[..end] in t.fullPath && i == t.fullPath[l[..end]] && i < |t.layers| && t.layers[i].parent >= 0
    ensures p > 0 && t.layers[i].parent == t.fullPath[l[..p - 1]]
  {
    hide WellFormed, PathsRegular, Component;
    ParentPath(t, i, l[..end]);
    if p > 0 {
      assert l[..end] == l[..p - 1] + "/" + l[p..end];
      LastSlash(t.layers[t.layers[i].parent].fullPath, Component(t, i), l[..p - 1], l[p..end]);
    }
  }

  lemma ParentPath(t: Tables, i: nat, path: string)
    requires WellFormed(t) && PathsRegular(t) && path in t.fullPath && i == t.fullPath[path]
    requires i < |t.layers| && t.layers[i].parent >= 0
    ensures var p := t.layers[i].parent;
      && p < |t.layers| && '/' !in Component(t, i) && '/' in path
      && path == t.layers[p].fullPath + "/" + Component(t, i)
      && t.layers[p].fullPath in t.fullPath && t.fullPath[t.layers[p].fullPath] == p
  {
    assert path[|t.layers[t.layers[i].parent].fullPath|] == '/';
  }

  ghost predicate Lists(fullPath: map<string, nat>, lines: seq<string>, i: nat)
  {
    exists l <- lines :: i in Marked(fullPath, l, 0)
  }

  lemma ListsAppend(fullPath: map<string, nat>, lines: seq<string>, l: string, i: nat)
    ensures Lists(fullPath, lines + [l], i) <==> Lists(fullPath, lines, i) || i in Marked(fullPath, l, 0)
  {
    assert l in lines + [l];
    assert forall x <- lines :: x in lines + [l];
  }

  /** The loop that fills an item's states from its lines. */
  method ListedStates(t: Tables, lines: seq<string>) returns (states: array<bool>)
    requires WellFormed(t)
    ensures fresh(states) && states.Length == |t.layers|
    ensures forall i :: 0 <= i < |t.layers| ==> (states[i] <==> Lists(t.fullPath, lines, i))
  {
    states := new bool[|t.layers|](_ => false);
    for k := 0 to |lines|
      invariant forall i :: 0 <= i < |t.layers| ==> (states[i] <==> Lists(t.fullPath, lines[..k], i))
    {
      ghost var before := states[..];
      MarkLine(t, lines[k], states);
      assert lines[..k + 1] == lines[..k] + [lines[k]];
      forall i | 0 <= i < |t.layers|
        ensures states[i] <==> Lists(t.fullPath, lines[..k + 1], i)
      {
        ListsAppend(t.fullPath, lines[..k], lines[k], i);
        assert states[i] <==> before[i] || i in Marked(t.fullPath, lines[k], 0);
      }
    }
    assert lines[..|lines|] == lines;
  }

  method MarkLine(t: Tables, l: string, states: array<bool>)
    requires WellFormed(t) && states.Length == |t.layers|
    modifies states
    ensures forall i :: 0 <= i < |t.layers| ==> (states[i] <==> old(states[i]) || i in Marked(t.fullPath, l, 0))
  {
    hide WellFormed, Marked;
    var p := 0;
    ghost var done: set<nat> := {};
    PathsInRange(t);
    while true
      invariant 0 <= p <= |l|
      invariant done + Marked(t.fullPath, l, p) == Marked(t.fullPath, l, 0)
      invariant forall i :: 0 <= i < |t.layers| ==> (states[i] <==> old(states[i]) || i in done)
      decreases |l| - p
    {
      MarkedUnfold(t.fullPath, l, p);
      var q := NextSlash(l, p);
      if q.None? {
        if l in t.fullPath {
          states[t.fullPath[l]] := true;
        }
        return;
      }
      var head := l[..q.value];
      if head !in t.fullPath {
        return;
      }
      states[t.fullPath[head]] := true;
      done := done + {t.fullPath[head]};
      p := q.value + 1;
    }
  }

  lemma PathsInRange(t: Tables)
    requires WellFormed(t)
    ensures forall p <- t.fullPath :: t.fullPath[p] < |t.layers|
  {}

  // ---------- filters ----------

  predicate Passes(chain: seq<Node>, i: nat)
  {
    forall n <- chain :: n.filter.Some? && i < |n.filter.value| ==> n.filter.value[i]
  }

  /** `makeFilter` on a node and its ancestors: clears what some filter on the way holds back, and
      tells whether there was any such filter entry. */
  method MakeFilter(f: array<bool>, chain: seq<Node>) returns (modified: bool)
    requires forall n <- chain :: n.filter.Some? ==> |n.filter.value| == f.Length
    modifies f
    ensures forall i :: 0 <= i < f.Length ==> (f[i] <==> old(f[i]) && Passes(chain, i))
    ensures modified <==> exists i: nat :: i < f.Length && !Passes(chain, i)
    decreases |chain|
  {
    modified := false;
    if chain == [] {
      return;
    }
    var n := chain[0];
    if n.filter.Some? {
      for i := 0 to f.Length
        invariant forall k :: 0 <= k < f.Length ==> (f[k] <==> old(f[k]) && (k < i ==> n.filter.value[k]))
        invariant modified <==> exists k :: 0 <= k < i && !n.filter.value[k]
      {
        if !n.filter.value[i] {
          f[i] := false;
          modified := true;
        }
      }
    }
    ghost var own := modified;
    ghost var middle := f[..];
    assert forall m <- chain[1..] :: m in chain;
    var above := MakeFilter(f, chain[1..]);
    modified := above || modified;
    forall i: nat | i < f.Length
      ensures Passes(chain, i) <==> Passes(chain[1..], i) && (n.filter.Some? ==> n.filter.value[i])
    {
      PassesStep(chain, i);
    }
  }

  lemma PassesStep(chain: seq<Node>, i: nat)
    requires chain != []
    ensures Passes(chain, i) <==>
      Passes(chain[1..], i) && (chain[0].filter.Some? && i < |chain[0].filter.value| ==> chain[0].filter.value[i])
  {
    assert chain == [chain[0]] + chain[1..];
  }
}
