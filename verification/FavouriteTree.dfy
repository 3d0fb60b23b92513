/** The favourites tree of `src/go/img/pfv.go`: inserting nodes by path, full paths and lookup, the
    flags of open folders, and the states an item stores.  The tree is a value; a position is the
    list of child indices that leads to a node. */
module FavouriteTree {
  import opened Names

  datatype Node = Node(name: string, open: bool, children: seq<Node>, setting: Option<seq<bool>>, filter: Option<seq<bool>>)

  type Position = seq<nat>

  function NewNode(name: string): Node { Node(name, false, [], None, None) }

  ghost predicate Valid(n: Node, pos: Position)
    decreases |pos|
  {
    pos == [] || (pos[0] < |n.children| && Valid(n.children[pos[0]], pos[1..]))
  }

  function NodeAt(n: Node, pos: Position): Node
    requires Valid(n, pos)
    decreases |pos|
  {
    if pos == [] then n else NodeAt(n.children[pos[0]], pos[1..])
  }

  /** Names from the node to the position, the node itself included. */
  function NamesTo(n: Node, pos: Position): (r: seq<string>)
    requires Valid(n, pos)
    ensures |r| == |pos| + 1 && r[0] == n.name
    decreases |pos|
  {
    [n.name] + if pos == [] then [] else NamesTo(n.children[pos[0]], pos[1..])
  }

  function EncodeAll(names: seq<string>): (r: seq<string>)
    ensures |r| == |names|
    ensures forall k :: 0 <= k < |r| ==> r[k] == Escaped(names[k])
  {
    seq(|names|, k requires 0 <= k < |names| => Escaped(names[k]))
  }

  function FullPath(root: Node, pos: Position): string
    requires Valid(root, pos)
  {
    Join(EncodeAll(NamesTo(root, pos)), '/')
  }

  /** No two children of any node share a name. */
  ghost predicate DistinctNames(n: Node)
    decreases n, 0
  {
    && (forall i, j :: 0 <= i < j < |n.children| ==> n.children[i].name != n.children[j].name)
    && forall i :: 0 <= i < |n.children| ==> DistinctNames(n.children[i])
  }

  function NamedChild(children: seq<Node>, name: string): (r: Option<nat>)
    ensures r.Some? ==> r.value < |children| && children[r.value].name == name
    ensures r.None? ==> forall c <- children :: c.name != name
  {
    if children == [] then None
    else if children[0].name == name then Some(0)
    else
      var r := NamedChild(children[1..], name);
      assert forall c <- children :: c == children[0] || c in children[1..];
      if r.None? then None else Some(r.value + 1)
  }

  // ---------- insertNodeRecursive ----------

  /** The new tree and the position of the node for the path `parts`.  A part that cannot be decoded
      ends the walk; what was added before it stays. */
  function Insert(n: Node, parts: seq<string>): (Node, Option<Position>)
    decreases |parts|
  {
    if parts == [] then (n, Some([]))
    else
      match DecodeName(parts[0])
      case None => (n, None)
      case Some(name) =>
        var found := NamedChild(n.children, name);
        var k := if found.Some? then found.value else |n.children|;
        var child := if found.Some? then n.children[k] else NewNode(name);
        var (next, pos) := Insert(child, parts[1..]);
        var children := if found.Some? then n.children[k := next] else n.children + [next];
        (n.(children := children), if pos.None? then None else Some([k] + pos.value))
  }

  lemma {:induction false} InsertKeepsName(n: Node, parts: seq<string>)
    ensures Insert(n, parts).0.name == n.name
  {}

  /** Sibling names stay distinct, whether or not the path can be decoded. */
  lemma {:induction false} InsertKeepsDistinct(n: Node, parts: seq<string>)
    requires DistinctNames(n)
    ensures DistinctNames(Insert(n, parts).0)
    decreases |parts|
  {
    if parts != [] && DecodeName(parts[0]).Some? {
      var name := DecodeName(parts[0]).value;
      var found := NamedChild(n.children, name);
      var k := if found.Some? then found.value else |n.children|;
      var child := if found.Some? then n.children[k] else NewNode(name);
      InsertKeepsDistinct(child, parts[1..]);
      InsertKeepsName(child, parts[1..]);
      var r := Insert(n, parts).0;
      assert forall i :: 0 <= i < |n.children| && i != k ==> r.children[i] == n.children[i];
    }
  }

  /** Nodes keep their positions and names. */
  lemma {:induction false} InsertKeepsPositions(n: Node, parts: seq<string>, pos: Position)
    requires Valid(n, pos)
    ensures Valid(Insert(n, parts).0, pos) && NamesTo(Insert(n, parts).0, pos) == NamesTo(n, pos)
    decreases |parts|
  {
    var r := Insert(n, parts).0;
    if parts != [] && DecodeName(parts[0]).Some? && pos != [] {
      var found := NamedChild(n.children, DecodeName(parts[0]).value);
      if found.Some? && found.value == pos[0] {
        InsertKeepsPositions(n.children[pos[0]], parts[1..], pos[1..]);
      } else {
        assert r.children[pos[0]] == n.children[pos[0]];
      }
    }
  }

  function DecodeAll(parts: seq<string>): Option<seq<string>>
  {
    if parts == [] then Some([])
    else
      match DecodeName(parts[0])
      case None => None
      case Some(name) =>
        match DecodeAll(parts[1..])
        case None => None
        case Some(names) => Some([name] + names)
  }

  /** The walk ends at the node with the decoded names, unless some part cannot be decoded. */
  lemma {:induction false} InsertArrives(n: Node, parts: seq<string>)
    ensures var (r, pos) := Insert(n, parts);
      && (pos.None? <==> DecodeAll(parts).None?)
      && (pos.Some? ==> Valid(r, pos.value) && NamesTo(r, pos.value) == [n.name] + DecodeAll(parts).value)
    decreases |parts|
  {
    if parts != [] && DecodeName(parts[0]).Some? {
      var name := DecodeName(parts[0]).value;
      var found := NamedChild(n.children, name);
      var k := if found.Some? then found.value else |n.children|;
      var child := if found.Some? then n.children[k] else NewNode(name);
      InsertArrives(child, parts[1..]);
      InsertKeepsName(child, parts[1..]);
      var (r, pos) := Insert(n, parts);
      assert r.children[k] == Insert(child, parts[1..]).0;
      if pos.Some? {
        assert pos.value[1..] == Insert(child, parts[1..]).1.value;
      }
    }
  }

  /** The tree after a list of inserts by path, as `NewPFV` makes them. */
  function InsertMany(root: Node, names: seq<string>): Node
  {
    if names == [] then root
    else Insert(InsertMany(root, names[..|names| - 1]), Split(names[|names| - 1], '/')).0
  }

  lemma {:induction false} InsertManyKeepsDistinct(rootName: string, names: seq<string>)
    ensures DistinctNames(InsertMany(NewNode(rootName), names))
    ensures InsertMany(NewNode(rootName), names).name == rootName
  {
    if names != [] {
      InsertManyKeepsDistinct(rootName, names[..|names| - 1]);
      var before := InsertMany(NewNode(rootName), names[..|names| - 1]);
      InsertKeepsDistinct(before, Split(names[|names| - 1], '/'));
      InsertKeepsName(before, Split(names[|names| - 1], '/'));
    }
  }

  // ---------- FindNode ----------

  datatype Found = Error | Missing | At(pos: Position)

  function FindBelow(n: Node, parts: seq<string>): Found
    decreases |parts|
  {
    if parts == [] then At([])
    else
      match DecodeName(parts[0])
      case None => Error
      case Some(name) =>
        match NamedChild(n.children, name)
        case None => Missing
        case Some(k) => Under(k, FindBelow(n.children[k], parts[1..]))
  }

  function Under(k: nat, f: Found): Found
  {
    if f.At? then At([k] + f.pos) else f
  }

  function FindNode(root: Node, fullPath: string, ignoreRootName: bool): Found
  {
    if fullPath == "" then Error
    else
      var parts := Split(fullPath, '/');
      match DecodeName(parts[0])
      case None => Error
      case Some(name) =>
        if name != root.name && !ignoreRootName then Missing else FindBelow(root, parts[1..])
  }

  /** The loop over the path's parts. */
  method FindNodeLoop(root: Node, fullPath: string, ignoreRootName: bool) returns (r: Found)
    ensures r == FindNode(root, fullPath, ignoreRootName)
  {
    if fullPath == "" {
      return Error;
    }
    var parts := Split(fullPath, '/');
    var name := DecodeName(parts[0]);
    if name.None? {
      return Error;
    }
    if name.value != root.name && !ignoreRootName {
      return Missing;
    }
    var n, pos: Position := root, [];
    BehindNothing(FindBelow(root, parts[1..]));
    for k := 1 to |parts|
      invariant Behind(pos, FindBelow(n, parts[k..])) == FindBelow(root, parts[1..])
    {
      assert parts[k..][0] == parts[k] && parts[k..][1..] == parts[k + 1..];
      name := DecodeName(parts[k]);
      if name.None? {
        return Error;
      }
      var i := ChildIndex(n.children, name.value);
      if i.None? {
        return Missing;
      }
      BehindStep(pos, i.value, FindBelow(n.children[i.value], parts[k + 1..]));
      n, pos := n.children[i.value], pos + [i.value];
    }
    assert pos + [] == pos;
    return At(pos);
  }

  method ChildIndex(children: seq<Node>, name: string) returns (r: Option<nat>)
    ensures r == NamedChild(children, name)
  {
    assert children[0..] == children;
    for i := 0 to |children|
      invariant forall k :: 0 <= k < i ==> children[k].name != name
      invariant NamedChild(children, name) == Shifted(i, NamedChild(children[i..], name))
    {
      assert children[i..][0] == children[i] && children[i..][1..] == children[i + 1..];
      if children[i].name == name {
        return Some(i);
      }
    }
    return None;
  }

  function Shifted(i: nat, r: Option<nat>): Option<nat>
  {
    if r.None? then None else Some(i + r.value)
  }

  function Behind(pos: Position, f: Found): Found
  {
    if f.At? then At(pos + f.pos) else f
  }

  lemma BehindNothing(f: Found)
    ensures Behind([], f) == f
  {
    if f.At? {
      assert [] + f.pos == f.pos;
    }
  }

  lemma BehindStep(pos: Position, k: nat, f: Found)
    ensures Behind(pos, Under(k, f)) == Behind(pos + [k], f)
  {
    if f.At? {
      assert pos + ([k] + f.pos) == pos + [k] + f.pos;
    }
  }

  /** Lookup undoes path building below any node of a tree with distinct siblings. */
  lemma {:induction false} FindBelowNames(n: Node, pos: Position)
    requires DistinctNames(n) && Valid(n, pos)
    ensures FindBelow(n, EncodeAll(NamesTo(n, pos))[1..]) == At(pos)
    decreases |pos|
  {
    var parts := EncodeAll(NamesTo(n, pos))[1..];
    if pos != [] {
      var c := n.children[pos[0]];
      var below := EncodeAll(NamesTo(c, pos[1..]));
      assert parts == below;
      NameRoundTrip(c.name);
      assert parts[0] == Escaped(c.name);
      var k := NamedChild(n.children, c.name);
      assert c in n.children;
      assert k == Some(pos[0]);
      FindBelowNames(c, pos[1..]);
      assert [pos[0]] + pos[1..] == pos;
    } else {
      assert parts == [];
    }
  }

  lemma PathSplits(root: Node, pos: Position)
    requires Valid(root, pos)
    ensures Split(FullPath(root, pos), '/') == EncodeAll(NamesTo(root, pos))
  {
    var parts := EncodeAll(NamesTo(root, pos));
    forall p | p in parts
      ensures '/' !in p
    {
      var k :| 0 <= k < |parts| && parts[k] == p;
      EscapedIsClean(NamesTo(root, pos)[k]);
    }
    SplitJoin(parts, '/');
  }

  /** A full path leads back to its node, whatever bytes the names hold, exactly when the path is
      not empty. */
  lemma FindNodeOfFullPath(root: Node, pos: Position, ignoreRootName: bool)
    requires DistinctNames(root) && Valid(root, pos)
    ensures FindNode(root, FullPath(root, pos), ignoreRootName) == At(pos) <==> FullPath(root, pos) != ""
    ensures FullPath(root, pos) == "" ==> FindNode(root, FullPath(root, pos), ignoreRootName) == Error
  {
    PathSplits(root, pos);
    NameRoundTrip(root.name);
    FindBelowNames(root, pos);
  }

  /** The only empty path is that of a root without a name. */
  lemma EmptyPathIsNamelessRoot(root: Node, pos: Position)
    requires Valid(root, pos)
    ensures FullPath(root, pos) == "" <==> pos == [] && root.name == ""
  {
    var parts := EncodeAll(NamesTo(root, pos));
    if pos == [] {
      assert parts == [Escaped(root.name)];
    } else {
      assert |parts| >= 2;
    }
  }

  /** Different nodes have different paths. */
  lemma FullPathInjective(root: Node, p: Position, q: Position)
    requires DistinctNames(root) && Valid(root, p) && Valid(root, q) && FullPath(root, p) == FullPath(root, q)
    ensures p == q
  {
    FindNodeOfFullPath(root, p, true);
    FindNodeOfFullPath(root, q, true);
    EmptyPathIsNamelessRoot(root, p);
    EmptyPathIsNamelessRoot(root, q);
  }

  /** Every node of a tree made by inserts is found by its path, then and after later inserts. */
  lemma InsertedIsFound(rootName: string, names: seq<string>, more: seq<string>, pos: Position, ignoreRootName: bool)
    requires rootName != "" && Valid(InsertMany(NewNode(rootName), names), pos)
    ensures var before := InsertMany(NewNode(rootName), names);
      var after := InsertMany(NewNode(rootName), names + more);
      && Valid(after, pos) && FullPath(after, pos) == FullPath(before, pos)
      && FindNode(after, FullPath(before, pos), ignoreRootName) == At(pos)
  {
    LaterInsertsKeep(rootName, names, more, pos);
    var after := InsertMany(NewNode(rootName), names + more);
    InsertManyKeepsDistinct(rootName, names + more);
    FindNodeOfFullPath(after, pos, ignoreRootName);
    EmptyPathIsNamelessRoot(after, pos);
  }

  lemma {:induction false} LaterInsertsKeep(rootName: string, names: seq<string>, more: seq<string>, pos: Position)
    requires Valid(InsertMany(NewNode(rootName), names), pos)
    ensures Valid(InsertMany(NewNode(rootName), names + more), pos)
    ensures NamesTo(InsertMany(NewNode(rootName), names + more), pos) == NamesTo(InsertMany(NewNode(rootName), names), pos)
    decreases |more|
  {
    hide Insert, Valid, NamesTo;
    if more == [] {
      assert names + more == names;
    } else {
      var init, last := more[..|more| - 1], more[|more| - 1];
      LaterInsertsKeep(rootName, names, init, pos);
      assert (names + more)[..|names + more| - 1] == names + init;
      InsertKeepsPositions(InsertMany(NewNode(rootName), names + init), Split(last, '/'), pos);
    }
  }
}
