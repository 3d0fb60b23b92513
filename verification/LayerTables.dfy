/** The lookup tables of a layer tree (`src/go/img/layermgr.go`) as plain values, and what the
    rest of the model relies on.  Layers are numbered in document order (parents first).

    The source shares `*group` and `*flipPair` pointers.  A group is identified here by the
    layer that owns its sibling list (-1 for the root list) and a flip pair by its mirror, which
    every call of `registerFlips` creates at most one pair for. */
module LayerTables {
  import opened Names

  type SeqID = int

  datatype Layer = Layer(name: string, seqId: SeqID, fullPath: string, parent: int, children: seq<SeqID>)

  datatype Group = Group(owner: int, members: seq<SeqID>)

  datatype FlipPair = FlipPair(original: SeqID, mirror: SeqID)

  type FlipMap = map<SeqID, FlipPair>

  datatype Tables = Tables(
    layers: seq<Layer>,
    roots: seq<SeqID>,
    mapped: map<SeqID, nat>,
    fullPath: map<string, nat>,
    forceVisible: set<SeqID>,
    groupMap: map<SeqID, Group>,
    syncedMap: map<SeqID, seq<SeqID>>,
    flipX: FlipMap,
    flipY: FlipMap,
    flipXY: FlipMap)

  predicate IsForceVisible(s: string) { |s| > 1 && s[0] == '!' && s != "!?" }

  predicate IsGroup(s: string) { |s| > 1 && s[0] == '*' && s[1] != '*' }

  // ---------- what construction guarantees for every tree ----------

  ghost predicate RowsLinked(t: Tables)
  {
    && (forall i :: 0 <= i < |t.layers| ==>
         t.layers[i].seqId in t.mapped && t.mapped[t.layers[i].seqId] == i)
    && (forall id <- t.mapped :: t.mapped[id] < |t.layers| && t.layers[t.mapped[id]].seqId == id)
    && (forall p <- t.fullPath :: t.fullPath[p] < |t.layers| && t.layers[t.fullPath[p]].fullPath == p)
    && (forall i :: 0 <= i < |t.layers| ==> -1 <= t.layers[i].parent < i)
    && (forall i :: 0 <= i < |t.layers| && t.layers[i].parent >= 0 ==>
         t.layers[i].seqId in t.layers[t.layers[i].parent].children)
    && (forall i, c :: 0 <= i < |t.layers| && c in t.layers[i].children && c in t.mapped ==>
         && t.layers[t.mapped[c]].parent == i
         && |t.layers[i].fullPath| <= |t.layers[t.mapped[c]].fullPath|)
  }

  /** Members of one group share one entry, and a sibling list owns at most one. */
  ghost predicate Closed(g: map<SeqID, Group>)
  {
    && (forall id <- g :: id in g[id].members)
    && (forall id <- g, m <- g[id].members :: m in g && g[m] == g[id])
    && (forall x, y :: x in g && y in g && g[x].owner == g[y].owner ==> g[x] == g[y])
  }

  ghost predicate GroupsLinked(t: Tables)
    requires RowsLinked(t)
  {
    && Closed(t.groupMap)
    && (forall id <- t.groupMap :: id in t.mapped && t.groupMap[id].owner == t.layers[t.mapped[id]].parent)
    && (forall i :: 0 <= i < |t.layers| ==> (t.layers[i].seqId in t.groupMap <==> IsGroup(t.layers[i].name)))
  }

  ghost predicate WellFormed(t: Tables)
  {
    && RowsLinked(t)
    && GroupsLinked(t)
    && (forall i :: 0 <= i < |t.layers| ==> (t.layers[i].seqId in t.forceVisible <==> IsForceVisible(t.layers[i].name)))
    && (forall id <- t.forceVisible :: id in t.mapped)
  }

  /** The flat index behind a sequence number. */
  function Find(t: Tables, id: SeqID): (r: Option<nat>)
    requires WellFormed(t)
    ensures r.Some? <==> id in t.mapped
    ensures r.Some? ==> r.value < |t.layers| && t.layers[r.value].seqId == id
  {
    if id in t.mapped then Some(t.mapped[id]) else None
  }

  /** Child `k` of layer `fi`, and the path below `fj` that mirrors it. */
  function FindChild(t: Tables, fi: nat, k: nat): (r: Option<nat>)
    requires WellFormed(t) && fi < |t.layers| && k < |t.layers[fi].children|
    ensures r == Find(t, t.layers[fi].children[k])
    ensures r.Some? ==> fi < r.value < |t.layers| && t.layers[r.value].parent == fi
    ensures r.Some? ==> |t.layers[fi].fullPath| <= |t.layers[r.value].fullPath|
  {
    var id := t.layers[fi].children[k];
    assert id in t.layers[fi].children;
    Find(t, id)
  }

  function FindPath(t: Tables, path: string): (r: Option<nat>)
    requires WellFormed(t)
    ensures r.Some? <==> path in t.fullPath
    ensures r.Some? ==> r.value < |t.layers| && t.layers[r.value].fullPath == path
  {
    if path in t.fullPath then Some(t.fullPath[path]) else None
  }

  /** The children of the parent of layer `fi`, itself included. */
  function Siblings(t: Tables, fi: nat): seq<SeqID>
    requires WellFormed(t) && fi < |t.layers|
  {
    if t.layers[fi].parent >= 0 then t.layers[t.layers[fi].parent].children else t.roots
  }

  // ---------- regular paths ----------

  /** The last part of a path; for a top-level layer the whole path. */
  function Component(t: Tables, i: nat): string
    requires i < |t.layers|
  {
    var l := t.layers[i];
    if 0 <= l.parent < |t.layers| && |t.layers[l.parent].fullPath| < |l.fullPath|
    then l.fullPath[|t.layers[l.parent].fullPath| + 1..]
    else l.fullPath
  }

  /** Full paths are distinct and not empty, and each is its parent's path, a slash and one slash-free part
      that determines the layer's name. */
  ghost predicate PathsRegular(t: Tables)
  {
    && (forall i :: 0 <= i < |t.layers| ==>
         t.layers[i].fullPath in t.fullPath && t.fullPath[t.layers[i].fullPath] == i)
    && (forall i :: 0 <= i < |t.layers| ==> t.layers[i].fullPath != "")
    && (forall i :: 0 <= i < |t.layers| ==> '/' !in Component(t, i))
    && (forall i :: 0 <= i < |t.layers| && t.layers[i].parent >= 0 ==>
         t.layers[i].parent < i &&
         t.layers[i].fullPath == t.layers[t.layers[i].parent].fullPath + "/" + Component(t, i))
    && (forall i, j :: 0 <= i < |t.layers| && 0 <= j < |t.layers| && Component(t, i) == Component(t, j) ==>
         t.layers[i].name == t.layers[j].name)
  }

  /** Where a slash-free part hangs below layer `e`, by its path. */
  function ChildBy(t: Tables, e: nat, part: string): Option<nat>
    requires e < |t.layers|
  {
    var p := t.layers[e].fullPath + "/" + part;
    if p in t.fullPath then Some(t.fullPath[p]) else None
  }

  lemma LastSlash(a: string, x: string, b: string, y: string)
    requires a + "/" + x == b + "/" + y && '/' !in x && '/' !in y
    ensures a == b && x == y
  {
    var s := a + "/" + x;
    assert s[|a|] == '/' && s[|b|] == '/';
    assert forall k :: |a| < k < |s| ==> s[k] == x[k - |a| - 1] && s[k] != '/';
    assert forall k :: |b| < k < |s| ==> s[k] == y[k - |b| - 1] && s[k] != '/';
    assert a == s[..|a|] && x == s[|a| + 1..];
  }

  lemma RootHasNoSlash(t: Tables, c: nat)
    requires PathsRegular(t) && c < |t.layers| && t.layers[c].parent < 0
    ensures '/' !in t.layers[c].fullPath
  {
    assert Component(t, c) == t.layers[c].fullPath;
  }

  /** A path lookup finds exactly the child with that last part. */
  lemma ChildByIsChild(t: Tables, e: nat, part: string)
    requires WellFormed(t) && PathsRegular(t) && e < |t.layers| && '/' !in part
    ensures ChildBy(t, e, part).Some? ==>
      var c := ChildBy(t, e, part).value;
      c < |t.layers| && t.layers[c].parent == e && Component(t, c) == part
  {
    var p := t.layers[e].fullPath + "/" + part;
    if p in t.fullPath {
      var c := t.fullPath[p];
      assert p[|t.layers[e].fullPath|] == '/';
      if t.layers[c].parent < 0 {
        RootHasNoSlash(t, c);
        assert false;
      }
      var q := t.layers[t.layers[c].parent].fullPath;
      LastSlash(t.layers[e].fullPath, part, q, Component(t, c));
      assert t.fullPath[q] == t.layers[c].parent;
    }
  }

  lemma ChildIsFound(t: Tables, c: nat)
    requires WellFormed(t) && PathsRegular(t) && c < |t.layers| && t.layers[c].parent >= 0
    ensures ChildBy(t, t.layers[c].parent, Component(t, c)) == Some(c)
  {}

  // ---------- subtrees ----------

  /** `d` is `c` or lies below it. */
  predicate AtOrUnder(t: Tables, d: nat, c: nat)
    requires RowsLinked(t) && d < |t.layers|
    decreases d
  {
    d == c || (t.layers[d].parent >= 0 && AtOrUnder(t, t.layers[d].parent, c))
  }

  predicate Under(t: Tables, d: nat, c: nat)
    requires RowsLinked(t) && d < |t.layers|
  {
    d != c && AtOrUnder(t, d, c)
  }

  lemma {:induction false} UnderIsLater(t: Tables, d: nat, c: nat)
    requires RowsLinked(t) && d < |t.layers| && AtOrUnder(t, d, c)
    ensures c <= d
    decreases d
  {
    if d != c {
      UnderIsLater(t, t.layers[d].parent, c);
    }
  }

  lemma {:induction false} UnderTransitive(t: Tables, d: nat, c: nat, b: nat)
    requires RowsLinked(t) && d < |t.layers| && c < |t.layers| && AtOrUnder(t, d, c) && AtOrUnder(t, c, b)
    ensures AtOrUnder(t, d, b)
    decreases d
  {
    if d != c {
      UnderTransitive(t, t.layers[d].parent, c, b);
    }
  }

  /** Subtrees are nested or disjoint. */
  lemma {:induction false} UnderLinear(t: Tables, d: nat, b: nat, c: nat)
    requires RowsLinked(t) && d < |t.layers| && b < |t.layers| && c < |t.layers|
    requires AtOrUnder(t, d, b) && AtOrUnder(t, d, c)
    ensures AtOrUnder(t, b, c) || AtOrUnder(t, c, b)
    decreases d
  {
    if d != b && d != c {
      UnderLinear(t, t.layers[d].parent, b, c);
    }
  }

  /** Distinct layers with the same parent have disjoint subtrees. */
  lemma SiblingsApart(t: Tables, d: nat, b: nat, c: nat)
    requires RowsLinked(t) && d < |t.layers| && b < |t.layers| && c < |t.layers|
    requires t.layers[b].parent == t.layers[c].parent
    requires AtOrUnder(t, d, b) && AtOrUnder(t, d, c)
    ensures b == c
  {
    UnderLinear(t, d, b, c);
    if b != c {
      if AtOrUnder(t, b, c) {
        UnderIsLater(t, t.layers[b].parent, c);
      } else {
        UnderIsLater(t, t.layers[c].parent, b);
      }
    }
  }

  /** The layer strictly below `a` through which `d` is reached. */
  lemma {:induction false} BranchOf(t: Tables, d: nat, a: nat) returns (c: nat)
    requires RowsLinked(t) && d < |t.layers| && a < |t.layers| && Under(t, d, a)
    ensures c < |t.layers| && t.layers[c].parent == a && AtOrUnder(t, d, c) && a < c
    decreases d
  {
    if t.layers[d].parent == a {
      c := d;
    } else {
      c := BranchOf(t, t.layers[d].parent, a);
    }
  }

  // ---------- the same path in another subtree ----------

  /** The layer whose path below `b` is the path of `d` below `a`. */
  function Image(t: Tables, a: nat, b: nat, d: nat): (r: Option<nat>)
    requires WellFormed(t) && a < |t.layers| && b < |t.layers| && d < |t.layers|
    ensures r.Some? ==> r.value < |t.layers|
    decreases d
  {
    if d == a then Some(b)
    else if t.layers[d].parent < 0 then None
    else
      match Image(t, a, b, t.layers[d].parent)
      case None => None
      case Some(e) => ChildBy(t, e, Component(t, d))
  }

  /** The image of a strict descendant: same part, image of the parent. */
  lemma ImageStep(t: Tables, a: nat, b: nat, d: nat)
    requires WellFormed(t) && PathsRegular(t) && a < |t.layers| && b < |t.layers| && d < |t.layers|
    requires d != a && Image(t, a, b, d).Some?
    ensures
      var e := Image(t, a, b, d).value;
      && t.layers[d].parent >= 0
      && Image(t, a, b, t.layers[d].parent).Some?
      && Image(t, a, b, t.layers[d].parent).value == t.layers[e].parent
      && Component(t, e) == Component(t, d) && t.layers[e].name == t.layers[d].name
  {
    var p := Image(t, a, b, t.layers[d].parent).value;
    ChildByIsChild(t, p, Component(t, d));
  }

  lemma {:induction false} ImageDomain(t: Tables, a: nat, b: nat, d: nat)
    requires WellFormed(t) && PathsRegular(t) && a < |t.layers| && b < |t.layers| && d < |t.layers|
    requires Image(t, a, b, d).Some?
    ensures AtOrUnder(t, d, a) && AtOrUnder(t, Image(t, a, b, d).value, b)
    decreases d
  {
    if d != a {
      ImageStep(t, a, b, d);
      ImageDomain(t, a, b, t.layers[d].parent);
    }
  }

  /** Going over and back again. */
  lemma {:induction false} ImageInverse(t: Tables, a: nat, b: nat, d: nat)
    requires WellFormed(t) && PathsRegular(t) && a < |t.layers| && b < |t.layers| && d < |t.layers|
    requires Image(t, a, b, d).Some?
    ensures Image(t, b, a, Image(t, a, b, d).value) == Some(d)
    ensures d != a ==> Image(t, a, b, d).value != b
    decreases d
  {
    if d != a {
      ImageStep(t, a, b, d);
      var e := Image(t, a, b, d).value;
      var p := t.layers[d].parent;
      ImageInverse(t, a, b, p);
      ImageDomain(t, a, b, p);
      UnderIsLater(t, t.layers[e].parent, b);
      ChildIsFound(t, d);
    }
  }

  /** Images in corresponding inner subtrees agree with the outer ones. */
  lemma {:induction false} ImageInner(t: Tables, a: nat, b: nat, c: nat, d: nat)
    requires WellFormed(t) && PathsRegular(t)
    requires a < |t.layers| && b < |t.layers| && c < |t.layers| && d < |t.layers|
    requires Image(t, a, b, c).Some? && AtOrUnder(t, d, c)
    ensures Image(t, c, Image(t, a, b, c).value, d) == Image(t, a, b, d)
    decreases d
  {
    hide GroupsLinked, PathsRegular;
    if d != c {
      ImageInner(t, a, b, c, t.layers[d].parent);
      ImageDomain(t, a, b, c);
      UnderIsLater(t, t.layers[d].parent, c);
      UnderIsLater(t, c, a);
    }
  }
}
