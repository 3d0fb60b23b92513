/** What copying one side of a flip pair onto the other does, layer by layer. */
module LayerCopy {
  import opened Names
  import opened LayerTables
  import opened LayerStates

  /** Neither layer lies in the other's subtree. */
  predicate Apart(t: Tables, a: nat, b: nat)
    requires RowsLinked(t) && a < |t.layers| && b < |t.layers|
  {
    !AtOrUnder(t, a, b) && !AtOrUnder(t, b, a)
  }

  lemma ApartSubtrees(t: Tables, a: nat, b: nat, x: nat, y: nat)
    requires RowsLinked(t) && a < |t.layers| && b < |t.layers| && x < |t.layers| && y < |t.layers|
    requires Apart(t, a, b) && AtOrUnder(t, x, a) && AtOrUnder(t, y, b)
    ensures x != y && Apart(t, x, y)
  {
    if AtOrUnder(t, x, y) {
      UnderTransitive(t, x, y, b);
      UnderLinear(t, x, a, b);
    }
    if AtOrUnder(t, y, x) {
      UnderTransitive(t, y, x, a);
      UnderLinear(t, y, a, b);
    }
  }

  /** The state of `j` after copying the subtree of `fi0` onto that of `fi1`. */
  function CopyAt(t: Tables, s: States, fi0: nat, fi1: nat, pri: int, j: nat): LayerState
    requires Fits(t, s) && fi0 < |s| && fi1 < |s| && j < |s|
  {
    if j != fi1 && Image(t, fi1, fi0, j).Some?
    then Copied(s[j], s[Image(t, fi1, fi0, j).value], pri)
    else s[j]
  }

  /** `d` is reached through one of the children of `fi0` from number `k` on. */
  ghost predicate FromChild(t: Tables, fi0: nat, k: nat, d: nat)
    requires WellFormed(t) && fi0 < |t.layers| && d < |t.layers|
  {
    exists i :: k <= i < |t.layers[fi0].children| && ReachedBy(t, fi0, i, d)
  }

  ghost predicate ReachedBy(t: Tables, fi0: nat, i: nat, d: nat)
    requires WellFormed(t) && fi0 < |t.layers| && d < |t.layers| && i < |t.layers[fi0].children|
  {
    FindChild(t, fi0, i).Some? && AtOrUnder(t, d, FindChild(t, fi0, i).value)
  }

  lemma FromFirstChild(t: Tables, fi0: nat, d: nat)
    requires WellFormed(t) && fi0 < |t.layers| && d < |t.layers| && Under(t, d, fi0)
    ensures FromChild(t, fi0, 0, d)
  {
    var c := BranchOf(t, d, fi0);
    var i :| 0 <= i < |t.layers[fi0].children| && t.layers[fi0].children[i] == t.layers[c].seqId;
    assert FindChild(t, fi0, i) == Some(c);
    assert ReachedBy(t, fi0, i, d);
  }

  /** The looked-up path is the image of the child. */
  lemma ImageOfChildIsImage(t: Tables, fi0: nat, fi1: nat, k: nat)
    requires WellFormed(t) && PathsRegular(t) && fi0 < |t.layers| && fi1 < |t.layers| && k < |t.layers[fi0].children|
    requires FindChild(t, fi0, k).Some?
    ensures
      var c0, r := FindChild(t, fi0, k).value, ImageOfChild(t, fi0, fi1, k);
      && (r.None? ==> Image(t, fi0, fi1, c0).None?)
      && (r.Some? ==>
           && r.value.0 == c0
           && t.layers[r.value.1].parent == fi1
           && Image(t, fi0, fi1, c0) == Some(r.value.1)
           && Image(t, fi1, fi0, r.value.1) == Some(c0))
  {
    var c0 := FindChild(t, fi0, k).value;
    ImageOfChildPath(t, fi0, fi1, k);
    PartHasNoSlash(t, c0);
    ImageOfDirect(t, fi0, fi1, c0);
    hide RowsLinked, GroupsLinked, PathsRegular, Image, ImageOfChild, Component, ChildBy;
    ChildByIsChild(t, fi1, Component(t, c0));
    if Image(t, fi0, fi1, c0).Some? {
      ImageInverse(t, fi0, fi1, c0);
    }
  }

  lemma PartHasNoSlash(t: Tables, c: nat)
    requires PathsRegular(t) && c < |t.layers|
    ensures '/' !in Component(t, c)
  {
    hide Component;
  }

  lemma ImageOfChildPath(t: Tables, fi0: nat, fi1: nat, k: nat)
    requires WellFormed(t) && PathsRegular(t) && fi0 < |t.layers| && fi1 < |t.layers| && k < |t.layers[fi0].children|
    requires FindChild(t, fi0, k).Some?
    ensures var c0 := FindChild(t, fi0, k).value;
      ImageOfChild(t, fi0, fi1, k) ==
        match ChildBy(t, fi1, Component(t, c0)) case None => None case Some(c1) => Some((c0, c1))
  {
    hide GroupsLinked, RowsLinked;
    var c0 := FindChild(t, fi0, k).value;
    PathOfChild(t, c0);
    hide PathsRegular, Component;
    var l0, part := t.layers[fi0].fullPath, Component(t, c0);
    assert t.layers[fi1].fullPath + ("/" + part) == t.layers[fi1].fullPath + "/" + part;
  }

  lemma PathOfChild(t: Tables, c: nat)
    requires PathsRegular(t) && c < |t.layers| && 0 <= t.layers[c].parent < |t.layers|
    ensures var above := t.layers[t.layers[c].parent].fullPath;
      |above| <= |t.layers[c].fullPath| && t.layers[c].fullPath[|above|..] == "/" + Component(t, c)
  {
    hide Component;
    var above := t.layers[t.layers[c].parent].fullPath;
    assert t.layers[c].fullPath == above + "/" + Component(t, c);
    assert (above + "/" + Component(t, c))[|above|..] == "/" + Component(t, c);
  }

  lemma ImageOfDirect(t: Tables, fi0: nat, fi1: nat, c: nat)
    requires WellFormed(t) && fi0 < |t.layers| && fi1 < |t.layers| && c < |t.layers| && t.layers[c].parent == fi0 && c != fi0
    ensures Image(t, fi0, fi1, c) == ChildBy(t, fi1, Component(t, c))
  {
    hide WellFormed, Component;
    assert Image(t, fi0, fi1, fi0) == Some(fi1);
  }

  lemma {:induction false} ImageOfAncestor(t: Tables, a: nat, b: nat, c: nat, d: nat)
    requires WellFormed(t) && PathsRegular(t) && a < |t.layers| && b < |t.layers| && c < |t.layers| && d < |t.layers|
    requires Image(t, a, b, d).Some? && AtOrUnder(t, d, c) && a < c
    ensures Image(t, a, b, c).Some?
    decreases d
  {
    if d != c {
      UnderIsLater(t, t.layers[d].parent, c);
      ImageStep(t, a, b, d);
      ImageOfAncestor(t, a, b, c, t.layers[d].parent);
    }
  }

  /** The counterparts of what hangs below child `c0` are what hangs below its image `c1`. */
  lemma BranchImages(t: Tables, fi0: nat, fi1: nat, c0: nat, c1: nat, j: nat)
    requires WellFormed(t) && PathsRegular(t)
    requires fi0 < |t.layers| && fi1 < |t.layers| && c0 < |t.layers| && c1 < |t.layers| && j < |t.layers|
    requires Image(t, fi1, fi0, c1) == Some(c0) && Image(t, fi0, fi1, c0) == Some(c1)
    ensures (Image(t, fi1, fi0, j).Some? && AtOrUnder(t, Image(t, fi1, fi0, j).value, c0))
      <==> Image(t, c1, c0, j).Some?
    ensures Image(t, c1, c0, j).Some? ==> Image(t, c1, c0, j) == Image(t, fi1, fi0, j)
  {
    if Image(t, c1, c0, j).Some? {
      ImageDomain(t, c1, c0, j);
      ImageInner(t, fi1, fi0, c1, j);
    }
    if Image(t, fi1, fi0, j).Some? && AtOrUnder(t, Image(t, fi1, fi0, j).value, c0) {
      var d := Image(t, fi1, fi0, j).value;
      ImageInverse(t, fi1, fi0, j);
      ImageInner(t, fi0, fi1, c0, d);
      ImageInverse(t, c0, c1, d);
    }
  }

  /** What copying from child `k` on makes of layer `j`. */
  ghost function PartialCopyAt(t: Tables, s: States, fi0: nat, fi1: nat, k: nat, pri: int, j: nat): LayerState
    requires Fits(t, s) && fi0 < |s| && fi1 < |s| && j < |s|
  {
    if j != fi1 && Image(t, fi1, fi0, j).Some? && FromChild(t, fi0, k, Image(t, fi1, fi0, j).value)
    then Copied(s[j], s[Image(t, fi1, fi0, j).value], pri)
    else s[j]
  }

  lemma {:induction false} CopyMeaning(t: Tables, s: States, fi0: nat, fi1: nat, pri: int)
    requires Fits(t, s) && PathsRegular(t) && fi0 < |s| && fi1 < |s| && Apart(t, fi0, fi1)
    ensures forall j :: 0 <= j < |s| ==> CopyStates(t, s, fi0, fi1, pri)[j] == CopyAt(t, s, fi0, fi1, pri, j)
    decreases |s| - fi0, |t.layers[fi0].children| + 1
  {
    CopyChildrenMeaning(t, s, fi0, fi1, 0, pri);
    forall j | 0 <= j < |s|
      ensures PartialCopyAt(t, s, fi0, fi1, 0, pri, j) == CopyAt(t, s, fi0, fi1, pri, j)
    {
      if j != fi1 && Image(t, fi1, fi0, j).Some? {
        ImageDomain(t, fi1, fi0, j);
        ImageInverse(t, fi1, fi0, j);
        FromFirstChild(t, fi0, Image(t, fi1, fi0, j).value);
      }
    }
  }

  lemma {:induction false} CopyChildrenMeaning(t: Tables, s: States, fi0: nat, fi1: nat, k: nat, pri: int)
    requires Fits(t, s) && PathsRegular(t) && fi0 < |s| && fi1 < |s| && Apart(t, fi0, fi1)
    requires k <= |t.layers[fi0].children|
    ensures forall j :: 0 <= j < |s| ==>
      CopyChildren(t, s, fi0, fi1, k, pri)[j] == PartialCopyAt(t, s, fi0, fi1, k, pri, j)
    decreases |s| - fi0, |t.layers[fi0].children| - k
  {
    hide Image, PartialCopyAt, CopyAt, RowsLinked, GroupsLinked, PathsRegular;
    if k == |t.layers[fi0].children| {
      NoChildCopied(t, s, fi0, fi1, pri);
    } else if ImageOfChild(t, fi0, fi1, k).None? {
      CopyChildrenMeaning(t, s, fi0, fi1, k + 1, pri);
      ChildSkipped(t, s, fi0, fi1, k, pri);
    } else {
      var (c0, c1) := ImageOfChild(t, fi0, fi1, k).value;
      ChildIsBelow(t, fi0, fi1, k, c0, c1);
      var s1 := s[c1 := Copied(s[c1], s[c0], pri)];
      CopyMeaning(t, s1, c0, c1, pri);
      var s2 := CopyStates(t, s1, c0, c1, pri);
      CopyChildrenMeaning(t, s2, fi0, fi1, k + 1, pri);
      ChildCopied(t, s, s2, fi0, fi1, k, c0, c1, pri);
    }
  }

  lemma NoChildCopied(t: Tables, s: States, fi0: nat, fi1: nat, pri: int)
    requires Fits(t, s) && fi0 < |s| && fi1 < |s|
    ensures forall j :: 0 <= j < |s| ==> s[j] == PartialCopyAt(t, s, fi0, fi1, |t.layers[fi0].children|, pri, j)
  {
    hide Image, Fits;
  }

  lemma ChildSkipped(t: Tables, s: States, fi0: nat, fi1: nat, k: nat, pri: int)
    requires Fits(t, s) && PathsRegular(t) && fi0 < |s| && fi1 < |s|
    requires k < |t.layers[fi0].children| && ImageOfChild(t, fi0, fi1, k).None?
    ensures forall j :: 0 <= j < |s| ==>
      PartialCopyAt(t, s, fi0, fi1, k, pri, j) == PartialCopyAt(t, s, fi0, fi1, k + 1, pri, j)
  {
    hide Image, FromChild, ImageOfChild, RowsLinked, GroupsLinked, PathsRegular;
    forall j | 0 <= j < |s|
      ensures PartialCopyAt(t, s, fi0, fi1, k, pri, j) == PartialCopyAt(t, s, fi0, fi1, k + 1, pri, j)
    {
      if j != fi1 && Image(t, fi1, fi0, j).Some? {
        SkippedChild(t, fi0, fi1, k, j);
      }
    }
  }

  lemma ChildIsBelow(t: Tables, fi0: nat, fi1: nat, k: nat, c0: nat, c1: nat)
    requires WellFormed(t) && PathsRegular(t) && fi0 < |t.layers| && fi1 < |t.layers| && Apart(t, fi0, fi1)
    requires k < |t.layers[fi0].children| && ImageOfChild(t, fi0, fi1, k) == Some((c0, c1))
    ensures c0 < |t.layers| && c1 < |t.layers| && Apart(t, c0, c1) && FindChild(t, fi0, k) == Some(c0)
    ensures AtOrUnder(t, c0, fi0) && AtOrUnder(t, c1, fi1) && fi0 < c0 && c1 != fi1
    ensures Image(t, fi1, fi0, c1) == Some(c0) && Image(t, fi0, fi1, c0) == Some(c1)
  {
    hide Image, GroupsLinked, PathsRegular;
    ImageOfChildIsImage(t, fi0, fi1, k);
    BelowParent(t, c0, fi0);
    BelowParent(t, c1, fi1);
    ApartSubtrees(t, fi0, fi1, c0, c1);
  }

  lemma BelowParent(t: Tables, c: nat, p: nat)
    requires RowsLinked(t) && c < |t.layers| && p < |t.layers| && t.layers[c].parent == p
    ensures AtOrUnder(t, c, p)
  {
    hide RowsLinked;
    assert AtOrUnder(t, p, p);
  }

  lemma ChildCopied(t: Tables, s: States, s2: States, fi0: nat, fi1: nat, k: nat, c0: nat, c1: nat, pri: int)
    requires Fits(t, s) && Fits(t, s2) && PathsRegular(t) && fi0 < |s| && fi1 < |s| && Apart(t, fi0, fi1)
    requires k < |t.layers[fi0].children| && FindChild(t, fi0, k) == Some(c0)
    requires c0 < |s| && c1 < |s| && AtOrUnder(t, c0, fi0) && AtOrUnder(t, c1, fi1) && fi0 < c0 && c1 != fi1
    requires Image(t, fi1, fi0, c1) == Some(c0) && Image(t, fi0, fi1, c0) == Some(c1)
    requires forall j :: 0 <= j < |s| ==> s2[j] == CopyAt(t, s[c1 := Copied(s[c1], s[c0], pri)], c0, c1, pri, j)
    ensures forall j :: 0 <= j < |s| ==>
      PartialCopyAt(t, s2, fi0, fi1, k + 1, pri, j) == PartialCopyAt(t, s, fi0, fi1, k, pri, j)
  {
    hide PartialCopyAt, CopyAt, WellFormed, PathsRegular, AtOrUnder, FindChild, Apart;
    forall j | 0 <= j < |s|
      ensures PartialCopyAt(t, s2, fi0, fi1, k + 1, pri, j) == PartialCopyAt(t, s, fi0, fi1, k, pri, j)
    {
      var d := if Image(t, fi1, fi0, j).Some? then Image(t, fi1, fi0, j).value else j;
      OneChildCopied(t, s, s2, fi0, fi1, k, c0, c1, pri, j, d);
    }
  }

  /** Without an image of child `k` nothing is copied on its behalf. */
  lemma SkippedChild(t: Tables, fi0: nat, fi1: nat, k: nat, j: nat)
    requires WellFormed(t) && PathsRegular(t) && fi0 < |t.layers| && fi1 < |t.layers| && j < |t.layers|
    requires k < |t.layers[fi0].children| && ImageOfChild(t, fi0, fi1, k).None?
    requires j != fi1 && Image(t, fi1, fi0, j).Some?
    ensures FromChild(t, fi0, k, Image(t, fi1, fi0, j).value) == FromChild(t, fi0, k + 1, Image(t, fi1, fi0, j).value)
  {
    var d := Image(t, fi1, fi0, j).value;
    if ReachedBy(t, fi0, k, d) {
      ImageInverse(t, fi1, fi0, j);
      ImageOfAncestor(t, fi0, fi1, FindChild(t, fi0, k).value, d);
      ImageOfChildIsImage(t, fi0, fi1, k);
      assert false;
    }
  }

  /** The state of `j` once child `k` has been copied. */
  lemma MidState(t: Tables, s: States, fi0: nat, fi1: nat, c0: nat, c1: nat, pri: int, j: nat)
    requires Fits(t, s) && PathsRegular(t) && fi0 < |s| && fi1 < |s| && c0 < |s| && c1 < |s| && j < |s|
    requires Apart(t, fi0, fi1) && AtOrUnder(t, c0, fi0) && AtOrUnder(t, c1, fi1) && c1 != fi1
    requires Image(t, fi1, fi0, c1) == Some(c0) && Image(t, fi0, fi1, c0) == Some(c1)
    ensures
      var s1 := s[c1 := Copied(s[c1], s[c0], pri)];
      CopyAt(t, s1, c0, c1, pri, j) ==
      if Image(t, fi1, fi0, j).Some? && AtOrUnder(t, Image(t, fi1, fi0, j).value, c0)
      then Copied(s[j], s[Image(t, fi1, fi0, j).value], pri) else s[j]
  {
    hide RowsLinked, GroupsLinked, PathsRegular;
    BranchImages(t, fi0, fi1, c0, c1, j);
    if Image(t, c1, c0, j).Some? {
      ImageDomain(t, fi1, fi0, j);
      ApartSubtrees(t, fi0, fi1, Image(t, fi1, fi0, j).value, c1);
    }
  }

  /** A source below `fi0` keeps its state while child `k` is copied. */
  lemma SourceUntouched(t: Tables, s: States, fi0: nat, fi1: nat, c0: nat, c1: nat, pri: int, d: nat)
    requires Fits(t, s) && PathsRegular(t) && fi0 < |s| && fi1 < |s| && c0 < |s| && c1 < |s| && d < |s|
    requires Apart(t, fi0, fi1) && AtOrUnder(t, c0, fi0) && AtOrUnder(t, c1, fi1) && c1 != fi1
    requires Image(t, fi1, fi0, c1) == Some(c0) && Image(t, fi0, fi1, c0) == Some(c1)
    requires AtOrUnder(t, d, fi0)
    ensures CopyAt(t, s[c1 := Copied(s[c1], s[c0], pri)], c0, c1, pri, d) == s[d]
  {
    MidState(t, s, fi0, fi1, c0, c1, pri, d);
    if Image(t, fi1, fi0, d).Some? {
      ImageDomain(t, fi1, fi0, d);
      ApartSubtrees(t, fi0, fi1, d, d);
    }
  }

  lemma NextChild(t: Tables, fi0: nat, k: nat, d: nat)
    requires WellFormed(t) && fi0 < |t.layers| && d < |t.layers| && k < |t.layers[fi0].children|
    ensures FromChild(t, fi0, k, d) <==> ReachedBy(t, fi0, k, d) || FromChild(t, fi0, k + 1, d)
  {}

  lemma OneChildCopied(t: Tables, s: States, s2: States, fi0: nat, fi1: nat, k: nat, c0: nat, c1: nat, pri: int,
                       j: nat, d: nat)
    requires Fits(t, s) && Fits(t, s2) && PathsRegular(t) && fi0 < |s| && fi1 < |s| && j < |s| && Apart(t, fi0, fi1)
    requires k < |t.layers[fi0].children| && FindChild(t, fi0, k) == Some(c0)
    requires c0 < |s| && c1 < |s| && AtOrUnder(t, c0, fi0) && AtOrUnder(t, c1, fi1) && fi0 < c0 && c1 != fi1
    requires Image(t, fi1, fi0, c1) == Some(c0) && Image(t, fi0, fi1, c0) == Some(c1)
    requires d < |s| && (Image(t, fi1, fi0, j).Some? ==> d == Image(t, fi1, fi0, j).value)
    requires s2[j] == CopyAt(t, s[c1 := Copied(s[c1], s[c0], pri)], c0, c1, pri, j)
    requires s2[d] == CopyAt(t, s[c1 := Copied(s[c1], s[c0], pri)], c0, c1, pri, d)
    ensures PartialCopyAt(t, s2, fi0, fi1, k + 1, pri, j) == PartialCopyAt(t, s, fi0, fi1, k, pri, j)
  {
    MidState(t, s, fi0, fi1, c0, c1, pri, j);
    if Image(t, fi1, fi0, j).Some? {
      if j != fi1 {
        ImageDomain(t, fi1, fi0, j);
        SourceUntouched(t, s, fi0, fi1, c0, c1, pri, d);
        NextChild(t, fi0, k, d);
      } else if AtOrUnder(t, fi0, c0) {
        UnderIsLater(t, fi0, c0);
      }
    }
  }
}
