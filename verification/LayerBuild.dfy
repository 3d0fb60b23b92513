/** Building the lookup tables from a layer tree: `NewLayerManager`, `enumChildren` and
    `registerFlips` of `src/go/img/layermgr.go`. */
module LayerBuild {
  import opened Names
  import opened LayerTables

  datatype Tree = Node(name: string, seqId: SeqID, children: seq<Tree>)

  function Ids(ls: seq<Tree>): (ids: seq<SeqID>)
    ensures |ids| == |ls|
  {
    seq(|ls|, i requires 0 <= i < |ls| => ls[i].seqId)
  }

  // ---------- rows and their paths ----------

  /** The number a name gets among its siblings: 0 for its first occurrence. */
  function Number(dup: map<string, nat>, name: string): nat
  {
    if name in dup then dup[name] + 1 else 0
  }

  /** The name a path shows: later siblings of the same name carry a backslash and their number. */
  function Raw(name: string, n: nat): string
  {
    if n == 0 then name else name + "\\" + Decimal(n)
  }

  /** A part below `dir`.  The empty directory stands for Go's nil slice: no slash is written
      for top-level layers, nor below a top-level layer with an empty name. */
  function PathBelow(dir: string, part: string): string
  {
    if dir == "" then part else dir + "/" + part
  }

  function PathOf(dir: string, dup: map<string, nat>, name: string): string
  {
    PathBelow(dir, Escaped(Raw(name, Number(dup, name))))
  }

  /** The rows of `l` and everything below it, in document order, when `l` becomes row `base`. */
  function EnumRows(l: Tree, path: string, parent: int, base: nat): (rows: seq<Layer>)
    ensures |rows| >= 1
    decreases l, 0
  {
    [Layer(l.name, l.seqId, path, parent, Ids(l.children))] + EnumList(l.children, path, map[], base, base + 1)
  }

  function EnumList(ls: seq<Tree>, dir: string, dup: map<string, nat>, parent: int, base: nat): seq<Layer>
    decreases ls, 1
  {
    if ls == [] then []
    else
      var rows := EnumRows(ls[0], PathOf(dir, dup, ls[0].name), parent, base);
      rows + EnumList(ls[1..], dir, dup[ls[0].name := Number(dup, ls[0].name)], parent, base + |rows|)
  }

  function MappedOf(rows: seq<Layer>): map<SeqID, nat>
  {
    if rows == [] then map[]
    else MappedOf(rows[..|rows| - 1])[rows[|rows| - 1].seqId := |rows| - 1]
  }

  function FullPathOf(rows: seq<Layer>): map<string, nat>
  {
    if rows == [] then map[]
    else FullPathOf(rows[..|rows| - 1])[rows[|rows| - 1].fullPath := |rows| - 1]
  }

  function ForceVisibleOf(rows: seq<Layer>): set<SeqID>
  {
    set i | 0 <= i < |rows| && IsForceVisible(rows[i].name) :: rows[i].seqId
  }

  // ---------- radio groups ----------

  function GroupIds(ls: seq<Tree>): seq<SeqID>
  {
    if ls == [] then []
    else
      var last := ls[|ls| - 1];
      GroupIds(ls[..|ls| - 1]) + if IsGroup(last.name) then [last.seqId] else []
  }

  /** Every member of a group leads to it. */
  function GroupEntries(g: seq<SeqID>, owner: int): map<SeqID, Group>
  {
    Entries(g, Group(owner, g))
  }

  function Entries(ids: seq<SeqID>, g: Group): (m: map<SeqID, Group>)
    ensures forall id :: id in m <==> id in ids
    ensures forall id <- m :: m[id] == g
  {
    if ids == [] then map[] else Entries(ids[..|ids| - 1], g)[ids[|ids| - 1] := g]
  }

  /** The groups below `l`, which is row `base`. */
  function GroupsBelow(l: Tree, base: nat): map<SeqID, Group>
    decreases l, 0
  {
    InnerGroups(l.children, base + 1) + GroupEntries(GroupIds(l.children), base)
  }

  function InnerGroups(ls: seq<Tree>, base: nat): map<SeqID, Group>
    decreases ls, 1
  {
    if ls == [] then map[]
    else GroupsBelow(ls[0], base) + InnerGroups(ls[1..], base + Size(ls[0]))
  }

  function Size(l: Tree): nat
    decreases l, 0
  {
    1 + SizeOfList(l.children)
  }

  function SizeOfList(ls: seq<Tree>): nat
    decreases ls, 1
  {
    if ls == [] then 0 else Size(ls[0]) + SizeOfList(ls[1..])
  }

  // ---------- flip layers ----------

  datatype Flips = Flips(x: FlipMap, y: FlipMap, xy: FlipMap)

  predicate IsSuffix(token: string) { token == "flipx" || token == "flipy" || token == "flipxy" }

  /** How many tokens at the end are flip suffixes. */
  function Suffixes(tokens: seq<string>): (k: nat)
    ensures k <= |tokens|
  {
    if tokens == [] || !IsSuffix(tokens[|tokens| - 1]) then 0
    else 1 + Suffixes(tokens[..|tokens| - 1])
  }

  function FindName(sib: seq<Tree>, name: string): Option<SeqID>
  {
    if sib == [] then None
    else if sib[0].name == name then Some(sib[0].seqId)
    else FindName(sib[1..], name)
  }

  function Enter(f: Flips, token: string, p: FlipPair): Flips
  {
    if token == "flipx" then f.(x := f.x[p.original := p][p.mirror := p])
    else if token == "flipy" then f.(y := f.y[p.original := p][p.mirror := p])
    else f.(xy := f.xy[p.original := p][p.mirror := p])
  }

  function EnterAll(f: Flips, tokens: seq<string>, p: FlipPair): Flips
    decreases |tokens|
  {
    if tokens == [] then f
    else EnterAll(Enter(f, tokens[|tokens| - 1], p), tokens[..|tokens| - 1], p)
  }

  /** `registerFlips`: a layer whose name is a sibling's name and flip suffixes mirrors that sibling. */
  function Registered(f: Flips, l: Tree, sib: seq<Tree>): Flips
  {
    var tokens := Split(l.name, ':');
    var k := Suffixes(tokens);
    if k == 0 then f
    else
      match FindName(sib, Join(tokens[..|tokens| - k], ':'))
      case None => f
      case Some(org) => EnterAll(f, tokens[|tokens| - k..], FlipPair(org, l.seqId))
  }

  function FlipsBelow(f: Flips, l: Tree, sib: seq<Tree>): Flips
    decreases l, 0
  {
    FlipsOfList(Registered(f, l, sib), l.children, l.children)
  }

  function FlipsOfList(f: Flips, ls: seq<Tree>, sib: seq<Tree>): Flips
    decreases ls, 1
  {
    if ls == [] then f else FlipsOfList(FlipsBelow(f, ls[0], sib), ls[1..], sib)
  }

  // ---------- construction in place ----------

  /** The tables that `NewLayerManager` arrives at before it registers synced layers. */
  function Build(roots: seq<Tree>): Tables
  {
    var rows := EnumList(roots, "", map[], -1, 0);
    var f := FlipsOfList(Flips(map[], map[], map[]), roots, roots);
    Tables(rows, Ids(roots), MappedOf(rows), FullPathOf(rows), ForceVisibleOf(rows),
           InnerGroups(roots, 0) + GroupEntries(GroupIds(roots), -1), map[], f.x, f.y, f.xy)
  }

  class TableBuilder {
    var layers: seq<Layer>
    var mapped: map<SeqID, nat>
    var fullPath: map<string, nat>
    var forceVisible: set<SeqID>
    var groupMap: map<SeqID, Group>
    var flips: Flips

    ghost predicate Valid()
      reads this
    {
      && mapped == MappedOf(layers)
      && fullPath == FullPathOf(layers)
      && forceVisible == ForceVisibleOf(layers)
    }

    constructor ()
      ensures Valid() && layers == [] && groupMap == map[] && flips == Flips(map[], map[], map[])
    {
      layers, mapped, fullPath, forceVisible, groupMap := [], map[], map[], {}, map[];
      flips := Flips(map[], map[], map[]);
    }

    /** Appends one row and its entries. */
    method AddRow(row: Layer)
      requires Valid()
      modifies this`layers, this`mapped, this`fullPath, this`forceVisible
      ensures Valid() && layers == old(layers) + [row]
    {
      layers := layers + [row];
      assert layers[..|layers| - 1] == old(layers);
      mapped := mapped[row.seqId := |layers| - 1];
      fullPath := fullPath[row.fullPath := |layers| - 1];
      if IsForceVisible(row.name) {
        forceVisible := forceVisible + {row.seqId};
      }
      assert forall id :: id in ForceVisibleOf(layers) <==>
        id in ForceVisibleOf(old(layers)) || (IsForceVisible(row.name) && id == row.seqId) by {
        ForceVisibleOfAppend(old(layers), row);
      }
    }

    /** Enters `f` for every suffix, from the last token backwards. */
    method EnterTokens(tokens: seq<string>, f: FlipPair)
      modifies this`flips
      ensures flips == EnterAll(old(flips), tokens, f)
    {
      ghost var all := EnterAll(flips, tokens, f);
      var j := |tokens|;
      assert tokens[..j] == tokens;
      while j > 0
        invariant 0 <= j <= |tokens|
        invariant EnterAll(flips, tokens[..j], f) == all
      {
        assert tokens[..j][..j - 1] == tokens[..j - 1];
        flips := Enter(flips, tokens[j - 1], f);
        j := j - 1;
      }
    }

    method RegisterFlips(l: Tree, sib: seq<Tree>)
      modifies this`flips
      ensures flips == Registered(old(flips), l, sib)
    {
      var tokens := Split(l.name, ':');
      var k := CountSuffixes(tokens);
      if k == 0 {
        return;
      }
      var org := FindName(sib, Join(tokens[..|tokens| - k], ':'));
      if org.None? {
        return;
      }
      EnterTokens(tokens[|tokens| - k..], FlipPair(org.value, l.seqId));
    }

    method EnumChildren(l: Tree, sib: seq<Tree>, dir: string, dup: map<string, nat>, parent: int) returns (n: nat)
      requires Valid()
      modifies this
      ensures Valid() && n == Number(dup, l.name)
      ensures layers == old(layers) + EnumRows(l, PathOf(dir, dup, l.name), parent, |old(layers)|)
      ensures groupMap == old(groupMap) + GroupsBelow(l, |old(layers)|)
      ensures flips == FlipsBelow(old(flips), l, sib)
      decreases l, 0
    {
      hide InnerGroups, GroupIds, GroupEntries, FlipsOfList, EnumList, MappedOf, FullPathOf, ForceVisibleOf;
      var path;
      path, n := NextPath(dir, dup, l.name);
      var index := |layers|;
      RowsTotal(layers, l, path, parent);
      AddRow(Layer(l.name, l.seqId, path, parent, Ids(l.children)));
      RegisterFlips(l, sib);
      EnumSiblings(l.children, path, index);
    }

    /** The loop over one sibling list, and the registration of its radio group. */
    method EnumSiblings(ls: seq<Tree>, dir: string, owner: int)
      requires Valid()
      modifies this
      ensures Valid()
      ensures layers == RowsPending(old(layers), ls, dir, map[], owner)
      ensures groupMap == old(groupMap) + (InnerGroups(ls, |old(layers)|) + GroupEntries(GroupIds(ls), owner))
      ensures flips == FlipsOfList(old(flips), ls, ls)
      decreases ls, 1
    {
      hide EnumRows, GroupsBelow, FlipsBelow, PathOf, Number, MappedOf, FullPathOf, ForceVisibleOf, IsGroup, RowsPending, GroupsPending, Entries;
      ghost var rows, groups0, flips0 := layers, groupMap, flips;
      var g: seq<SeqID> := [];
      var names: map<string, nat> := map[];
      assert ls[0..] == ls;
      for i := 0 to |ls|
        invariant Valid()
        invariant RowsPending(layers, ls[i..], dir, names, owner) == RowsPending(rows, ls, dir, map[], owner)
        invariant GroupsPending(groupMap, ls[i..], |layers|) == GroupsPending(groups0, ls, |rows|)
        invariant FlipsOfList(flips, ls[i..], ls) == FlipsOfList(flips0, ls, ls)
        invariant g == GroupIds(ls[..i])
      {
        assert ls[i..][0] == ls[i] && ls[i..][1..] == ls[i + 1..];
        assert ls[..i + 1][..i] == ls[..i];
        ghost var before, groupsBefore := layers, groupMap;
        var k := EnumChildren(ls[i], ls, dir, names, owner);
        RowsStep(before, ls[i..], dir, names, owner);
        GroupsStep(groupsBefore, before, layers, ls[i..], dir, names, owner);
        names := names[ls[i].name := k];
        if IsGroup(ls[i].name) {
          g := g + [ls[i].seqId];
        }
      }
      assert ls[..|ls|] == ls && ls[|ls|..] == [];
      NothingPending(layers, dir, names, owner, groupMap);
      GroupsToCome(groups0, ls, |rows|);
      groupMap := groupMap + GroupEntries(g, owner);
      MapAssociative(groups0, InnerGroups(ls, |rows|), GroupEntries(g, owner));
    }
  }

  /** `NewLayerManager` up to the registration of synced layers. */
  method BuildTables(roots: seq<Tree>) returns (t: Tables)
    ensures t == Build(roots)
  {
    hide Ids, EnumList, InnerGroups, FlipsOfList, GroupIds, GroupEntries, MappedOf, FullPathOf, ForceVisibleOf;
    var b := new TableBuilder();
    b.EnumSiblings(roots, "", -1);
    assert [] + EnumList(roots, "", map[], -1, 0) == EnumList(roots, "", map[], -1, 0);
    ghost var groups := InnerGroups(roots, 0) + GroupEntries(GroupIds(roots), -1);
    assert map[] + groups == groups;
    t := Tables(b.layers, Ids(roots), b.mapped, b.fullPath, b.forceVisible, b.groupMap, map[], b.flips.x, b.flips.y, b.flips.xy);
  }

  /** The loop that walks back over flip suffixes. */
  method CountSuffixes(tokens: seq<string>) returns (k: nat)
    ensures k == Suffixes(tokens)
  {
    var i := |tokens|;
    assert tokens[..i] == tokens;
    while i > 0 && IsSuffix(tokens[i - 1])
      invariant 0 <= i <= |tokens|
      invariant Suffixes(tokens) == |tokens| - i + Suffixes(tokens[..i])
    {
      assert tokens[..i][..i - 1] == tokens[..i - 1];
      i := i - 1;
    }
    return |tokens| - i;
  }

  /** The path of the next sibling called `name`, and its number. */
  method NextPath(dir: string, dup: map<string, nat>, name: string) returns (path: string, n: nat)
    ensures path == PathOf(dir, dup, name) && n == Number(dup, name)
  {
    hide Escaped, Decimal;
    path := dir;
    if dir != "" {
      path := path + "/";
    }
    var part;
    if name in dup {
      n := dup[name] + 1;
      part := EncodeName(name + "\\" + Decimal(n));
    } else {
      n := 0;
      part := EncodeName(name);
    }
    path := path + part;
  }

  ghost function RowsPending(done: seq<Layer>, ls: seq<Tree>, dir: string, dup: map<string, nat>, parent: int): seq<Layer>
  {
    done + EnumList(ls, dir, dup, parent, |done|)
  }

  lemma SeqAssociative<T>(a: seq<T>, b: seq<T>, c: seq<T>)
    ensures a + (b + c) == a + b + c
  {}

  lemma RowsTotal(before: seq<Layer>, l: Tree, path: string, parent: int)
    ensures before + EnumRows(l, path, parent, |before|) ==
      RowsPending(before + [Layer(l.name, l.seqId, path, parent, Ids(l.children))], l.children, path, map[], |before|)
  {
    hide Ids;
    SeqAssociative(before, [Layer(l.name, l.seqId, path, parent, Ids(l.children))],
                   EnumList(l.children, path, map[], |before|, |before| + 1));
  }

  lemma RowsStep(done: seq<Layer>, ls: seq<Tree>, dir: string, dup: map<string, nat>, parent: int)
    requires ls != []
    ensures RowsPending(done, ls, dir, dup, parent) ==
      RowsPending(done + EnumRows(ls[0], PathOf(dir, dup, ls[0].name), parent, |done|), ls[1..], dir,
                  dup[ls[0].name := Number(dup, ls[0].name)], parent)
  {
    hide EnumRows, PathOf;
    var rows := EnumRows(ls[0], PathOf(dir, dup, ls[0].name), parent, |done|);
    SeqAssociative(done, rows,
                   EnumList(ls[1..], dir, dup[ls[0].name := Number(dup, ls[0].name)], parent, |done| + |rows|));
  }

  lemma NothingPending(done: seq<Layer>, dir: string, dup: map<string, nat>, parent: int, groups: map<SeqID, Group>)
    ensures RowsPending(done, [], dir, dup, parent) == done && GroupsPending(groups, [], |done|) == groups
  {}

  lemma GroupsToCome(groups: map<SeqID, Group>, ls: seq<Tree>, base: nat)
    ensures GroupsPending(groups, ls, base) == groups + InnerGroups(ls, base)
  {}

  ghost function GroupsPending(done: map<SeqID, Group>, ls: seq<Tree>, base: nat): map<SeqID, Group>
  {
    done + InnerGroups(ls, base)
  }

  lemma GroupsStep(done: map<SeqID, Group>, before: seq<Layer>, after: seq<Layer>, ls: seq<Tree>, dir: string,
                   dup: map<string, nat>, parent: int)
    requires ls != []
    requires after == before + EnumRows(ls[0], PathOf(dir, dup, ls[0].name), parent, |before|)
    ensures GroupsPending(done, ls, |before|)
      == GroupsPending(done + GroupsBelow(ls[0], |before|), ls[1..], |after|)
  {
    SizeOfRows(ls[0], PathOf(dir, dup, ls[0].name), parent, |before|);
    MapAssociative(done, GroupsBelow(ls[0], |before|), InnerGroups(ls[1..], |after|));
  }

  lemma MapAssociative<K, V>(a: map<K, V>, b: map<K, V>, c: map<K, V>)
    ensures a + (b + c) == a + b + c
  {}

  lemma ForceVisibleOfAppend(rows: seq<Layer>, row: Layer)
    ensures ForceVisibleOf(rows + [row]) == ForceVisibleOf(rows) + if IsForceVisible(row.name) then {row.seqId} else {}
  {
    var longer := rows + [row];
    assert forall i :: 0 <= i < |rows| ==> longer[i] == rows[i];
    assert longer[|rows|] == row;
  }

  lemma {:induction false} SizeOfRows(l: Tree, path: string, parent: int, base: nat)
    ensures |EnumRows(l, path, parent, base)| == Size(l)
    decreases l, 0
  {
    SizeOfEnumList(l.children, path, map[], base, base + 1);
  }

  lemma {:induction false} SizeOfEnumList(ls: seq<Tree>, dir: string, dup: map<string, nat>, parent: int, base: nat)
    ensures |EnumList(ls, dir, dup, parent, base)| == SizeOfList(ls)
    decreases ls, 1
  {
    if ls != [] {
      var rows := EnumRows(ls[0], PathOf(dir, dup, ls[0].name), parent, base);
      SizeOfRows(ls[0], PathOf(dir, dup, ls[0].name), parent, base);
      SizeOfEnumList(ls[1..], dir, dup[ls[0].name := Number(dup, ls[0].name)], parent, base + |rows|);
    }
  }
}
