/** Runs of `v0` and `v1` commands on a tree without flip layers: the last command wins. */
module LayerHistory {
  import opened Names
  import opened BitCodec
  import opened LayerTables
  import opened LayerStates
  import opened LayerGroups
  import opened LayerNormal
  import opened LayerCommands
  import opened LayerImage
  import Prop

  ghost predicate NoFlips(t: Tables)
  {
    t.flipX == map[] && t.flipY == map[] && t.flipXY == map[] && t.syncedMap == map[]
  }

  ghost predicate PlainTree(t: Tables)
  {
    WellFormed(t) && PathsRegular(t) && NoFlips(t)
  }

  /** A visibility command for layer `layer`. */
  datatype Command = Command(visible: bool, layer: nat)

  /** `line` is a text form of `c`: at least five bytes, as `deserialize` demands. */
  predicate LineOf(t: Tables, line: string, c: Command)
  {
    && c.layer < |t.layers| && |line| >= 5
    && line[..2] == (if c.visible then "v1" else "v0") && line[2] == '.'
    && Prop.Decode(line[2..]) == Some(t.layers[c.layer].fullPath)
  }

  /** The layers a command sets: the named one, and for `v1` those above it. */
  predicate Touches(t: Tables, c: Command, x: nat)
    requires WellFormed(t) && c.layer < |t.layers|
  {
    x == c.layer || (c.visible && AtOrUnder(t, c.layer, x))
  }

  /** The state of layer `x` after the commands: its last setting, with the time of that command. */
  function After(t: Tables, s0: States, cmds: seq<Command>, x: nat): LayerState
    requires Fits(t, s0) && x < |s0| && forall c <- cmds :: c.layer < |s0|
    decreases |cmds|
  {
    if cmds == [] then s0[x]
    else
      var last, front := cmds[|cmds| - 1], cmds[..|cmds| - 1];
      assert last in cmds && forall c <- front :: c in cmds;
      if Touches(t, last, x) then LayerState(last.visible, |cmds|) else After(t, s0, front, x)
  }

  // ---------- one command ----------

  /** Looking up prefixes uses only the part of the path before the position. */
  lemma {:induction false} AncestorsReadPrefix(t: Tables, s: States, path: string, rpos: nat, pri: int)
    requires Fits(t, s) && rpos <= |path|
    ensures ShowAncestors(t, s, path, rpos, pri) == ShowAncestors(t, s, path[..rpos], rpos, pri)
    decreases rpos
  {
    hide WellFormed, SetState;
    if rpos > 1 {
      var p := path[..rpos];
      assert path[..rpos - 1] == p[..rpos - 1];
      if path[rpos - 1] != '/' {
        AncestorsReadPrefix(t, s, path, rpos - 1, pri);
        AncestorsReadPrefix(t, s, p, rpos - 1, pri);
      } else if FindPath(t, path[..rpos - 1]).Some? {
        var s1 := SetState(t, s, FindPath(t, path[..rpos - 1]).value, true, pri);
        AncestorsReadPrefix(t, s1, path, rpos - 1, pri);
        AncestorsReadPrefix(t, s1, p, rpos - 1, pri);
      }
    }
  }

  lemma {:induction false} SkipsToSlash(t: Tables, s: States, path: string, from: nat, rpos: nat, pri: int)
    requires Fits(t, s) && from <= rpos <= |path| && '/' !in path[from..rpos]
    ensures ShowAncestors(t, s, path, rpos, pri) == ShowAncestors(t, s, path, from, pri)
    decreases rpos
  {
    if from < rpos {
      assert path[rpos - 1] == path[from..rpos][rpos - 1 - from];
      assert path[from..rpos - 1] == path[from..rpos][..rpos - 1 - from];
      if rpos > 1 {
        SkipsToSlash(t, s, path, from, rpos - 1, pri);
      }
    }
  }

  /** The walk from the end of a path first meets its last slash. */
  lemma WalkToSlash(t: Tables, s: States, above: string, part: string, p: nat, pri: int)
    requires Fits(t, s) && above != "" && '/' !in part && FindPath(t, above) == Some(p)
    ensures var path := above + "/" + part;
      ShowAncestors(t, s, path, |path|, pri) == ShowAncestors(t, SetState(t, s, p, true, pri), above, |above|, pri)
  {
    hide WellFormed, SetState, FindPath;
    var path, k := above + "/" + part, |above|;
    assert path[k + 1..|path|] == part && path[..k] == above && path[k] == '/';
    SkipsToSlash(t, s, path, k + 1, |path|, pri);
    AncestorsReadPrefix(t, SetState(t, s, p, true, pri), path, k, pri);
  }

  /** The walk from a layer's path first meets the path of its parent. */
  lemma AncestorStep(t: Tables, s: States, q: nat, p: nat, pri: int)
    requires Fits(t, s) && PlainTree(t) && q < |s| && p < |s| && t.layers[q].parent == p
    ensures var path, above := t.layers[q].fullPath, t.layers[p].fullPath;
      ShowAncestors(t, s, path, |path|, pri) == ShowAncestors(t, s[p := LayerState(true, pri)], above, |above|, pri)
  {
    hide ShowAncestors;
    var above, part := t.layers[p].fullPath, Component(t, q);
    assert t.layers[q].fullPath == above + "/" + part;
    assert SetState(t, s, p, true, pri) == s[p := LayerState(true, pri)] && FindPath(t, above) == Some(p);
    WalkToSlash(t, s, above, part, p, pri);
  }

  /** The prefixes of a full path that end at a slash are exactly the paths of its ancestors. */
  lemma {:induction false} AncestorsShown(t: Tables, s: States, q: nat, pri: int)
    requires Fits(t, s) && PlainTree(t) && q < |s|
    ensures forall x :: 0 <= x < |s| ==>
      (ShowAncestors(t, s, t.layers[q].fullPath, |t.layers[q].fullPath|, pri)[x]
        == if x != q && AtOrUnder(t, q, x) then LayerState(true, pri) else s[x])
    decreases q
  {
    hide PathsRegular, GroupsLinked, ShowAncestors;
    var path, p := t.layers[q].fullPath, t.layers[q].parent;
    if p < 0 {
      RootHasNoSlash(t, q);
      SkipsToSlash(t, s, path, 0, |path|, pri);
      NothingBefore(t, s, path, pri);
    } else {
      AncestorStep(t, s, q, p, pri);
      AncestorsShown(t, s[p := LayerState(true, pri)], p, pri);
      forall x: nat | x < |s|
        ensures x != q && AtOrUnder(t, q, x) <==> x == p || (x != p && AtOrUnder(t, p, x))
      {
        if AtOrUnder(t, p, x) { UnderIsLater(t, p, x); }
      }
    }
  }

  lemma NothingBefore(t: Tables, s: States, path: string, pri: int)
    requires Fits(t, s)
    ensures ShowAncestors(t, s, path, 0, pri) == s
  {}

  /** What one command does to every layer. */
  lemma CommandMeaning(t: Tables, fav: Favourites, sc: Scratch, line: string, c: Command, order: seq<FlipPair>)
    requires Fits(t, sc.states) && PlainTree(t) && LineOf(t, line, c)
    ensures var r := RunLine(t, fav, sc, line, order);
      && r.Ok? && r.value.priority == sc.priority + 1 && r.value.flip == sc.flip
      && forall x :: 0 <= x < |sc.states| ==>
           (r.value.states[x] == if Touches(t, c, x) then LayerState(c.visible, sc.priority + 1) else sc.states[x])
  {
    CommandRuns(t, fav, sc, line, c, order);
    hide RunLine, LineOf, RowsLinked, GroupsLinked, PathsRegular, ShowAncestors;
    var s1 := sc.states[c.layer := LayerState(c.visible, sc.priority + 1)];
    assert SetState(t, sc.states, c.layer, c.visible, sc.priority + 1) == s1;
    AncestorsShown(t, s1, c.layer, sc.priority + 1);
  }

  lemma CommandRuns(t: Tables, fav: Favourites, sc: Scratch, line: string, c: Command, order: seq<FlipPair>)
    requires Fits(t, sc.states) && PlainTree(t) && LineOf(t, line, c)
    ensures var path, pri := t.layers[c.layer].fullPath, sc.priority + 1;
      RunLine(t, fav, sc, line, order) == Ok(Scratch(ShowPath(t, sc.states, c.layer, path, c.visible, pri), pri, sc.flip))
  {
    PathIsFound(t, c.layer);
    hide WellFormed, PathsRegular, ShowPath, Prop.Decode, RunLine, RunPath;
    assert line[1] == line[..2][1];
    LineIsPath(t, fav, sc, line, order);
    PathRuns(t, sc, line, c.layer, c.visible);
  }

  lemma PathRuns(t: Tables, sc: Scratch, line: string, x: nat, visible: bool)
    requires Fits(t, sc.states) && x < |sc.states| && |line| >= 5 && line[2] == '.' && (line[1] == '1' <==> visible)
    requires Prop.Decode(line[2..]) == Some(t.layers[x].fullPath) && FindPath(t, t.layers[x].fullPath) == Some(x)
    ensures var path, pri := t.layers[x].fullPath, sc.priority + 1;
      RunPath(t, sc, line) == Ok(Scratch(ShowPath(t, sc.states, x, path, visible, pri), pri, sc.flip))
  {
    hide WellFormed, ShowPath, Prop.Decode, FindPath;
  }

  lemma LineIsPath(t: Tables, fav: Favourites, sc: Scratch, line: string, order: seq<FlipPair>)
    requires Fits(t, sc.states) && |line| >= 2 && (line[..2] == "v0" || line[..2] == "v1")
    ensures RunLine(t, fav, sc, line, order) == RunPath(t, sc, line)
  {
    hide WellFormed, RunPath, RunFlip, RunVector, RunRecord;
    assert line[..2][0] == 'v';
  }

  /** The line that `v0` or `v1` and the encoded path make. */
  function ShowLine(rs: seq<Prop.rune>, sjis: Prop.rune -> bool, visible: bool): string
  {
    (if visible then "v1" else "v0") + ("." + Prop.EscapedRunes(rs, sjis))
  }

  /** The line sets the visibility of layer `x`, and for showing of those above it. */
  ghost predicate Sets(t: Tables, fav: Favourites, sc: Scratch, line: string, order: seq<FlipPair>, x: nat, visible: bool)
    requires Fits(t, sc.states) && x < |sc.states|
  {
    RunLine(t, fav, sc, line, order) ==
      Ok(Scratch(ShowPath(t, sc.states, x, t.layers[x].fullPath, visible, sc.priority + 1), sc.priority + 1, sc.flip))
  }

  /** The line for a layer's path sets that layer if and only if the encoded path has three bytes or
      more; otherwise it is skipped, and the path is a single byte that needs no escape. */
  lemma ShowLineWorks(t: Tables, fav: Favourites, sc: Scratch, x: nat, rs: seq<Prop.rune>, sjis: Prop.rune -> bool,
                      visible: bool, order: seq<FlipPair>)
    requires Fits(t, sc.states) && PathsRegular(t) && x < |sc.states|
    requires t.layers[x].fullPath == Prop.Utf8(rs) && Prop.PathLike(Prop.Utf8(rs))
    ensures var r, encoded := RunLine(t, fav, sc, ShowLine(rs, sjis, visible), order), "." + Prop.EscapedRunes(rs, sjis);
      && (Sets(t, fav, sc, ShowLine(rs, sjis, visible), order, x, visible) <==> |encoded| >= 3)
      && (|encoded| < 3 ==> r == Ok(sc))
      && (|encoded| < 3 <==> |t.layers[x].fullPath| == 1 && encoded == "." + t.layers[x].fullPath)
  {
    hide Prop.Decode, Prop.Utf8, WellFormed, ShowPath;
    var encoded, line := "." + Prop.EscapedRunes(rs, sjis), ShowLine(rs, sjis, visible);
    PathIsFound(t, x);
    NoRunesNoText(rs);
    Prop.PathRoundTrip(rs, sjis);
    EncodedLength(rs, sjis);
    assert line[..2] == (if visible then "v1" else "v0") && line[2..] == encoded && line[2] == '.';
    assert line[1] == line[..2][1];
  }

  lemma PathIsFound(t: Tables, x: nat)
    requires WellFormed(t) && PathsRegular(t) && x < |t.layers|
    ensures FindPath(t, t.layers[x].fullPath) == Some(x) && t.layers[x].fullPath != ""
  {}

  lemma NoRunesNoText(rs: seq<Prop.rune>)
    ensures Prop.Utf8(rs) != "" ==> rs != []
  {}

  lemma EncodedLength(rs: seq<Prop.rune>, sjis: Prop.rune -> bool)
    requires rs != []
    ensures |Prop.EscapedRunes(rs, sjis)| >= 1
    ensures |Prop.EscapedRunes(rs, sjis)| == 1 <==> |Prop.Utf8(rs)| == 1 && Prop.EscapedRunes(rs, sjis) == Prop.Utf8(rs)
  {
    if |rs| > 1 {
      assert |Prop.EscapedRunes(rs[1..], sjis)| >= 1 && |Prop.Utf8(rs[1..])| >= 1;
    } else {
      assert rs[1..] == [];
    }
  }

  /** Any layer of any built tree with regular paths can be addressed: with every rune escaped its
      line is long enough, even if its path is a single byte. */
  lemma EveryLayerIsAddressable(t: Tables, fav: Favourites, sc: Scratch, x: nat, rs: seq<Prop.rune>, visible: bool,
                                order: seq<FlipPair>)
    requires Fits(t, sc.states) && PathsRegular(t) && x < |sc.states|
    requires t.layers[x].fullPath == Prop.Utf8(rs) && Prop.PathLike(Prop.Utf8(rs))
    ensures exists line :: Sets(t, fav, sc, line, order, x, visible)
  {
    hide WellFormed, PathsRegular, ShowPath, Prop.Utf8, RunLine;
    var none := (r: Prop.rune) => false;
    PathIsFound(t, x);
    NoRunesNoText(rs);
    EscapedIsLonger(rs, none);
    ShowLineWorks(t, fav, sc, x, rs, none, visible, order);
  }

  lemma EscapedIsLonger(rs: seq<Prop.rune>, none: Prop.rune -> bool)
    requires rs != [] && forall r :: !none(r)
    ensures |Prop.EscapedRunes(rs, none)| >= 2
  {
    assert |Prop.EscapedRune(rs[0], none)| >= 2;
  }

  // ---------- a run of commands ----------

  lemma CommandLayers(t: Tables, lines: seq<string>, cmds: seq<Command>)
    requires |lines| == |cmds| && forall k :: 0 <= k < |lines| ==> LineOf(t, lines[k], cmds[k])
    ensures forall c <- cmds :: c.layer < |t.layers|
  {
    forall c | c in cmds
      ensures c.layer < |t.layers|
    {
      var k :| 0 <= k < |cmds| && cmds[k] == c;
      assert LineOf(t, lines[k], cmds[k]);
    }
  }

  /** After `i` commands every layer is in the state its last setting gave it. */
  lemma {:induction false} RunMeaning(t: Tables, fav: Favourites, s0: States, flip: int, lines: seq<string>,
                                      cmds: seq<Command>, orders: seq<seq<FlipPair>>, i: nat)
    requires Fits(t, s0) && PlainTree(t) && |lines| == |cmds| == |orders| && i <= |lines|
    requires forall k :: 0 <= k < |lines| ==> LineOf(t, lines[k], cmds[k])
    requires forall c <- cmds :: c.layer < |s0|
    ensures var r := RunLines(t, fav, Scratch(s0, 0, flip), lines[..i], orders[..i]);
      && r.Ok? && r.value.priority == i && r.value.flip == flip
      && forall x :: 0 <= x < |s0| ==> r.value.states[x] == After(t, s0, cmds[..i], x)
    decreases i
  {
    hide WellFormed, PlainTree, LineOf, RunLine, RunLines, Touches;
    if i == 0 {
      NoLines(t, fav, Scratch(s0, 0, flip), lines[..0], orders[..0]);
    } else {
      RunMeaning(t, fav, s0, flip, lines, cmds, orders, i - 1);
      assert orders[..i] == orders[..i - 1] + [orders[i - 1]];
      RunAppend(t, fav, Scratch(s0, 0, flip), lines, i - 1, orders[..i - 1], orders[i - 1]);
      var before := RunLines(t, fav, Scratch(s0, 0, flip), lines[..i - 1], orders[..i - 1]).value;
      CommandMeaning(t, fav, before, lines[i - 1], cmds[i - 1], orders[i - 1]);
      assert cmds[..i][..i - 1] == cmds[..i - 1] && cmds[..i][i - 1] == cmds[i - 1];
    }
  }

  lemma NoLines(t: Tables, fav: Favourites, sc: Scratch, lines: seq<string>, orders: seq<seq<FlipPair>>)
    requires Fits(t, sc.states) && lines == [] && orders == []
    ensures RunLines(t, fav, sc, lines, orders) == Ok(sc)
  {}

  // ---------- who is visible in the end ----------

  /** The time of a layer's last setting never exceeds the number of commands. */
  lemma {:induction false} AfterBound(t: Tables, s0: States, cmds: seq<Command>, x: nat)
    requires Fits(t, s0) && x < |s0| && (forall c <- cmds :: c.layer < |s0|) && s0[x].priority == 0
    ensures 0 <= After(t, s0, cmds, x).priority <= |cmds|
    decreases |cmds|
  {
    if cmds != [] {
      var last, front := cmds[|cmds| - 1], cmds[..|cmds| - 1];
      assert last in cmds && forall c <- front :: c in cmds;
      AfterBound(t, s0, front, x);
    }
  }

  /** Two radio layers of one group are never shown at the same time. */
  lemma {:induction false} ShownAtDifferentTimes(t: Tables, s0: States, cmds: seq<Command>, w: int, x: nat, y: nat)
    requires Fits(t, s0) && (forall c <- cmds :: c.layer < |s0|) && forall j :: 0 <= j < |s0| ==> s0[j].priority == 0
    requires OneVisible(t, s0, w) && x < |s0| && y < |s0| && x != y && Radio(t, w, x) && Radio(t, w, y)
    requires After(t, s0, cmds, x).visible && After(t, s0, cmds, y).visible
    ensures After(t, s0, cmds, x).priority != After(t, s0, cmds, y).priority
    decreases |cmds|
  {
    if cmds != [] {
      var last, front := cmds[|cmds| - 1], cmds[..|cmds| - 1];
      assert last in cmds && forall c <- front :: c in cmds;
      if Touches(t, last, x) && Touches(t, last, y) {
        SiblingsApart(t, last.layer, x, y);
      } else if !Touches(t, last, x) && !Touches(t, last, y) {
        ShownAtDifferentTimes(t, s0, front, w, x, y);
      } else {
        AfterBound(t, s0, front, x);
        AfterBound(t, s0, front, y);
      }
    }
  }

  /** `y` is the radio layer of `w` most recently shown and not hidden since; if there is none,
      the last one of the group. */
  ghost predicate MostRecent(t: Tables, s0: States, cmds: seq<Command>, g: Group, y: nat)
    requires Fits(t, s0) && forall c <- cmds :: c.layer < |s0|
  {
    && y < |s0| && Radio(t, g.owner, y)
    && (forall x :: 0 <= x < |s0| && x != y && Radio(t, g.owner, x) && After(t, s0, cmds, x).visible ==>
         After(t, s0, cmds, y).visible && After(t, s0, cmds, x).priority < After(t, s0, cmds, y).priority)
    && ((forall x :: 0 <= x < |s0| && Radio(t, g.owner, x) ==> !After(t, s0, cmds, x).visible) ==>
         |g.members| > 0 && t.layers[y].seqId == g.members[|g.members| - 1])
  }

  lemma WinnerIsMostRecent(t: Tables, s0: States, cmds: seq<Command>, f: States, g: Group)
    requires Fits(t, s0) && Fits(t, f) && (forall c <- cmds :: c.layer < |s0|)
    requires forall j :: 0 <= j < |s0| ==> s0[j].priority == 0
    requires g in AllGroups(t) && |g.members| > 0 && Members(t, g.members) && OneVisible(t, s0, g.owner)
    requires forall j :: 0 <= j < |s0| && Radio(t, g.owner, j) ==> f[j] == After(t, s0, cmds, j)
    ensures MostRecent(t, s0, cmds, g, Find(t, Winner(t, f, g.members)).value)
  {
    hide GroupsLinked, Touches;
    var y := Find(t, Winner(t, f, g.members)).value;
    GroupIsRadio(t, g, y);
    forall x | 0 <= x < |s0| && Radio(t, g.owner, x) && After(t, s0, cmds, x).visible
      ensures After(t, s0, cmds, y).visible && After(t, s0, cmds, x).priority <= After(t, s0, cmds, y).priority
    {
      GroupIsRadio(t, g, x);
      AfterBound(t, s0, cmds, x);
      var id, b := t.layers[x].seqId, Best(t, f, g.members);
      assert id in g.members && StateOf(t, f, id) == f[x];
      assert b.Some?;
    }
    forall x | 0 <= x < |s0| && x != y && Radio(t, g.owner, x) && After(t, s0, cmds, x).visible
      ensures After(t, s0, cmds, x).priority < After(t, s0, cmds, y).priority
    {
      ShownAtDifferentTimes(t, s0, cmds, g.owner, x, y);
    }
    var b := Best(t, f, g.members);
    assert b.Some? ==> StateOf(t, f, b.value) == f[y] == After(t, s0, cmds, y);
  }

  // ---------- the main result ----------

  /** Without flip layers `Apply` ends with the group phase. */
  lemma ApplyWithoutFlips(t: Tables, s: States, flip: int, pri: int, w: seq<bool>) returns (groups: seq<Group>)
    requires Fits(t, s) && NoFlips(t) && Normalizes(t, s, flip, pri, w)
    ensures OrderOf(groups, AllGroups(t))
    ensures w == Visibility(GroupFold(t, Forced(t, s, pri + 1), groups, pri + 2))
  {
    var pairs;
    groups, pairs :|
      && OrderOf(groups, AllGroups(t)) && OrderOf(pairs, AllPairs(t))
      && w == Visibility(Normalized(t, s, flip, pri, groups, pairs));
    assert AllPairs(t) == {};
    if pairs != [] {
      OrderShrinks(pairs, AllPairs(t));
      assert false;
    }
  }

  lemma CommandsSettle(t: Tables, fav: Favourites, v: seq<bool>, flip: int, lines: seq<string>,
                       cmds: seq<Command>, orders: seq<seq<FlipPair>>, w: seq<bool>)
    requires PlainTree(t) && |v| == |w| == |t.layers| && AllOneVisible(t, Fresh(v))
    requires |lines| == |cmds| == |orders| && forall k :: 0 <= k < |lines| ==> LineOf(t, lines[k], cmds[k])
    requires forall c <- cmds :: c.layer < |v|
    requires var r := RunLines(t, fav, Scratch(Fresh(v), 0, flip), lines, orders);
      r.Ok? ==> Normalizes(t, r.value.states, r.value.flip, r.value.priority, w)
    ensures RunLines(t, fav, Scratch(Fresh(v), 0, flip), lines, orders).Ok?
    ensures forall g <- AllGroups(t) ::
      exists y :: OnlyVisible(t, Uniform(w, 0), g.owner, y) && MostRecent(t, Fresh(v), cmds, g, y)
    ensures forall x :: 0 <= x < |v| && !IsGroup(t.layers[x].name) ==>
      w[x] == (IsForced(t, x) || After(t, Fresh(v), cmds, x).visible)
  {
    hide WellFormed, PathsRegular, LineOf, RunLine, RunLines, After, OneVisible, MostRecent, OrderOf, Normalizes, NoFlips;
    var s0 := Fresh(v);
    assert lines[..|lines|] == lines && orders[..|orders|] == orders && cmds[..|cmds|] == cmds;
    RunMeaning(t, fav, s0, flip, lines, cmds, orders, |lines|);
    var sc := RunLines(t, fav, Scratch(s0, 0, flip), lines, orders).value;
    var groups := ApplyWithoutFlips(t, sc.states, sc.flip, sc.priority, w);
    GroupsAfterRun(t, s0, cmds, sc.states, groups, sc.priority, w);
  }

  /** On a tree without flip layers, starting from a settled image: after any list of `v0` and
      `v1` commands the visible layer of each group is the one most recently shown, directly or
      as an ancestor, and not hidden since. */
  lemma LastCommandWins(t: Tables, fav: Favourites, v: seq<bool>, flip: int, lines: seq<string>,
                        cmds: seq<Command>, orders: seq<seq<FlipPair>>, w: seq<bool>)
    requires PlainTree(t) && |v| == |w| == |t.layers| && AllOneVisible(t, Fresh(v))
    requires |lines| == |cmds| == |orders| && forall k :: 0 <= k < |lines| ==> LineOf(t, lines[k], cmds[k])
    requires var r := RunLines(t, fav, Scratch(Fresh(v), 0, flip), lines, orders);
      r.Ok? ==> Normalizes(t, r.value.states, r.value.flip, r.value.priority, w)
    ensures RunLines(t, fav, Scratch(Fresh(v), 0, flip), lines, orders).Ok?
    ensures forall c <- cmds :: c.layer < |v|
    ensures forall g <- AllGroups(t) ::
      exists y :: OnlyVisible(t, Uniform(w, 0), g.owner, y) && MostRecent(t, Fresh(v), cmds, g, y)
    ensures forall x :: 0 <= x < |v| && !IsGroup(t.layers[x].name) ==>
      w[x] == (IsForced(t, x) || After(t, Fresh(v), cmds, x).visible)
  {
    hide WellFormed, PathsRegular, LineOf, RunLine, RunLines, After, OneVisible, MostRecent, Normalizes, NoFlips;
    CommandLayers(t, lines, cmds);
    CommandsSettle(t, fav, v, flip, lines, cmds, orders, w);
  }

  lemma GroupsAfterRun(t: Tables, s0: States, cmds: seq<Command>, s: States, groups: seq<Group>, pri: int, w: seq<bool>)
    requires Fits(t, s0) && Fits(t, s) && (forall c <- cmds :: c.layer < |s0|) && OrderOf(groups, AllGroups(t))
    requires AllOneVisible(t, s0) && forall j :: 0 <= j < |s0| ==> s0[j].priority == 0
    requires forall x :: 0 <= x < |s0| ==> s[x] == After(t, s0, cmds, x)
    requires w == Visibility(GroupFold(t, Forced(t, s, pri + 1), groups, pri + 2))
    ensures forall g <- AllGroups(t) ::
      exists y :: OnlyVisible(t, Uniform(w, 0), g.owner, y) && MostRecent(t, s0, cmds, g, y)
    ensures forall x :: 0 <= x < |s0| && !IsGroup(t.layers[x].name) ==>
      w[x] == (IsForced(t, x) || After(t, s0, cmds, x).visible)
  {
    hide RowsLinked, GroupsLinked, After, OneVisible, MostRecent, OrderOf, OnlyVisible;
    OrderWithin(groups, AllGroups(t), AllGroups(t));
    var f := Forced(t, s, pri + 1);
    var r := GroupFold(t, f, groups, pri + 2);
    GroupPhaseMeaning(t, f, groups, pri + 2);
    RadioNotForced(t);
    forall g | g in AllGroups(t)
      ensures exists y :: OnlyVisible(t, Uniform(w, 0), g.owner, y) && MostRecent(t, s0, cmds, g, y)
    {
      WinnerIsMostRecent(t, s0, cmds, f, g);
      var y := Find(t, Winner(t, f, g.members)).value;
      OnlyVisibleReadsVisibility(t, r, Uniform(w, 0), g.owner, y);
    }
    assert forall x: nat :: x < |s0| ==> w[x] == Visibility(r)[x] == r[x].visible;
  }

  lemma RadioNotForced(t: Tables)
    requires WellFormed(t)
    ensures forall j: nat :: j < |t.layers| && IsGroup(t.layers[j].name) ==> !IsForced(t, j)
  {
    assert forall j :: 0 <= j < |t.layers| && IsGroup(t.layers[j].name) ==> !IsForceVisible(t.layers[j].name);
  }

  lemma OnlyVisibleReadsVisibility(t: Tables, a: States, b: States, w: int, x: nat)
    requires |a| == |b| == |t.layers| && Visibility(a) == Visibility(b) && OnlyVisible(t, a, w, x)
    ensures OnlyVisible(t, b, w, x)
  {
    assert forall j: nat :: j < |a| ==> a[j].visible == Visibility(a)[j] && b[j].visible == Visibility(b)[j];
  }

  lemma LastIsAfter(t: Tables, s0: States, cmds: seq<Command>, x: nat)
    requires Fits(t, s0) && x < |s0| && forall c <- cmds :: c.layer < |s0|
    requires cmds != [] && Touches(t, cmds[|cmds| - 1], x)
    ensures After(t, s0, cmds, x) == LayerState(cmds[|cmds| - 1].visible, |cmds|)
  {
    hide WellFormed, Touches;
  }

  /** When the last command is `v1.p`, the named layer and everything above it are visible. */
  lemma LastShownIsVisible(t: Tables, fav: Favourites, v: seq<bool>, flip: int, lines: seq<string>,
                           cmds: seq<Command>, orders: seq<seq<FlipPair>>, w: seq<bool>, x: nat)
    requires PlainTree(t) && |v| == |w| == |t.layers| && AllOneVisible(t, Fresh(v))
    requires |lines| == |cmds| == |orders| && forall k :: 0 <= k < |lines| ==> LineOf(t, lines[k], cmds[k])
    requires var r := RunLines(t, fav, Scratch(Fresh(v), 0, flip), lines, orders);
      r.Ok? ==> Normalizes(t, r.value.states, r.value.flip, r.value.priority, w)
    requires cmds != [] && cmds[|cmds| - 1].visible && cmds[|cmds| - 1].layer < |v|
    requires x < |v| && AtOrUnder(t, cmds[|cmds| - 1].layer, x)
    ensures w[x]
  {
    hide RowsLinked, GroupsLinked, PathsRegular, LineOf, RunLines;
    LastCommandWins(t, fav, v, flip, lines, cmds, orders, w);
    var s0 := Fresh(v);
    LastIsAfter(t, s0, cmds, x);
    hide After;
    if IsGroup(t.layers[x].name) {
      var g := GroupOfLayer(t, x);
      var y :| OnlyVisible(t, Uniform(w, 0), g.owner, y) && MostRecent(t, s0, cmds, g, y);
      AfterBound(t, s0, cmds, y);
    }
  }
}
