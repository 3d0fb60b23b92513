/** Images and their saved states (`src/go/img/image.go`), and the operations of the layer
    manager that the editor calls (`src/go/img/layermgr.go`). */
module LayerImage {
  import opened Names
  import opened BitCodec
  import opened LayerTables
  import opened LayerStates
  import opened LayerFlips
  import opened LayerGroups
  import opened LayerNormal
  import opened LayerCommands

  /** A visibility vector and flip that some `Apply` may have left behind. */
  ghost predicate Settled(t: Tables, v: seq<bool>, flip: int)
  {
    && Regular(t) && Separate(t) && ValidFlip(flip) && |v| == |t.layers|
    && Normal(t, Uniform(v, 0), flip)
  }

  /** Being normal is about visibility, not priorities. */
  lemma NormalReadsVisibility(t: Tables, a: States, b: States, flip: int)
    requires Fits(t, a) && Fits(t, b) && (forall p <- AllPairs(t) :: Placed(t, p))
    requires Visibility(a) == Visibility(b) && Normal(t, a, flip)
    ensures Normal(t, b, flip)
  {
    hide WellFormed;
    assert forall j: nat :: j < |a| ==> a[j].visible == Visibility(a)[j] && b[j].visible == Visibility(b)[j];
    forall g | g in AllGroups(t)
      ensures OneVisible(t, b, g.owner)
    {
      assert OneVisible(t, a, g.owner);
      var x: nat :| OnlyVisible(t, a, g.owner, x);
      assert OnlyVisible(t, b, g.owner, x);
    }
    forall p | p in AllPairs(t)
      ensures PairSettled(t, b, p, flip)
    {
      assert PairSettled(t, a, p, flip);
    }
    forall j | 0 <= j < |b| && IsForced(t, j)
      ensures b[j].visible || Replaced(t, b, flip, j)
    {
      if Replaced(t, a, flip, j) {
        var p :| p in AllPairs(t) && j == HiddenSide(t, p, flip) && a[ShownSide(t, p, flip)].visible;
      }
    }
  }

  /** Every `Apply` on a regular tree leaves a settled image. */
  lemma ApplySettles(t: Tables, s: States, flip: int, pri: int, v: seq<bool>)
    requires Regular(t) && ValidFlip(flip) && Normalizes(t, s, flip, pri, v)
    ensures Settled(t, v, flip)
  {
    hide RowsLinked, GroupsLinked, PathsRegular, FlipsRegular, Normal, Normalized;
    var groups, pairs :|
      && OrderOf(groups, AllGroups(t)) && OrderOf(pairs, AllPairs(t))
      && v == Visibility(Normalized(t, s, flip, pri, groups, pairs));
    ApplyIsNormal(t, s, flip, pri, groups, pairs);
    assert Visibility(Uniform(v, 0)) == v;
    NormalReadsVisibility(t, Normalized(t, s, flip, pri, groups, pairs), Uniform(v, 0), flip);
  }

  /** Applying a settled vector at one priority keeps it. */
  lemma SettledIsFixed(t: Tables, v: seq<bool>, flip: int, pri: int, w: seq<bool>)
    requires Settled(t, v, flip) && pri >= 0 && Normalizes(t, Uniform(v, pri), flip, pri, w)
    ensures w == v
  {
    hide WellFormed, Normal;
    var s := Uniform(v, pri);
    var groups, pairs :|
      && OrderOf(groups, AllGroups(t)) && OrderOf(pairs, AllPairs(t))
      && w == Visibility(Normalized(t, s, flip, pri, groups, pairs));
    assert Visibility(s) == v && Visibility(Uniform(v, 0)) == v;
    NormalReadsVisibility(t, Uniform(v, 0), s, flip);
    NormalIsFixed(t, s, flip, pri, groups, pairs);
  }

  // ---------- the layer manager's operations ----------

  method SetVisible(m: LayerManager, seqID: SeqID, visible: bool) returns (modified: bool)
    requires m.Valid()
    modifies m`visible, m`flip
    ensures m.Valid() && m.flip == old(m.flip)
    ensures modified <==> m.visible != old(m.visible)
    ensures seqID !in m.t.mapped ==> !modified
    ensures seqID in m.t.mapped ==>
      Normalizes(m.t, SetState(m.t, Fresh(old(m.visible)), Find(m.t, seqID).value, visible, 1), m.flip, 1, m.visible)
  {
    var ls := new LayerStates(m);
    var ok := ls.SetVisible(seqID, visible);
    if !ok {
      return false;
    }
    modified := ls.Apply();
  }

  method SetVisibleExclusive(m: LayerManager, seqID: SeqID, visible: bool) returns (modified: bool)
    requires m.Valid()
    modifies m`visible, m`flip
    ensures m.Valid() && m.flip == old(m.flip)
    ensures modified <==> m.visible != old(m.visible)
    ensures seqID !in m.t.mapped ==> !modified
    ensures seqID in m.t.mapped ==>
      var r := Exclusive(m.t, Fresh(old(m.visible)), Find(m.t, seqID).value, visible, 1);
      Normalizes(m.t, r.0, m.flip, r.1, m.visible)
  {
    var ls := new LayerStates(m);
    var ok := ls.SetVisibleExclusive(seqID, visible);
    if !ok {
      return false;
    }
    modified := ls.Apply();
  }

  method SetFlip(m: LayerManager, flip: int) returns (modified: bool)
    requires m.Valid()
    modifies m`visible, m`flip
    ensures m.Valid() && m.flip == if ValidFlip(flip) then flip else old(m.flip)
    ensures modified <==> m.visible != old(m.visible)
    ensures !ValidFlip(flip) ==> !modified
    ensures ValidFlip(flip) ==> FlipApplied(m.t, old(m.visible), flip, m.visible)
    ensures Regular(m.t) && ValidFlip(flip) ==> Settled(m.t, m.visible, flip)
  {
    hide RowsLinked, GroupsLinked, Regular, Settled, FlipFold, Normalizes;
    ghost var v := m.visible;
    var ls := new LayerStates(m);
    var ok;
    ghost var order;
    ok, order := ls.SetFlip(flip);
    if !ok {
      return false;
    }
    modified := ls.Apply();
    if Regular(m.t) {
      ApplySettles(m.t, FlipFold(m.t, Fresh(v), order, flip, 1), flip, 1, m.visible);
    }
  }

  /** `w` is what some order of flipping and then applying makes of `v`. */
  ghost predicate FlipApplied(t: Tables, v: seq<bool>, flip: int, w: seq<bool>)
  {
    && WellFormed(t) && |v| == |t.layers|
    && exists order :: OrderOf(order, AllPairs(t)) && Normalizes(t, FlipFold(t, Fresh(v), order, flip, 1), flip, 1, w)
  }

  method Normalize(m: LayerManager) returns (modified: bool)
    requires m.Valid()
    modifies m`visible, m`flip
    ensures m.Valid() && m.flip == old(m.flip)
    ensures Normalizes(m.t, Fresh(old(m.visible)), m.flip, 0, m.visible)
    ensures modified <==> m.visible != old(m.visible)
    ensures Regular(m.t) && ValidFlip(m.flip) ==> Settled(m.t, m.visible, m.flip)
  {
    ghost var v := m.visible;
    var ls := new LayerStates(m);
    modified := ls.Apply();
    if Regular(m.t) && ValidFlip(m.flip) {
      ApplySettles(m.t, Fresh(v), m.flip, 0, m.visible);
    }
  }

  datatype Operation =
    | SetVisibleOp(seqID: SeqID, visible: bool)
    | SetVisibleExclusiveOp(seqID: SeqID, visible: bool)
    | SetFlipOp(flip: int)
    | DeserializeOp(text: string, fav: Favourites)

  /** Over any run of operations on a regular tree that starts settled, the image stays settled:
      in particular every radio group has exactly one visible layer after each of them. */
  method Run(m: LayerManager, ops: seq<Operation>)
    requires m.Valid() && Settled(m.t, m.visible, m.flip)
    modifies m`visible, m`flip
    ensures m.Valid() && Settled(m.t, m.visible, m.flip)
    ensures AllOneVisible(m.t, Uniform(m.visible, 0))
  {
    for i := 0 to |ops|
      invariant m.Valid() && Settled(m.t, m.visible, m.flip)
    {
      Step(m, ops[i]);
    }
  }

  method Step(m: LayerManager, op: Operation)
    requires m.Valid() && Settled(m.t, m.visible, m.flip)
    modifies m`visible, m`flip
    ensures m.Valid() && Settled(m.t, m.visible, m.flip)
  {
    match op
    case SetVisibleOp(seqID, visible) =>
      var _ := SetVisible(m, seqID, visible);
      if seqID in m.t.mapped {
        ApplySettles(m.t, SetState(m.t, Fresh(old(m.visible)), Find(m.t, seqID).value, visible, 1), m.flip, 1, m.visible);
      }
    case SetVisibleExclusiveOp(seqID, visible) =>
      var _ := SetVisibleExclusive(m, seqID, visible);
      if seqID in m.t.mapped {
        ghost var r := Exclusive(m.t, Fresh(old(m.visible)), Find(m.t, seqID).value, visible, 1);
        ApplySettles(m.t, r.0, m.flip, r.1, m.visible);
      }
    case SetFlipOp(flip) =>
      ghost var before := m.visible;
      var modified := SetFlip(m, flip);
      assert !modified ==> m.visible == before;
    case DeserializeOp(text, fav) =>
      ghost var start, lines := Scratch(Fresh(m.visible), 0, m.flip), Split(text, ' ');
      var r;
      ghost var orders;
      r, orders := Deserialize(m, text, fav);
      ghost var run := RunLines(m.t, fav, start, lines, orders);
      if run.Ok? {
        RunKeepsFlipValid(m.t, fav, start, lines, orders);
        ApplySettles(m.t, run.value.states, run.value.flip, run.value.priority, m.visible);
      }
  }

  /** Commands never set an unknown flip, and never lower the priority counter. */
  lemma {:induction false} RunKeepsFlipValid(t: Tables, fav: Favourites, sc: Scratch, lines: seq<string>, orders: seq<seq<FlipPair>>)
    requires Fits(t, sc.states) && |orders| == |lines| && ValidFlip(sc.flip)
    requires RunLines(t, fav, sc, lines, orders).Ok?
    ensures ValidFlip(RunLines(t, fav, sc, lines, orders).value.flip)
    ensures RunLines(t, fav, sc, lines, orders).value.priority >= sc.priority
    decreases |lines|
  {
    if lines != [] {
      var sc1 := RunLine(t, fav, sc, lines[0], orders[0]).value;
      LineKeepsFlipValid(t, fav, sc, lines[0], orders[0]);
      RunKeepsFlipValid(t, fav, sc1, lines[1..], orders[1..]);
    }
  }

  lemma LineKeepsFlipValid(t: Tables, fav: Favourites, sc: Scratch, line: string, order: seq<FlipPair>)
    requires Fits(t, sc.states) && ValidFlip(sc.flip) && RunLine(t, fav, sc, line, order).Ok?
    ensures ValidFlip(RunLine(t, fav, sc, line, order).value.flip)
    ensures RunLine(t, fav, sc, line, order).value.priority >= sc.priority
  {
    hide WellFormed, FlipFold, FilledStates, ShowPath, SetPassing;
  }

  // ---------- images ----------

  function SavedText(flip: int, bits: string): string
  {
    "L." + Decimal(flip) + " " + "V." + bits
  }

  /** The text of `Image.Serialize`. */
  ghost predicate SerializedAs(text: string, v: seq<bool>, flip: int)
  {
    exists bits :: text == SavedText(flip, bits) && Saves(bits, v) && ' ' !in bits
  }

  class Image {
    const layers: LayerManager

    constructor (layers: LayerManager)
      ensures this.layers == layers
    {
      this.layers := layers;
    }

    predicate FlipX()
      reads this, layers
    {
      layers.flip == FLIP_X || layers.flip == FLIP_XY
    }

    predicate FlipY()
      reads this, layers
    {
      layers.flip == FLIP_Y || layers.flip == FLIP_XY
    }

    /** Sets one bit of the flip. */
    method SetFlipX(v: bool) returns (changed: bool)
      requires layers.Valid() && ValidFlip(layers.flip)
      modifies layers`visible, layers`flip
      ensures layers.Valid() && ValidFlip(layers.flip)
      ensures FlipX() == v && FlipY() == old(FlipY()) && changed == (old(FlipX()) != v)
      ensures !changed ==> layers.visible == old(layers.visible)
      ensures changed ==> FlipApplied(layers.t, old(layers.visible), layers.flip, layers.visible)
      ensures Regular(layers.t) && (changed || old(Settled(layers.t, layers.visible, layers.flip))) ==>
        Settled(layers.t, layers.visible, layers.flip)
    {
      hide WellFormed, Regular, Settled, FlipApplied;
      if (layers.flip % 2 == 1) == v {
        return false;
      }
      var f := if v then layers.flip + 1 else layers.flip - 1;
      var _ := SetFlip(layers, f);
      layers.flip := f;
      return true;
    }

    method Serialize() returns (r: Option<string>)
      requires layers.Valid() && ValidFlip(layers.flip)
      ensures r.Some? <==> |layers.visible| <= 0xffff
      ensures r.Some? ==> SerializedAs(r.value, layers.visible, layers.flip)
    {
      var bits := SerializeBits(layers.visible);
      if bits.None? {
        return None;
      }
      var digits := Itoa(layers.flip);
      assert "L." + digits + " " + "V." + bits.value == SavedText(layers.flip, bits.value);
      return Some("L." + digits + " " + "V." + bits.value);
    }

    /** As `SetFlipX`, without the redundant second assignment. */
    method SetFlipY(v: bool) returns (changed: bool)
      requires layers.Valid() && ValidFlip(layers.flip)
      modifies layers`visible, layers`flip
      ensures layers.Valid() && ValidFlip(layers.flip)
      ensures FlipY() == v && FlipX() == old(FlipX()) && changed == (old(FlipY()) != v)
      ensures !changed ==> layers.visible == old(layers.visible)
      ensures changed ==> FlipApplied(layers.t, old(layers.visible), layers.flip, layers.visible)
      ensures Regular(layers.t) && (changed || old(Settled(layers.t, layers.visible, layers.flip))) ==>
        Settled(layers.t, layers.visible, layers.flip)
    {
      hide WellFormed, Regular, Settled, FlipApplied;
      if (layers.flip / 2 % 2 == 1) == v {
        return false;
      }
      var f := if v then layers.flip + 2 else layers.flip - 2;
      var _ := SetFlip(layers, f);
      return true;
    }

    /** `Deserialize` of a text that `Serialize` wrote restores exactly the image it was written
        for, in whatever visibility and flip it finds the tree. */
    method Restore(text: string, fav: Favourites, ghost v: seq<bool>, ghost flip: int) returns (modified: bool)
      requires layers.Valid() && Settled(layers.t, v, flip) && SerializedAs(text, v, flip)
      modifies layers`visible, layers`flip
      ensures layers.Valid() && layers.visible == v && layers.flip == flip
      ensures modified <==> old(layers.visible) != v || old(layers.flip) != flip
    {
      ghost var start, lines := Scratch(Fresh(layers.visible), 0, layers.flip), Split(text, ' ');
      var r;
      ghost var orders;
      r, orders := Deserialize(layers, text, fav);
      ghost var run := SavedTextRuns(layers.t, fav, start, text, v, flip, orders);
      SettledIsFixed(layers.t, v, flip, run.priority, layers.visible);
      return r.value;
    }
  }

  /** The commands of a saved text leave nothing of the state they start from. */
  lemma SavedTextRuns(t: Tables, fav: Favourites, sc: Scratch, text: string, v: seq<bool>, flip: int,
                      orders: seq<seq<FlipPair>>) returns (run: Scratch)
    requires Fits(t, sc.states) && |v| == |sc.states| && ValidFlip(flip) && sc.priority >= 0
    requires SerializedAs(text, v, flip) && |orders| == |Split(text, ' ')|
    ensures RunLines(t, fav, sc, Split(text, ' '), orders) == Ok(run)
    ensures run.priority >= 0 && run.flip == flip && run.states == Uniform(v, run.priority)
  {
    hide WellFormed, Split, RunLine, Saves, Decimal;
    var bits :| text == SavedText(flip, bits) && Saves(bits, v) && ' ' !in bits;
    SavedTextSplits(flip, bits);
    var l, w, lines := "L." + Decimal(flip), "V." + bits, Split(text, ' ');
    assert lines[1..] == [w] && lines[1..][1..] == [] && orders[1..][1..] == [];
    FlipCommand(t, fav, sc, flip, orders[0]);
    var sc1 := RunLine(t, fav, sc, l, orders[0]).value;
    SaveCommand(t, fav, sc1, bits, v, orders[1..][0]);
    run := Scratch(Uniform(v, sc1.priority + 1), sc1.priority + 1, flip);
    assert RunLines(t, fav, sc1, lines[1..], orders[1..]) == RunLine(t, fav, sc1, w, orders[1..][0]);
  }

  lemma DecimalOfFlip(flip: int)
    requires ValidFlip(flip)
    ensures Decimal(flip) == [(flip + 48) as char]
  {}

  lemma SavedTextSplits(flip: int, bits: string)
    requires ValidFlip(flip) && ' ' !in bits
    ensures Split(SavedText(flip, bits), ' ') == ["L." + Decimal(flip), "V." + bits]
  {
    DecimalOfFlip(flip);
    var l, w := "L." + Decimal(flip), "V." + bits;
    assert SavedText(flip, bits) == l + [' '] + w;
    SplitPiece(l, w, ' ');
  }

  lemma FlipCommand(t: Tables, fav: Favourites, sc: Scratch, flip: int, order: seq<FlipPair>)
    requires Fits(t, sc.states) && ValidFlip(flip)
    ensures ' ' !in Decimal(flip)
    ensures var r := RunLine(t, fav, sc, "L." + Decimal(flip), order);
      r.Ok? && r.value.flip == flip && r.value.priority == sc.priority + 1
  {
    DecimalOfFlip(flip);
    var line := "L." + Decimal(flip);
    assert line[..2] == "L." && line[2] == (flip + 48) as char;
  }

  lemma SaveCommand(t: Tables, fav: Favourites, sc: Scratch, bits: string, v: seq<bool>, order: seq<FlipPair>)
    requires Fits(t, sc.states) && Saves(bits, v) && |v| == |sc.states|
    ensures RunLine(t, fav, sc, "V." + bits, order)
      == Ok(Scratch(Uniform(v, sc.priority + 1), sc.priority + 1, sc.flip))
  {
    var line := "V." + bits;
    assert line[..2] == "V." && line[2..] == bits;
    SavedFillsUniform(sc.states, bits, v, sc.priority + 1);
  }

  /** Saving an image and restoring it on any image of the same tree: exact, or too many layers. */
  method SaveAndRestore(from: Image, to: Image, fav: Favourites) returns (ok: bool)
    requires from.layers.Valid() && to.layers.Valid() && from.layers.t == to.layers.t
    requires Settled(from.layers.t, from.layers.visible, from.layers.flip)
    modifies to.layers`visible, to.layers`flip
    ensures ok <==> |from.layers.t.layers| <= 0xffff
    ensures ok ==> to.layers.visible == old(from.layers.visible) && to.layers.flip == old(from.layers.flip)
    ensures !ok ==> to.layers.visible == old(to.layers.visible) && to.layers.flip == old(to.layers.flip)
  {
    ghost var v, flip := from.layers.visible, from.layers.flip;
    var text := from.Serialize();
    if text.None? {
      return false;
    }
    var _ := to.Restore(text.value, fav, v, flip);
    return true;
  }

  /** The saved text identifies the visibility and the flip. */
  lemma SerializedInjective(text: string, v: seq<bool>, f: int, w: seq<bool>, g: int)
    requires SerializedAs(text, v, f) && SerializedAs(text, w, g) && ValidFlip(f) && ValidFlip(g)
    ensures v == w && f == g
  {
    hide Saves, Decimal;
    var a :| text == SavedText(f, a) && Saves(a, v) && ' ' !in a;
    var b :| text == SavedText(g, b) && Saves(b, w) && ' ' !in b;
    DecimalOfFlip(f);
    DecimalOfFlip(g);
    assert text[2] == (f + 48) as char && text[2] == (g + 48) as char;
    assert a == text[6..] && b == text[6..];
    SavesInjective(a, v, w);
  }
}
