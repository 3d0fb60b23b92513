/** The scratch visibility state of `src/go/img/layerstate.go`: value-level definitions of
    every operation, and the class whose methods carry them out in place. */
module LayerStates {
  import opened Names
  import opened LayerTables
  import opened BitCodec
  import opened Packbits

  datatype LayerState = LayerState(visible: bool, priority: int)

  type States = seq<LayerState>

  datatype Error = NotFound | UnknownFlip | BadEncoding | LengthMismatch | Panic

  const FLIP_NONE := 0
  const FLIP_X := 1
  const FLIP_Y := 2
  const FLIP_XY := 3

  ghost predicate Fits(t: Tables, s: States) { WellFormed(t) && |s| == |t.layers| }

  // ---------- copying one side of a flip pair onto the other ----------

  /** Takes over the visibility of `from`; the priority moves only when that is a change. */
  function Copied(to: LayerState, from: LayerState, pri: int): LayerState
  {
    if to.visible != from.visible then LayerState(from.visible, pri) else to
  }

  function CopyStates(t: Tables, s: States, fi0: nat, fi1: nat, pri: int): (r: States)
    requires Fits(t, s) && fi0 < |s| && fi1 < |s|
    ensures |r| == |s|
    decreases |s| - fi0, |t.layers[fi0].children| + 1
  {
    CopyChildren(t, s, fi0, fi1, 0, pri)
  }

  /** The loop of `copyStateRecursive`, from child `k` on. */
  function CopyChildren(t: Tables, s: States, fi0: nat, fi1: nat, k: nat, pri: int): (r: States)
    requires Fits(t, s) && fi0 < |s| && fi1 < |s| && k <= |t.layers[fi0].children|
    ensures |r| == |s|
    decreases |s| - fi0, |t.layers[fi0].children| - k
  {
    if k == |t.layers[fi0].children| then s
    else
      match ImageOfChild(t, fi0, fi1, k)
      case None => CopyChildren(t, s, fi0, fi1, k + 1, pri)
      case Some((cfi0, cfi1)) =>
        var s1 := s[cfi1 := Copied(s[cfi1], s[cfi0], pri)];
        CopyChildren(t, CopyStates(t, s1, cfi0, cfi1, pri), fi0, fi1, k + 1, pri)
  }

  /** Child `k` of `fi0` and the layer with the corresponding path below `fi1`, if both exist. */
  function ImageOfChild(t: Tables, fi0: nat, fi1: nat, k: nat): (r: Option<(nat, nat)>)
    requires WellFormed(t) && fi0 < |t.layers| && fi1 < |t.layers| && k < |t.layers[fi0].children|
    ensures r.Some? ==> fi0 < r.value.0 < |t.layers| && r.value.1 < |t.layers|
  {
    match FindChild(t, fi0, k)
    case None => None
    case Some(cfi0) =>
      match FindPath(t, t.layers[fi1].fullPath + t.layers[cfi0].fullPath[|t.layers[fi0].fullPath|..])
      case None => None
      case Some(cfi1) => Some((cfi0, cfi1))
  }

  // ---------- flips ----------

  function Min(a: int, b: int): int { if a > b then b else a }
  function Max(a: int, b: int): int { if a > b then a else b }

  /** The side of a pair to hide and the side to show. */
  function Sides(p: FlipPair, mirror: bool): (SeqID, SeqID)
  {
    if mirror then (p.original, p.mirror) else (p.mirror, p.original)
  }

  function FlipOne(t: Tables, s: States, p: FlipPair, mirror: bool, pri: int): (r: States)
    requires Fits(t, s)
    ensures |r| == |s|
  {
    var (id0, id1) := Sides(p, mirror);
    var f0, f1 := Find(t, id0), Find(t, id1);
    if f0.None? || f1.None? then s
    else
      var fi0, fi1 := f0.value, f1.value;
      if !s[fi0].visible && !s[fi1].visible then s
      else
        var lo, hi := Min(s[fi0].priority, s[fi1].priority), Max(s[fi0].priority, s[fi1].priority);
        CopyStates(t, s[fi0 := LayerState(false, lo)][fi1 := LayerState(true, hi)], fi0, fi1, pri)
  }

  /** A pair with several suffixes is handled by the first map that holds it. */
  predicate MirrorShown(t: Tables, p: FlipPair, flip: int)
  {
    if p in t.flipX.Values then flip == FLIP_X
    else if p in t.flipY.Values then flip == FLIP_Y
    else flip == FLIP_XY
  }

  function AllPairs(t: Tables): set<FlipPair>
  {
    t.flipX.Values + t.flipY.Values + t.flipXY.Values
  }

  function FlipFold(t: Tables, s: States, order: seq<FlipPair>, flip: int, pri: int): (r: States)
    requires Fits(t, s)
    ensures |r| == |s|
    decreases |order|
  {
    if order == [] then s
    else
      var last := order[|order| - 1];
      FlipOne(t, FlipFold(t, s, order[..|order| - 1], flip, pri), last, MirrorShown(t, last, flip), pri)
  }

  ghost predicate Distinct<T(!new)>(q: seq<T>) { forall i, j :: 0 <= i < j < |q| ==> q[i] != q[j] }

  /** An order in which a map iteration may deliver exactly the elements of `all`. */
  ghost predicate OrderOf<T(!new)>(q: seq<T>, all: set<T>)
  {
    Distinct(q) && forall x :: x in q <==> x in all
  }

  lemma KeyOfValue<K, V>(m: map<K, V>, v: V) returns (k: K)
    requires v in m.Values
    ensures k in m && m[k] == v
  {
    k :| k in m && m[k] == v;
  }

  lemma SomeMember<T>(s: set<T>) returns (x: T)
    requires s != {}
    ensures x in s
  {
    x :| x in s;
  }

  lemma {:induction false} SomeOrder<T(!new)>(all: set<T>) returns (q: seq<T>)
    ensures OrderOf(q, all)
    decreases all
  {
    if all == {} {
      q := [];
    } else {
      var x := SomeMember(all);
      q := SomeOrder(all - {x});
      OrderExtends(q, all - {x}, x);
      assert all - {x} + {x} == all;
      q := q + [x];
    }
  }

  lemma OrderExtends<T(!new)>(q: seq<T>, all: set<T>, x: T)
    requires OrderOf(q, all) && x !in all
    ensures OrderOf(q + [x], all + {x})
    ensures (q + [x])[..|q|] == q
  {}

  lemma OrderShrinks<T(!new)>(q: seq<T>, all: set<T>)
    requires OrderOf(q, all) && q != []
    ensures q[|q| - 1] in all && OrderOf(q[..|q| - 1], all - {q[|q| - 1]})
  {
    var last, front := q[|q| - 1], q[..|q| - 1];
    assert last in q;
    forall x
      ensures x in front <==> x in all - {last}
    {
      if x in all && x != last {
        var i :| 0 <= i < |q| && q[i] == x;
        assert front[i] == x;
      }
    }
  }

  // ---------- groups ----------

  /** Members are layers of the tree. */
  ghost predicate Members(t: Tables, ids: seq<SeqID>)
  {
    WellFormed(t) && forall m <- ids :: m in t.mapped
  }

  function StateOf(t: Tables, s: States, id: SeqID): LayerState
    requires Fits(t, s) && id in t.mapped
  {
    s[Find(t, id).value]
  }

  /** The visible member of highest priority, the earliest on ties; without one, the last. */
  function Winner(t: Tables, s: States, members: seq<SeqID>): (w: SeqID)
    requires Fits(t, s) && |members| > 0 && Members(t, members)
    ensures w in members
  {
    match Best(t, s, members)
    case Some(w) => w
    case None => members[|members| - 1]
  }

  function Best(t: Tables, s: States, members: seq<SeqID>): (w: Option<SeqID>)
    requires Fits(t, s) && Members(t, members)
    ensures w.Some? ==> w.value in members && StateOf(t, s, w.value).visible && StateOf(t, s, w.value).priority > -1
    ensures forall m <- members :: StateOf(t, s, m).visible ==>
      StateOf(t, s, m).priority <= if w.Some? then StateOf(t, s, w.value).priority else -1
  {
    if members == [] then None
    else
      var last, front := members[|members| - 1], members[..|members| - 1];
      assert Members(t, front) && last in members;
      var before := Best(t, s, front);
      var st := StateOf(t, s, last);
      if st.visible && st.priority > (if before.Some? then StateOf(t, s, before.value).priority else -1)
      then Some(last) else before
  }

  function GroupOne(t: Tables, s: States, g: Group, pri: int): (r: States)
    requires Fits(t, s) && |g.members| > 0 && Members(t, g.members)
    ensures |r| == |s|
  {
    var w := Winner(t, s, g.members);
    seq(|s|, i requires 0 <= i < |s| =>
      if t.layers[i].seqId == w then LayerState(true, pri)
      else if t.layers[i].seqId in g.members && s[i].visible then LayerState(false, pri)
      else s[i])
  }

  function Hidden(t: Tables, s: States, ids: seq<SeqID>, pri: int): (r: States)
    requires Fits(t, s)
    ensures |r| == |s|
  {
    seq(|s|, i requires 0 <= i < |s| =>
      if t.layers[i].seqId in ids && s[i].visible then LayerState(false, pri) else s[i])
  }

  function BestPriority(t: Tables, s: States, members: seq<SeqID>): int
    requires Fits(t, s) && Members(t, members)
  {
    match Best(t, s, members) case None => -1 case Some(w) => StateOf(t, s, w).priority
  }

  /** One member further in the loop of `normalizeGroup`; a member seen before is hidden by now. */
  lemma GroupStep(t: Tables, s: States, members: seq<SeqID>, i: nat, pri: int)
    requires Fits(t, s) && Members(t, members) && i < |members|
    ensures Members(t, members[..i]) && Members(t, members[..i + 1])
    ensures
      var before, after := members[..i], members[..i + 1];
      var fi, hidden := Find(t, members[i]).value, Hidden(t, s, before, pri);
      var st := hidden[fi];
      && (st.visible ==> Hidden(t, s, after, pri) == hidden[fi := LayerState(false, pri)])
      && (!st.visible ==> Hidden(t, s, after, pri) == hidden)
      && (st.visible && st.priority > BestPriority(t, s, before) ==>
           Best(t, s, after) == Some(members[i]) && BestPriority(t, s, after) == st.priority)
      && (!st.visible || st.priority <= BestPriority(t, s, before) ==>
           Best(t, s, after) == Best(t, s, before) && BestPriority(t, s, after) == BestPriority(t, s, before))
  {
    var before, after := members[..i], members[..i + 1];
    assert after[..i] == before && after[i] == members[i];
    assert forall m :: m in after <==> m in before || m == members[i];
  }

  lemma GroupStart(t: Tables, s: States, pri: int)
    requires Fits(t, s)
    ensures Members(t, []) && Best(t, s, []) == None && BestPriority(t, s, []) == -1 && Hidden(t, s, [], pri) == s
  {
    hide WellFormed;
  }

  /** With every visible member hidden, showing the winner ends the group's turn. */
  lemma GroupEnd(t: Tables, s: States, g: Group, pri: int)
    requires Fits(t, s) && |g.members| > 0 && Members(t, g.members)
    ensures Winner(t, s, g.members) ==
      if Best(t, s, g.members).Some? then Best(t, s, g.members).value else g.members[|g.members| - 1]
    ensures var w := Winner(t, s, g.members);
      Find(t, w).Some? && Hidden(t, s, g.members, pri)[Find(t, w).value := LayerState(true, pri)] == GroupOne(t, s, g, pri)
  {
    hide Best, GroupsLinked;
    var w := Winner(t, s, g.members);
    WinnerIsOne(t, w);
  }

  lemma WinnerIsOne(t: Tables, w: SeqID)
    requires WellFormed(t) && w in t.mapped
    ensures Find(t, w).Some? && forall i :: 0 <= i < |t.layers| ==> (t.layers[i].seqId == w <==> i == Find(t, w).value)
  {
    hide GroupsLinked;
  }

  function AllGroups(t: Tables): set<Group> { t.groupMap.Values }

  lemma GroupHasMembers(t: Tables, g: Group)
    requires WellFormed(t) && g in AllGroups(t)
    ensures |g.members| > 0 && Members(t, g.members)
  {
    var id := KeyOfValue(t.groupMap, g);
  }

  function GroupFold(t: Tables, s: States, order: seq<Group>, pri: int): (r: States)
    requires Fits(t, s) && forall g <- order :: g in AllGroups(t)
    ensures |r| == |s|
    decreases |order|
  {
    if order == [] then s
    else
      var last, front := order[|order| - 1], order[..|order| - 1];
      assert last in order && forall g <- front :: g in order;
      GroupHasMembers(t, last);
      GroupOne(t, GroupFold(t, s, front, pri), last, pri)
  }

  // ---------- normalisation ----------

  function Forced(t: Tables, s: States, pri: int): (r: States)
    requires Fits(t, s)
    ensures |r| == |s|
  {
    seq(|s|, i requires 0 <= i < |s| =>
      if t.layers[i].seqId in t.forceVisible then LayerState(true, pri) else s[i])
  }

  predicate ValidFlip(flip: int) { flip == FLIP_NONE || flip == FLIP_X || flip == FLIP_Y || flip == FLIP_XY }

  /** All three phases of `normalize`, starting at priority counter `pri`. */
  function Normalized(t: Tables, s: States, flip: int, pri: int, groups: seq<Group>, pairs: seq<FlipPair>): (r: States)
    requires Fits(t, s) && forall g <- groups :: g in AllGroups(t)
    ensures |r| == |s|
  {
    var grouped := GroupFold(t, Forced(t, s, pri + 1), groups, pri + 2);
    if ValidFlip(flip) then FlipFold(t, grouped, pairs, flip, pri + 4) else grouped
  }

  function Visibility(s: States): (v: seq<bool>)
    ensures |v| == |s|
  {
    seq(|s|, i requires 0 <= i < |s| => s[i].visible)
  }

  /** What some iteration order makes of `s`: the visibility that `Apply` stores. */
  ghost predicate Normalizes(t: Tables, s: States, flip: int, pri: int, v: seq<bool>)
  {
    && Fits(t, s)
    && exists groups, pairs ::
         && OrderOf(groups, AllGroups(t)) && OrderOf(pairs, AllPairs(t))
         && v == Visibility(Normalized(t, s, flip, pri, groups, pairs))
  }

  // ---------- setting single layers ----------

  function SetState(t: Tables, s: States, fi: nat, visible: bool, pri: int): (r: States)
    requires Fits(t, s) && fi < |s|
    ensures |r| == |s|
  {
    var id := t.layers[fi].seqId;
    if id !in t.syncedMap then s[fi := LayerState(visible, pri)]
    else SetMany(t, s, t.syncedMap[id], visible, pri)
  }

  function SetMany(t: Tables, s: States, ids: seq<SeqID>, visible: bool, pri: int): (r: States)
    requires Fits(t, s)
    ensures |r| == |s|
  {
    if ids == [] then s
    else
      var id, front := ids[|ids| - 1], ids[..|ids| - 1];
      var s1 := SetMany(t, s, front, visible, pri);
      if id in t.mapped then s1[t.mapped[id] := LayerState(visible, pri)] else s1
  }

  /** The loop of `SetVisibleExclusive` for a layer outside the radio groups: every sibling
      outside the groups is set in turn, each with a priority of its own. */
  function SetSiblings(t: Tables, s: States, sibs: seq<SeqID>, id: SeqID, visible: bool, pri: int): (r: (States, int))
    requires Fits(t, s)
    ensures |r.0| == |s|
    decreases |sibs|
  {
    if sibs == [] then (s, pri)
    else
      match Find(t, sibs[0])
      case None => SetSiblings(t, s, sibs[1..], id, visible, pri)
      case Some(fi) =>
        if IsGroup(t.layers[fi].name) then SetSiblings(t, s, sibs[1..], id, visible, pri)
        else SetSiblings(t, SetState(t, s, fi, id == sibs[0] && visible, pri + 1), sibs[1..], id, visible, pri + 1)
  }

  function Exclusive(t: Tables, s: States, fi: nat, visible: bool, pri: int): (r: (States, int))
    requires Fits(t, s) && fi < |s|
    ensures |r.0| == |s|
  {
    if IsGroup(t.layers[fi].name) then (SetState(t, s, fi, visible, pri), pri)
    else SetSiblings(t, s, Siblings(t, fi), t.layers[fi].seqId, visible, pri)
  }

  // ---------- the scratch state itself ----------

  /** The image's layer manager: fixed tables, and the visibility and flip that `Apply` stores. */
  class LayerManager {
    const t: Tables
    var visible: seq<bool>
    var flip: int

    ghost predicate Valid()
      reads this
    {
      WellFormed(t) && |visible| == |t.layers|
    }

    constructor (t: Tables, visible: seq<bool>)
      requires WellFormed(t) && |visible| == |t.layers|
      ensures Valid() && this.t == t && this.visible == visible && flip == FLIP_NONE
    {
      this.t := t;
      this.visible := visible;
      this.flip := FLIP_NONE;
    }
  }

  function Fresh(visible: seq<bool>): (s: States)
    ensures |s| == |visible|
  {
    seq(|visible|, i requires 0 <= i < |visible| => LayerState(visible[i], 0))
  }

  /** One state per bit, all at the same priority. */
  function Uniform(v: seq<bool>, pri: int): (s: States)
    ensures |s| == |v|
  {
    seq(|v|, i requires 0 <= i < |v| => LayerState(v[i], pri))
  }

  lemma NextUniform(v: byte, n: nat, pri: int)
    ensures Uniform(TopBits(v, n), pri) ==
      if n == 0 then [] else [LayerState(TopBit(v), pri)] + Uniform(TopBits(DoubledByte(v), n - 1), pri)
  {}

  /** The loop of `SetAll`: eight states a byte while eight are left, then the remaining ones. */
  function FilledStates(s: States, i: nat, bytes: seq<byte>, pri: int): (r: States)
    requires i <= |s|
    ensures |r| == |s|
    decreases |bytes|
  {
    if bytes == [] then s
    else if i + 7 < |s| then
      FilledStates(s[..i] + Uniform(TopBits(bytes[0], 8), pri) + s[i + 8..], i + 8, bytes[1..], pri)
    else
      FilledStates(s[..i] + Uniform(TopBits(ShiftLeft(bytes[0], 8 - (|s| - i)), |s| - i), pri), |s|, bytes[1..], pri)
  }

  /** With enough bytes every state is overwritten: the result is uniform. */
  lemma {:induction false} FilledIsUniform(s: States, i: nat, bytes: seq<byte>, pri: int)
    requires i <= |s| && |s| <= i + 8 * |bytes|
    requires forall k :: 0 <= k < i ==> s[k].priority == pri
    ensures FilledStates(s, i, bytes, pri) == Uniform(Filled(Visibility(s), i, bytes), pri)
    decreases |bytes|
  {
    hide TopBits, ShiftLeft;
    if bytes == [] {
      assert s == Uniform(Visibility(s), pri);
    } else if i + 7 < |s| {
      var bits := TopBits(bytes[0], 8);
      var next := s[..i] + Uniform(bits, pri) + s[i + 8..];
      assert Visibility(next) == Visibility(s)[..i] + bits + Visibility(s)[i + 8..];
      FilledIsUniform(next, i + 8, bytes[1..], pri);
    } else {
      var bits := TopBits(ShiftLeft(bytes[0], 8 - (|s| - i)), |s| - i);
      var next := s[..i] + Uniform(bits, pri);
      assert Visibility(next) == Visibility(s)[..i] + bits;
      FilledIsUniform(next, |s|, bytes[1..], pri);
    }
  }

  /** Restoring a saved vector overwrites every state with its bit. */
  lemma SavedFillsUniform(s: States, text: string, v: seq<bool>, pri: int)
    requires Saves(text, v) && |v| == |s|
    ensures SetAllOutcome(|s|, text).Ok?
    ensures FilledStates(s, 0, DecodedBuffer(text).value[2..], pri) == Uniform(v, pri)
  {
    SavedIsRestored(text, v, Visibility(s));
    SavedLength(text, v);
    FilledIsUniform(s, 0, DecodedBuffer(text).value[2..], pri);
  }

  function SetAllOutcome(n: nat, s: string): Outcome<()>
  {
    match DecodedBuffer(s)
    case None => Failed
    case Some(buf) => if |buf| < 2 then Panics else if HeaderLength(buf) != n then Failed else Ok(())
  }

  class LayerStates {
    var priority: int
    var flip: int
    const lm: LayerManager
    var states: States

    ghost predicate Valid()
      reads this, lm
    {
      lm.Valid() && |states| == |lm.t.layers|
    }

    constructor (m: LayerManager)
      requires m.Valid()
      ensures Valid() && lm == m && priority == 0 && flip == m.flip && states == Fresh(m.visible)
    {
      priority := 0;
      flip := m.flip;
      lm := m;
      states := Fresh(m.visible);
    }

    method Increment()
      modifies `priority
      ensures priority == old(priority) + 1
    {
      priority := priority + 1;
    }

    method CopyStateRecursive(fi0: nat, fi1: nat)
      requires Valid() && fi0 < |states| && fi1 < |states|
      modifies `states
      ensures Valid() && states == CopyStates(lm.t, old(states), fi0, fi1, priority)
      decreases |states| - fi0
    {
      hide RowsLinked, GroupsLinked;
      ghost var whole := CopyStates(lm.t, states, fi0, fi1, priority);
      var l0, l1 := lm.t.layers[fi0], lm.t.layers[fi1];
      for i := 0 to |l0.children|
        invariant Valid() && |states| == old(|states|)
        invariant CopyChildren(lm.t, states, fi0, fi1, i, priority) == whole
      {
        var cfi0 := FindChild(lm.t, fi0, i);
        if cfi0.None? {
          continue;
        }
        var path := l1.fullPath + lm.t.layers[cfi0.value].fullPath[|l0.fullPath|..];
        var cfi1 := FindPath(lm.t, path);
        if cfi1.None? {
          continue;
        }
        assert ImageOfChild(lm.t, fi0, fi1, i) == Some((cfi0.value, cfi1.value));
        var cs0, cs1 := states[cfi0.value], states[cfi1.value];
        assert states[cfi1.value := cs1] == states;
        if cs1.visible != cs0.visible {
          states := states[cfi1.value := LayerState(cs0.visible, priority)];
        }
        CopyStateRecursive(cfi0.value, cfi1.value);
      }
    }

    /** The body of the loop over a flip map, for a pair not processed before. */
    method FlipPairOnce(fp: FlipPair, mirror: bool)
      requires Valid()
      modifies `states
      ensures Valid() && states == FlipOne(lm.t, old(states), fp, mirror, priority)
    {
      var (id0, id1) := if mirror then (fp.original, fp.mirror) else (fp.mirror, fp.original);
      var f0, f1 := Find(lm.t, id0), Find(lm.t, id1);
      if f0.None? || f1.None? {
        return;
      }
      var fi0, fi1 := f0.value, f1.value;
      var st0, st1 := states[fi0], states[fi1];
      if !st0.visible && !st1.visible {
        return;
      }
      states := states[fi0 := LayerState(false, Min(st0.priority, st1.priority))]
                      [fi1 := LayerState(true, Max(st0.priority, st1.priority))];
      CopyStateRecursive(fi0, fi1);
    }

    /** One flip map; `done` is the source's `processed` set and `order` the order so far.
        The iteration order of the map is left open. */
    method SetFlipOne(fpMap: FlipMap, mirror: bool, done0: set<FlipPair>,
                      ghost s0: States, ghost f: int, ghost order0: seq<FlipPair>)
      returns (done: set<FlipPair>, ghost order: seq<FlipPair>)
      requires Valid() && |s0| == |states|
      requires forall p <- fpMap.Values :: p !in done0 ==> MirrorShown(lm.t, p, f) == mirror
      requires OrderOf(order0, done0)
      requires states == FlipFold(lm.t, s0, order0, f, priority)
      modifies `states
      ensures Valid()
      ensures done == done0 + fpMap.Values && OrderOf(order, done)
      ensures states == FlipFold(lm.t, s0, order, f, priority)
    {
      hide RowsLinked, GroupsLinked, OrderOf, FlipOne;
      done, order := done0, order0;
      var todo := fpMap.Keys;
      while todo != {}
        invariant Valid() && todo <= fpMap.Keys
        invariant done0 <= done <= done0 + fpMap.Values
        invariant forall k <- fpMap.Keys :: k in todo || fpMap[k] in done
        invariant OrderOf(order, done)
        invariant states == FlipFold(lm.t, s0, order, f, priority)
        decreases |todo|
      {
        assert exists k :: k in todo by { var _ := SomeMember(todo); }
        var k :| k in todo;
        todo := todo - {k};
        var fp := fpMap[k];
        if fp in done {
          continue;
        }
        OrderExtends(order, done, fp);
        done := done + {fp};
        order := order + [fp];
        FlipPairOnce(fp, mirror);
      }
      forall p | p in fpMap.Values
        ensures p in done
      {
        var k := KeyOfValue(fpMap, p);
      }
    }

    method SetFlip(newFlip: int) returns (ok: bool, ghost order: seq<FlipPair>)
      requires Valid()
      modifies this`priority, `states, `flip
      ensures Valid()
      ensures ok == ValidFlip(newFlip)
      ensures !ok ==> priority == old(priority) && flip == old(flip) && states == old(states)
      ensures ok ==>
        && priority == old(priority) + 1 && flip == newFlip
        && OrderOf(order, AllPairs(lm.t))
        && states == FlipFold(lm.t, old(states), order, newFlip, priority)
    {
      order := [];
      if newFlip != FLIP_NONE && newFlip != FLIP_X && newFlip != FLIP_Y && newFlip != FLIP_XY {
        return false, [];
      }
      Increment();
      ghost var s0 := states;
      var done: set<FlipPair> := {};
      done, order := SetFlipOne(lm.t.flipX, newFlip == FLIP_X, done, s0, newFlip, order);
      done, order := SetFlipOne(lm.t.flipY, newFlip == FLIP_Y, done, s0, newFlip, order);
      done, order := SetFlipOne(lm.t.flipXY, newFlip == FLIP_XY, done, s0, newFlip, order);
      flip := newFlip;
      ok := true;
    }

    /** Restores a saved vector: every state gets its bit and one fresh priority. */
    method SetAll(serializedBits: string) returns (r: Outcome<()>)
      requires Valid()
      modifies `priority, `states
      ensures Valid()
      ensures r == SetAllOutcome(|old(states)|, serializedBits)
      ensures !r.Ok? ==> states == old(states) && priority == old(priority)
      ensures r.Ok? ==> priority == old(priority) + 1
      ensures r.Ok? ==> states == FilledStates(old(states), 0, DecodedBuffer(serializedBits).value[2..], priority)
    {
      var decoded := DeserializeBits(serializedBits);
      if decoded.None? {
        return Failed;
      }
      var buf := decoded.value;
      if |buf| < 2 {
        return Panics;
      }
      if |states| != HeaderLength(buf) {
        return Failed;
      }
      Increment();
      FillFrom(buf[2..]);
      return Ok(());
    }

    /** The loop of `SetAll` over the packed bytes. */
    method FillFrom(bytes: seq<byte>)
      requires Valid()
      modifies `states
      ensures Valid() && states == FilledStates(old(states), 0, bytes, priority)
    {
      hide TopBits, ShiftLeft;
      var i: nat := 0;
      assert bytes[0..] == bytes;
      for d := 0 to |bytes|
        invariant Valid() && i <= |states|
        invariant FilledStates(states, i, bytes[d..], priority) == FilledStates(old(states), 0, bytes, priority)
      {
        assert bytes[d..][1..] == bytes[d + 1..];
        if i + 7 < |states| {
          FillEight(i, bytes[d]);
          i := i + 8;
        } else {
          FillRest(i, ShiftLeft(bytes[d], 8 - (|states| - i)));
          i := |states|;
        }
      }
      assert bytes[|bytes|..] == [];
    }

    /** Eight states from one byte. */
    method FillEight(i: nat, v: byte)
      requires Valid() && i + 8 <= |states|
      modifies `states
      ensures Valid()
      ensures states == old(states)[..i] + Uniform(TopBits(v, 8), priority) + old(states)[i + 8..]
    {
      states := states[..i] + Uniform(TopBits(v, 8), priority) + states[i + 8..];
    }

    /** The states left over, from the top bits of an aligned byte. */
    method FillRest(i0: nat, v0: byte)
      requires Valid() && i0 <= |states|
      modifies `states
      ensures Valid()
      ensures states == old(states)[..i0] + Uniform(TopBits(v0, |old(states)| - i0), priority)
    {
      hide WellFormed, Uniform, TopBits;
      var i, v := i0, v0;
      ghost var n, target := |states|, states[..i0] + Uniform(TopBits(v0, |states| - i0), priority);
      while i < |states|
        invariant Valid() && i0 <= i <= |states| == n
        invariant states[..i] + Uniform(TopBits(v, n - i), priority) == target
      {
        ghost var before := states[..i];
        states := states[i := LayerState(TopBit(v), priority)];
        assert states[..i + 1] == before + [LayerState(TopBit(v), priority)];
        NextUniform(v, n - i, priority);
        v := DoubledByte(v);
        i := i + 1;
      }
      NextUniform(v, 0, priority);
      assert states[..i] == states;
    }

    method SetVisible(seqID: SeqID, visible: bool) returns (ok: bool)
      requires Valid()
      modifies `priority, `states
      ensures Valid() && ok == (seqID in lm.t.mapped)
      ensures !ok ==> states == old(states) && priority == old(priority)
      ensures ok ==> priority == old(priority) + 1
      ensures ok ==> states == SetState(lm.t, old(states), Find(lm.t, seqID).value, visible, priority)
    {
      var fi := Find(lm.t, seqID);
      if fi.None? {
        return false;
      }
      Increment();
      SetVisibleAt(fi.value, visible);
      return true;
    }

    /** `setVisible`: a layer below a flip pair takes its counterpart along. */
    method SetVisibleAt(fi: nat, visible: bool)
      requires Valid() && fi < |states|
      modifies `states
      ensures Valid() && states == SetState(lm.t, old(states), fi, visible, priority)
    {
      var id := lm.t.layers[fi].seqId;
      if id !in lm.t.syncedMap {
        states := states[fi := LayerState(visible, priority)];
        return;
      }
      var sg := lm.t.syncedMap[id];
      for i := 0 to |sg|
        invariant Valid() && |states| == old(|states|)
        invariant states == SetMany(lm.t, old(states), sg[..i], visible, priority)
      {
        assert sg[..i + 1][..i] == sg[..i];
        var ss := Find(lm.t, sg[i]);
        if ss.None? {
          continue;
        }
        states := states[ss.value := LayerState(visible, priority)];
      }
      assert sg[..|sg|] == sg;
    }

    method SetVisibleExclusive(seqID: SeqID, visible: bool) returns (ok: bool)
      requires Valid()
      modifies `priority, `states
      ensures Valid() && ok == (seqID in lm.t.mapped)
      ensures !ok ==> states == old(states) && priority == old(priority)
      ensures ok ==> (states, priority) == Exclusive(lm.t, old(states), Find(lm.t, seqID).value, visible, old(priority) + 1)
    {
      var found := Find(lm.t, seqID);
      if found.None? {
        return false;
      }
      var fi := found.value;
      Increment();
      if IsGroup(lm.t.layers[fi].name) {
        SetVisibleAt(fi, visible);
        return true;
      }
      var sibs := Siblings(lm.t, fi);
      ghost var result := SetSiblings(lm.t, states, sibs, seqID, visible, priority);
      assert sibs[0..] == sibs;
      for i := 0 to |sibs|
        invariant Valid() && |states| == old(|states|)
        invariant SetSiblings(lm.t, states, sibs[i..], seqID, visible, priority) == result
      {
        assert sibs[i..][1..] == sibs[i + 1..];
        var sib := Find(lm.t, sibs[i]);
        if sib.None? || IsGroup(lm.t.layers[sib.value].name) {
          continue;
        }
        var _ := SetVisible(sibs[i], seqID == sibs[i] && visible);
      }
      return true;
    }

    /** `normalizeGroup`: hides every visible member, then shows the winner. */
    method NormalizeGroup(g: Group)
      requires Valid() && |g.members| > 0 && Members(lm.t, g.members)
      modifies `states
      ensures Valid() && states == GroupOne(lm.t, old(states), g, priority)
    {
      hide RowsLinked, GroupsLinked, Best, BestPriority, Hidden, Winner, GroupOne;
      ghost var s0 := states;
      GroupStart(lm.t, s0, priority);
      assert g.members[..0] == [];
      var maxPriority := -1;
      var maxPriorityID: Option<SeqID> := None;
      for i := 0 to |g.members|
        invariant Valid() && |states| == |s0|
        invariant Members(lm.t, g.members[..i])
        invariant maxPriorityID == Best(lm.t, s0, g.members[..i])
        invariant maxPriority == BestPriority(lm.t, s0, g.members[..i])
        invariant states == Hidden(lm.t, s0, g.members[..i], priority)
      {
        var seqID := g.members[i];
        GroupStep(lm.t, s0, g.members, i, priority);
        var fi := Find(lm.t, seqID).value;
        var s := states[fi];
        if !s.visible {
          continue;
        }
        if s.priority > maxPriority {
          maxPriority := s.priority;
          maxPriorityID := Some(seqID);
        }
        states := states[fi := LayerState(false, priority)];
      }
      assert g.members[..|g.members|] == g.members;
      if maxPriorityID.None? {
        maxPriorityID := Some(g.members[|g.members| - 1]);
      }
      GroupEnd(lm.t, s0, g, priority);
      states := states[Find(lm.t, maxPriorityID.value).value := LayerState(true, priority)];
    }

    /** Phase one: forced layers become visible. */
    method ForceAll()
      requires Valid()
      modifies `states
      ensures Valid() && states == Forced(lm.t, old(states), priority)
    {
      ghost var s0 := states;
      var todo := lm.t.forceVisible;
      while todo != {}
        invariant Valid() && |states| == |s0| && todo <= lm.t.forceVisible
        invariant forall i :: 0 <= i < |states| ==>
          (states[i] == if lm.t.layers[i].seqId in lm.t.forceVisible - todo then LayerState(true, priority) else s0[i])
        decreases |todo|
      {
        assert exists k :: k in todo by { var _ := SomeMember(todo); }
        var seqID :| seqID in todo;
        todo := todo - {seqID};
        states := states[Find(lm.t, seqID).value := LayerState(true, priority)];
      }
    }

    /** Phase two: every group once, in the order the map happens to deliver them. */
    method NormalizeGroups() returns (ghost order: seq<Group>)
      requires Valid()
      modifies `states
      ensures Valid() && OrderOf(order, AllGroups(lm.t))
      ensures states == GroupFold(lm.t, old(states), order, priority)
    {
      hide RowsLinked, GroupsLinked, GroupOne, Members;
      ghost var s0 := states;
      order := [];
      var processed: set<Group> := {};
      var todo := lm.t.groupMap.Keys;
      while todo != {}
        invariant Valid() && |states| == |s0| && todo <= lm.t.groupMap.Keys
        invariant processed <= AllGroups(lm.t)
        invariant forall k <- lm.t.groupMap.Keys :: k in todo || lm.t.groupMap[k] in processed
        invariant OrderOf(order, processed)
        invariant states == GroupFold(lm.t, s0, order, priority)
        decreases |todo|
      {
        assert exists k :: k in todo by { var _ := SomeMember(todo); }
        var seqID :| seqID in todo;
        todo := todo - {seqID};
        var g := lm.t.groupMap[seqID];
        if g in processed {
          continue;
        }
        assert g in AllGroups(lm.t);
        GroupHasMembers(lm.t, g);
        OrderExtends(order, processed, g);
        processed := processed + {g};
        order := order + [g];
        NormalizeGroup(g);
      }
      forall g | g in AllGroups(lm.t)
        ensures g in processed
      {
        var k := KeyOfValue(lm.t.groupMap, g);
      }
    }

    method Normalize() returns (ghost groups: seq<Group>, ghost pairs: seq<FlipPair>)
      requires Valid()
      modifies this`priority, `states, `flip
      ensures Valid() && flip == old(flip)
      ensures OrderOf(groups, AllGroups(lm.t)) && OrderOf(pairs, AllPairs(lm.t))
      ensures states == Normalized(lm.t, old(states), flip, old(priority), groups, pairs)
    {
      hide WellFormed, FlipFold, GroupFold, Forced, OrderOf, MirrorShown;
      Increment();
      ForceAll();
      Increment();
      groups := NormalizeGroups();
      Increment();
      var ok;
      ok, pairs := SetFlip(flip);
      if !ok {
        pairs := SomeOrder(AllPairs(lm.t));
      }
    }

    /** Normalises and stores the result in the layers; tells whether any layer changed. */
    method Apply() returns (modified: bool)
      requires Valid()
      modifies this`priority, `states, `flip, lm`visible, lm`flip
      ensures Valid() && flip == old(flip) && lm.flip == flip
      ensures Normalizes(lm.t, old(states), flip, old(priority), lm.visible)
      ensures modified <==> lm.visible != old(lm.visible)
    {
      ghost var s0, pri := states, priority;
      ghost var groups, pairs := Normalize();
      modified := Store();
      lm.flip := flip;
      assert lm.visible == Visibility(Normalized(lm.t, s0, flip, pri, groups, pairs));
    }

    /** The loop of `Apply` that writes the visibility back to the layers. */
    method Store() returns (modified: bool)
      requires Valid()
      modifies lm`visible
      ensures Valid() && lm.visible == Visibility(states)
      ensures modified <==> lm.visible != old(lm.visible)
    {
      modified := false;
      for fi := 0 to |lm.t.layers|
        invariant Valid()
        invariant forall k :: 0 <= k < fi ==> lm.visible[k] == states[k].visible
        invariant forall k :: fi <= k < |states| ==> lm.visible[k] == old(lm.visible)[k]
        invariant modified <==> exists k :: 0 <= k < fi && states[k].visible != old(lm.visible)[k]
      {
        if lm.visible[fi] != states[fi].visible {
          lm.visible := lm.visible[fi := states[fi].visible];
          modified := true;
        }
      }
    }
  }
}
