/** The state commands of `LayerManager.deserialize` (`src/go/img/layermgr.go`) and the other
    operations of the layer manager, each ending in `Apply`. */
module LayerCommands {
  import opened Names
  import opened BitCodec
  import opened LayerTables
  import opened LayerStates
  import opened LayerFlips
  import opened LayerGroups
  import opened LayerNormal
  import Prop

  /** A favourite as `Node.RawState` delivers it. */
  datatype RawState = RawState(filter: Option<seq<bool>>, visible: seq<bool>)

  /** The favourites of an image: what its two lookups find, or no favourites at all.  Looking
      up a node that is no item makes `RawState` panic. */
  datatype Favourites =
    | NoFavourites
    | Favourites(item: string -> Outcome<RawState>, faviewItem: (string, string) -> Outcome<RawState>)

  /** The scratch state as a value. */
  datatype Scratch = Scratch(states: States, priority: int, flip: int)

  // ---------- single commands ----------

  /** `v1` shows the layers above as well, from the innermost out, until a path is unknown. */
  function ShowAncestors(t: Tables, s: States, path: string, rpos: nat, pri: int): (r: States)
    requires Fits(t, s) && rpos <= |path|
    ensures |r| == |s|
    decreases rpos
  {
    if rpos <= 1 then s
    else if path[rpos - 1] != '/' then ShowAncestors(t, s, path, rpos - 1, pri)
    else
      match FindPath(t, path[..rpos - 1])
      case None => s
      case Some(pfi) => ShowAncestors(t, SetState(t, s, pfi, true, pri), path, rpos - 1, pri)
  }

  function ShowPath(t: Tables, s: States, fi: nat, path: string, visible: bool, pri: int): (r: States)
    requires Fits(t, s) && fi < |s|
    ensures |r| == |s|
  {
    var s1 := SetState(t, s, fi, visible, pri);
    if visible then ShowAncestors(t, s1, path, |path|, pri) else s1
  }

  /** Sets the layers that pass the filter, from number `k` on. */
  function SetPassing(t: Tables, s: States, filter: seq<bool>, v: seq<bool>, k: nat, pri: int): (r: States)
    requires Fits(t, s) && |filter| <= |v| && |filter| <= |s| && k <= |filter|
    ensures |r| == |s|
    decreases |filter| - k
  {
    if k == |filter| then s
    else SetPassing(t, if filter[k] then SetState(t, s, k, v[k], pri) else s, filter, v, k + 1, pri)
  }

  function AllPass(n: nat): seq<bool> { seq(n, _ => true) }

  /** A recorded vector that is too long, or shorter than its filter, is an index out of range. */
  function RecordFits(n: nat, raw: RawState): bool
  {
    match raw.filter
    case None => |raw.visible| <= n
    case Some(f) => |f| <= |raw.visible| && |f| <= n
  }

  /** `F`: without a filter the whole vector is set.  `S`: without a filter nothing is. */
  function SetRecord(t: Tables, sc: Scratch, raw: RawState, whole: bool): (r: Outcome<Scratch>)
    requires Fits(t, sc.states)
    ensures r.Ok? ==> |r.value.states| == |sc.states|
  {
    var pri := sc.priority + 1;
    match raw.filter
    case None =>
      if !whole then Ok(sc.(priority := pri))
      else if !RecordFits(|sc.states|, raw) then Panics
      else Ok(sc.(priority := pri, states := SetPassing(t, sc.states, AllPass(|raw.visible|), raw.visible, 0, pri)))
    case Some(f) =>
      if !RecordFits(|sc.states|, raw) then Panics
      else Ok(sc.(priority := pri, states := SetPassing(t, sc.states, f, raw.visible, 0, pri)))
  }

  /** Setting the layers that pass changes exactly those, if none of them is synced. */
  lemma {:induction false} SetPassingMeaning(t: Tables, s: States, filter: seq<bool>, v: seq<bool>, k: nat, pri: int)
    requires Fits(t, s) && |filter| <= |v| && |filter| <= |s| && k <= |filter|
    requires forall j :: 0 <= j < |filter| && filter[j] ==> t.layers[j].seqId !in t.syncedMap
    ensures forall j :: 0 <= j < |s| ==>
      SetPassing(t, s, filter, v, k, pri)[j] == if k <= j < |filter| && filter[j] then LayerState(v[j], pri) else s[j]
    decreases |filter| - k
  {
    hide RowsLinked, GroupsLinked;
    if k < |filter| {
      SetPassingMeaning(t, if filter[k] then SetState(t, s, k, v[k], pri) else s, filter, v, k + 1, pri);
    }
  }

  /** The layers that a recorded favourite sets: those that pass its filter; without a filter all that it
      records, or none for a slider. */
  predicate RecordSets(raw: RawState, whole: bool, j: nat)
  {
    match raw.filter
    case None => whole && j < |raw.visible|
    case Some(f) => j < |f| && f[j]
  }

  /** What an `F` command (`whole`) or an `S` command does to a tree without synced layers: the recorded
      layers get their recorded visibility at a fresh priority, and all others keep their state. */
  lemma RecordMeaning(t: Tables, sc: Scratch, raw: RawState, whole: bool)
    requires Fits(t, sc.states) && t.syncedMap == map[]
    ensures var r := SetRecord(t, sc, raw, whole);
      && (r.Panics? <==> (raw.filter.Some? || whole) && !RecordFits(|sc.states|, raw)) && !r.Failed?
      && (r.Ok? ==> r.value.priority == sc.priority + 1 && r.value.flip == sc.flip)
      && (r.Ok? ==> forall j :: 0 <= j < |sc.states| ==>
           if RecordSets(raw, whole, j) then j < |raw.visible| && r.value.states[j] == LayerState(raw.visible[j], sc.priority + 1)
           else r.value.states[j] == sc.states[j])
  {
    hide WellFormed;
    if RecordFits(|sc.states|, raw) {
      match raw.filter
      case None => SetPassingMeaning(t, sc.states, AllPass(|raw.visible|), raw.visible, 0, sc.priority + 1);
      case Some(f) => SetPassingMeaning(t, sc.states, f, raw.visible, 0, sc.priority + 1);
    }
  }

  /** `L.`: one digit for the flip; `order` is the order in which it meets the pairs. */
  function RunFlip(t: Tables, sc: Scratch, line: string, order: seq<FlipPair>): (r: Outcome<Scratch>)
    requires Fits(t, sc.states) && |line| >= 2
    ensures r.Ok? ==> |r.value.states| == |sc.states|
  {
    if |line| != 3 then Ok(sc)
    else
      var flip := (line[2] as int - 48) % 256;
      if !ValidFlip(flip) then Ok(sc)
      else Ok(Scratch(FlipFold(t, sc.states, order, flip, sc.priority + 1), sc.priority + 1, flip))
  }

  /** `V.`: the whole vector. */
  function RunVector(sc: Scratch, line: string): (r: Outcome<Scratch>)
    requires |line| >= 2
    ensures r.Ok? ==> |r.value.states| == |sc.states|
  {
    match SetAllOutcome(|sc.states|, line[2..])
    case Failed => Failed
    case Panics => Panics
    case Ok(_) =>
      Ok(Scratch(FilledStates(sc.states, 0, DecodedBuffer(line[2..]).value[2..], sc.priority + 1), sc.priority + 1, sc.flip))
  }

  /** `v0` and `v1`: one layer by its path. */
  function RunPath(t: Tables, sc: Scratch, line: string): (r: Outcome<Scratch>)
    requires Fits(t, sc.states) && |line| >= 2
    ensures r.Ok? ==> |r.value.states| == |sc.states|
  {
    if |line| < 5 || line[2] != '.' then Ok(sc)
    else
      match Prop.Decode(line[2..])
      case None => Ok(sc)
      case Some(path) =>
        match FindPath(t, path)
        case None => Ok(sc)
        case Some(fi) =>
          Ok(Scratch(ShowPath(t, sc.states, fi, path, line[1] == '1', sc.priority + 1), sc.priority + 1, sc.flip))
  }

  /** What a favourite of an `F` command (`whole`) or an `S` command has recorded; nothing if the command
      is to be skipped. */
  function Recorded(fav: Favourites, line: string): Outcome<RawState>
    requires |line| >= 2
  {
    if fav.NoFavourites? then Failed
    else
      match Prop.Decode(line[1..])
      case None => Failed
      case Some(path) =>
        if line[0] == 'F' then fav.item(path)
        else
          var kv := Split(path, '~');
          if |kv| != 2 then Failed else fav.faviewItem(kv[0], kv[1])
  }

  function RunRecord(t: Tables, fav: Favourites, sc: Scratch, line: string): (r: Outcome<Scratch>)
    requires Fits(t, sc.states) && |line| >= 2
    ensures r.Ok? ==> |r.value.states| == |sc.states|
  {
    match Recorded(fav, line)
    case Failed => Ok(sc)
    case Panics => Panics
    case Ok(raw) => SetRecord(t, sc, raw, line[0] == 'F')
  }

  predicate NamesRecord(line: string) { |line| >= 2 && line[..2] in {"F.", "F_", "S.", "S_"} }

  /** One command. */
  function RunLine(t: Tables, fav: Favourites, sc: Scratch, line: string, order: seq<FlipPair>): (r: Outcome<Scratch>)
    requires Fits(t, sc.states)
    ensures r.Ok? ==> |r.value.states| == |sc.states|
  {
    if |line| < 2 then Ok(sc)
    else if line[..2] == "L." then RunFlip(t, sc, line, order)
    else if line[..2] == "V." then RunVector(sc, line)
    else if line[..2] == "v0" || line[..2] == "v1" then RunPath(t, sc, line)
    else if NamesRecord(line) then RunRecord(t, fav, sc, line)
    else Ok(sc)
  }

  /** All commands in turn; the first one that fails ends the run. */
  function RunLines(t: Tables, fav: Favourites, sc: Scratch, lines: seq<string>, orders: seq<seq<FlipPair>>): (r: Outcome<Scratch>)
    requires Fits(t, sc.states) && |orders| == |lines|
    ensures r.Ok? ==> |r.value.states| == |sc.states|
    decreases |lines|
  {
    if lines == [] then Ok(sc)
    else
      match RunLine(t, fav, sc, lines[0], orders[0])
      case Failed => Failed
      case Panics => Panics
      case Ok(sc1) => RunLines(t, fav, sc1, lines[1..], orders[1..])
  }

  // ---------- the commands, in place ----------

  function ScratchOf(ls: LayerStates): Scratch
    reads ls
  {
    Scratch(ls.states, ls.priority, ls.flip)
  }

  method ShowAncestorsOf(ls: LayerStates, path: string)
    requires ls.Valid()
    modifies ls`states
    ensures ls.Valid() && ls.states == ShowAncestors(ls.lm.t, old(ls.states), path, |path|, ls.priority)
  {
    var rpos: nat := |path|;
    while rpos > 1
      invariant ls.Valid() && rpos <= |path| && |ls.states| == old(|ls.states|)
      invariant ShowAncestors(ls.lm.t, ls.states, path, rpos, ls.priority)
        == ShowAncestors(ls.lm.t, old(ls.states), path, |path|, ls.priority)
    {
      if path[rpos - 1] != '/' {
        rpos := rpos - 1;
        continue;
      }
      var pfi := FindPath(ls.lm.t, path[..rpos - 1]);
      if pfi.None? {
        break;
      }
      ls.SetVisibleAt(pfi.value, true);
      rpos := rpos - 1;
    }
  }

  method SetPassingOf(ls: LayerStates, filter: seq<bool>, v: seq<bool>)
    requires ls.Valid() && |filter| <= |v| && |filter| <= |ls.states|
    modifies ls`states
    ensures ls.Valid() && ls.states == SetPassing(ls.lm.t, old(ls.states), filter, v, 0, ls.priority)
  {
    for k := 0 to |filter|
      invariant ls.Valid() && |ls.states| == old(|ls.states|)
      invariant SetPassing(ls.lm.t, ls.states, filter, v, k, ls.priority)
        == SetPassing(ls.lm.t, old(ls.states), filter, v, 0, ls.priority)
    {
      if !filter[k] {
        continue;
      }
      ls.SetVisibleAt(k, v[k]);
    }
  }

  method RunCommand(ls: LayerStates, fav: Favourites, line: string) returns (r: Outcome<()>, ghost order: seq<FlipPair>)
    requires ls.Valid()
    modifies ls`states, ls`priority, ls`flip
    ensures ls.Valid() && OrderOf(order, AllPairs(ls.lm.t))
    ensures match RunLine(ls.lm.t, fav, old(ScratchOf(ls)), line, order)
      case Failed => r == Failed
      case Panics => r == Panics
      case Ok(sc) => r == Ok(()) && ScratchOf(ls) == sc
  {
    hide WellFormed, RunPath, RunRecord, FlipFold, FilledStates, OrderOf;
    order := SomeOrder(AllPairs(ls.lm.t));
    if |line| < 2 {
      return Ok(()), order;
    }
    if line[..2] == "L." {
      if |line| != 3 {
        return Ok(()), order;
      }
      var ok;
      ghost var taken;
      ok, taken := ls.SetFlip((line[2] as int - 48) % 256);
      if ok {
        order := taken;
      }
      return Ok(()), order;
    } else if line[..2] == "V." {
      r := ls.SetAll(line[2..]);
    } else if line[..2] == "v0" || line[..2] == "v1" {
      RunShow(ls, line);
      r := Ok(());
    } else if NamesRecord(line) {
      r := RunFavourite(ls, fav, line);
    } else {
      r := Ok(());
    }
  }

  method RunShow(ls: LayerStates, line: string)
    requires ls.Valid() && |line| >= 2
    modifies ls`states, ls`priority
    ensures ls.Valid() && RunPath(ls.lm.t, old(ScratchOf(ls)), line) == Ok(ScratchOf(ls))
  {
    hide WellFormed, SetState, ShowAncestors;
    if |line| < 5 || line[2] != '.' {
      return;
    }
    var path := Prop.Decode(line[2..]);
    if path.None? {
      return;
    }
    var fi := FindPath(ls.lm.t, path.value);
    if fi.None? {
      return;
    }
    ls.Increment();
    ls.SetVisibleAt(fi.value, line[1] == '1');
    if line[1] == '1' {
      ShowAncestorsOf(ls, path.value);
    }
  }

  method RunFavourite(ls: LayerStates, fav: Favourites, line: string) returns (r: Outcome<()>)
    requires ls.Valid() && |line| >= 2
    modifies ls`states, ls`priority
    ensures ls.Valid()
    ensures match RunRecord(ls.lm.t, fav, old(ScratchOf(ls)), line)
      case Failed => false
      case Panics => r == Panics
      case Ok(sc) => r == Ok(()) && ScratchOf(ls) == sc
  {
    hide WellFormed, SetRecord;
    var raw := FindRecord(fav, line);
    if raw.Failed? {
      return Ok(());
    }
    if raw.Panics? {
      return Panics;
    }
    r := UseRecord(ls, raw.value, line[0] == 'F');
  }

  method FindRecord(fav: Favourites, line: string) returns (raw: Outcome<RawState>)
    requires |line| >= 2
    ensures raw == Recorded(fav, line)
  {
    if fav.NoFavourites? {
      return Failed;
    }
    var path := Prop.Decode(line[1..]);
    if path.None? {
      return Failed;
    }
    if line[0] == 'F' {
      return fav.item(path.value);
    }
    var kv := Split(path.value, '~');
    if |kv| != 2 {
      return Failed;
    }
    return fav.faviewItem(kv[0], kv[1]);
  }

  method UseRecord(ls: LayerStates, raw: RawState, whole: bool) returns (r: Outcome<()>)
    requires ls.Valid()
    modifies ls`states, ls`priority
    ensures ls.Valid()
    ensures match SetRecord(ls.lm.t, old(ScratchOf(ls)), raw, whole)
      case Failed => false
      case Panics => r == Panics
      case Ok(sc) => r == Ok(()) && ScratchOf(ls) == sc
  {
    hide WellFormed, SetPassing;
    if (raw.filter.Some? || whole) && !RecordFits(|ls.states|, raw) {
      return Panics;
    }
    ls.Increment();
    if raw.filter.Some? {
      SetPassingOf(ls, raw.filter.value, raw.visible);
    } else if whole {
      SetPassingOf(ls, AllPass(|raw.visible|), raw.visible);
    }
    r := Ok(());
  }

  /** `Deserialize`: runs the commands on a scratch state and applies it, unless one fails. */
  method Deserialize(m: LayerManager, s: string, fav: Favourites) returns (r: Outcome<bool>, ghost orders: seq<seq<FlipPair>>)
    requires m.Valid()
    modifies m`visible, m`flip
    ensures m.Valid() && |orders| == |Split(s, ' ')|
    ensures forall o <- orders :: OrderOf(o, AllPairs(m.t))
    ensures match RunLines(m.t, fav, Scratch(Fresh(old(m.visible)), 0, old(m.flip)), Split(s, ' '), orders)
      case Failed => r == Failed && m.visible == old(m.visible) && m.flip == old(m.flip)
      case Panics => r == Panics && m.visible == old(m.visible) && m.flip == old(m.flip)
      case Ok(sc) =>
        && r == Ok(m.visible != old(m.visible) || m.flip != old(m.flip))
        && Normalizes(m.t, sc.states, sc.flip, sc.priority, m.visible)
        && m.flip == sc.flip
  {
    var ls := new LayerStates(m);
    var params := Split(s, ' ');
    ghost var start := ScratchOf(ls);
    orders := [];
    for i := 0 to |params|
      invariant ls.Valid() && ls.lm == m && fresh(ls) && |orders| == i
      invariant m.visible == old(m.visible) && m.flip == old(m.flip)
      invariant forall o <- orders :: OrderOf(o, AllPairs(m.t))
      invariant RunLines(m.t, fav, start, params[..i], orders) == Ok(ScratchOf(ls))
    {
      var done;
      ghost var order;
      done, order := RunCommand(ls, fav, params[i]);
      RunAppend(m.t, fav, start, params, i, orders, order);
      orders := orders + [order];
      if !done.Ok? {
        ghost var rest := SomeOrders(m.t, |params| - i - 1);
        RunStops(m.t, fav, start, params, i + 1, orders, rest);
        orders := orders + rest;
        if done.Failed? {
          return Failed, orders;
        }
        return Panics, orders;
      }
    }
    assert params[..|params|] == params;
    var oldFlip := m.flip;
    var modified := ls.Apply();
    r := Ok(modified || m.flip != oldFlip);
  }

  lemma {:induction false} SomeOrders(t: Tables, n: nat) returns (orders: seq<seq<FlipPair>>)
    ensures |orders| == n && forall o <- orders :: OrderOf(o, AllPairs(t))
  {
    orders := [];
    if n > 0 {
      orders := SomeOrders(t, n - 1);
      var o := SomeOrder(AllPairs(t));
      orders := orders + [o];
    }
  }

  /** One more command at the end of a run. */
  lemma {:induction false} RunAppend(t: Tables, fav: Favourites, sc: Scratch, lines: seq<string>, i: nat,
                                     orders: seq<seq<FlipPair>>, order: seq<FlipPair>)
    requires Fits(t, sc.states) && i < |lines| && |orders| == i
    requires RunLines(t, fav, sc, lines[..i], orders).Ok?
    ensures RunLines(t, fav, sc, lines[..i + 1], orders + [order])
      == RunLine(t, fav, RunLines(t, fav, sc, lines[..i], orders).value, lines[i], order)
    decreases i
  {
    var longer := lines[..i + 1];
    if i == 0 {
      assert longer[1..] == [] && (orders + [order])[1..] == [];
    } else {
      var sc1 := RunLine(t, fav, sc, lines[0], orders[0]).value;
      assert longer[1..] == lines[1..][..i] && lines[..i][1..] == lines[1..][..i - 1];
      assert (orders + [order])[1..] == orders[1..] + [order];
      RunAppend(t, fav, sc1, lines[1..], i - 1, orders[1..], order);
    }
  }

  /** Commands after a failing one do not matter. */
  lemma {:induction false} RunStops(t: Tables, fav: Favourites, sc: Scratch, lines: seq<string>, i: nat,
                                    orders: seq<seq<FlipPair>>, rest: seq<seq<FlipPair>>)
    requires Fits(t, sc.states) && i <= |lines| && |orders| == i && |rest| == |lines| - i
    requires !RunLines(t, fav, sc, lines[..i], orders).Ok?
    ensures RunLines(t, fav, sc, lines, orders + rest) == RunLines(t, fav, sc, lines[..i], orders)
    decreases i
  {
    var all := orders + rest;
    assert all[0] == orders[0] && all[1..] == orders[1..] + rest;
    assert lines[..i][1..] == lines[1..][..i - 1];
    var first := RunLine(t, fav, sc, lines[0], orders[0]);
    if first.Ok? {
      RunStops(t, fav, first.value, lines[1..], i - 1, orders[1..], rest);
    }
  }
}
