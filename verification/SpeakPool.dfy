/** The eight audio handles that `src/c/speak.c` keeps open: choosing a slot, reading, the sweep of
    the gc thread and the final close.  A handle is the number of its opening; the logs of opened
    paths and closed handles stand for the calls to the host. */
module SpeakPool {
  import opened Names

  const Slots := 8

  /** `struct timespec` */
  datatype Time = Time(sec: int, nsec: int)

  datatype Item = Item(h: Option<nat>, path: string, usedAt: Time)

  datatype Pool = Pool(items: seq<Item>, openings: seq<string>, closed: seq<nat>)

  /** What the host and the clock do during one call; a time of `None` is a failing clock. */
  datatype Env = Env(openOk: bool, copyOk: bool, openedAt: Option<Time>, readOk: bool, readAt: Option<Time>)

  predicate Before(a: Time, b: Time) { a.sec < b.sec || (a.sec == b.sec && a.nsec < b.nsec) }

  const Unused := Item(None, "", Time(0, 0))

  const Empty := Pool([Unused, Unused, Unused, Unused, Unused, Unused, Unused, Unused], [], [])

  // ---------- choosing a slot ----------

  predicate Holds(it: Item, path: string) { it.h.Some? && it.path == path }

  /** The slot that holds `path`, if any. */
  function Cached(items: seq<Item>, path: string): (r: Option<nat>)
    ensures r.Some? ==> r.value < |items| && Holds(items[r.value], path)
    ensures r.None? ==> forall it <- items :: !Holds(it, path)
  {
    if items == [] then None
    else
      var r := Cached(items[..|items| - 1], path);
      if r.Some? then r else if Holds(items[|items| - 1], path) then Some(|items| - 1) else None
  }

  /** The first slot without a handle. */
  function FirstFree(items: seq<Item>): (r: Option<nat>)
    ensures r.Some? ==> r.value < |items| && items[r.value].h.None? && forall k :: 0 <= k < r.value ==> items[k].h.Some?
    ensures r.None? ==> forall it <- items :: it.h.Some?
  {
    if items == [] then None
    else
      var r := FirstFree(items[..|items| - 1]);
      if r.Some? then r else if items[|items| - 1].h.None? then Some(|items| - 1) else None
  }

  /** The first slot in use with the least time. */
  function Oldest(items: seq<Item>): (r: Option<nat>)
    ensures r.Some? ==> r.value < |items| && items[r.value].h.Some?
    ensures r.Some? ==> forall it <- items :: it.h.Some? ==> !Before(it.usedAt, items[r.value].usedAt)
    ensures r.None? ==> forall it <- items :: it.h.None?
  {
    if items == [] then None
    else
      var r, last := Oldest(items[..|items| - 1]), items[|items| - 1];
      if last.h.Some? && (r.None? || Before(last.usedAt, items[r.value].usedAt)) then Some(|items| - 1) else r
  }

  /** Where a newly opened handle goes. */
  function Target(items: seq<Item>): (r: nat)
    requires items != []
    ensures r < |items|
  {
    if FirstFree(items).Some? then FirstFree(items).value
    else if Oldest(items).Some? then Oldest(items).value
    else 0
  }

  /** The scan of `open`: the slot of `path`, or the first free and the oldest slot. */
  method Scan(items: array<Item>, path: string) returns (found: Option<nat>, unused: nat, oldest: nat)
    ensures found == Cached(items[..], path)
    ensures found.None? && FirstFree(items[..]).Some? ==> unused == FirstFree(items[..]).value
    ensures found.None? && FirstFree(items[..]).None? ==> unused == items.Length
    ensures found.None? && Oldest(items[..]).Some? ==> oldest == Oldest(items[..]).value
    ensures found.None? && Oldest(items[..]).None? ==> oldest == items.Length
  {
    unused, oldest := items.Length, items.Length;
    for i := 0 to items.Length
      invariant Cached(items[..i], path).None?
      invariant unused == if FirstFree(items[..i]).Some? then FirstFree(items[..i]).value else items.Length
      invariant oldest == if Oldest(items[..i]).Some? then Oldest(items[..i]).value else items.Length
    {
      assert items[..i + 1][..i] == items[..i];
      var item := items[i];
      if item.h.None? {
        if unused == items.Length {
          unused := i;
        }
      } else if item.path != path {
        if oldest == items.Length || Before(item.usedAt, items[oldest].usedAt) {
          oldest := i;
        }
      } else {
        CachedAt(items[..], path, i);
        return Some(i), unused, oldest;
      }
    }
    assert items[..items.Length] == items[..];
    return None, unused, oldest;
  }

  lemma {:induction false} CachedAt(items: seq<Item>, path: string, i: nat)
    requires i < |items| && Holds(items[i], path) && Cached(items[..i], path).None?
    ensures Cached(items, path) == Some(i)
  {
    var init := items[..|items| - 1];
    if i < |items| - 1 {
      assert init[..i] == items[..i];
      CachedAt(init, path, i);
    }
  }

  // ---------- the operations on values ----------

  function CloseSlot(p: Pool, i: nat): Pool
    requires i < |p.items|
  {
    p.(items := p.items[i := p.items[i].(h := None, path := "")],
       closed := if p.items[i].h.Some? then p.closed + [p.items[i].h.value] else p.closed)
  }

  /** `open`: the pool, whether it succeeded, and the value of `idx` afterwards.  A new slot is
      filled without a word to `idx`. */
  function Open(p: Pool, path: string, idx: nat, env: Env): (Pool, bool, nat)
    requires |p.items| == Slots
  {
    match Cached(p.items, path)
    case Some(i) => (p, true, i)
    case None =>
      if !env.openOk then (p, false, idx)
      else
        var h := |p.openings|;
        var slot := Target(p.items);
        var p1 := p.(openings := p.openings + [path]);
        var q := if FirstFree(p.items).Some? then p1 else CloseSlot(p1, slot);
        var (r, ok) := Fill(q, slot, h, path, env);
        (r, ok, idx)
  }

  /** The new handle goes into an empty slot, or is closed when the path or the time cannot be stored. */
  function Fill(q: Pool, slot: nat, h: nat, path: string, env: Env): (Pool, bool)
    requires slot < |q.items|
  {
    if !env.copyOk then (q.(closed := q.closed + [h]), false)
    else if env.openedAt.None? then
      (q.(items := q.items[slot := q.items[slot].(path := path)], closed := q.closed + [h]), false)
    else (q.(items := q.items[slot := Item(Some(h), path, env.openedAt.value)]), true)
  }

  /** `read` up to the host's read call: the handle it reads with, if it comes to that. */
  function Read(p: Pool, path: string, env: Env): (Pool, Option<nat>)
    requires |p.items| == Slots
  {
    var (q, ok, idx) := Open(p, path, 0, env);
    if !ok || idx >= |q.items| then (q, None)
    else if !env.readOk || env.readAt.None? then (q, q.items[idx].h)
    else (q.(items := q.items[idx := q.items[idx].(usedAt := env.readAt.value)]), q.items[idx].h)
  }

  predicate Expired(it: Item, t: Time) { it.h.Some? && t.sec >= it.usedAt.sec + 2 }

  /** One sweep of the gc thread over the slots from `i` on. */
  function Sweep(p: Pool, t: Time, i: nat): Pool
    requires i <= |p.items|
    decreases |p.items| - i
  {
    if i == |p.items| then p
    else Sweep(if Expired(p.items[i], t) then CloseSlot(p, i) else p, t, i + 1)
  }

  /** `speak_exit` closes what is still open, from slot `i` on. */
  function Exit(p: Pool, i: nat): Pool
    requires i <= |p.items|
    decreases |p.items| - i
  {
    if i == |p.items| then p else Exit(CloseSlot(p, i), i + 1)
  }

  datatype Op = ReadOp(path: string, env: Env) | SweepOp(t: Time)

  function Run(ops: seq<Op>): (p: Pool)
    ensures |p.items| == Slots
  {
    if ops == [] then Empty
    else
      var p, op := Run(ops[..|ops| - 1]), ops[|ops| - 1];
      match op
      case ReadOp(path, env) =>
        ReadKeepsSize(p, path, env);
        Read(p, path, env).0
      case SweepOp(t) =>
        SweepKeepsSize(p, t, 0);
        Sweep(p, t, 0)
  }

  lemma ReadKeepsSize(p: Pool, path: string, env: Env)
    requires |p.items| == Slots
    ensures |Read(p, path, env).0.items| == Slots
  {}

  lemma {:induction false} SweepKeepsSize(p: Pool, t: Time, i: nat)
    requires i <= |p.items|
    ensures |Sweep(p, t, i).items| == |p.items|
    decreases |p.items| - i
  {
    if i < |p.items| {
      SweepKeepsSize(if Expired(p.items[i], t) then CloseSlot(p, i) else p, t, i + 1);
    }
  }

  // ---------- what every operation keeps ----------

  function Occupied(items: seq<Item>): nat
  {
    if items == [] then 0
    else Occupied(items[..|items| - 1]) + if items[|items| - 1].h.Some? then 1 else 0
  }

  /** Slots hold different paths, each with an open handle opened for that path; nothing is closed
      twice; and every open handle is in a slot. */
  ghost predicate Inv(p: Pool)
  {
    && |p.items| == Slots
    && (forall i, j :: 0 <= i < j < Slots && p.items[i].h.Some? && p.items[j].h.Some? ==> p.items[i].path != p.items[j].path)
    && (forall i :: 0 <= i < Slots && p.items[i].h.Some? ==> HandleOk(p, i))
    && (forall i, j :: 0 <= i < j < |p.closed| ==> p.closed[i] != p.closed[j])
    && (forall h <- p.closed :: h < |p.openings|)
    && |p.openings| == |p.closed| + Occupied(p.items)
  }

  ghost predicate HandleOk(p: Pool, i: nat)
    requires i < |p.items| && p.items[i].h.Some?
  {
    var h := p.items[i].h.value;
    h < |p.openings| && p.openings[h] == p.items[i].path && h !in p.closed
  }

  lemma {:induction false} OccupiedUpdate(items: seq<Item>, i: nat, it: Item)
    requires i < |items|
    ensures Occupied(items[i := it]) + (if items[i].h.Some? then 1 else 0) == Occupied(items) + (if it.h.Some? then 1 else 0)
    decreases |items|
  {
    var init, last := items[..|items| - 1], |items| - 1;
    var after := items[i := it];
    if i == last {
      assert after[..last] == init;
    } else {
      assert after[..last] == init[i := it];
      OccupiedUpdate(init, i, it);
    }
  }

  /** Different slots hold different handles, as these were opened for different paths. */
  lemma HandlesDiffer(p: Pool, i: nat, j: nat)
    requires Inv(p) && i < Slots && j < Slots && i != j && p.items[i].h.Some? && p.items[j].h.Some?
    ensures p.items[i].h != p.items[j].h
  {
    assert HandleOk(p, i) && HandleOk(p, j);
  }

  lemma CloseKeeps(p: Pool, i: nat)
    requires Inv(p) && i < Slots
    ensures Inv(CloseSlot(p, i)) && CloseSlot(p, i).items[i].h.None?
  {
    var q := CloseSlot(p, i);
    OccupiedUpdate(p.items, i, q.items[i]);
    hide Occupied;
    if p.items[i].h.Some? {
      assert HandleOk(p, i);
      forall j | 0 <= j < Slots && q.items[j].h.Some?
        ensures HandleOk(q, j)
      {
        assert HandleOk(p, j);
        HandlesDiffer(p, i, j);
      }
    } else {
      forall j | 0 <= j < Slots && q.items[j].h.Some?
        ensures HandleOk(q, j)
      {
        assert HandleOk(p, j);
      }
    }
  }

  /** A handle that is opened and closed again within the call. */
  lemma OpenAndClose(p: Pool, path: string, slot: nat, name: string)
    requires Inv(p) && slot < Slots && p.items[slot].h.None?
    ensures Inv(p.(items := p.items[slot := p.items[slot].(path := name)], openings := p.openings + [path],
                   closed := p.closed + [|p.openings|]))
  {
    var q := p.(items := p.items[slot := p.items[slot].(path := name)], openings := p.openings + [path],
                closed := p.closed + [|p.openings|]);
    OccupiedUpdate(p.items, slot, q.items[slot]);
    hide Occupied;
    forall j | 0 <= j < Slots && q.items[j].h.Some?
      ensures HandleOk(q, j)
    {
      assert HandleOk(p, j);
    }
    forall i, j | 0 <= i < j < |q.closed|
      ensures q.closed[i] != q.closed[j]
    {
      assert q.closed[i] in p.closed;
    }
  }

  lemma FillKeeps(p: Pool, path: string, slot: nat, t: Time)
    requires Inv(p) && slot < Slots && p.items[slot].h.None?
    requires forall it <- p.items :: !Holds(it, path)
    ensures Inv(p.(items := p.items[slot := Item(Some(|p.openings|), path, t)], openings := p.openings + [path]))
  {
    var q := p.(items := p.items[slot := Item(Some(|p.openings|), path, t)], openings := p.openings + [path]);
    OccupiedUpdate(p.items, slot, q.items[slot]);
    hide Occupied;
    forall j | 0 <= j < Slots && q.items[j].h.Some?
      ensures HandleOk(q, j)
    {
      if j != slot {
        assert HandleOk(p, j);
      } else {
        assert |p.openings| !in p.closed;
      }
    }
    forall i, j | 0 <= i < j < Slots && q.items[i].h.Some? && q.items[j].h.Some?
      ensures q.items[i].path != q.items[j].path
    {
      assert p.items[i] in p.items && p.items[j] in p.items;
    }
  }

  /** `open` empties a slot if it needs to. */
  function Evicted(p: Pool): Pool
    requires |p.items| == Slots
  {
    if FirstFree(p.items).Some? then p else CloseSlot(p, Target(p.items))
  }

  lemma OpenKeeps(p: Pool, path: string, idx: nat, env: Env)
    requires Inv(p)
    ensures Inv(Open(p, path, idx, env).0)
  {
    if Cached(p.items, path).None? && env.openOk {
      var slot := Target(p.items);
      var q := Evicted(p);
      CloseKeeps(p, slot);
      forall it | it in q.items
        ensures !Holds(it, path)
      {
        var k :| 0 <= k < |q.items| && q.items[k] == it;
        assert p.items[k] in p.items;
      }
      if !env.copyOk {
        assert q.items[slot := q.items[slot].(path := q.items[slot].path)] == q.items;
        OpenAndClose(q, path, slot, q.items[slot].path);
      } else if env.openedAt.None? {
        OpenAndClose(q, path, slot, path);
      } else {
        FillKeeps(q, path, slot, env.openedAt.value);
      }
    }
  }

  lemma TouchKeeps(p: Pool, i: nat, t: Time)
    requires Inv(p) && i < Slots
    ensures Inv(p.(items := p.items[i := p.items[i].(usedAt := t)]))
  {
    var q := p.(items := p.items[i := p.items[i].(usedAt := t)]);
    OccupiedUpdate(p.items, i, q.items[i]);
    hide Occupied;
    forall j | 0 <= j < Slots && q.items[j].h.Some?
      ensures HandleOk(q, j)
    {
      assert HandleOk(p, j);
    }
  }

  lemma ReadKeeps(p: Pool, path: string, env: Env)
    requires Inv(p)
    ensures Inv(Read(p, path, env).0)
  {
    var (q, ok, idx) := Open(p, path, 0, env);
    OpenKeeps(p, path, 0, env);
    if ok && idx < |q.items| && env.readAt.Some? {
      TouchKeeps(q, idx, env.readAt.value);
    }
  }

  function Swept(it: Item, t: Time): Item { if Expired(it, t) then it.(h := None, path := "") else it }

  lemma {:induction false} SweepKeeps(p: Pool, t: Time, i: nat)
    requires Inv(p) && |p.items| == Slots && i <= Slots
    ensures Inv(Sweep(p, t, i)) && |Sweep(p, t, i).items| == Slots
    ensures forall j :: i <= j < Slots ==> Sweep(p, t, i).items[j] == Swept(p.items[j], t)
    ensures forall j :: 0 <= j < i ==> Sweep(p, t, i).items[j] == p.items[j]
    decreases Slots - i
  {
    hide Inv;
    if i < |p.items| {
      CloseKeeps(p, i);
      SweepKeeps(if Expired(p.items[i], t) then CloseSlot(p, i) else p, t, i + 1);
    }
  }

  lemma {:induction false} ExitKeeps(p: Pool, i: nat)
    requires Inv(p) && i <= Slots && forall j :: 0 <= j < i ==> p.items[j].h.None?
    ensures Inv(Exit(p, i)) && Exit(p, i).openings == p.openings && forall it <- Exit(p, i).items :: it.h.None?
    decreases Slots - i
  {
    if i < |p.items| {
      CloseKeeps(p, i);
      ExitKeeps(CloseSlot(p, i), i + 1);
    }
  }

  lemma {:induction false} NothingOccupied(items: seq<Item>)
    requires forall it <- items :: it.h.None?
    ensures Occupied(items) == 0
  {
    if items != [] {
      NothingOccupied(items[..|items| - 1]);
    }
  }

  /** Over any run no two slots hold the same path, and handles opened minus handles closed is the
      number of slots in use. */
  lemma {:induction false} RunKeeps(ops: seq<Op>)
    ensures Inv(Run(ops))
  {
    hide Inv;
    if ops == [] {
      NothingOccupied(Empty.items);
      EmptyKeeps();
    } else {
      RunKeeps(ops[..|ops| - 1]);
      var p := Run(ops[..|ops| - 1]);
      match ops[|ops| - 1]
      case ReadOp(path, env) => ReadKeeps(p, path, env);
      case SweepOp(t) => SweepKeeps(p, t, 0);
    }
  }

  lemma EmptyKeeps()
    requires Occupied(Empty.items) == 0
    ensures Inv(Empty)
  {}

  /** After `speak_exit` every handle that was ever opened is closed, exactly once. */
  lemma ExitClosesAll(ops: seq<Op>)
    ensures var p := Exit(Run(ops), 0);
      && |p.closed| == |p.openings| && (forall h: nat :: h in p.closed ==> h < |p.openings|)
      && forall i, j :: 0 <= i < j < |p.closed| ==> p.closed[i] != p.closed[j]
  {
    RunKeeps(ops);
    ExitKeeps(Run(ops), 0);
    NothingOccupied(Exit(Run(ops), 0).items);
  }

  /** A slot is only emptied for a new path when all are in use, and then one with the least time. */
  lemma EvictsLeastRecent(p: Pool, path: string, env: Env, i: nat)
    requires |p.items| == Slots && i < Slots && p.items[i].h.Some?
    requires Open(p, path, 0, env).0.items[i].h != p.items[i].h
    ensures forall j :: 0 <= j < Slots ==> p.items[j].h.Some? && !Before(p.items[j].usedAt, p.items[i].usedAt)
  {
    assert i == Target(p.items);
    assert FirstFree(p.items).None?;
    forall j | 0 <= j < Slots
      ensures p.items[j].h.Some? && !Before(p.items[j].usedAt, p.items[i].usedAt)
    {
      assert p.items[j] in p.items && p.items[i] in p.items;
    }
  }

  // ---------- which handle is read ----------

  /** The path was cached, or its new handle went to slot 0. */
  predicate RightSlot(p: Pool, path: string)
    requires |p.items| == Slots
  {
    Cached(p.items, path).Some? || Target(p.items) == 0
  }

  /** A read uses a handle opened for the requested path if and only if the path was cached or its
      handle went to slot 0: `open` does not report the slot it fills, and `read` starts from 0. */
  lemma ReadUsesOwnHandle(p: Pool, path: string, env: Env)
    requires Inv(p) && Open(p, path, 0, env).1
    ensures Read(p, path, env).1.Some?
    ensures var (q, h) := Read(p, path, env);
      h.value < |q.openings| && (q.openings[h.value] == path <==> RightSlot(p, path))
  {
    var (q, ok, idx) := Open(p, path, 0, env);
    OpenKeeps(p, path, 0, env);
    if Cached(p.items, path).Some? {
      assert HandleOk(q, idx);
    } else {
      var slot := Target(p.items);
      assert idx == 0;
      if slot != 0 {
        assert p.items[0].h.Some? by {
          assert FirstFree(p.items).None? ==> p.items[0] in p.items;
        }
        assert q.items[0] == p.items[0] && p.items[0] in p.items;
      }
      assert HandleOk(q, 0);
    }
  }

  /** With one file open, the first read of a second file reads from the first. */
  lemma SecondFileReadsFirst()
    ensures var t := Time(0, 0);
      var env := Env(true, true, Some(t), true, Some(t));
      var (p, h) := Read(Read(Empty, "a", env).0, "b", env);
      h == Some(0) && p.openings == ["a", "b"]
  {
    var t := Time(0, 0);
    var env := Env(true, true, Some(t), true, Some(t));
    EmptyIsUncached(Empty.items, "a");
    assert Target(Empty.items) == 0;
    var one := Read(Empty, "a", env).0;
    assert one.items[0] == Item(Some(0), "a", t) && one.openings == ["a"];
    assert one.items[1] == Unused;
    assert one.items[1] in one.items;
    assert Target(one.items) == 1;
    assert Cached(one.items, "b").None?;
  }

  lemma EmptyIsUncached(items: seq<Item>, path: string)
    requires forall it <- items :: it.h.None?
    ensures Cached(items, path).None? && (items != [] ==> FirstFree(items) == Some(0))
  {
    assert items != [] ==> items[0] in items;
  }
}
