/** The pool of `src/c/speak.c` as the object its functions update in place. */
module Speak {
  import opened Names
  import opened SpeakPool

  class Speaker {
    const items: array<Item>
    var openings: seq<string>
    var closed: seq<nat>

    ghost predicate Valid()
      reads this
    {
      items.Length == Slots
    }

    ghost function State(): Pool
      reads this, items
    {
      Pool(items[..], openings, closed)
    }

    constructor ()
      ensures Valid() && fresh(items) && State() == Empty && Inv(State())
    {
      items := new Item[Slots](_ => Unused);
      openings, closed := [], [];
      new;
      assert items[..] == Empty.items;
      NothingOccupied(Empty.items);
      EmptyKeeps();
    }

    method Close(i: nat)
      requires Valid() && i < Slots
      modifies this`closed, items
      ensures State() == CloseSlot(old(State()), i)
    {
      if items[i].h.Some? {
        closed := closed + [items[i].h.value];
      }
      items[i] := items[i].(h := None, path := "");
    }

    /** `idx` is only set when the path is already in the pool. */
    method OpenItem(path: string, idx0: nat, env: Env) returns (ok: bool, idx: nat)
      requires Valid()
      modifies this`openings, this`closed, items
      ensures (State(), ok, idx) == Open(old(State()), path, idx0, env)
    {
      hide Fill;
      idx := idx0;
      var found, unused, oldest := Scan(items, path);
      if found.Some? {
        return true, found.value;
      }
      if !env.openOk {
        return false, idx;
      }
      var h := |openings|;
      openings := openings + [path];
      assert forall it <- items[..] :: it.h.Some? ==> it in items[..];
      if unused == Slots {
        assert items[0] in items[..];
        Close(oldest);
        unused := oldest;
      }
      ok := FillItem(unused, h, path, env);
    }

    method FillItem(slot: nat, h: nat, path: string, env: Env) returns (ok: bool)
      requires Valid() && slot < Slots
      modifies this`closed, items
      ensures (State(), ok) == Fill(old(State()), slot, h, path, env)
    {
      if !env.copyOk {
        closed := closed + [h];
        return false;
      }
      ghost var before := items[..];
      items[slot] := items[slot].(path := path);
      if env.openedAt.None? {
        closed := closed + [h];
        return false;
      }
      items[slot] := Item(Some(h), path, env.openedAt.value);
      assert items[..] == before[slot := Item(Some(h), path, env.openedAt.value)];
      return true;
    }

    method ReadItem(path: string, env: Env) returns (h: Option<nat>)
      requires Valid()
      modifies this`openings, this`closed, items
      ensures (State(), h) == Read(old(State()), path, env)
    {
      var ok, idx := OpenItem(path, 0, env);
      if !ok || idx >= items.Length {
        return None;
      }
      h := items[idx].h;
      if !env.readOk || env.readAt.None? {
        return h;
      }
      items[idx] := items[idx].(usedAt := env.readAt.value);
    }

    method SweepItems(t: Time)
      requires Valid()
      modifies this`closed, items
      ensures State() == Sweep(old(State()), t, 0)
    {
      for i := 0 to Slots
        invariant Sweep(State(), t, i) == Sweep(old(State()), t, 0)
      {
        if items[i].h.Some? && t.sec >= items[i].usedAt.sec + 2 {
          Close(i);
        }
      }
    }

    method CloseAll()
      requires Valid()
      modifies this`closed, items
      ensures State() == Exit(old(State()), 0)
    {
      for i := 0 to Slots
        invariant Exit(State(), i) == Exit(old(State()), 0)
      {
        Close(i);
      }
    }
  }
}
