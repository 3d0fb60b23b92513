/** The cache of drawn images in `src/go/ipc/ipc.go`.  Rendering and cropping are one function of
    the file, the visible layers, the flip, the scale and the frame; the type of the scale is open. */
module DrawCache {
  import opened Names
  import opened BitCodec
  import opened LayerTables
  import opened LayerStates
  import opened LayerImage
  import Packbits

  type Bytes = seq<Packbits.byte>

  datatype Frame<S> = Frame(width: int, height: int, offsetX: int, offsetY: int, scale: S)

  /** `cacheKey` */
  datatype Key<S> = Key(frame: Frame<S>, path: string, state: string)

  /** Everything an uncached drawing depends on. */
  datatype View<S> = View(frame: Frame<S>, path: string, visible: seq<bool>, flip: int)

  datatype Entry = Entry(lastAccess: int, data: Bytes)

  /** The key under which a view is looked up, with the text its state was written as. */
  function KeyOf<S>(v: View<S>, text: string): Key<S> { Key(v.frame, v.path, text) }

  /** Every entry is what a drawing of any view with its key would give. */
  ghost predicate Faithful<S(!new)>(cache: map<Key<S>, Entry>, paint: View<S> -> Option<Bytes>)
  {
    forall v: View<S>, text: string :: SerializedAs(text, v.visible, v.flip) && ValidFlip(v.flip) && KeyOf(v, text) in cache ==>
      paint(v) == Some(cache[KeyOf(v, text)].data)
  }

  lemma FaithfulInsert<S(!new)>(cache: map<Key<S>, Entry>, paint: View<S> -> Option<Bytes>, v: View<S>, text: string, e: Entry)
    requires Faithful(cache, paint) && SerializedAs(text, v.visible, v.flip) && ValidFlip(v.flip) && paint(v) == Some(e.data)
    ensures Faithful(cache[KeyOf(v, text) := e], paint)
  {
    hide SerializedAs;
    var after := cache[KeyOf(v, text) := e];
    forall w: View<S>, other: string | SerializedAs(other, w.visible, w.flip) && ValidFlip(w.flip) && KeyOf(w, other) in after
      ensures paint(w) == Some(after[KeyOf(w, other)].data)
    {
      if KeyOf(w, other) == KeyOf(v, text) {
        SerializedInjective(text, v.visible, v.flip, w.visible, w.flip);
        assert w == v;
      }
    }
  }

  // ---------- runs ----------

  /** A drawing of a view whose state was written as `text`, or a collection that keeps some keys. */
  datatype Op<!S> = DrawOp(view: View<S>, text: string, now: int) | CollectOp(keep: Key<S> -> bool)

  datatype Memory<S(==)> = Memory(cache: map<Key<S>, Entry>, drawn: seq<Option<Bytes>>)

  function DrawStep<S(==)>(m: Memory<S>, paint: View<S> -> Option<Bytes>, v: View<S>, text: string, now: int): Memory<S>
  {
    var key := KeyOf(v, text);
    if key in m.cache then
      Memory(m.cache[key := Entry(now, m.cache[key].data)], m.drawn + [Some(m.cache[key].data)])
    else
      match paint(v)
      case None => m.(drawn := m.drawn + [None])
      case Some(data) => Memory(m.cache[key := Entry(now, data)], m.drawn + [Some(data)])
  }

  /** One drawing took the cache from `before` to `after` and gave `r`. */
  ghost predicate Drew<S(!new)>(before: map<Key<S>, Entry>, paint: View<S> -> Option<Bytes>, v: View<S>, now: int,
                                after: map<Key<S>, Entry>, r: Option<Bytes>)
  {
    exists text :: SerializedAs(text, v.visible, v.flip) && DrawStep(Memory(before, []), paint, v, text, now) == Memory(after, [r])
  }

  ghost function Step<S>(m: Memory<S>, paint: View<S> -> Option<Bytes>, op: Op<S>): Memory<S>
  {
    match op
    case DrawOp(v, text, now) => DrawStep(m, paint, v, text, now)
    case CollectOp(keep) => m.(cache := m.cache - set k | k in m.cache && !keep(k))
  }

  ghost function Run<S>(m: Memory<S>, paint: View<S> -> Option<Bytes>, ops: seq<Op<S>>): Memory<S>
    decreases |ops|
  {
    if ops == [] then m else Run(Step(m, paint, ops[0]), paint, ops[1..])
  }

  /** What the drawings of a run would give without a cache. */
  function Uncached<S>(paint: View<S> -> Option<Bytes>, ops: seq<Op<S>>): seq<Option<Bytes>>
    decreases |ops|
  {
    if ops == [] then []
    else (if ops[0].DrawOp? then [paint(ops[0].view)] else []) + Uncached(paint, ops[1..])
  }

  ghost predicate OpOk<S>(op: Op<S>)
  {
    op.DrawOp? ==> SerializedAs(op.text, op.view.visible, op.view.flip) && ValidFlip(op.view.flip)
  }

  lemma StepKeeps<S(!new)>(m: Memory<S>, paint: View<S> -> Option<Bytes>, op: Op<S>)
    requires Faithful(m.cache, paint) && OpOk(op)
    ensures Faithful(Step(m, paint, op).cache, paint)
    ensures Step(m, paint, op).drawn == m.drawn + Uncached(paint, [op])
  {
    hide SerializedAs;
    assert [op][1..] == [];
    match op
    case DrawOp(v, text, now) =>
      var key := KeyOf(v, text);
      if key in m.cache {
        assert paint(v) == Some(m.cache[key].data);
        FaithfulInsert(m.cache, paint, v, text, Entry(now, m.cache[key].data));
      } else if paint(v).Some? {
        FaithfulInsert(m.cache, paint, v, text, Entry(now, paint(v).value));
      }
    case CollectOp(keep) =>
      assert m.drawn + [] == m.drawn;
  }

  /** Over any run of drawings, changes in between and collections, every drawing gives the bytes
      that it would give without the cache. */
  lemma {:induction false} CacheIsTransparent<S(!new)>(m: Memory<S>, paint: View<S> -> Option<Bytes>, ops: seq<Op<S>>)
    requires Faithful(m.cache, paint) && forall op <- ops :: OpOk(op)
    ensures Run(m, paint, ops).drawn == m.drawn + Uncached(paint, ops)
    decreases |ops|
  {
    hide Faithful, OpOk, Step;
    if ops == [] {
      assert m.drawn + [] == m.drawn;
    } else {
      assert ops[0] in ops && forall op <- ops[1..] :: op in ops;
      StepKeeps(m, paint, ops[0]);
      CacheIsTransparent(Step(m, paint, ops[0]), paint, ops[1..]);
      UncachedStep(paint, ops);
      var a, b := Uncached(paint, [ops[0]]), Uncached(paint, ops[1..]);
      assert m.drawn + a + b == m.drawn + (a + b);
    }
  }

  lemma UncachedStep<S>(paint: View<S> -> Option<Bytes>, ops: seq<Op<S>>)
    requires ops != []
    ensures Uncached(paint, ops) == Uncached(paint, [ops[0]]) + Uncached(paint, ops[1..])
  {
    assert [ops[0]][1..] == [];
  }

  // ---------- the server's cache ----------

  class Drawer<S(==, !new)> {
    const paint: View<S> -> Option<Bytes>
    var cache: map<Key<S>, Entry>

    ghost predicate Valid()
      reads this
    {
      Faithful(cache, paint)
    }

    constructor (paint: View<S> -> Option<Bytes>)
      ensures Valid() && this.paint == paint && cache == map[]
    {
      this.paint := paint;
      cache := map[];
    }

    /** `draw`: fails when the state cannot be written or the image not be rendered, and otherwise
        gives what rendering the image as it is now would give. */
    method Draw(img: Image, path: string, frame: Frame<S>, now: int) returns (r: Option<Bytes>)
      requires Valid() && img.layers.Valid() && ValidFlip(img.layers.flip)
      modifies this`cache
      ensures Valid()
      ensures r == if |img.layers.visible| <= 0xffff then paint(View(frame, path, img.layers.visible, img.layers.flip)) else None
      ensures |img.layers.visible| <= 0xffff ==>
        Drew(old(cache), paint, View(frame, path, img.layers.visible, img.layers.flip), now, cache, r)
      ensures |img.layers.visible| > 0xffff ==> cache == old(cache)
    {
      hide SerializedAs;
      var text := img.Serialize();
      if text.None? {
        return None;
      }
      var view := View(frame, path, img.layers.visible, img.layers.flip);
      var key := KeyOf(view, text.value);
      if key in cache {
        var data := cache[key].data;
        FaithfulInsert(cache, paint, view, text.value, Entry(now, data));
        cache := cache[key := Entry(now, data)];
        return Some(data);
      }
      r := paint(view);
      if r.Some? {
        FaithfulInsert(cache, paint, view, text.value, Entry(now, r.value));
        cache := cache[key := Entry(now, r.value)];
      }
    }

    /** `gc` with its deadline of one minute, in nanoseconds. */
    method Collect(now: int)
      requires Valid()
      modifies this`cache
      ensures Valid()
      ensures cache == old(cache) - set k | k in old(cache) && now - old(cache)[k].lastAccess > 60_000_000_000
    {
      cache := cache - set k | k in cache && now - cache[k].lastAccess > 60_000_000_000;
    }
  }
}
