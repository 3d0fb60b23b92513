/** Each side reads exactly what the other wrote, so that a run of commands over the two pipes is a
    run of plain calls. */
module IpcRoundTrip {
  import opened Names
  import opened IpcWire

  lemma Assoc(a: Bytes, b: Bytes, c: Bytes)
    ensures a + b + c == a + (b + c)
  {}

  // ---------- properties ----------

  lemma PropStep(pid: U32, body: Bytes, rest: Bytes, p: Props, q: Props)
    requires 0 < pid < Top && ReadProp(pid, body + rest, p) == Got(q, rest)
    ensures ReadProps(Le32(pid) + body + rest, p) == ReadProps(rest, q)
  {
    Assoc(Le32(pid), body, rest);
    I32Back(pid, body + rest);
  }

  lemma TagStep(p: Props, rest: Bytes, q: Props)
    requires q.tag.None?
    ensures ReadProps(TagBytes(p) + rest, q) == ReadProps(rest, q.(tag := p.tag))
  {
    if p.tag.Some? {
      U32Back(p.tag.value, rest);
      PropStep(5, Le32(p.tag.value), rest, q, q.(tag := p.tag));
    } else {
      assert TagBytes(p) + rest == rest;
    }
  }

  lemma LayerStep(p: Props, rest: Bytes, q: Props)
    requires q.layer.None? && (p.layer.Some? ==> Sendable(p.layer.value))
    ensures ReadProps(LayerBytes(p) + rest, q) == ReadProps(rest, q.(layer := p.layer))
  {
    if p.layer.Some? {
      StringBack(p.layer.value, rest);
      PropStep(1, Blob(p.layer.value), rest, q, q.(layer := p.layer));
    } else {
      assert LayerBytes(p) + rest == rest;
    }
  }

  lemma ScaleStep(p: Props, rest: Bytes, q: Props)
    requires q.scale.None?
    ensures ReadProps(ScaleBytes(p) + rest, q) == ReadProps(rest, q.(scale := p.scale))
  {
    if p.scale.Some? {
      U32Back(p.scale.value, rest);
      PropStep(2, Le32(p.scale.value), rest, q, q.(scale := p.scale));
    } else {
      assert ScaleBytes(p) + rest == rest;
    }
  }

  lemma OffsetXStep(p: Props, rest: Bytes, q: Props)
    requires q.offsetX.None?
    ensures ReadProps(OffsetXBytes(p) + rest, q) == ReadProps(rest, q.(offsetX := p.offsetX))
  {
    if p.offsetX.Some? {
      I32Back(p.offsetX.value, rest);
      PropStep(3, Le32(Unsigned(p.offsetX.value)), rest, q, q.(offsetX := p.offsetX));
    } else {
      assert OffsetXBytes(p) + rest == rest;
    }
  }

  lemma OffsetYStep(p: Props, rest: Bytes, q: Props)
    requires q.offsetY.None?
    ensures ReadProps(OffsetYBytes(p) + rest, q) == ReadProps(rest, q.(offsetY := p.offsetY))
  {
    if p.offsetY.Some? {
      I32Back(p.offsetY.value, rest);
      PropStep(4, Le32(Unsigned(p.offsetY.value)), rest, q, q.(offsetY := p.offsetY));
    } else {
      assert OffsetYBytes(p) + rest == rest;
    }
  }

  /** Every subset of the properties is read back as it was given. */
  lemma PropsBack(p: Props, rest: Bytes)
    requires p.layer.Some? ==> Sendable(p.layer.value)
    ensures ReadProps(PropBytes(p) + rest, NoProps) == Got(p, rest)
  {
    var e := Le32(0) + rest;
    var d := OffsetYBytes(p) + e;
    var c := OffsetXBytes(p) + d;
    var b := ScaleBytes(p) + c;
    var a := LayerBytes(p) + b;
    SixParts(TagBytes(p), LayerBytes(p), ScaleBytes(p), OffsetXBytes(p), OffsetYBytes(p), Le32(0), rest);
    hide TagBytes, LayerBytes, ScaleBytes, OffsetXBytes, OffsetYBytes, ReadProps, PropBytes, Le32;
    TagStep(p, a, NoProps);
    LayerStep(p, b, NoProps.(tag := p.tag));
    ScaleStep(p, c, NoProps.(tag := p.tag, layer := p.layer));
    OffsetXStep(p, d, NoProps.(tag := p.tag, layer := p.layer, scale := p.scale));
    OffsetYStep(p, e, NoProps.(tag := p.tag, layer := p.layer, scale := p.scale, offsetX := p.offsetX));
    EndStep(p, rest);
  }

  lemma EndStep(p: Props, rest: Bytes)
    ensures ReadProps(Le32(0) + rest, p) == Got(p, rest)
  {
    I32Back(0, rest);
  }

  lemma SixParts(a: Bytes, b: Bytes, c: Bytes, d: Bytes, e: Bytes, f: Bytes, rest: Bytes)
    ensures a + b + c + d + e + f + rest == a + (b + (c + (d + (e + (f + rest)))))
  {
    Assoc(a + b + c + d + e, f, rest);
    Assoc(a + b + c + d, e, f + rest);
    Assoc(a + b + c, d, e + (f + rest));
    Assoc(a + b, c, d + (e + (f + rest)));
    Assoc(a, b, c + (d + (e + (f + rest))));
  }

  // ---------- requests ----------

  lemma IdAndPathBack(id: I32, path: Bytes, rest: Bytes)
    requires Sendable(path)
    ensures ReadIdAndPath(Le32(Unsigned(id)) + Blob(path) + rest) == Got((id, path), rest)
  {
    hide ReadString, ReadI32, Le32, Blob;
    Assoc(Le32(Unsigned(id)), Blob(path), rest);
    I32Back(id, Blob(path) + rest);
    StringBack(path, rest);
  }

  lemma DrawBack(id: I32, path: Bytes, w: I32, h: I32, rest: Bytes)
    requires Sendable(path)
    ensures ReadDraw(ArgBytes(Draw(id, path, w, h)) + rest) == Got(Call(Draw(id, path, w, h)), rest)
  {
    hide ReadIdAndPath, ReadI32, Le32, Blob;
    var head, b2 := Le32(Unsigned(id)) + Blob(path), Le32(Unsigned(h)) + rest;
    var b1 := Le32(Unsigned(w)) + b2;
    Assoc(head + Le32(Unsigned(w)), Le32(Unsigned(h)), rest);
    Assoc(head, Le32(Unsigned(w)), b2);
    IdAndPathBack(id, path, b1);
    I32Back(w, b2);
    I32Back(h, rest);
  }

  lemma SetPropertiesBack(id: I32, path: Bytes, p: Props, rest: Bytes)
    requires RequestOk(SetProperties(id, path, p))
    ensures ReadSetProperties(ArgBytes(SetProperties(id, path, p)) + rest) == Got(Call(SetProperties(id, path, p)), rest)
  {
    hide ReadIdAndPath, ReadProps, PropBytes, Le32, Blob;
    Assoc(Le32(Unsigned(id)) + Blob(path), PropBytes(p), rest);
    IdAndPathBack(id, path, PropBytes(p) + rest);
    PropsBack(p, rest);
  }

  lemma ArgsBack(r: Request, rest: Bytes)
    requires RequestOk(r)
    ensures ReadArgs(Command(r), ArgBytes(r) + rest) == Got(Call(r), rest)
  {
    hide ReadString, ReadU32, ReadDraw, ReadSetProperties, ReadIdAndPath, Le32, Blob, PropBytes;
    match r
    case AddFile(path, tag) =>
      Assoc(Blob(path), Le32(tag), rest);
      StringBack(path, Le32(tag) + rest);
      U32Back(tag, rest);
    case Deserialize(src) => StringBack(src, rest);
    case UpdateProjectPath(path) => StringBack(path, rest);
    case Draw(id, path, w, h) => DrawBack(id, path, w, h, rest);
    case LayerNames(id, path) => IdAndPathBack(id, path, rest);
    case SetProperties(id, path, p) => SetPropertiesBack(id, path, p, rest);
    case _ => assert [] + rest == rest;
  }

  lemma CommandIsNoReply(r: Request)
    ensures Value32(Command(r)) < Top
  {
    var c := Command(r);
    assert Value32(c) < 16777216 + 16777216 * (c[3] as int);
  }

  /** The server decodes every command and reads exactly its bytes. */
  lemma RequestIsRead(r: Request, rest: Bytes)
    requires RequestOk(r)
    ensures ReadRequest(RequestBytes(r) + rest) == Got(Call(r), rest)
  {
    hide ArgBytes, ReadArgs, Value32;
    var b := RequestBytes(r) + rest;
    assert b[..4] == Command(r) && b[4..] == ArgBytes(r) + rest;
    CommandIsNoReply(r);
    ArgsBack(r, rest);
  }

  // ---------- replies ----------

  lemma PayloadBack(r: Request, a: Answer, rest: Bytes)
    requires RequestOk(r) && AnswerOk(r, a) && !a.Refused?
    ensures ReadPayload(r, PayloadBytes(r, a) + rest) == Got(Done(a), rest)
  {
    hide ReadText, ReadI32, ReadU32, ReadU64, ReadN, Le32, Le64, Blob;
    match a
    case Plain =>
      if r.Deserialize? {
        U32Back(1, rest);
      } else {
        assert [] + rest == rest;
      }
    case Text(s) => StringBack(s, rest);
    case Pixels(data) =>
      assert w4h(r.width, r.height) == |data|;
      BlobMeaning(data, rest);
      U32Back(|data|, data + rest);
      NBack(data, rest);
    case Properties(m, key, w, h) =>
      PropertiesBack(m, key, w, h, rest);
    case Window(handle) => U64Back(handle, rest);
  }

  lemma PropertiesBack(m: bool, key: U32, w: I32, h: I32, rest: Bytes)
    ensures ReadProperties(Le32(if m then 1 else 0) + Le32(key) + Le32(Low32(w)) + Le32(Low32(h)) + rest) ==
      Got(Properties(m, key, w, h), rest)
  {
    hide ReadI32, ReadU32, Le32;
    var one: I32 := if m then 1 else 0;
    var b3 := Le32(Low32(h)) + rest;
    var b2 := Le32(Low32(w)) + b3;
    var b1 := Le32(key) + b2;
    assert Le32(if m then 1 else 0) + Le32(key) + Le32(Low32(w)) + Le32(Low32(h)) + rest == Le32(one) + b1;
    LowSigned(w);
    LowSigned(h);
    I32Back(one, b1);
    U32Back(key, b2);
    I32Back(w, b3);
    I32Back(h, rest);
    assert ReadI32(Le32(one) + b1) == Got(one, b1) && ReadU32(b1) == Got(key, b2);
    assert ReadI32(b2) == Got(w, b3) && ReadI32(b3) == Got(h, rest);
  }

  function w4h(w: int, h: int): int { 4 * w * h }

  lemma BlobMeaning(s: Bytes, rest: Bytes)
    requires Sendable(s)
    ensures Blob(s) + rest == Le32(|s|) + (s + rest)
  {}

  lemma LowSigned(x: int)
    requires -Top <= x < Top
    ensures Low32(x) == Unsigned(x)
  {}

  /** The plugin reads exactly the server's bytes, on success and on error, and gets the answer. */
  lemma ReplyIsReceived(r: Request, a: Answer, rest: Bytes)
    requires RequestOk(r) && AnswerOk(r, a)
    ensures Receive(r, ReplyBytes(r, a) + rest) == Got(if a.Refused? then Failed(a.text) else Done(a), rest)
  {
    hide ReadPayload, PayloadBytes, ReadReply, Le32;
    if a.Refused? {
      ReplyWordBack(a.text, rest);
    } else {
      var tail := PayloadBytes(r, a) + rest;
      assert ReplyBytes(r, a) + rest == Le32(Top) + [] + tail;
      ReplyWordBack([], tail);
      PayloadBack(r, a, rest);
    }
  }

  lemma ReplyWordBack(text: Bytes, rest: Bytes)
    requires Sendable(text)
    ensures |text| % Top == |text|
    ensures ReadReply(Le32(|text| % Top + Top) + text + rest) == Got(text, rest)
  {
    hide Le32, ReadU32, ReadN;
    Assoc(Le32(|text| % Top + Top), text, rest);
    U32Back(|text| + Top, text + rest);
    NBack(text, rest);
  }

  /** An error arrives as an error exactly when its text is not empty: an empty one is written as
      the same four bytes as success, and the plugin goes on to read a payload that never comes. */
  lemma ErrorNeedsText(r: Request, text: Bytes, rest: Bytes)
    requires Sendable(text)
    ensures Receive(r, ReplyBytes(r, Refused(text)) + rest) == Got(Failed(text), rest) <==> text != []
  {
    hide ReadPayload, ReadReply, Le32;
    ReplyWordBack(text, rest);
    if text == [] {
      PayloadNeverFails(r, rest);
    }
  }

  lemma PayloadNeverFails(r: Request, b: Bytes)
    ensures ReadPayload(r, b).Got? ==> !ReadPayload(r, b).value.Failed?
  {}

  // ---------- whole runs ----------

  /** The server's functions: a step of its state and an answer for each request. */
  datatype Server<!S> = Server(handle: (S, Request) -> (S, Answer))

  ghost predicate ServerOk<S(!new)>(server: Server<S>)
  {
    forall s, r :: RequestOk(r) ==> AnswerOk(r, server.handle(s, r).1)
  }

  /** The two pipes, the server's state and what the caller got so far; `stuck` when a side waits
      for bytes that are not there. */
  datatype World<S> = World(toServer: Bytes, toPlugin: Bytes, state: S, outcomes: seq<Outcome>, stuck: bool)

  function Round<S>(server: Server<S>, w: World<S>, r: Request): World<S>
  {
    var sent := w.toServer + RequestBytes(r);
    match ReadRequest(sent)
    case Got(Call(q), left) =>
      var (state, a) := server.handle(w.state, q);
      if !Fits(q, a) then w.(stuck := true)
      else
        (match Receive(r, w.toPlugin + ReplyBytes(q, a))
         case Got(outcome, rest) => World(left, rest, state, w.outcomes + [outcome], w.stuck)
         case _ => w.(stuck := true))
    case _ => w.(stuck := true)
  }

  function Run<S>(server: Server<S>, w: World<S>, rs: seq<Request>): World<S>
    decreases |rs|
  {
    if rs == [] then w else Run(server, Round(server, w, rs[0]), rs[1..])
  }

  /** The same requests as plain calls. */
  function Direct<S>(server: Server<S>, state: S, outcomes: seq<Outcome>, rs: seq<Request>): (S, seq<Outcome>)
    decreases |rs|
  {
    if rs == [] then (state, outcomes)
    else
      var (next, a) := server.handle(state, rs[0]);
      Direct(server, next, outcomes + [if a.Refused? then Failed(a.text) else Done(a)], rs[1..])
  }

  lemma RoundIsCall<S(!new)>(server: Server<S>, w: World<S>, r: Request)
    requires ServerOk(server) && RequestOk(r) && w.toServer == [] && w.toPlugin == [] && !w.stuck
    ensures var a := server.handle(w.state, r).1;
      Round(server, w, r) ==
        World([], [], server.handle(w.state, r).0, w.outcomes + [if a.Refused? then Failed(a.text) else Done(a)], false)
  {
    hide RequestBytes, ReplyBytes, ReadRequest, Receive;
    var a := server.handle(w.state, r).1;
    assert w.toServer + RequestBytes(r) == RequestBytes(r) + [];
    RequestIsRead(r, []);
    assert w.toPlugin + ReplyBytes(r, a) == ReplyBytes(r, a) + [];
    ReplyIsReceived(r, a, []);
  }

  /** Over any run of commands the pipes are empty after each, nobody waits in vain, and the caller
      sees what direct calls would have returned; a drawing never ends for want of buffer. */
  lemma {:induction false} RunIsDirect<S(!new)>(server: Server<S>, w: World<S>, rs: seq<Request>)
    requires ServerOk(server) && (forall r <- rs :: RequestOk(r))
    requires w.toServer == [] && w.toPlugin == [] && !w.stuck && NotSufficientBuffer !in w.outcomes
    ensures var (state, outcomes) := Direct(server, w.state, w.outcomes, rs);
      Run(server, w, rs) == World([], [], state, outcomes, false) && NotSufficientBuffer !in outcomes
    decreases |rs|
  {
    hide Round;
    if rs != [] {
      RoundIsCall(server, w, rs[0]);
      assert forall r <- rs[1..] :: r in rs;
      RunIsDirect(server, Round(server, w, rs[0]), rs[1..]);
    }
  }
}
