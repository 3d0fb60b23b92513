/** The reading and writing functions of both sides, as they work on the two pipes. */
module IpcStreams {
  import opened Names
  import opened IpcWire
  import opened IpcRoundTrip

  /** A pipe: what was written and not read yet. */
  class Pipe {
    var bytes: Bytes

    constructor ()
      ensures bytes == []
    {
      bytes := [];
    }

    method Write(b: Bytes)
      modifies this
      ensures bytes == old(bytes) + b
    {
      bytes := bytes + b;
    }

    /** Reads `n` bytes, or nothing when the other side wrote fewer. */
    method Read(n: nat) returns (r: Option<Bytes>)
      modifies this
      ensures match ReadN(old(bytes), n)
              case Got(b, rest) => r == Some(b) && bytes == rest
              case _ => r == None && bytes == old(bytes)
    {
      if |bytes| < n {
        return None;
      }
      r := Some(bytes[..n]);
      bytes := bytes[n..];
    }
  }

  datatype Taken<+T> = Value(v: T) | Eof | Crash

  /** A reading function took from the pipe what `g` describes. */
  predicate Took<T(==)>(g: Got<T>, r: Taken<T>, left: Bytes)
  {
    match g
    case Got(x, rest) => r == Value(x) && left == rest
    case Short => r == Eof
    case Panic => r == Crash
  }

  method TakeU32(p: Pipe) returns (r: Taken<U32>)
    modifies p
    ensures Took(ReadU32(old(p.bytes)), r, p.bytes)
  {
    var b := p.Read(4);
    return if b.None? then Eof else Value(Value32(b.value));
  }

  method TakeI32(p: Pipe) returns (r: Taken<I32>)
    modifies p
    ensures Took(ReadI32(old(p.bytes)), r, p.bytes)
  {
    var l := TakeU32(p);
    match l {
      case Value(x) => return Value(Signed(x));
      case Eof => return Eof;
      case Crash => return Crash;
    }
  }

  /** The server's `readString`. */
  method TakeString(p: Pipe) returns (r: Taken<Bytes>)
    modifies p
    ensures Took(ReadString(old(p.bytes)), r, p.bytes)
  {
    var l := TakeI32(p);
    match l {
      case Eof => return Eof;
      case Crash => return Crash;
      case Value(n) =>
        if n < 0 {
          return Crash;
        }
        var b := p.Read(n);
        return if b.None? then Eof else Value(b.value);
    }
  }

  /** The plugin's `read_string_utf8`. */
  method TakeText(p: Pipe) returns (r: Taken<Bytes>)
    modifies p
    ensures Took(ReadText(old(p.bytes)), r, p.bytes)
  {
    var l := TakeU32(p);
    if l.Eof? || l.Crash? {
      return Eof;
    }
    var b := p.Read(l.v);
    return if b.None? then Eof else Value(b.value);
  }

  // ---------- the plugin writes ----------

  method WriteText(p: Pipe, s: Bytes)
    modifies p
    ensures p.bytes == old(p.bytes) + Blob(s)
  {
    p.Write(Le32(Low32(|s|)));
    p.Write(s);
  }

  /** The option block of `ipc_set_properties`. */
  method WriteProps(p: Pipe, props: Props)
    modifies p
    ensures p.bytes == old(p.bytes) + PropBytes(props)
  {
    hide Le32, Blob;
    ghost var start := p.bytes;
    if props.tag.Some? {
      p.Write(Le32(5));
      p.Write(Le32(props.tag.value));
    }
    assert p.bytes == start + TagBytes(props);
    ghost var done := p.bytes;
    if props.layer.Some? {
      p.Write(Le32(1));
      WriteText(p, props.layer.value);
    }
    assert p.bytes == done + LayerBytes(props);
    done := p.bytes;
    if props.scale.Some? {
      p.Write(Le32(2));
      p.Write(Le32(props.scale.value));
    }
    assert p.bytes == done + ScaleBytes(props);
    done := p.bytes;
    WriteOffsets(p, props);
    hide TagBytes, LayerBytes, ScaleBytes, OffsetXBytes, OffsetYBytes;
    p.Write(Le32(0));
    Six(start, TagBytes(props), LayerBytes(props), ScaleBytes(props), OffsetXBytes(props), OffsetYBytes(props), Le32(0));
  }

  method WriteOffsets(p: Pipe, props: Props)
    modifies p
    ensures p.bytes == old(p.bytes) + OffsetXBytes(props) + OffsetYBytes(props)
  {
    hide Le32;
    ghost var start := p.bytes;
    if props.offsetX.Some? {
      p.Write(Le32(3));
      p.Write(Le32(Unsigned(props.offsetX.value)));
    }
    assert p.bytes == start + OffsetXBytes(props);
    ghost var done := p.bytes;
    if props.offsetY.Some? {
      p.Write(Le32(4));
      p.Write(Le32(Unsigned(props.offsetY.value)));
    }
    assert p.bytes == done + OffsetYBytes(props);
  }

  lemma Six(s: Bytes, a: Bytes, b: Bytes, c: Bytes, d: Bytes, e: Bytes, f: Bytes)
    ensures s + a + b + c + d + e + f == s + (a + b + c + d + e + f)
  {
    Assoc(s, a, b);
    Assoc(s, a + b, c);
    Assoc(s, a + b + c, d);
    Assoc(s, a + b + c + d, e);
    Assoc(s, a + b + c + d + e, f);
  }

  /** Everything an `ipc_*` function writes before it waits for the reply. */
  method Send(p: Pipe, r: Request)
    modifies p
    ensures p.bytes == old(p.bytes) + RequestBytes(r)
  {
    hide Le32, Blob, PropBytes;
    ghost var start := p.bytes;
    p.Write(Command(r));
    match r {
      case AddFile(path, tag) =>
        WriteText(p, path);
        p.Write(Le32(tag));
      case Deserialize(src) => WriteText(p, src);
      case Draw(id, path, w, h) => WriteDraw(p, id, path, w, h);
      case LayerNames(id, path) =>
        p.Write(Le32(Unsigned(id)));
        WriteText(p, path);
      case SetProperties(id, path, props) =>
        p.Write(Le32(Unsigned(id)));
        WriteText(p, path);
        WriteProps(p, props);
      case UpdateProjectPath(path) => WriteText(p, path);
      case ClearFiles =>
      case Serialize =>
      case ShowGui =>
    }
    Assoc(start, Command(r), ArgBytes(r));
  }

  method WriteDraw(p: Pipe, id: I32, path: Bytes, w: I32, h: I32)
    modifies p
    ensures p.bytes == old(p.bytes) + (Le32(Unsigned(id)) + Blob(path) + Le32(Unsigned(w)) + Le32(Unsigned(h)))
  {
    hide Le32, Blob;
    ghost var start := p.bytes;
    p.Write(Le32(Unsigned(id)));
    WriteText(p, path);
    p.Write(Le32(Unsigned(w)));
    p.Write(Le32(Unsigned(h)));
    Six(start, Le32(Unsigned(id)), Blob(path), Le32(Unsigned(w)), Le32(Unsigned(h)), [], []);
  }

  // ---------- the server reads ----------

  method TakeProps(p: Pipe) returns (r: Taken<Props>)
    modifies p
    ensures Took(ReadProps(old(p.bytes), NoProps), r, p.bytes)
  {
    hide ReadI32;
    var props := NoProps;
    while true
      invariant ReadProps(p.bytes, props) == ReadProps(old(p.bytes), NoProps)
      decreases |p.bytes|
    {
      ghost var before := p.bytes;
      TakenIsShorter(before);
      var pid := TakeI32(p);
      match pid {
        case Eof => return Eof;
        case Crash => return Crash;
        case Value(id) =>
          if id == 0 {
            return Value(props);
          }
          var next := TakeProp(p, id, props);
          if next.Eof? {
            return Eof;
          }
          if next.Crash? {
            return Crash;
          }
          props := next.v;
      }
    }
  }

  lemma TakenIsShorter(b: Bytes)
    ensures ReadI32(b).Got? ==> |ReadI32(b).rest| + 4 == |b|
  {}

  method TakeProp(p: Pipe, id: I32, props: Props) returns (r: Taken<Props>)
    modifies p
    ensures Took(ReadProp(id, old(p.bytes), props), r, p.bytes)
  {
    hide ReadI32, ReadU32, ReadString;
    if id == 5 {
      var x := TakeU32(p);
      match x {
        case Value(v) => return Value(props.(tag := Some(v)));
        case Eof => return Eof;
        case Crash => return Crash;
      }
    } else if id == 1 {
      var x := TakeString(p);
      match x {
        case Value(v) => return Value(props.(layer := Some(v)));
        case Eof => return Eof;
        case Crash => return Crash;
      }
    } else if id == 2 {
      var x := TakeU32(p);
      match x {
        case Value(v) => return Value(props.(scale := Some(v)));
        case Eof => return Eof;
        case Crash => return Crash;
      }
    } else if id == 3 {
      var x := TakeI32(p);
      match x {
        case Value(v) => return Value(props.(offsetX := Some(v)));
        case Eof => return Eof;
        case Crash => return Crash;
      }
    } else if id == 4 {
      var x := TakeI32(p);
      match x {
        case Value(v) => return Value(props.(offsetY := Some(v)));
        case Eof => return Eof;
        case Crash => return Crash;
      }
    }
    return Value(props);
  }

  method TakeIdAndPath(p: Pipe) returns (r: Taken<(I32, Bytes)>)
    modifies p
    ensures Took(ReadIdAndPath(old(p.bytes)), r, p.bytes)
  {
    hide ReadI32, ReadString;
    var id := TakeI32(p);
    match id {
      case Eof => return Eof;
      case Crash => return Crash;
      case Value(i) =>
        var path := TakeString(p);
        match path {
          case Eof => return Eof;
          case Crash => return Crash;
          case Value(s) => return Value((i, s));
        }
    }
  }

  method TakeDraw(p: Pipe) returns (r: Taken<Incoming>)
    modifies p
    ensures Took(ReadDraw(old(p.bytes)), r, p.bytes)
  {
    hide ReadI32, ReadIdAndPath;
    var x := TakeIdAndPath(p);
    match x {
      case Eof => return Eof;
      case Crash => return Crash;
      case Value(v) =>
        var w := TakeI32(p);
        if !w.Value? {
          return if w.Eof? then Eof else Crash;
        }
        var h := TakeI32(p);
        if !h.Value? {
          return if h.Eof? then Eof else Crash;
        }
        return Value(Call(Draw(v.0, v.1, w.v, h.v)));
    }
  }

  method TakeSetProperties(p: Pipe) returns (r: Taken<Incoming>)
    modifies p
    ensures Took(ReadSetProperties(old(p.bytes)), r, p.bytes)
  {
    hide ReadProps, ReadIdAndPath;
    var x := TakeIdAndPath(p);
    match x {
      case Eof => return Eof;
      case Crash => return Crash;
      case Value(v) =>
        var props := TakeProps(p);
        if !props.Value? {
          return if props.Eof? then Eof else Crash;
        }
        return Value(Call(SetProperties(v.0, v.1, props.v)));
    }
  }

  /** A command that carries one string. */
  method TakeOneString(p: Pipe, wrap: Bytes -> Request) returns (r: Taken<Incoming>)
    modifies p
    ensures Took(Then(ReadString(old(p.bytes)), (s, rest) => Got(Call(wrap(s)), rest)), r, p.bytes)
  {
    hide ReadString;
    var s := TakeString(p);
    match s {
      case Eof => return Eof;
      case Crash => return Crash;
      case Value(v) => return Value(Call(wrap(v)));
    }
  }

  method TakeAddFile(p: Pipe) returns (r: Taken<Incoming>)
    modifies p
    ensures Took(ReadArgs(ADDF, old(p.bytes)), r, p.bytes)
  {
    hide ReadString, ReadU32;
    var s := TakeString(p);
    match s {
      case Eof => return Eof;
      case Crash => return Crash;
      case Value(path) =>
        var tag := TakeU32(p);
        if !tag.Value? {
          return if tag.Eof? then Eof else Crash;
        }
        return Value(Call(AddFile(path, tag.v)));
    }
  }

  /** The switch of `dispatch`, as far as it reads arguments. */
  method TakeArgs(p: Pipe, command: Bytes) returns (r: Taken<Incoming>)
    modifies p
    ensures Took(ReadArgs(command, old(p.bytes)), r, p.bytes)
  {
    hide ReadString, ReadDraw, ReadSetProperties, ReadIdAndPath, ReadU32;
    if command == ADDF {
      r := TakeAddFile(p);
    } else if command == UPDP {
      r := TakeOneString(p, s => UpdateProjectPath(s));
    } else if command == CLRF {
      return Value(Call(ClearFiles));
    } else if command == DRAW {
      r := TakeDraw(p);
    } else if command == LNAM {
      var x := TakeIdAndPath(p);
      match x {
        case Eof => return Eof;
        case Crash => return Crash;
        case Value(v) => return Value(Call(LayerNames(v.0, v.1)));
      }
    } else if command == PROP {
      r := TakeSetProperties(p);
    } else if command == SGUI {
      return Value(Call(ShowGui));
    } else if command == SRLZ {
      return Value(Call(Serialize));
    } else if command == DSLZ {
      r := TakeOneString(p, s => Deserialize(s));
    } else if command == HELO {
      return Value(Hello);
    } else {
      return Value(Unknown(command));
    }
  }

  method TakeRequest(p: Pipe) returns (r: Taken<Incoming>)
    modifies p
    ensures Took(ReadRequest(old(p.bytes)), r, p.bytes)
  {
    hide ReadArgs, Value32;
    var head := p.Read(4);
    if head.None? {
      return Eof;
    }
    var word: U32 := Value32(head.value);
    if word >= Top {
      var text := p.Read(word - Top);
      return if text.None? then Eof else Value(Reply(text.value));
    }
    r := TakeArgs(p, head.value);
  }

  // ---------- the server writes ----------

  method WriteReply(p: Pipe, r: Request, a: Answer)
    modifies p
    ensures p.bytes == old(p.bytes) + ReplyBytes(r, a)
  {
    hide Le32, Le64, Blob;
    ghost var start := p.bytes;
    match a {
      case Refused(text) =>
        p.Write(Le32(|text| % Top + Top));
        p.Write(text);
        Assoc(start, Le32(|text| % Top + Top), text);
      case Plain =>
        p.Write(Le32(Top));
        if r.Deserialize? {
          p.Write(Le32(1));
        }
      case Text(s) =>
        p.Write(Le32(Top));
        WriteText(p, s);
      case Pixels(data) =>
        p.Write(Le32(Top));
        WriteText(p, data);
      case Properties(modified, key, w, h) =>
        p.Write(Le32(Top));
        WriteProperties(p, modified, key, w, h);
      case Window(handle) =>
        p.Write(Le32(Top));
        p.Write(Le64(handle));
    }
    if !a.Refused? {
      Assoc(start, Le32(Top), PayloadBytes(r, a));
    }
  }

  method WriteProperties(p: Pipe, modified: bool, key: U32, w: int, h: int)
    modifies p
    ensures p.bytes == old(p.bytes) + (Le32(if modified then 1 else 0) + Le32(key) + Le32(Low32(w)) + Le32(Low32(h)))
  {
    hide Le32;
    ghost var start := p.bytes;
    p.Write(Le32(if modified then 1 else 0));
    p.Write(Le32(key));
    p.Write(Le32(Low32(w)));
    p.Write(Le32(Low32(h)));
    Six(start, Le32(if modified then 1 else 0), Le32(key), Le32(Low32(w)), Le32(Low32(h)), [], []);
  }

  // ---------- the plugin reads ----------

  /** The reply word, and the error text behind it. */
  method TakeReply(p: Pipe) returns (r: Taken<Bytes>)
    modifies p
    ensures Took(ReadReply(old(p.bytes)), r, p.bytes)
  {
    var word := TakeU32(p);
    if !word.Value? || word.v < Top {
      return Eof;
    }
    var text := p.Read(word.v - Top);
    return if text.None? then Eof else Value(text.value);
  }

  method TakeProperties(p: Pipe) returns (r: Taken<Answer>)
    modifies p
    ensures Took(ReadProperties(old(p.bytes)), r, p.bytes)
  {
    hide ReadI32, ReadU32;
    var m := TakeI32(p);
    if !m.Value? {
      return if m.Eof? then Eof else Crash;
    }
    var key := TakeU32(p);
    if !key.Value? {
      return if key.Eof? then Eof else Crash;
    }
    var w := TakeI32(p);
    if !w.Value? {
      return if w.Eof? then Eof else Crash;
    }
    var h := TakeI32(p);
    if !h.Value? {
      return if h.Eof? then Eof else Crash;
    }
    return Value(Properties(m.v != 0, key.v, w.v, h.v));
  }

  method TakeAnswer(p: Pipe, r: Request) returns (a: Taken<Answer>)
    requires !r.Draw?
    modifies p
    ensures Took(ReadAnswer(r, old(p.bytes)), a, p.bytes)
  {
    hide ReadU32, ReadText, ReadProperties;
    match r {
      case AddFile(_, _) => return Value(Plain);
      case ClearFiles => return Value(Plain);
      case UpdateProjectPath(_) => return Value(Plain);
      case Deserialize(_) =>
        var x := TakeU32(p);
        return if x.Value? then Value(Plain) else if x.Eof? then Eof else Crash;
      case LayerNames(_, _) =>
        var s := TakeText(p);
        return if s.Value? then Value(Text(s.v)) else if s.Eof? then Eof else Crash;
      case Serialize =>
        var s := TakeText(p);
        return if s.Value? then Value(Text(s.v)) else if s.Eof? then Eof else Crash;
      case SetProperties(_, _, _) => a := TakeProperties(p);
      case ShowGui =>
        var b := p.Read(8);
        if b.None? {
          return Eof;
        }
        assert b.value[..4] == old(p.bytes)[..4] && b.value[4..8] == old(p.bytes)[4..8];
        return Value(Window(Value32(b.value[..4]) + 0x1_0000_0000 * Value32(b.value[4..8])));
    }
  }

  method TakeDrawing(p: Pipe, r: Request) returns (o: Taken<Outcome>)
    requires r.Draw?
    modifies p
    ensures Took(ReadPayload(r, old(p.bytes)), o, p.bytes)
  {
    hide ReadU32;
    var n := TakeU32(p);
    if !n.Value? {
      return if n.Eof? then Eof else Crash;
    }
    if n.v > Low32(r.width * 4 * r.height) {
      return Value(NotSufficientBuffer);
    }
    var data := p.Read(n.v);
    return if data.None? then Eof else Value(Done(Pixels(data.value)));
  }

  /** What an `ipc_*` function reads, from the reply to its last result. */
  method TakeOutcome(p: Pipe, r: Request) returns (o: Taken<Outcome>)
    modifies p
    ensures Took(Receive(r, old(p.bytes)), o, p.bytes)
  {
    hide ReadReply, ReadPayload, ReadAnswer;
    var text := TakeReply(p);
    match text {
      case Eof => return Eof;
      case Crash => return Crash;
      case Value(t) =>
        if t != [] {
          return Value(Failed(t));
        }
        if r.Draw? {
          o := TakeDrawing(p, r);
        } else {
          PayloadIsAnswer(r, p.bytes);
          var a := TakeAnswer(p, r);
          return if a.Value? then Value(Done(a.v)) else if a.Eof? then Eof else Crash;
        }
    }
  }

  lemma PayloadIsAnswer(r: Request, b: Bytes)
    requires !r.Draw?
    ensures ReadPayload(r, b) == Finished(ReadAnswer(r, b))
  {}

  // ---------- a session ----------

  /** A whole session over two pipes gives the caller what direct calls would: nothing is left in
      a pipe, nobody waits in vain and no drawing lacks room. */
  method Session<S(!new)>(server: Server<S>, state0: S, rs: seq<Request>) returns (state: S, outcomes: seq<Outcome>)
    requires ServerOk(server) && forall r <- rs :: RequestOk(r)
    ensures (state, outcomes) == Direct(server, state0, [], rs)
    ensures NotSufficientBuffer !in outcomes
    ensures Run(server, World([], [], state0, [], false), rs) == World([], [], state, outcomes, false)
  {
    hide RequestBytes, ReplyBytes, ReadRequest, Receive, Run;
    RunIsDirect(server, World([], [], state0, [], false), rs);
    var toServer := new Pipe();
    var toPlugin := new Pipe();
    state, outcomes := state0, [];
    assert rs[0..] == rs;
    for i := 0 to |rs|
      invariant toServer != toPlugin && toServer.bytes == [] && toPlugin.bytes == []
      invariant Direct(server, state, outcomes, rs[i..]) == Direct(server, state0, [], rs)
      invariant NotSufficientBuffer !in outcomes
    {
      assert rs[i] in rs && rs[i..][0] == rs[i] && rs[i..][1..] == rs[i + 1..];
      var r := rs[i];
      Send(toServer, r);
      assert toServer.bytes == RequestBytes(r) + [];
      RequestIsRead(r, []);
      var got := TakeRequest(toServer);
      assert got == Value(Call(r)) && toServer.bytes == [];
      var (next, a) := server.handle(state, got.v.r);
      WriteReply(toPlugin, got.v.r, a);
      assert toPlugin.bytes == ReplyBytes(r, a) + [];
      ReplyIsReceived(r, a, []);
      var o := TakeOutcome(toPlugin, r);
      assert o.Value?;
      state, outcomes := next, outcomes + [o.v];
    }
  }
}
