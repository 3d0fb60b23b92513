/** The byte protocol between the plugin (`src/c/ipc.c`) and the server (`src/go/ipc`): what each
    side writes for a command and how the other side reads it. */
module IpcWire {
  import opened Names
  import Packbits

  type Bytes = seq<Packbits.byte>
  type U32 = x: int | 0 <= x < 0x1_0000_0000
  type I32 = x: int | -0x8000_0000 <= x < 0x8000_0000
  type U64 = x: int | 0 <= x < 0x1_0000_0000_0000_0000

  const Top: int := 0x8000_0000

  // ---------- requests and answers ----------

  /** The optional properties of PROP; the scale is a float32 by its bits. */
  datatype Props = Props(tag: Option<U32>, layer: Option<Bytes>, scale: Option<U32>, offsetX: Option<I32>, offsetY: Option<I32>)

  datatype Request =
    | AddFile(path: Bytes, tag: U32)
    | ClearFiles
    | Deserialize(src: Bytes)
    | Draw(id: I32, path: Bytes, width: I32, height: I32)
    | LayerNames(id: I32, path: Bytes)
    | Serialize
    | SetProperties(id: I32, path: Bytes, props: Props)
    | ShowGui
    | UpdateProjectPath(path: Bytes)

  /** What the server's own functions return for a request. */
  datatype Answer =
    | Refused(text: Bytes)
    | Plain
    | Text(s: Bytes)
    | Pixels(data: Bytes)
    | Properties(modified: bool, key: U32, width: int, height: int)
    | Window(handle: U64)

  /** The kind of answer belongs to the request by the types of the server's functions. */
  predicate Fits(r: Request, a: Answer)
  {
    match a
    case Refused(_) => true
    case Plain => r.AddFile? || r.ClearFiles? || r.Deserialize? || r.UpdateProjectPath?
    case Text(_) => r.LayerNames? || r.Serialize?
    case Pixels(_) => r.Draw?
    case Properties(_, _, _, _) => r.SetProperties?
    case Window(_) => r.ShowGui?
  }

  predicate Sendable(s: Bytes) { |s| < Top }

  /** Strings are shorter than 2^31 and image sizes not negative, with `4 * width * height` below 2^31. */
  predicate RequestOk(r: Request)
  {
    match r
    case AddFile(path, _) => Sendable(path)
    case Deserialize(src) => Sendable(src)
    case Draw(_, path, w, h) => Sendable(path) && w >= 0 && h >= 0 && 4 * w * h < Top
    case LayerNames(_, path) => Sendable(path)
    case SetProperties(_, path, p) => Sendable(path) && (p.layer.Some? ==> Sendable(p.layer.value))
    case UpdateProjectPath(path) => Sendable(path)
    case _ => true
  }

  /** Error texts are not empty, and a drawn image has four bytes a pixel. */
  predicate AnswerOk(r: Request, a: Answer)
  {
    && Fits(r, a)
    && match a
       case Refused(text) => text != [] && Sendable(text)
       case Text(s) => Sendable(s)
       case Pixels(data) => r.Draw? && |data| == 4 * r.width * r.height
       case Properties(_, _, w, h) => -Top <= w < Top && -Top <= h < Top
       case _ => true
  }

  // ---------- numbers and strings ----------

  function Le32(x: U32): (b: Bytes)
    ensures |b| == 4
  {
    [x % 256, x / 256 % 256, x / 65536 % 256, x / 16777216]
  }

  function Value32(b: Bytes): U32
    requires |b| == 4
  {
    b[0] as int + 256 * (b[1] as int) + 65536 * (b[2] as int) + 16777216 * (b[3] as int)
  }

  function Unsigned(x: I32): U32 { if x < 0 then x + 0x1_0000_0000 else x }

  function Signed(x: U32): I32 { if x >= Top then x - 0x1_0000_0000 else x }

  /** A conversion to uint32 keeps the low 32 bits. */
  function Low32(x: int): U32 { x % 0x1_0000_0000 }

  function Le64(x: U64): (b: Bytes)
    ensures |b| == 8
  {
    Le32(x % 0x1_0000_0000) + Le32(x / 0x1_0000_0000)
  }

  function Blob(s: Bytes): Bytes { Le32(Low32(|s|)) + s }

  /** What reading leaves: a value, too few bytes, or Go's panic on a negative slice length. */
  datatype Got<+T> = Got(value: T, rest: Bytes) | Short | Panic

  function ReadN(b: Bytes, n: nat): Got<Bytes>
  {
    if |b| < n then Short else Got(b[..n], b[n..])
  }

  function ReadU32(b: Bytes): Got<U32>
  {
    if |b| < 4 then Short else Got(Value32(b[..4]), b[4..])
  }

  function ReadI32(b: Bytes): Got<I32>
  {
    match ReadU32(b)
    case Got(x, rest) => Got(Signed(x), rest)
    case Short => Short
    case Panic => Panic
  }

  function ReadU64(b: Bytes): Got<U64>
  {
    if |b| < 8 then Short
    else Got(Value32(b[..4]) + 0x1_0000_0000 * Value32(b[4..8]), b[8..])
  }

  /** The server's `readString`: the length is signed. */
  function ReadString(b: Bytes): Got<Bytes>
  {
    match ReadI32(b)
    case Got(n, rest) => if n < 0 then Panic else ReadN(rest, n)
    case Short => Short
    case Panic => Panic
  }

  /** The plugin's `read_string_utf8`: the length is unsigned. */
  function ReadText(b: Bytes): Got<Bytes>
  {
    match ReadU32(b)
    case Got(n, rest) => ReadN(rest, n)
    case Short => Short
    case Panic => Panic
  }

  lemma Value32OfLe32(x: U32)
    ensures Value32(Le32(x)) == x
  {
    var q: nat := x / 256;
    var r: nat := q / 256;
    assert x / 65536 == r;
    assert x / 16777216 == r / 256 < 256;
    assert x == 256 * q + x % 256 && q == 256 * r + q % 256 && r == 256 * (r / 256) + r % 256;
  }

  lemma U32Back(x: U32, rest: Bytes)
    ensures ReadU32(Le32(x) + rest) == Got(x, rest)
  {
    var b := Le32(x) + rest;
    assert b[..4] == Le32(x) && b[4..] == rest;
    Value32OfLe32(x);
  }

  lemma I32Back(x: I32, rest: Bytes)
    ensures ReadI32(Le32(Unsigned(x)) + rest) == Got(x, rest)
  {
    U32Back(Unsigned(x), rest);
  }

  lemma U64Back(x: U64, rest: Bytes)
    ensures ReadU64(Le64(x) + rest) == Got(x, rest)
  {
    var b := Le64(x) + rest;
    assert b[..4] == Le32(x % 0x1_0000_0000) && b[4..8] == Le32(x / 0x1_0000_0000) && b[8..] == rest;
    Value32OfLe32(x % 0x1_0000_0000);
    Value32OfLe32(x / 0x1_0000_0000);
  }

  lemma NBack(s: Bytes, rest: Bytes)
    ensures ReadN(s + rest, |s|) == Got(s, rest)
  {
    assert (s + rest)[..|s|] == s && (s + rest)[|s|..] == rest;
  }

  /** Strings below 2^31 come back on either side. */
  lemma StringBack(s: Bytes, rest: Bytes)
    requires Sendable(s)
    ensures ReadString(Blob(s) + rest) == Got(s, rest) && ReadText(Blob(s) + rest) == Got(s, rest)
  {
    assert Low32(|s|) == |s|;
    hide Le32, Value32;
    assert Blob(s) + rest == Le32(|s|) + (s + rest);
    U32Back(|s|, s + rest);
    NBack(s, rest);
  }

  // ---------- what the plugin writes ----------

  const ADDF: Bytes := [0x41, 0x44, 0x44, 0x46]
  const CLRF: Bytes := [0x43, 0x4c, 0x52, 0x46]
  const DSLZ: Bytes := [0x44, 0x53, 0x4c, 0x5a]
  const DRAW: Bytes := [0x44, 0x52, 0x41, 0x57]
  const LNAM: Bytes := [0x4c, 0x4e, 0x41, 0x4d]
  const SRLZ: Bytes := [0x53, 0x52, 0x4c, 0x5a]
  const PROP: Bytes := [0x50, 0x52, 0x4f, 0x50]
  const SGUI: Bytes := [0x53, 0x47, 0x55, 0x49]
  const UPDP: Bytes := [0x55, 0x50, 0x44, 0x50]
  const HELO: Bytes := [0x48, 0x45, 0x4c, 0x4f]

  function Command(r: Request): (c: Bytes)
    ensures |c| == 4 && c[3] < 128
  {
    match r
    case AddFile(_, _) => ADDF
    case ClearFiles => CLRF
    case Deserialize(_) => DSLZ
    case Draw(_, _, _, _) => DRAW
    case LayerNames(_, _) => LNAM
    case Serialize => SRLZ
    case SetProperties(_, _, _) => PROP
    case ShowGui => SGUI
    case UpdateProjectPath(_) => UPDP
  }

  function TagBytes(p: Props): Bytes { if p.tag.None? then [] else Le32(5) + Le32(p.tag.value) }
  function LayerBytes(p: Props): Bytes { if p.layer.None? then [] else Le32(1) + Blob(p.layer.value) }
  function ScaleBytes(p: Props): Bytes { if p.scale.None? then [] else Le32(2) + Le32(p.scale.value) }
  function OffsetXBytes(p: Props): Bytes { if p.offsetX.None? then [] else Le32(3) + Le32(Unsigned(p.offsetX.value)) }
  function OffsetYBytes(p: Props): Bytes { if p.offsetY.None? then [] else Le32(4) + Le32(Unsigned(p.offsetY.value)) }

  function PropBytes(p: Props): Bytes
  {
    TagBytes(p) + LayerBytes(p) + ScaleBytes(p) + OffsetXBytes(p) + OffsetYBytes(p) + Le32(0)
  }

  function ArgBytes(r: Request): Bytes
  {
    match r
    case AddFile(path, tag) => Blob(path) + Le32(tag)
    case Deserialize(src) => Blob(src)
    case Draw(id, path, w, h) => Le32(Unsigned(id)) + Blob(path) + Le32(Unsigned(w)) + Le32(Unsigned(h))
    case LayerNames(id, path) => Le32(Unsigned(id)) + Blob(path)
    case SetProperties(id, path, p) => Le32(Unsigned(id)) + Blob(path) + PropBytes(p)
    case UpdateProjectPath(path) => Blob(path)
    case _ => []
  }

  function RequestBytes(r: Request): Bytes { Command(r) + ArgBytes(r) }

  // ---------- how the server reads it ----------

  datatype Incoming = Call(r: Request) | Hello | Reply(text: Bytes) | Unknown(command: Bytes)

  const NoProps := Props(None, None, None, None, None)

  /** The loop over tagged properties, until the end mark; an unknown tag is skipped alone. */
  function ReadProps(b: Bytes, p: Props): Got<Props>
    decreases |b|
  {
    match ReadI32(b)
    case Short => Short
    case Panic => Panic
    case Got(pid, rest) =>
      if pid == 0 then Got(p, rest)
      else
        match ReadProp(pid, rest, p)
        case Short => Short
        case Panic => Panic
        case Got(q, more) => if |more| < |b| then ReadProps(more, q) else Short
  }

  /** The value behind one tag. */
  function ReadProp(pid: I32, b: Bytes, p: Props): (r: Got<Props>)
    ensures r.Got? ==> |r.rest| <= |b|
  {
    if pid == 5 then
      match ReadU32(b)
      case Got(x, rest) => Got(p.(tag := Some(x)), rest)
      case Short => Short
      case Panic => Panic
    else if pid == 1 then
      match ReadString(b)
      case Got(x, rest) => Got(p.(layer := Some(x)), rest)
      case Short => Short
      case Panic => Panic
    else if pid == 2 then
      match ReadU32(b)
      case Got(x, rest) => Got(p.(scale := Some(x)), rest)
      case Short => Short
      case Panic => Panic
    else if pid == 3 then
      match ReadI32(b)
      case Got(x, rest) => Got(p.(offsetX := Some(x)), rest)
      case Short => Short
      case Panic => Panic
    else if pid == 4 then
      match ReadI32(b)
      case Got(x, rest) => Got(p.(offsetY := Some(x)), rest)
      case Short => Short
      case Panic => Panic
    else Got(p, b)
  }

  /** Reading one thing and then another. */
  function Then<T, U>(g: Got<T>, f: (T, Bytes) -> Got<U>): Got<U>
  {
    match g
    case Got(x, rest) => f(x, rest)
    case Short => Short
    case Panic => Panic
  }

  /** `readIDAndFilePath` */
  function ReadIdAndPath(b: Bytes): Got<(I32, Bytes)>
  {
    match ReadI32(b)
    case Short => Short
    case Panic => Panic
    case Got(id, b1) =>
      match ReadString(b1)
      case Short => Short
      case Panic => Panic
      case Got(path, b2) => Got((id, path), b2)
  }

  function ReadDraw(b: Bytes): Got<Incoming>
  {
    match ReadIdAndPath(b)
    case Short => Short
    case Panic => Panic
    case Got(x, b1) =>
      match ReadI32(b1)
      case Short => Short
      case Panic => Panic
      case Got(w, b2) =>
        match ReadI32(b2)
        case Short => Short
        case Panic => Panic
        case Got(h, b3) => Got(Call(Draw(x.0, x.1, w, h)), b3)
  }

  function ReadSetProperties(b: Bytes): Got<Incoming>
  {
    match ReadIdAndPath(b)
    case Short => Short
    case Panic => Panic
    case Got(x, b1) =>
      match ReadProps(b1, NoProps)
      case Short => Short
      case Panic => Panic
      case Got(p, b2) => Got(Call(SetProperties(x.0, x.1, p)), b2)
  }

  /** The argument part of `dispatch`. */
  function ReadArgs(command: Bytes, b: Bytes): Got<Incoming>
  {
    if command == ADDF then
      Then(ReadString(b), (path, b1) => Then(ReadU32(b1), (tag, b2) => Got(Call(AddFile(path, tag)), b2)))
    else if command == UPDP then Then(ReadString(b), (path, b1) => Got(Call(UpdateProjectPath(path)), b1))
    else if command == CLRF then Got(Call(ClearFiles), b)
    else if command == DRAW then ReadDraw(b)
    else if command == LNAM then Then(ReadIdAndPath(b), (x: (I32, Bytes), b1: Bytes) => Got(Call(LayerNames(x.0, x.1)), b1))
    else if command == PROP then ReadSetProperties(b)
    else if command == SGUI then Got(Call(ShowGui), b)
    else if command == SRLZ then Got(Call(Serialize), b)
    else if command == DSLZ then Then(ReadString(b), (src, b1) => Got(Call(Deserialize(src)), b1))
    else if command == HELO then Got(Hello, b)
    else Got(Unknown(command), b)
  }

  /** `readCommand`: a word with its top bit set is the plugin's reply to a request of the server. */
  function ReadRequest(b: Bytes): Got<Incoming>
  {
    if |b| < 4 then Short
    else
      var word := Value32(b[..4]);
      if word >= Top then
        match ReadN(b[4..], word - Top)
        case Got(text, rest) => Got(Reply(text), rest)
        case Short => Short
        case Panic => Panic
      else ReadArgs(b[..4], b[4..])
  }

  // ---------- what the server writes ----------

  function ErrorBytes(text: Bytes): Bytes { Le32(|text| % Top + Top) + text }

  function PayloadBytes(r: Request, a: Answer): Bytes
  {
    match a
    case Refused(_) => []
    case Plain => if r.Deserialize? then Le32(1) else []
    case Text(s) => Blob(s)
    case Pixels(data) => Blob(data)
    case Properties(modified, key, w, h) =>
      Le32(if modified then 1 else 0) + Le32(key) + Le32(Low32(w)) + Le32(Low32(h))
    case Window(handle) => Le64(handle)
  }

  function ReplyBytes(r: Request, a: Answer): Bytes
  {
    match a
    case Refused(text) => ErrorBytes(text)
    case _ => Le32(Top) + PayloadBytes(r, a)
  }

  // ---------- how the plugin reads it ----------

  datatype Outcome = Failed(text: Bytes) | NotSufficientBuffer | Done(a: Answer)

  /** `read_worker` and `read_reply`: the error text, empty when there is none.  A word without its
      top bit is a request of the server and never a reply. */
  function ReadReply(b: Bytes): Got<Bytes>
  {
    match ReadU32(b)
    case Got(word, rest) => if word < Top then Short else ReadN(rest, word - Top)
    case Short => Short
    case Panic => Panic
  }

  /** What each `ipc_*` function reads after a reply without an error. */
  function ReadPayload(r: Request, b: Bytes): Got<Outcome>
  {
    if r.Draw? then
      match ReadU32(b)
      case Got(n, rest) =>
        if n > Low32(r.width * 4 * r.height) then Got(NotSufficientBuffer, rest) else Finished(ReadPixels(rest, n))
      case Short => Short
      case Panic => Panic
    else Finished(ReadAnswer(r, b))
  }

  function Finished(g: Got<Answer>): (o: Got<Outcome>)
    ensures o.Got? ==> o.value.Done?
  {
    Then(g, (a, rest) => Got(Done(a), rest))
  }

  function ReadPixels(b: Bytes, n: nat): Got<Answer>
  {
    Then(ReadN(b, n), (data, rest) => Got(Pixels(data), rest))
  }

  function ReadAnswer(r: Request, b: Bytes): Got<Answer>
    requires !r.Draw?
  {
    match r
    case AddFile(_, _) => Got(Plain, b)
    case ClearFiles => Got(Plain, b)
    case UpdateProjectPath(_) => Got(Plain, b)
    case Deserialize(_) => Then(ReadU32(b), (_, b1) => Got(Plain, b1))
    case LayerNames(_, _) => Then(ReadText(b), (s, b1) => Got(Text(s), b1))
    case Serialize => Then(ReadText(b), (s, b1) => Got(Text(s), b1))
    case SetProperties(_, _, _) => ReadProperties(b)
    case ShowGui => Then(ReadU64(b), (handle, b1) => Got(Window(handle), b1))
  }

  function ReadProperties(b: Bytes): Got<Answer>
  {
    match ReadI32(b)
    case Short => Short
    case Panic => Panic
    case Got(m, b1) =>
      match ReadU32(b1)
      case Short => Short
      case Panic => Panic
      case Got(key, b2) =>
        match ReadI32(b2)
        case Short => Short
        case Panic => Panic
        case Got(w, b3) =>
          match ReadI32(b3)
          case Short => Short
          case Panic => Panic
          case Got(h, b4) => Got(Properties(m != 0, key, w, h), b4)
  }

  function Receive(r: Request, b: Bytes): Got<Outcome>
  {
    Then(ReadReply(b), (text, rest) => if text != [] then Got(Failed(text), rest) else ReadPayload(r, rest))
  }
}
