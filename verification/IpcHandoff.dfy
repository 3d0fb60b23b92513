/** The hand-off between the calling thread, the thread `read_worker` and the server
    (`src/c/ipc.c`, with the server as one more process), as a state machine whose three processes
    take their atomic steps in any order.  A token stands for the bytes of one write. */
module IpcHandoff {
  import opened Names

  /** A command: how many writes its arguments take, whether the server refuses it, and how many
      reads the error text or the payload takes. */
  datatype Cmd = Cmd(args: nat, fails: bool, text: nat, payload: nat)

  type Script = seq<Cmd>

  /** Part `k` of command `i` on the way to the server. */
  datatype Sent = Part(i: nat, k: nat)

  /** Parts of the reply to command `i` on the way back; the word carries the size of the error text. */
  datatype Token = Word(i: nat, size: nat) | TextPart(i: nat, k: nat) | Payload(i: nat, k: nat)

  datatype CallerPc = Writing(k: nat) | Waiting | Reading(k: nat) | Finishing | CallerLost
  datatype WorkerPc = AtWord | InText(size: nat, k: nat) | Publish(i: nat, fails: bool) | WaitCaller | WorkerLost
  datatype ServerPc = Ready | InArgs(k: nat) | Replying(k: nat) | ServerLost

  datatype Reply = Reply(i: nat, fails: bool)

  /** `s2c` and `c2s` are the two condition variables, `reply` the field they guard.  The numbers
      `current`, `cycles` and `served` count the commands each process is done with. */
  datatype State = State(
    caller: CallerPc, current: nat, results: seq<Reply>,
    worker: WorkerPc, cycles: nat,
    server: ServerPc, served: nat,
    s2c: bool, c2s: bool, reply: Option<Reply>,
    toServer: seq<Sent>, toPlugin: seq<Token>)

  const Init := State(Writing(0), 0, [], AtWord, 0, Ready, 0, false, false, None, [], [])

  function At(c: Script, i: nat): Cmd { if i < |c| then c[i] else Cmd(0, false, 0, 0) }

  /** What a server writes: the text of an error, or the payload. */
  function Texts(c: Cmd): nat { if c.fails then c.text else 0 }
  function Payloads(c: Cmd): nat { if c.fails then 0 else c.payload }
  function Replies(c: Cmd): (n: nat)
    ensures n >= 1
  {
    1 + Texts(c) + Payloads(c)
  }

  /** The plugin takes a reply as an error when its text is not empty, and only then. */
  predicate Told(c: Cmd) { Texts(c) > 0 }

  /** An error without a text, of a command whose caller would read a payload. */
  predicate Mute(c: Cmd) { c.fails && c.text == 0 && c.payload > 0 }

  /** Token `k` of the reply to command `i`. */
  function ReplyToken(c: Script, i: nat, k: nat): Token
  {
    if k == 0 then Word(i, Texts(At(c, i)))
    else if k <= Texts(At(c, i)) then TextPart(i, k - 1)
    else Payload(i, k - 1 - Texts(At(c, i)))
  }

  // ---------- the steps ----------

  /** The calling thread: write the command, `get_reply`, read the payload, `finish_command_process`. */
  function CallerStep(c: Script, s: State): Option<State>
  {
    if s.current >= |c| then None
    else
      var cmd := c[s.current];
      match s.caller
      case Writing(k) =>
        Some(s.(toServer := s.toServer + [Part(s.current, k)], caller := if k >= cmd.args then Waiting else Writing(k + 1)))
      case Waiting =>
        if !s.s2c then None
        else
          var r := if s.reply.Some? then s.reply.value else Reply(s.current, false);
          Some(s.(s2c := false, reply := None, results := s.results + [r],
                  caller := if r.fails || cmd.payload == 0 then Finishing else Reading(0)))
      case Reading(k) =>
        if s.toPlugin == [] then None
        else
          Some(s.(toPlugin := s.toPlugin[1..],
                  caller := if s.toPlugin[0] != Payload(s.current, k) then CallerLost
                            else if k + 1 >= cmd.payload then Finishing else Reading(k + 1)))
      case Finishing => Some(s.(c2s := true, current := s.current + 1, caller := Writing(0)))
      case CallerLost => None
  }

  /** `read_worker`: read a reply word and its text, hand the reply over, wait for the caller. */
  function WorkerStep(c: Script, s: State): Option<State>
  {
    match s.worker
    case AtWord =>
      if s.toPlugin == [] then None
      else
        var t := s.toPlugin[0];
        Some(s.(toPlugin := s.toPlugin[1..],
                worker := if !t.Word? then WorkerLost
                          else if t.size > 0 then InText(t.size, 0) else Publish(t.i, false)))
    case InText(size, k) =>
      if s.toPlugin == [] then None
      else
        var t := s.toPlugin[0];
        Some(s.(toPlugin := s.toPlugin[1..],
                worker := if !t.TextPart? || t.k != k then WorkerLost
                          else if k + 1 >= size then Publish(t.i, true) else InText(size, k + 1)))
    case Publish(i, fails) => Some(s.(reply := Some(Reply(i, fails)), s2c := true, worker := WaitCaller))
    case WaitCaller => if !s.c2s then None else Some(s.(c2s := false, worker := AtWord, cycles := s.cycles + 1))
    case WorkerLost => None
  }

  /** The server reads a command and writes its reply, one token at a time. */
  function ServerStep(c: Script, s: State): Option<State>
  {
    match s.server
    case Ready => if s.toServer == [] then None else Some(TakePart(c, s, 0))
    case InArgs(k) => if s.toServer == [] then None else Some(TakePart(c, s, k))
    case Replying(k) =>
      var more := s.(toPlugin := s.toPlugin + [ReplyToken(c, s.served, k)]);
      Some(if k + 1 >= Replies(At(c, s.served)) then more.(server := Ready, served := s.served + 1)
           else more.(server := Replying(k + 1)))
    case ServerLost => None
  }

  function TakePart(c: Script, s: State, k: nat): State
    requires s.toServer != []
  {
    s.(toServer := s.toServer[1..],
       server := if s.toServer[0] != Part(s.served, k) then ServerLost
                 else if k >= At(c, s.served).args then Replying(0) else InArgs(k + 1))
  }

  datatype Process = TheCaller | TheWorker | TheServer

  function Step(c: Script, s: State, p: Process): Option<State>
  {
    match p
    case TheCaller => CallerStep(c, s)
    case TheWorker => WorkerStep(c, s)
    case TheServer => ServerStep(c, s)
  }

  /** Any interleaving: a process that cannot step is passed over. */
  function Exec(c: Script, ps: seq<Process>): State
  {
    if ps == [] then Init
    else
      var s := Exec(c, ps[..|ps| - 1]);
      var t := Step(c, s, ps[|ps| - 1]);
      if t.Some? then t.value else s
  }

  // ---------- what every step keeps ----------

  predicate CallerReads(s: State) { s.caller.Reading? }

  predicate WorkerReads(s: State) { s.worker.AtWord? || s.worker.InText? }

  /** How many writes of the current command are done. */
  function Written(c: Script, s: State): nat
  {
    match s.caller
    case Writing(k) => k
    case _ => 1 + At(c, s.current).args
  }

  /** How many tokens of the current reply are read. */
  function Consumed(c: Script, s: State): nat
  {
    var cmd := At(c, s.current);
    match s.caller
    case Reading(k) => 1 + Texts(cmd) + k
    case Finishing => Replies(cmd)
    case _ =>
      if s.cycles != s.current then 0
      else
        match s.worker
        case AtWord => 0
        case InText(_, k) => 1 + k
        case _ => 1 + Texts(cmd)
  }

  function Parts(i: nat, from: nat, to: nat): seq<Sent>
    requires from <= to
  {
    seq(to - from, k requires 0 <= k < to - from => Part(i, from + k))
  }

  function Tokens(c: Script, i: nat, from: nat, to: nat): seq<Token>
    requires from <= to
  {
    seq(to - from, k requires 0 <= k < to - from => ReplyToken(c, i, from + k))
  }

  /** Nobody has handed over the current reply yet: the worker reads it or has still to notice the
      end of the command before. */
  ghost predicate Early(c: Script, s: State)
  {
    && !s.s2c && s.reply == None && |s.results| == s.current
    && (s.caller.Waiting? || (s.caller.Writing? && s.caller.k <= At(c, s.current).args))
    && (|| (s.worker.WaitCaller? && s.c2s && s.cycles + 1 == s.current)
        || (!s.c2s && s.cycles == s.current && s.worker.AtWord?)
        || (!s.c2s && s.cycles == s.current && s.worker.InText? && s.worker.k < s.worker.size == Texts(At(c, s.current)))
        || (!s.c2s && s.cycles == s.current && s.worker == Publish(s.current, Told(At(c, s.current)))))
  }

  /** The reply is handed over and the worker waits until the caller is done. */
  ghost predicate Late(c: Script, s: State)
  {
    var cmd := At(c, s.current);
    && s.worker.WaitCaller? && !s.c2s && s.cycles == s.current && s.current < |c|
    && (s.s2c ==> s.caller.Waiting? && s.reply == Some(Reply(s.current, Told(cmd))) && |s.results| == s.current)
    && (!s.s2c ==> s.reply == None && |s.results| == s.current + 1)
    && (!s.s2c ==> s.caller.Finishing? || s.caller.Reading?)
    && (!s.s2c && s.caller.Finishing? ==> !Mute(cmd))
    && (!s.s2c && s.caller.Reading? ==> s.caller.k < cmd.payload && !Told(cmd) && (cmd.fails ==> s.caller.k == 0))
  }

  ghost predicate PipesOk(c: Script, s: State)
  {
    var w, x, cmd := Written(c, s), Consumed(c, s), At(c, s.current);
    || (s.served == s.current && s.toPlugin == [] && x == 0 &&
        (|| (s.server.Ready? && s.toServer == Parts(s.current, 0, w))
         || (s.server.InArgs? && 1 <= s.server.k <= cmd.args && s.server.k <= w && s.toServer == Parts(s.current, s.server.k, w))))
    || (s.served == s.current && s.current < |c| && s.server.Replying? && s.toServer == [] && w == 1 + cmd.args &&
        x <= s.server.k < Replies(cmd) && s.toPlugin == Tokens(c, s.current, x, s.server.k))
    || (s.served == s.current + 1 && s.current < |c| && s.server.Ready? && s.toServer == [] && w == 1 + cmd.args &&
        x <= Replies(cmd) && s.toPlugin == Tokens(c, s.current, x, Replies(cmd)))
  }

  ghost predicate Inv(c: Script, s: State)
  {
    && s.current <= |c|
    && (s.current == |c| ==> s.caller == Writing(0))
    && (forall j :: 0 <= j < |s.results| ==> s.results[j] == Reply(j, Told(At(c, j))))
    && (forall j :: 0 <= j < s.current ==> !Mute(At(c, j)))
    && (Early(c, s) || Late(c, s))
    && PipesOk(c, s)
  }

  lemma InitKeeps(c: Script)
    ensures Inv(c, Init)
  {
    assert Parts(0, 0, 0) == [];
  }

  lemma TokensTail(c: Script, i: nat, from: nat, to: nat)
    requires from < to
    ensures Tokens(c, i, from, to) != [] && Tokens(c, i, from, to)[0] == ReplyToken(c, i, from)
    ensures Tokens(c, i, from, to)[1..] == Tokens(c, i, from + 1, to)
  {}

  lemma TokensGrow(c: Script, i: nat, from: nat, to: nat)
    requires from <= to
    ensures Tokens(c, i, from, to) + [ReplyToken(c, i, to)] == Tokens(c, i, from, to + 1)
    ensures Tokens(c, i, to, to) == []
  {}

  lemma PartsTail(i: nat, from: nat, to: nat)
    requires from <= to
    ensures from < to ==> Parts(i, from, to) != [] && Parts(i, from, to)[0] == Part(i, from)
    ensures from < to ==> Parts(i, from, to)[1..] == Parts(i, from + 1, to)
    ensures Parts(i, from, to) + [Part(i, to)] == Parts(i, from, to + 1)
    ensures Parts(i, to, to) == []
  {}

  lemma ServerKeeps(c: Script, s: State)
    requires Inv(c, s) && ServerStep(c, s).Some?
    ensures Inv(c, ServerStep(c, s).value)
  {
    ServerLeavesThreads(c, s);
    ServerKeepsPipes(c, s);
  }

  /** The threads do not notice a step of the server. */
  lemma ServerLeavesThreads(c: Script, s: State)
    requires Inv(c, s) && ServerStep(c, s).Some?
    ensures var t := ServerStep(c, s).value;
      && Written(c, t) == Written(c, s) && Consumed(c, t) == Consumed(c, s)
      && Written(c, s) <= 1 + At(c, s.current).args && (s.current >= |c| ==> Written(c, s) == 0)
      && t.caller == s.caller && t.current == s.current && t.results == s.results
      && (Early(c, t) || Late(c, t))
  {
    hide PipesOk;
  }

  lemma ServerKeepsPipes(c: Script, s: State)
    requires PipesOk(c, s) && ServerStep(c, s).Some?
    requires var t := ServerStep(c, s).value;
      Written(c, t) == Written(c, s) && Consumed(c, t) == Consumed(c, s)
    requires Written(c, s) <= 1 + At(c, s.current).args && (s.current >= |c| ==> Written(c, s) == 0)
    ensures PipesOk(c, ServerStep(c, s).value)
  {
    hide Written, Consumed, ReplyToken, Replies, Parts, Tokens;
    var w, x := Written(c, s), Consumed(c, s);
    match s.server
    case Ready =>
      PartsTail(s.current, 0, w);
      PartsTail(s.current, 1, 1);
      TokensGrow(c, s.current, 0, 0);
    case InArgs(k) =>
      PartsTail(s.current, k, w);
      PartsTail(s.current, k + 1, k + 1);
      TokensGrow(c, s.current, 0, 0);
    case Replying(k) => TokensGrow(c, s.current, x, k);
    case ServerLost =>
  }

  lemma CallerKeeps(c: Script, s: State)
    requires Inv(c, s) && CallerStep(c, s).Some?
    ensures Inv(c, CallerStep(c, s).value)
  {
    hide ReplyToken, Parts, Tokens;
    if s.caller.Writing? {
      CallerWrites(c, s);
    } else if s.caller.Reading? {
      CallerReadsOwn(c, s);
    } else if s.caller.Finishing? {
      PartsTail(s.current + 1, 0, 0);
      TokensGrow(c, s.current, Replies(At(c, s.current)), Replies(At(c, s.current)));
    }
  }

  lemma CallerWrites(c: Script, s: State)
    requires Inv(c, s) && CallerStep(c, s).Some? && s.caller.Writing?
    ensures Inv(c, CallerStep(c, s).value)
  {
    hide ReplyToken, Parts, Tokens;
    if s.server.InArgs? {
      PartsTail(s.current, s.server.k, s.caller.k);
    } else {
      PartsTail(s.current, 0, s.caller.k);
    }
  }

  /** What the caller reads is the next part of its own payload. */
  lemma CallerReadsOwn(c: Script, s: State)
    requires Inv(c, s) && s.caller.Reading? && s.toPlugin != []
    ensures var x := Consumed(c, s);
      && !At(c, s.current).fails && s.toPlugin[0] == Payload(s.current, s.caller.k)
      && (s.served == s.current ==> x < s.server.k && s.toPlugin[1..] == Tokens(c, s.current, x + 1, s.server.k))
      && (s.served != s.current ==> s.toPlugin[1..] == Tokens(c, s.current, x + 1, Replies(At(c, s.current))))
  {
    var x, cmd := Consumed(c, s), At(c, s.current);
    hide Tokens;
    TokensGrow(c, s.current, x, x);
    if s.served == s.current {
      TokensTail(c, s.current, x, s.server.k);
    } else {
      TokensTail(c, s.current, x, Replies(cmd));
    }
  }

  /** What the worker reads is the next part of the current reply's word or error text. */
  lemma WorkerReadsOwn(c: Script, s: State)
    requires Inv(c, s) && WorkerReads(s) && s.toPlugin != []
    ensures var x := Consumed(c, s);
      && s.toPlugin[0] == ReplyToken(c, s.current, x) && s.caller.Waiting? && s.current < |c|
      && (s.served == s.current ==> x < s.server.k && s.toPlugin[1..] == Tokens(c, s.current, x + 1, s.server.k))
      && (s.served != s.current ==> s.toPlugin[1..] == Tokens(c, s.current, x + 1, Replies(At(c, s.current))))
  {
    var x, cmd := Consumed(c, s), At(c, s.current);
    hide Tokens, ReplyToken;
    TokensGrow(c, s.current, x, x);
    if s.served == s.current {
      TokensTail(c, s.current, x, s.server.k);
    } else {
      TokensTail(c, s.current, x, Replies(cmd));
    }
  }

  lemma WorkerKeeps(c: Script, s: State)
    requires Inv(c, s) && WorkerStep(c, s).Some?
    ensures Inv(c, WorkerStep(c, s).value)
  {
    hide Parts, Tokens;
    if WorkerReads(s) {
      WorkerReadsOwn(c, s);
    }
  }

  lemma StepKeeps(c: Script, s: State, p: Process)
    requires Inv(c, s) && Step(c, s, p).Some?
    ensures Inv(c, Step(c, s, p).value)
  {
    hide Inv, CallerStep, WorkerStep, ServerStep;
    match p
    case TheCaller => CallerKeeps(c, s);
    case TheWorker => WorkerKeeps(c, s);
    case TheServer => ServerKeeps(c, s);
  }

  lemma {:induction false} ExecKeeps(c: Script, ps: seq<Process>)
    ensures Inv(c, Exec(c, ps))
  {
    hide Inv, Step;
    if ps == [] {
      InitKeeps(c);
    } else {
      ExecKeeps(c, ps[..|ps| - 1]);
      var s := Exec(c, ps[..|ps| - 1]);
      if Step(c, s, ps[|ps| - 1]).Some? {
        StepKeeps(c, s, ps[|ps| - 1]);
      }
    }
  }

  /** In every interleaving the two threads never read the pipe at the same time, nobody misreads a
      token, and each `get_reply` returned the reply to its own command. */
  lemma HandoffIsSafe(c: Script, ps: seq<Process>)
    ensures var s := Exec(c, ps);
      && !(CallerReads(s) && WorkerReads(s))
      && !s.caller.CallerLost? && !s.worker.WorkerLost? && !s.server.ServerLost?
      && (forall j :: 0 <= j < |s.results| ==> s.results[j] == Reply(j, Told(At(c, j))))
      && s.current <= |s.results| <= s.current + 1
  {
    ExecKeeps(c, ps);
  }

  // ---------- who waits for ever ----------

  /** The caller reads a payload that the server, which has refused without a word, never writes. */
  predicate WaitsInVain(c: Script, s: State)
  {
    s.caller.Reading? && Mute(At(c, s.current))
  }

  /** Until every command is answered some process can step, unless the caller waits in vain. */
  lemma HandoffProceeds(c: Script, ps: seq<Process>)
    ensures var s := Exec(c, ps);
      s.current < |c| ==> ((exists p :: Step(c, s, p).Some?) <==> !WaitsInVain(c, s))
  {
    ExecKeeps(c, ps);
    var s := Exec(c, ps);
    if s.current < |c| {
      if WaitsInVain(c, s) {
        NobodySteps(c, s);
      } else {
        var p := Enabled(c, s);
      }
    }
  }

  lemma NobodySteps(c: Script, s: State)
    requires Inv(c, s) && s.current < |c| && WaitsInVain(c, s)
    ensures forall p :: Step(c, s, p).None?
  {
    hide Parts, ReplyToken;
    TokensGrow(c, s.current, 1, 1);
  }

  lemma Enabled(c: Script, s: State) returns (p: Process)
    requires Inv(c, s) && s.current < |c| && !WaitsInVain(c, s)
    ensures Step(c, s, p).Some?
  {
    var x, cmd := Consumed(c, s), At(c, s.current);
    hide Parts, Tokens, ReplyToken;
    if s.server.Replying? {
      return TheServer;
    }
    if s.worker.WaitCaller? && s.c2s {
      return TheWorker;
    }
    match s.caller
    case Writing(k) => p := TheCaller;
    case Finishing => p := TheCaller;
    case Reading(k) =>
      TokensGrow(c, s.current, x, x);
      TokensTail(c, s.current, x, Replies(cmd));
      p := TheCaller;
    case Waiting =>
      if s.s2c {
        p := TheCaller;
      } else if s.worker.Publish? {
        p := TheWorker;
      } else if s.served == s.current {
        if s.server.InArgs? {
          PartsTail(s.current, s.server.k, 1 + cmd.args);
        } else {
          PartsTail(s.current, 0, 1 + cmd.args);
        }
        p := TheServer;
      } else {
        TokensTail(c, s.current, x, Replies(cmd));
        p := TheWorker;
      }
  }

  /** The steps that are left, counting each process on its own. */
  function Left(c: Script, i: nat, cost: Cmd -> nat): nat
    decreases |c| - i
  {
    if i >= |c| then 0 else cost(c[i]) + Left(c, i + 1, cost)
  }

  function CallerCost(d: Cmd): nat { d.args + d.payload + 3 }

  function WorkerCost(d: Cmd): nat { d.text + 3 }

  function ServerCost(d: Cmd): nat { 1 + d.args + Replies(d) }

  lemma LeftUnfold(c: Script, i: nat, cost: Cmd -> nat)
    ensures i < |c| ==> Left(c, i, cost) == cost(c[i]) + Left(c, i + 1, cost)
    ensures i >= |c| ==> Left(c, i, cost) == 0
  {}

  function CallerLeft(c: Script, s: State): int
  {
    var cmd := At(c, s.current);
    Left(c, s.current, CallerCost) -
    (match s.caller
     case Writing(k) => k
     case Waiting => cmd.args + 1
     case Reading(k) => cmd.args + 2 + k
     case Finishing => cmd.args + 2 + cmd.payload
     case CallerLost => 0)
  }

  function WorkerLeft(c: Script, s: State): int
  {
    var cmd := At(c, s.cycles);
    Left(c, s.cycles, WorkerCost) -
    (match s.worker
     case AtWord => 0
     case InText(_, k) => 1 + k
     case Publish(_, _) => 1 + cmd.text
     case WaitCaller => 2 + cmd.text
     case WorkerLost => 0)
  }

  function ServerLeft(c: Script, s: State): int
  {
    var cmd := At(c, s.served);
    Left(c, s.served, ServerCost) -
    (match s.server
     case Ready => 0
     case InArgs(k) => k
     case Replying(k) => 1 + cmd.args + k
     case ServerLost => 0)
  }

  function StepsLeft(c: Script, s: State): int
  {
    CallerLeft(c, s) + WorkerLeft(c, s) + ServerLeft(c, s)
  }

  lemma StepsLeftBound(c: Script, s: State)
    requires Inv(c, s)
    ensures StepsLeft(c, s) >= 0
  {
    hide Parts, Tokens, ReplyToken;
  }

  /** Every step leaves fewer steps to do. */
  lemma StepCounts(c: Script, s: State, p: Process)
    requires Inv(c, s) && Step(c, s, p).Some?
    ensures StepsLeft(c, Step(c, s, p).value) < StepsLeft(c, s)
  {
    match p
    case TheCaller => CallerCounts(c, s);
    case TheWorker => WorkerCounts(c, s);
    case TheServer => ServerCounts(c, s);
  }

  lemma CallerCounts(c: Script, s: State)
    requires Inv(c, s) && CallerStep(c, s).Some?
    ensures StepsLeft(c, CallerStep(c, s).value) < StepsLeft(c, s)
  {
    if s.caller.Reading? {
      CallerReadsOwn(c, s);
    }
    hide Parts, Tokens, ReplyToken, PipesOk, Left, WorkerLeft, ServerLeft;
    LeftUnfold(c, s.current, CallerCost);
    CallerLeaves(c, s);
  }

  lemma CallerLeaves(c: Script, s: State)
    requires CallerStep(c, s).Some?
    ensures var t := CallerStep(c, s).value; WorkerLeft(c, t) == WorkerLeft(c, s) && ServerLeft(c, t) == ServerLeft(c, s)
  {
    hide Left;
  }

  lemma WorkerCounts(c: Script, s: State)
    requires Inv(c, s) && WorkerStep(c, s).Some?
    ensures StepsLeft(c, WorkerStep(c, s).value) < StepsLeft(c, s)
  {
    if WorkerReads(s) {
      WorkerReadsOwn(c, s);
    }
    hide Parts, Tokens, PipesOk, Left, CallerLeft, ServerLeft;
    LeftUnfold(c, s.cycles, WorkerCost);
    WorkerLeaves(c, s);
  }

  lemma WorkerLeaves(c: Script, s: State)
    requires WorkerStep(c, s).Some?
    ensures var t := WorkerStep(c, s).value; CallerLeft(c, t) == CallerLeft(c, s) && ServerLeft(c, t) == ServerLeft(c, s)
  {
    hide Left;
  }

  lemma ServerCounts(c: Script, s: State)
    requires Inv(c, s) && ServerStep(c, s).Some?
    ensures StepsLeft(c, ServerStep(c, s).value) < StepsLeft(c, s)
  {
    ServerTakesOwn(c, s);
    ServerInRange(c, s);
    hide Inv, ReplyToken, Left, CallerLeft, WorkerLeft;
    LeftUnfold(c, s.served, ServerCost);
    ServerLeaves(c, s);
  }

  lemma ServerInRange(c: Script, s: State)
    requires Inv(c, s)
    ensures s.server.InArgs? ==> 1 <= s.server.k <= At(c, s.served).args
    ensures s.server.Replying? ==> s.server.k < Replies(At(c, s.served))
  {
    hide Parts, Tokens, Early, Late;
  }

  lemma ServerLeaves(c: Script, s: State)
    requires ServerStep(c, s).Some?
    ensures var t := ServerStep(c, s).value; CallerLeft(c, t) == CallerLeft(c, s) && WorkerLeft(c, t) == WorkerLeft(c, s)
  {
    hide Left, ReplyToken;
  }

  lemma ServerTakesOwn(c: Script, s: State)
    requires Inv(c, s)
    ensures s.server.Ready? && s.toServer != [] ==> s.toServer[0] == Part(s.served, 0) && s.served < |c|
    ensures s.server.InArgs? && s.toServer != [] ==> s.toServer[0] == Part(s.served, s.server.k) && s.served < |c|
    ensures s.server.Replying? ==> s.served < |c|
  {}

  /** A run in which some process steps each time is no longer than the steps there are, so with
      `HandoffProceeds` every run that goes on as long as it can answers every command. */
  ghost predicate NoIdleStep(c: Script, ps: seq<Process>)
  {
    ps == [] || (NoIdleStep(c, ps[..|ps| - 1]) && Step(c, Exec(c, ps[..|ps| - 1]), ps[|ps| - 1]).Some?)
  }

  lemma {:induction false} RunsAreShort(c: Script, ps: seq<Process>)
    requires NoIdleStep(c, ps)
    ensures |ps| + StepsLeft(c, Exec(c, ps)) <= StepsLeft(c, Init)
  {
    hide Inv, StepsLeft, Step;
    if ps != [] {
      var before := ps[..|ps| - 1];
      RunsAreShort(c, before);
      ExecKeeps(c, before);
      StepCounts(c, Exec(c, before), ps[|ps| - 1]);
    }
  }

  /** A run without idle steps that no process can continue has answered every command, each with its
      own reply, if and only if no command is refused without a text where a payload is read; else it
      ends with the caller waiting in vain at the first such command. */
  lemma HandoffCompletes(c: Script, ps: seq<Process>)
    requires NoIdleStep(c, ps) && forall p :: Step(c, Exec(c, ps), p).None?
    ensures var s := Exec(c, ps);
      && (s.current == |c| <==> forall j :: 0 <= j < |c| ==> !Mute(c[j]))
      && (s.current == |c| ==> s.results == seq(|c|, j requires 0 <= j < |c| => Reply(j, Told(c[j]))))
      && (s.current < |c| ==> WaitsInVain(c, s) && forall j :: 0 <= j < s.current ==> !Mute(c[j]))
    ensures |ps| <= StepsLeft(c, Init)
  {
    ExecKeeps(c, ps);
    var s := Exec(c, ps);
    HandoffProceeds(c, ps);
    assert forall j :: 0 <= j < s.current ==> c[j] == At(c, j);
    RunsAreShort(c, ps);
    StepsLeftBound(c, s);
  }
}
