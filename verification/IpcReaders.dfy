/** The goroutines of the server that may read its standard input (`src/go/ipc/ipc.go`): the loop
    of `Main`, the `readCommand` goroutines it starts, and the exporters waiting for a reply of the
    plugin.  Channels are unbuffered, so a send and its receive are one step. */
module IpcReaders {

  /** What four bytes of input turn out to be. */
  datatype Word = CommandWord(args: nat) | ReplyWord(hasText: bool) | EndOfInput

  datatype ReaderPc = AtWord | AtText | OfferReply | AwaitDone | OfferCommand(args: nat) | OfferError

  datatype MainPc = Selecting | Dispatching(left: nat) | RunningJob(e: nat) | Stopped

  /** `ipc.do`, then the wait for the reply and its confirmation. */
  datatype ExporterPc = OfferJob | AwaitJob | AwaitReply | OfferDone | Finished

  /** `asked` lists the exporters in the order in which their requests were written, and `answers` those
      that took the replies, which the plugin sends in the order of the requests. */
  datatype State = State(main: MainPc, readers: seq<ReaderPc>, exporters: seq<ExporterPc>, asked: seq<nat>, answers: seq<nat>)

  const Init := State(Selecting, [AtWord], [], [], [])

  datatype Action =
    | ReadWord(i: nat, w: Word)       // a reader gets four bytes
    | ReadText(i: nat, ok: bool)      // a reader gets the text of a reply
    | HandReply(i: nat, e: nat)       // ipc.reply
    | HandDone(i: nat, e: nat)        // ipc.replyDone
    | HandCommand(i: nat)             // cmdCh
    | DispatchReads                   // dispatch reads one argument
    | DispatchEnds                    // dispatch returns and a new reader starts
    | DispatchFails                   // its error reply cannot be written
    | NewExport
    | TakeJob(e: nat)                 // ipc.queue
    | EndJob                          // done
    | Abort                           // a nil job
    | Tick                            // the gc timer

  /** The step that `a` stands for, or nothing when it is not possible in `s`. */
  function Step(s: State, a: Action): (r: seq<State>)
    ensures |r| <= 1
  {
    match a
    case ReadWord(i, w) =>
      if i >= |s.readers| || s.readers[i] != AtWord then []
      else
        [s.(readers := s.readers[i := match w
                                      case CommandWord(n) => OfferCommand(n)
                                      case ReplyWord(true) => AtText
                                      case ReplyWord(false) => OfferReply
                                      case EndOfInput => OfferError])]
    case ReadText(i, ok) =>
      if i >= |s.readers| || s.readers[i] != AtText then []
      else [s.(readers := s.readers[i := if ok then OfferReply else OfferError])]
    case HandReply(i, e) =>
      if i >= |s.readers| || e >= |s.exporters| || s.readers[i] != OfferReply || s.exporters[e] != AwaitReply then []
      else [s.(readers := s.readers[i := AwaitDone], exporters := s.exporters[e := OfferDone], answers := s.answers + [e])]
    case HandDone(i, e) =>
      if i >= |s.readers| || e >= |s.exporters| || s.readers[i] != AwaitDone || s.exporters[e] != OfferDone then []
      else [s.(readers := s.readers[i := AtWord], exporters := s.exporters[e := Finished])]
    case HandCommand(i) =>
      if i >= |s.readers| || s.main != Selecting then []
      else
        var rest := s.readers[..i] + s.readers[i + 1..];
        (match s.readers[i]
         case OfferCommand(n) => [s.(main := Dispatching(n), readers := rest)]
         case OfferError => [s.(main := Stopped, readers := rest)]
         case _ => [])
    case DispatchReads =>
      if !s.main.Dispatching? || s.main.left == 0 then [] else [s.(main := Dispatching(s.main.left - 1))]
    case DispatchEnds =>
      if !s.main.Dispatching? then [] else [s.(main := Selecting, readers := s.readers + [AtWord])]
    case DispatchFails => if !s.main.Dispatching? then [] else [s.(main := Stopped)]
    case NewExport => [s.(exporters := s.exporters + [OfferJob])]
    case TakeJob(e) =>
      if s.main != Selecting || e >= |s.exporters| || s.exporters[e] != OfferJob then []
      else [s.(main := RunningJob(e), exporters := s.exporters[e := AwaitJob])]
    case EndJob =>
      if !s.main.RunningJob? || s.main.e >= |s.exporters| then []
      else [s.(main := Selecting, exporters := s.exporters[s.main.e := AwaitReply], asked := s.asked + [s.main.e])]
    case Abort => if s.main != Selecting then [] else [s.(main := Stopped)]
    case Tick => if s.main != Selecting then [] else [s]
  }

  function Exec(actions: seq<Action>): State
  {
    if actions == [] then Init
    else
      var s := Exec(actions[..|actions| - 1]);
      var t := Step(s, actions[|actions| - 1]);
      if t == [] then s else t[0]
  }

  /** A goroutine that reads standard input now or next. */
  predicate Reads(r: ReaderPc) { r == AtWord || r == AtText }

  function Count<T>(xs: seq<T>, p: T -> bool): nat
  {
    if xs == [] then 0 else Count(xs[..|xs| - 1], p) + if p(xs[|xs| - 1]) then 1 else 0
  }

  function Input(s: State): nat
  {
    Count(s.readers, Reads) + if s.main.Dispatching? then 1 else 0
  }

  function GotReply(e: ExporterPc): bool { e == OfferDone || e == Finished }

  function OwesDone(e: ExporterPc): bool { e == OfferDone }

  /** While `Main` dispatches there is no reader, otherwise one. */
  ghost predicate ReadersOk(s: State)
  {
    && (s.main.Dispatching? ==> s.readers == [])
    && (s.main.Selecting? || s.main.RunningJob? ==> |s.readers| == 1)
    && |s.readers| <= 1
    && (s.main.RunningJob? ==> s.main.e < |s.exporters| && s.exporters[s.main.e] == AwaitJob)
  }

  /** Each reply went to one exporter, and a reader waits exactly for the one that owes a confirmation. */
  ghost predicate RepliesCounted(s: State)
  {
    && Count(s.exporters, GotReply) == |s.answers|
    && Count(s.exporters, OwesDone) == if AwaitDone in s.readers then 1 else 0
  }

  ghost predicate Inv(s: State) { ReadersOk(s) && RepliesCounted(s) }

  lemma {:induction false} CountUpdate<T>(xs: seq<T>, p: T -> bool, i: nat, x: T)
    requires i < |xs|
    ensures Count(xs[i := x], p) + (if p(xs[i]) then 1 else 0) == Count(xs, p) + (if p(x) then 1 else 0)
    decreases |xs|
  {
    var ys := xs[i := x];
    if i == |xs| - 1 {
      assert ys[..|xs| - 1] == xs[..|xs| - 1];
    } else {
      assert ys[..|xs| - 1] == xs[..|xs| - 1][i := x];
      CountUpdate(xs[..|xs| - 1], p, i, x);
    }
  }

  lemma CountAppend<T>(xs: seq<T>, p: T -> bool, x: T)
    ensures Count(xs + [x], p) == Count(xs, p) + (if p(x) then 1 else 0)
  {
    assert (xs + [x])[..|xs|] == xs;
  }

  lemma ExporterMoves(s: State, e: nat, x: ExporterPc)
    requires e < |s.exporters|
    ensures var after := s.exporters[e := x];
      && Count(after, GotReply) + (if GotReply(s.exporters[e]) then 1 else 0) ==
           Count(s.exporters, GotReply) + (if GotReply(x) then 1 else 0)
      && Count(after, OwesDone) + (if OwesDone(s.exporters[e]) then 1 else 0) ==
           Count(s.exporters, OwesDone) + (if OwesDone(x) then 1 else 0)
  {
    hide Count;
    CountUpdate(s.exporters, GotReply, e, x);
    CountUpdate(s.exporters, OwesDone, e, x);
  }

  lemma OneReader(xs: seq<ReaderPc>, p: ReaderPc -> bool)
    requires |xs| <= 1
    ensures Count(xs, p) == if xs != [] && p(xs[0]) then 1 else 0
  {
    if xs != [] {
      assert Count(xs[..0], p) == 0;
    }
  }

  lemma ReadersStayOk(s: State, a: Action)
    requires ReadersOk(s) && Step(s, a) != []
    ensures ReadersOk(Step(s, a)[0])
  {}

  /** Steps of the readers and of `Main` that no exporter takes part in. */
  lemma OtherSteps(s: State, a: Action)
    requires Inv(s) && Step(s, a) != [] && Step(s, a)[0].exporters == s.exporters
    ensures RepliesCounted(Step(s, a)[0])
  {
    hide Count;
  }

  lemma HandReplyCounts(s: State, i: nat, e: nat)
    requires Inv(s) && Step(s, HandReply(i, e)) != []
    ensures RepliesCounted(Step(s, HandReply(i, e))[0])
  {
    hide Count;
    ExporterMoves(s, e, OfferDone);
    assert s.readers[i := AwaitDone][i] == AwaitDone;
  }

  lemma HandDoneCounts(s: State, i: nat, e: nat)
    requires Inv(s) && Step(s, HandDone(i, e)) != []
    ensures RepliesCounted(Step(s, HandDone(i, e))[0])
  {
    hide Count;
    ExporterMoves(s, e, Finished);
  }

  lemma NewExportCounts(s: State)
    requires Inv(s)
    ensures RepliesCounted(Step(s, NewExport)[0])
  {
    hide Count;
    CountAppend(s.exporters, GotReply, OfferJob);
    CountAppend(s.exporters, OwesDone, OfferJob);
  }

  lemma JobCounts(s: State, a: Action)
    requires Inv(s) && Step(s, a) != [] && (a.TakeJob? || a.EndJob?)
    ensures RepliesCounted(Step(s, a)[0])
  {
    hide Count;
    if a.TakeJob? {
      ExporterMoves(s, a.e, AwaitJob);
    } else {
      ExporterMoves(s, s.main.e, AwaitReply);
    }
  }

  lemma StepKeeps(s: State, a: Action)
    requires Inv(s) && Step(s, a) != []
    ensures Inv(Step(s, a)[0])
  {
    ReadersStayOk(s, a);
    hide RepliesCounted, ReadersOk;
    match a
    case HandReply(i, e) => HandReplyCounts(s, i, e);
    case HandDone(i, e) => HandDoneCounts(s, i, e);
    case NewExport => NewExportCounts(s);
    case TakeJob(_) => JobCounts(s, a);
    case EndJob => JobCounts(s, a);
    case _ => OtherSteps(s, a);
  }

  lemma {:induction false} ExecKeeps(actions: seq<Action>)
    ensures Inv(Exec(actions))
  {
    if actions != [] {
      hide Inv;
      var before := Exec(actions[..|actions| - 1]);
      ExecKeeps(actions[..|actions| - 1]);
      if Step(before, actions[|actions| - 1]) != [] {
        StepKeeps(before, actions[|actions| - 1]);
      }
    }
  }

  /** In every interleaving at most one goroutine reads standard input, `dispatch` only while there
      is no `readCommand` at all; and every reply was given to exactly one exporter. */
  lemma OneReadsInput(actions: seq<Action>)
    ensures var s := Exec(actions);
      && Input(s) <= 1
      && (s.main.Dispatching? ==> s.readers == [] && Input(s) == 1)
      && (s.main.Selecting? || s.main.RunningJob? ==> |s.readers| == 1)
      && Count(s.exporters, GotReply) == |s.answers|
  {
    ExecKeeps(actions);
    OneReader(Exec(actions).readers, Reads);
  }

  /** The reader that waits for a confirmation is owed it by exactly one exporter. */
  lemma ConfirmationIsOwed(actions: seq<Action>, i: nat)
    requires i < |Exec(actions).readers| && Exec(actions).readers[i] == AwaitDone
    ensures Count(Exec(actions).exporters, OwesDone) == 1
  {
    ExecKeeps(actions);
  }

  // ---------- whose reply it is ----------

  /** Every reply so far went to the exporter that asked for it. */
  ghost predicate OwnReplies(s: State) { s.answers <= s.asked }

  /** The exporters that have asked are those past their job, each asked once, and those that have an answer
      took one. */
  ghost predicate Asked(s: State)
  {
    && (forall i, j :: 0 <= i < j < |s.asked| ==> s.asked[i] != s.asked[j])
    && (forall e <- s.asked :: e < |s.exporters|)
    && (forall e <- s.answers :: e < |s.exporters|)
    && (forall e :: 0 <= e < |s.exporters| ==> (e in s.asked <==> s.exporters[e] == AwaitReply || GotReply(s.exporters[e])))
    && (forall e :: 0 <= e < |s.exporters| ==> (e in s.answers <==> GotReply(s.exporters[e])))
  }

  lemma StepAsks(s: State, a: Action)
    requires ReadersOk(s) && Asked(s) && Step(s, a) != []
    ensures Asked(Step(s, a)[0])
  {
    match a
    case HandReply(i, e) => ReplyTaken(s, i, e);
    case EndJob => RequestMade(s);
    case _ => NobodyAsks(s, a);
  }

  lemma NobodyAsks(s: State, a: Action)
    requires Asked(s) && Step(s, a) != [] && !a.HandReply? && !a.EndJob?
    ensures Asked(Step(s, a)[0])
  {
    var t := Step(s, a)[0];
    assert t.asked == s.asked && t.answers == s.answers && |t.exporters| >= |s.exporters|;
    forall e | 0 <= e < |t.exporters|
      ensures e in t.asked <==> t.exporters[e] == AwaitReply || GotReply(t.exporters[e])
      ensures e in t.answers <==> GotReply(t.exporters[e])
    {
    }
  }

  lemma ReplyTaken(s: State, i: nat, e: nat)
    requires Asked(s) && Step(s, HandReply(i, e)) != []
    ensures Asked(Step(s, HandReply(i, e))[0])
  {
    assert forall x :: x in s.answers + [e] <==> x in s.answers || x == e;
  }

  lemma RequestMade(s: State)
    requires ReadersOk(s) && Asked(s) && Step(s, EndJob) != []
    ensures Asked(Step(s, EndJob)[0])
  {
    assert forall x :: x in s.asked + [s.main.e] <==> x in s.asked || x == s.main.e;
  }

  lemma {:induction false} ExecAsks(actions: seq<Action>)
    ensures Asked(Exec(actions))
  {
    if actions != [] {
      hide Asked, RepliesCounted;
      var before := Exec(actions[..|actions| - 1]);
      ExecAsks(actions[..|actions| - 1]);
      ExecKeeps(actions[..|actions| - 1]);
      if Step(before, actions[|actions| - 1]) != [] {
        StepAsks(before, actions[|actions| - 1]);
      }
    }
  }

  /** While replies go to their own exporters, those that wait are the last to have asked. */
  lemma WhoWaits(s: State, e: nat)
    requires Asked(s) && OwnReplies(s) && e < |s.exporters|
    ensures s.exporters[e] == AwaitReply <==> e in s.asked[|s.answers|..]
  {
    var n := |s.answers|;
    if s.exporters[e] == AwaitReply {
      forall k: nat | k < n
        ensures s.asked[k] != e
      {
        AnsweredPart(s, k);
      }
      var k :| 0 <= k < |s.asked| && s.asked[k] == e;
      assert s.asked[n..][k - n] == e;
    }
    if e in s.asked[n..] {
      var k :| n <= k < |s.asked| && s.asked[k] == e;
      forall m: nat | m < n
        ensures s.answers[m] != e
      {
        AnsweredPart(s, m);
      }
    }
  }

  lemma AnsweredPart(s: State, k: nat)
    requires OwnReplies(s) && k < |s.answers|
    ensures s.answers[k] == s.asked[k] && s.asked[k] in s.answers
  {}

  /** The next reply can go astray: some exporter may take it that did not ask for it. */
  ghost predicate CanStray(s: State)
  {
    exists i: nat, e: nat :: Step(s, HandReply(i, e)) != [] && !OwnReplies(Step(s, HandReply(i, e))[0])
  }

  /** Exactly when the next reply of the plugin can reach the wrong exporter: it is on offer while two wait. */
  lemma ReplyCanStray(actions: seq<Action>)
    requires OwnReplies(Exec(actions))
    ensures var s := Exec(actions); CanStray(s) <==> OfferReply in s.readers && |s.asked| >= |s.answers| + 2
  {
    hide Exec;
    ExecAsks(actions);
    StrayIff(Exec(actions));
  }

  lemma StrayIff(s: State)
    requires Asked(s) && OwnReplies(s)
    ensures CanStray(s) <==> OfferReply in s.readers && |s.asked| >= |s.answers| + 2
  {
    hide Asked;
    if CanStray(s) {
      var i: nat, e: nat :| Step(s, HandReply(i, e)) != [] && !OwnReplies(Step(s, HandReply(i, e))[0]);
      WhoWaits(s, e);
      assert s.readers[i] == OfferReply;
    }
    if OfferReply in s.readers && |s.asked| >= |s.answers| + 2 {
      var i :| 0 <= i < |s.readers| && s.readers[i] == OfferReply;
      SecondCanTake(s, i);
    }
  }

  lemma SecondCanTake(s: State, i: nat)
    requires Asked(s) && OwnReplies(s) && i < |s.readers| && s.readers[i] == OfferReply
    requires |s.asked| >= |s.answers| + 2
    ensures CanStray(s) && Step(s, HandReply(i, s.asked[|s.answers| + 1])) != []
    ensures !OwnReplies(Step(s, HandReply(i, s.asked[|s.answers| + 1]))[0])
  {
    var n := |s.answers|;
    var e := s.asked[n + 1];
    assert e in s.asked && s.asked[n..][1] == e;
    WhoWaits(s, e);
    assert Step(s, HandReply(i, e)) != [];
    assert Step(s, HandReply(i, e))[0].answers[n] == e && s.asked[n] != e;
  }

  // ---------- over whole continuations ----------

  function RunOn(s: State, more: seq<Action>): State
  {
    if more == [] then s
    else
      var t := RunOn(s, more[..|more| - 1]);
      StepOr(t, more[|more| - 1])
  }

  function StepOr(s: State, a: Action): State { if Step(s, a) == [] then s else Step(s, a)[0] }

  lemma {:induction false} ExecOn(actions: seq<Action>, more: seq<Action>)
    ensures Exec(actions + more) == RunOn(Exec(actions), more)
    decreases |more|
  {
    if more == [] {
      assert actions + more == actions;
    } else {
      var init := more[..|more| - 1];
      assert (actions + more)[..|actions + more| - 1] == actions + init;
      ExecOn(actions, init);
    }
  }

  /** Some reader can still come to hand over a reply before anybody asks again. */
  predicate CanReply(s: State)
  {
    s.main.Dispatching?
    || (s.readers != [] && !s.readers[0].OfferError? && (s.readers[0].OfferCommand? ==> s.main.Selecting?))
  }

  lemma {:induction false} AskedGrows(s: State, more: seq<Action>)
    ensures s.asked <= RunOn(s, more).asked
  {
    if more != [] {
      AskedGrows(s, more[..|more| - 1]);
    }
  }

  lemma MuteStays(s: State, a: Action)
    requires ReadersOk(s) && !CanReply(s) && Step(s, a) != [] && Step(s, a)[0].asked == s.asked
    ensures !CanReply(Step(s, a)[0]) && Step(s, a)[0].answers == s.answers
  {}

  lemma StepInTurn(s: State, a: Action)
    requires Asked(s) && OwnReplies(s) && Step(s, a) != []
    requires |s.asked| <= |s.answers| + 1
    ensures OwnReplies(Step(s, a)[0])
  {
    if a.HandReply? {
      hide Asked;
      WhoWaits(s, a.e);
    }
  }

  lemma {:induction false} NobodyStrays(actions: seq<Action>, more: seq<Action>)
    requires OwnReplies(Exec(actions)) && RunOn(Exec(actions), more).asked == Exec(actions).asked
    requires |Exec(actions).asked| <= |Exec(actions).answers| + 1 || !CanReply(Exec(actions))
    ensures var s, t := Exec(actions), RunOn(Exec(actions), more);
      OwnReplies(t) && |s.answers| <= |t.answers| && (!CanReply(s) ==> !CanReply(t) && t.answers == s.answers)
    decreases |more|
  {
    hide *;
    if more == [] {
      NothingRun(Exec(actions));
    } else {
      var init, a := more[..|more| - 1], more[|more| - 1];
      var s, t := Exec(actions), RunOn(Exec(actions), init);
      AskedGrows(s, init);
      RunOnLast(s, more);
      AskedNext(t, a);
      NobodyStrays(actions, init);
      ExecOn(actions, init);
      ExecKeeps(actions + init);
      ExecAsks(actions + init);
      NextStrays(s, t, a);
    }
  }

  lemma NothingRun(s: State)
    ensures RunOn(s, []) == s
  {}

  lemma RunOnLast(s: State, more: seq<Action>)
    requires more != []
    ensures RunOn(s, more) == StepOr(RunOn(s, more[..|more| - 1]), more[|more| - 1])
  {}

  lemma AskedNext(t: State, a: Action)
    ensures t.asked <= StepOr(t, a).asked
  {}

  lemma NextStrays(s: State, t: State, a: Action)
    requires Inv(t) && Asked(t) && OwnReplies(t) && t.asked == s.asked == StepOr(t, a).asked && |s.answers| <= |t.answers|
    requires |s.asked| <= |s.answers| + 1 || !CanReply(s)
    requires !CanReply(s) ==> !CanReply(t) && t.answers == s.answers
    ensures var u := StepOr(t, a);
      OwnReplies(u) && |s.answers| <= |u.answers| && (!CanReply(s) ==> !CanReply(u) && u.answers == s.answers)
  {
    hide CanReply, Asked, RepliesCounted;
    if Step(t, a) != [] {
      AnswersNext(t, a);
      if CanReply(s) {
        StepInTurn(t, a);
      } else {
        MuteStays(t, a);
      }
    }
  }

  lemma AnswersNext(t: State, a: Action)
    requires Step(t, a) != []
    ensures t.answers <= Step(t, a)[0].answers
  {}

  lemma {:induction false} RunOnCons(s: State, a: Action, more: seq<Action>)
    ensures RunOn(s, [a] + more) == RunOn(StepOr(s, a), more)
    decreases |more|
  {
    var all := [a] + more;
    if more == [] {
      assert all[..|all| - 1] == [] && RunOn(s, []) == s;
    } else {
      assert all[..|all| - 1] == [a] + more[..|more| - 1];
      RunOnCons(s, a, more[..|more| - 1]);
    }
  }

  lemma RunOnNext(s: State, more: seq<Action>, a: Action)
    ensures RunOn(s, more + [a]) == StepOr(RunOn(s, more), a)
  {
    assert (more + [a])[..|more|] == more;
  }

  lemma {:induction false} SomeCounted(xs: seq<ExporterPc>) returns (k: nat)
    requires Count(xs, OwesDone) > 0
    ensures k < |xs| && OwesDone(xs[k])
  {
    if OwesDone(xs[|xs| - 1]) {
      k := |xs| - 1;
    } else {
      k := SomeCounted(xs[..|xs| - 1]);
    }
  }

  function ToOffer(s: State): nat
    requires CanReply(s)
  {
    if s.main.Dispatching? then 3
    else
      match s.readers[0]
      case OfferReply => 0
      case AtWord => 1
      case AtText => 1
      case AwaitDone => 2
      case _ => 4
  }

  /** One step of `Main` or the reader on the way to the next reply; it asks and answers nothing. */
  lemma NextStep(s: State) returns (a: Action)
    requires Inv(s) && CanReply(s) && ToOffer(s) > 0
    ensures Step(s, a) != [] && Step(s, a)[0].asked == s.asked && Step(s, a)[0].answers == s.answers
    ensures CanReply(Step(s, a)[0]) && ToOffer(Step(s, a)[0]) < ToOffer(s)
  {
    hide Count;
    if s.main.Dispatching? {
      a := DispatchEnds;
    } else if s.readers[0].AwaitDone? {
      var e := SomeCounted(s.exporters);
      a := HandDone(0, e);
    } else if s.readers[0].AtWord? {
      a := ReadWord(0, ReplyWord(false));
    } else if s.readers[0].AtText? {
      a := ReadText(0, true);
    } else {
      a := HandCommand(0);
    }
  }

  /** From there a reply comes to be on offer. */
  lemma {:induction false} ComesToOffer(s: State) returns (more: seq<Action>)
    requires Inv(s) && CanReply(s)
    ensures var t := RunOn(s, more); Inv(t) && OfferReply in t.readers && t.asked == s.asked && t.answers == s.answers
    decreases ToOffer(s)
  {
    hide Inv, Step;
    if ToOffer(s) == 0 {
      more := [];
    } else {
      var a := NextStep(s);
      StepKeeps(s, a);
      var rest := ComesToOffer(Step(s, a)[0]);
      RunOnCons(s, a, rest);
      more := [a] + rest;
    }
  }

  /** Some continuation without another request brings a reply to the wrong exporter. */
  ghost predicate WillStray(s: State)
  {
    exists more :: RunOn(s, more).asked == s.asked && !OwnReplies(RunOn(s, more))
  }

  /** From any state that a run arrives at with every reply at its own exporter, a continuation without another
      request can bring one to the wrong exporter exactly if two exporters wait and a reply can still come. */
  lemma RepliesCanStray(actions: seq<Action>)
    requires OwnReplies(Exec(actions))
    ensures var s := Exec(actions); WillStray(s) <==> |s.asked| >= |s.answers| + 2 && CanReply(s)
  {
    hide Exec, CanReply, OwnReplies, Inv;
    var s := Exec(actions);
    if |s.asked| >= |s.answers| + 2 && CanReply(s) {
      ExecKeeps(actions);
      var more := ComesToOffer(s);
      ExecOn(actions, more);
      ExecAsks(actions + more);
      StraysNext(s, more);
    }
    if WillStray(s) && !(|s.asked| >= |s.answers| + 2 && CanReply(s)) {
      var more :| RunOn(s, more).asked == s.asked && !OwnReplies(RunOn(s, more));
      NobodyStrays(actions, more);
    }
  }

  lemma StraysNext(s: State, more: seq<Action>)
    requires OwnReplies(s) && |s.asked| >= |s.answers| + 2
    requires RunOn(s, more).asked == s.asked && RunOn(s, more).answers == s.answers
    requires OfferReply in RunOn(s, more).readers && Asked(RunOn(s, more))
    ensures WillStray(s)
  {
    hide Asked, RunOn;
    var t := RunOn(s, more);
    var i :| 0 <= i < |t.readers| && t.readers[i] == OfferReply;
    SecondCanTake(t, i);
    var a := HandReply(i, t.asked[|t.answers| + 1]);
    RunOnNext(s, more, a);
    assert RunOn(s, more + [a]).asked == s.asked;
  }

  // ---------- taking turns ----------

  /** No request is written while another one waits for its reply. */
  ghost predicate OneAtATime(actions: seq<Action>)
  {
    |Exec(actions).asked| <= |Exec(actions).answers| + 1 && (actions == [] || OneAtATime(actions[..|actions| - 1]))
  }

  /** If exporters take turns, every reply goes to the one that asked for it. */
  lemma {:induction false} TurnsKeepReplies(actions: seq<Action>)
    requires OneAtATime(actions)
    ensures OwnReplies(Exec(actions)) && |Exec(actions).answers| <= |Exec(actions).asked| <= |Exec(actions).answers| + 1
  {
    hide Asked;
    if actions != [] {
      var init, a := actions[..|actions| - 1], actions[|actions| - 1];
      TurnsKeepReplies(init);
      ExecAsks(init);
      if Step(Exec(init), a) != [] {
        StepInTurn(Exec(init), a);
      }
    }
  }

  // ---------- callers on one goroutine ----------

  /** Exporters are called from one loop: a call begins only when the last has returned. */
  ghost predicate OneLoop(actions: seq<Action>)
  {
    actions == []
    || (OneLoop(actions[..|actions| - 1])
        && (actions[|actions| - 1].NewExport? ==> AllFinished(Exec(actions[..|actions| - 1]))))
  }

  ghost predicate AllFinished(s: State)
  {
    forall e :: 0 <= e < |s.exporters| ==> s.exporters[e] == Finished
  }

  ghost predicate OthersFinished(s: State)
  {
    forall e :: 0 <= e < |s.exporters| - 1 ==> s.exporters[e] == Finished
  }

  lemma InvReaders(s: State)
    requires Inv(s)
    ensures ReadersOk(s)
  {}

  lemma StepFinishes(s: State, a: Action)
    requires ReadersOk(s) && OthersFinished(s) && Step(s, a) != []
    requires a.NewExport? ==> AllFinished(s)
    ensures OthersFinished(Step(s, a)[0])
  {
    var t := Step(s, a)[0];
    forall e | 0 <= e < |t.exporters| - 1
      ensures t.exporters[e] == Finished
    {
      assert s.exporters[e] == Finished;
    }
  }

  lemma OneWaits(s: State)
    requires Asked(s) && OwnReplies(s) && OthersFinished(s)
    ensures |s.asked| <= |s.answers| + 1
  {
    var n := |s.answers|;
    forall k | n <= k < |s.asked|
      ensures s.asked[k] == |s.exporters| - 1
    {
      assert s.asked[n..][k - n] == s.asked[k] && s.asked[k] in s.asked;
      WhoWaits(s, s.asked[k]);
    }
    var first := if n < |s.asked| then s.asked[n] else 0;
    var second := if n + 1 < |s.asked| then s.asked[n + 1] else 0;
    assert n + 1 < |s.asked| ==> first == second;
  }

  /** Then they take turns: at most one waits for a reply, and every reply goes to the exporter that asked for it. */
  lemma {:induction false} LoopKeepsReplies(actions: seq<Action>)
    requires OneLoop(actions)
    ensures OneAtATime(actions)
    ensures var s := Exec(actions); OwnReplies(s) && OthersFinished(s) && |s.answers| <= |s.asked| <= |s.answers| + 1
  {
    hide Inv, Asked;
    if actions != [] {
      var init, a := actions[..|actions| - 1], actions[|actions| - 1];
      var s := Exec(init);
      LoopKeepsReplies(init);
      ExecKeeps(init);
      ExecAsks(init);
      if Step(s, a) != [] {
        InvReaders(s);
        StepFinishes(s, a);
        StepInTurn(s, a);
      }
    }
    ExecAsks(actions);
    OneWaits(Exec(actions));
  }

  lemma ExecNext(actions: seq<Action>, a: Action)
    ensures Exec(actions + [a]) == StepOr(Exec(actions), a)
  {
    assert (actions + [a])[..|actions|] == actions;
  }

  /** An exporter's request is written while `Main` waits. */
  lemma AskOne(actions: seq<Action>, e: nat)
    requires var s := Exec(actions); s.main.Selecting? && e < |s.exporters| && s.exporters[e] == OfferJob
    ensures var s := Exec(actions);
      Exec(actions + [TakeJob(e)] + [EndJob]) == s.(exporters := s.exporters[e := AwaitReply], asked := s.asked + [e])
  {
    hide Exec;
    ExecNext(actions, TakeJob(e));
    ExecNext(actions + [TakeJob(e)], EndJob);
    var s := Exec(actions);
    assert s.exporters[e := AwaitJob][e := AwaitReply] == s.exporters[e := AwaitReply];
  }

  lemma BothWait() returns (actions: seq<Action>)
    ensures var s := Exec(actions); s.readers == [AtWord] && s.asked == [0, 1] && s.answers == []
  {
    assert Exec([]) == Init;
    hide Exec;
    ExecNext([], NewExport);
    ExecNext([] + [NewExport], NewExport);
    actions := [] + [NewExport] + [NewExport];
    assert Exec(actions) == State(Selecting, [AtWord], [OfferJob, OfferJob], [], []);
    hide *;
    AskOne(actions, 0);
    actions := actions + [TakeJob(0)] + [EndJob];
    AskOne(actions, 1);
    actions := actions + [TakeJob(1)] + [EndJob];
  }

  /** Without the loop two exporters can come to wait at the same time, and get each other's reply. */
  lemma RepliesCanBeSwapped()
    ensures exists actions :: WillStray(Exec(actions)) && Exec(actions).asked == [0, 1] && OwnReplies(Exec(actions))
  {
    hide Exec, WillStray;
    var actions := BothWait();
    RepliesCanStray(actions);
  }
}
