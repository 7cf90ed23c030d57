/** The agent connection as its goroutines' atomic steps: calls matched to replies by id (JSON-RPC 2.0,
    sections 4 and 5), one reader of the agent's frames, one finisher, and one stream of messages.
    A step that cannot happen yet leaves the state as it is, so a run is any sequence of steps. */
module AcpProtocol {
  import opened Text

  const MESSAGES_CAPACITY := 256

  datatype Message = Said(what: int) | TurnEnded(stop: string) | Exited

  /** A frame from the agent: a reply to a call, a request or notification that becomes a message, one
      that becomes none, or a request not implemented. */
  datatype Frame = Reply(id: string, failed: bool, stop: string) | Says(msg: int) | Silent | Unknown(id: string)

  datatype Outcome = NotRunning | WriteFailed | Cancelled | AgentExited | Answered(frame: Frame)

  /** Where a call's goroutine is: it has its id, is registered and writing, waits, has its outcome and
      is about to unregister, or has returned. */
  datatype Stage = Allocated | Writing | Waiting | Leaving(outcome: Outcome) | Ended(outcome: Outcome)

  /** A call and its reply channel, which holds one frame. */
  datatype Call = Call(prompt: bool, stage: Stage, reply: Option<Frame>, closed: bool)

  /** Where the reader is: reading, about to post a message, about to answer call k (after posting the
      turn's end when it is one), or done. */
  datatype Reader = Reading | Posting(msg: int) | Found(k: nat, frame: Frame) | Answering(k: nat, frame: Frame) | Done

  datatype Finisher = AwaitDone | Announcing | Closing | Closed

  /** A message as it went into the stream, and how many frames had been read. */
  datatype Post = Post(msg: Message, at: nat)

  datatype State = State(
    nextID: nat,
    pending: map<string, nat>,
    exited: bool,
    calls: map<nat, Call>,
    reader: Reader,
    finisher: Finisher,
    waiting: seq<Message>,
    messagesClosed: bool,
    panicked: bool,
    frames: seq<Frame>,
    posted: seq<Post>,
    answered: set<nat>)

  const START := State(0, map[], false, map[], Reading, AwaitDone, [], false, false, [], [], {})

  /** `"7"` and `7` are the same key. */
  function NormalizeID(raw: string): string { TrimRightQuotes(TrimLeftQuotes(raw)) }

  function TrimLeftQuotes(s: string): string {
    if s != "" && s[0] == '"' then TrimLeftQuotes(s[1..]) else s
  }

  function TrimRightQuotes(s: string): string {
    if s != "" && s[|s| - 1] == '"' then TrimRightQuotes(s[..|s| - 1]) else s
  }

  datatype Step =
    | Begin(prompt: bool)        // a call takes its id
    | Register(k: nat)
    | Write(k: nat, ok: bool)
    | Cancel(k: nat)             // its context ends
    | Receive(k: nat)
    | Leave(k: nat)              // it unregisters and returns
    | Read(frame: Frame)
    | PostMessage
    | PostTurnEnd
    | SendReply
    | EndOfOutput
    | Finish
    | Announce
    | CloseMessages
    | Consume

  function At(s: State, k: nat): Option<Stage> { if k in s.calls then Some(s.calls[k].stage) else None }

  function Moved(s: State, k: nat, stage: Stage): State
    requires k in s.calls
  {
    s.(calls := s.calls[k := s.calls[k].(stage := stage)])
  }

  /** A message sent into the stream: a closed stream panics, a full one blocks. */
  function Sent(s: State, msg: Message, at: nat): Option<State> {
    if s.messagesClosed then Some(s.(panicked := true))
    else if |s.waiting| >= MESSAGES_CAPACITY then None
    else Some(s.(waiting := s.waiting + [msg], posted := s.posted + [Post(msg, at)]))
  }

  /** Where the reader goes on a frame. */
  function Dispatch(s: State, f: Frame): Reader {
    match f
    case Reply(id, failed, _) =>
      if NormalizeID(id) !in s.pending then Reading
      else
        var k := s.pending[NormalizeID(id)];
        if k in s.calls && s.calls[k].prompt && !failed then Found(k, f) else Answering(k, f)
    case Says(m) => Posting(m)
    case Silent => Reading
    case Unknown(_) => Reading
  }

  function OutcomeOf(c: Call): Option<Outcome> {
    match c.stage
    case Leaving(o) => Some(o)
    case Ended(o) => Some(o)
    case _ => None
  }

  /** How a call moves by a step of its own: it keeps its reply or takes it as its outcome, and comes
      to hear of the exit only with its channel closed and empty. */
  predicate Moves(c: Call, d: Call) {
    var o, p := OutcomeOf(c), OutcomeOf(d);
    && d.prompt == c.prompt
    && (d.reply == c.reply || (d.reply == None && c.reply.Some? && p == Some(Answered(c.reply.value))))
    && (p == None ==> o == None && d.reply == c.reply)
    && (p != o ==>
          || (p == Some(NotRunning) && c.stage == Allocated)
          || p == Some(WriteFailed) || p == Some(Cancelled)
          || (c.reply.Some? && p == Some(Answered(c.reply.value)))
          || (p == Some(AgentExited) && o == None && c.closed && c.reply == None))
  }

  /** Of the calls, only call k changes, and not in kind. */
  ghost predicate OnlyCall(s: State, t: State, k: nat) {
    && t.calls.Keys == s.calls.Keys
    && forall j :: j in s.calls ==> t.calls[j].prompt == s.calls[j].prompt && (j != k ==> t.calls[j] == s.calls[j])
  }

  function Begun(s: State, prompt: bool): (t: State)
    ensures t == s.(nextID := s.nextID + 1, calls := t.calls)
    ensures t.calls.Keys == s.calls.Keys + {s.nextID + 1}
    ensures forall j :: j in s.calls && j <= s.nextID ==> t.calls[j] == s.calls[j]
  {
    s.(nextID := s.nextID + 1, calls := s.calls[s.nextID + 1 := Call(prompt, Allocated, None, false)])
  }

  function Registered(s: State, k: nat): (t: State)
    ensures t == s.(calls := t.calls, pending := t.pending) && OnlyCall(s, t, k)
    ensures k in s.calls ==> Moves(s.calls[k], t.calls[k])
  {
    if At(s, k) != Some(Allocated) then s
    else if s.exited then Moved(s, k, Ended(NotRunning))
    else Moved(s, k, Writing).(pending := s.pending[Decimal(k) := k])
  }

  function Written(s: State, k: nat, ok: bool): (t: State)
    ensures t == s.(calls := t.calls) && OnlyCall(s, t, k)
    ensures k in s.calls ==> Moves(s.calls[k], t.calls[k])
  {
    if At(s, k) != Some(Writing) then s
    else Moved(s, k, if ok then Waiting else Leaving(WriteFailed))
  }

  function CalledOff(s: State, k: nat): (t: State)
    ensures t == s.(calls := t.calls) && OnlyCall(s, t, k)
    ensures k in s.calls ==> Moves(s.calls[k], t.calls[k])
  {
    if At(s, k) != Some(Waiting) then s else Moved(s, k, Leaving(Cancelled))
  }

  /** A waiting call takes its reply, or finds its channel closed and empty. */
  function Received(s: State, k: nat): (t: State)
    ensures t == s.(calls := t.calls) && OnlyCall(s, t, k)
    ensures k in s.calls ==> Moves(s.calls[k], t.calls[k])
  {
    if At(s, k) != Some(Waiting) then s
    else
      var c := s.calls[k];
      if c.reply.Some? then s.(calls := s.calls[k := c.(stage := Leaving(Answered(c.reply.value)), reply := None)])
      else if c.closed then Moved(s, k, Leaving(AgentExited))
      else s
  }

  function Left(s: State, k: nat): (t: State)
    ensures t == s.(calls := t.calls, pending := t.pending) && OnlyCall(s, t, k)
    ensures k in s.calls ==> Moves(s.calls[k], t.calls[k])
  {
    if At(s, k).Some? && s.calls[k].stage.Leaving? then
      Moved(s, k, Ended(s.calls[k].stage.outcome)).(pending := s.pending - {Decimal(k)})
    else s
  }

  function Took(s: State, f: Frame): (t: State)
    ensures t == s.(frames := t.frames, reader := t.reader) && s.frames <= t.frames
  {
    if s.reader != Reading then s else s.(frames := s.frames + [f], reader := Dispatch(s, f))
  }

  function PostedMessage(s: State): (t: State)
    ensures t == s.(waiting := t.waiting, posted := t.posted, reader := t.reader, panicked := t.panicked)
    ensures s.posted <= t.posted && (t.reader == s.reader || t.reader == Reading)
  {
    if !s.reader.Posting? then s
    else match Sent(s, Said(s.reader.msg), |s.frames|)
      case None => s
      case Some(t) => t.(reader := Reading)
  }

  function PostedTurnEnd(s: State): (t: State)
    ensures t == s.(waiting := t.waiting, posted := t.posted, reader := t.reader, panicked := t.panicked)
    ensures s.posted <= t.posted
    ensures t.reader == s.reader || (s.reader.Found? && t.reader == Answering(s.reader.k, s.reader.frame))
  {
    if !s.reader.Found? || !s.reader.frame.Reply? then s
    else match Sent(s, TurnEnded(s.reader.frame.stop), |s.frames|)
      case None => s
      case Some(t) => t.(reader := Answering(s.reader.k, s.reader.frame))
  }

  function SentReply(s: State): (t: State)
    ensures t == s.(calls := t.calls, answered := t.answered, reader := t.reader, panicked := t.panicked)
    ensures s.reader.Answering? ==> OnlyCall(s, t, s.reader.k) && s.answered <= t.answered <= s.answered + {s.reader.k}
    ensures !s.reader.Answering? || s.reader.k !in s.calls ==> t == s
    ensures t.reader == s.reader || t.reader == Reading
  {
    if !s.reader.Answering? || s.reader.k !in s.calls then s
    else
      var k, c := s.reader.k, s.calls[s.reader.k];
      if c.closed then s.(panicked := true)
      else if c.reply.Some? then s
      else s.(calls := s.calls[k := c.(reply := Some(s.reader.frame))], answered := s.answered + {k}, reader := Reading)
  }

  /** The calls with the channels of ks closed, and whether one of those was closed already. */
  function Shut(calls: map<nat, Call>, ks: set<nat>): map<nat, Call> {
    map k | k in calls :: if k in ks then calls[k].(closed := true) else calls[k]
  }

  predicate AnyShut(calls: map<nat, Call>, ks: set<nat>) {
    exists k :: k in ks && k in calls && calls[k].closed
  }

  /** The process is gone: every registered call's channel is closed. */
  function Finished(s: State): (t: State)
    ensures t == s.(calls := t.calls, panicked := t.panicked, pending := t.pending, exited := t.exited,
                    finisher := t.finisher)
    ensures t.calls.Keys == s.calls.Keys
    ensures forall k :: k in s.calls ==> t.calls[k] == s.calls[k].(closed := t.calls[k].closed)
    ensures t.finisher == s.finisher || (s.finisher == AwaitDone && t.finisher == Announcing)
    ensures s.exited ==> t.exited
  {
    if s.reader != Done || s.finisher != AwaitDone then s
    else
      s.(calls := Shut(s.calls, s.pending.Values), panicked := s.panicked || AnyShut(s.calls, s.pending.Values),
         pending := map[], exited := true, finisher := Announcing)
  }

  function AnnouncedExit(s: State): (t: State)
    ensures t == s.(waiting := t.waiting, posted := t.posted, finisher := t.finisher, panicked := t.panicked)
    ensures s.posted <= t.posted
  {
    if s.finisher != Announcing then s
    else match Sent(s, Exited, |s.frames| + 1)
      case None => s
      case Some(t) => t.(finisher := Closing)
  }

  function ClosedMessages(s: State): (t: State)
    ensures t == s.(messagesClosed := t.messagesClosed, panicked := t.panicked, finisher := t.finisher)
    ensures t.finisher == s.finisher || (s.finisher == Closing && t.finisher == Closed)
  {
    if s.finisher != Closing then s
    else s.(messagesClosed := true, panicked := s.panicked || s.messagesClosed, finisher := Closed)
  }

  function Next(s: State, step: Step): State {
    match step
    case Begin(prompt) => Begun(s, prompt)
    case Register(k) => Registered(s, k)
    case Write(k, ok) => Written(s, k, ok)
    case Cancel(k) => CalledOff(s, k)
    case Receive(k) => Received(s, k)
    case Leave(k) => Left(s, k)
    case Read(f) => Took(s, f)
    case PostMessage => PostedMessage(s)
    case PostTurnEnd => PostedTurnEnd(s)
    case SendReply => SentReply(s)
    case EndOfOutput => if s.reader != Reading then s else s.(reader := Done)
    case Finish => Finished(s)
    case Announce => AnnouncedExit(s)
    case CloseMessages => ClosedMessages(s)
    case Consume => if s.waiting == [] then s else s.(waiting := s.waiting[1..])
  }

  /** The state after a run of steps. */
  function Run(s: State, steps: seq<Step>): State
    decreases |steps|
  {
    if steps == [] then s else Run(Next(s, steps[0]), steps[1..])
  }

  // ---- calls, their registrations and channels ----

  /** A call that can still be answered is registered with an open channel until the agent is gone,
      and its channel is closed after. */
  predicate CallOk(s: State, k: nat)
    requires k in s.calls
  {
    var c, id := s.calls[k], Decimal(k);
    && 1 <= k <= s.nextID
    && (c.closed ==> s.exited)
    && match c.stage
       case Allocated => !c.closed && id !in s.pending && c.reply == None
       case Ended(_) => id !in s.pending
       case _ => if s.exited then c.closed else id in s.pending
  }

  ghost predicate CallsOk(s: State) {
    && (forall k :: k in s.calls ==> CallOk(s, k))
    && (forall id :: id in s.pending ==> s.pending[id] in s.calls && id == Decimal(s.pending[id]))
    && (s.exited ==> s.pending == map[])
  }

  /** Nothing is left to read once the finisher starts, and nothing has panicked. */
  predicate ThreadsOk(s: State) {
    && !s.panicked
    && (s.exited <==> s.finisher != AwaitDone)
    && (s.exited ==> s.reader == Done)
    && (s.messagesClosed <==> s.finisher == Closed)
    && (s.reader.Found? || s.reader.Answering? ==>
          var k, f := s.reader.k, s.reader.frame;
          && k in s.calls && s.calls[k].stage != Allocated
          && f.Reply? && NormalizeID(f.id) == Decimal(k)
          && s.frames != [] && s.frames[|s.frames| - 1] == f
          && (s.reader.Found? ==> s.calls[k].prompt && !f.failed))
    && (s.reader.Posting? ==> s.frames != [] && s.frames[|s.frames| - 1] == Says(s.reader.msg))
  }

  lemma StartOk()
    ensures CallsOk(START) && ThreadsOk(START)
  {
  }

  lemma MoveKeepsCalls(s: State, k: nat, stage: Stage)
    requires CallsOk(s) && k in s.calls
    requires var c := s.calls[k];
             && c.stage != Allocated && !c.stage.Ended?
             && stage != Allocated && !stage.Ended?
    ensures CallsOk(Moved(s, k, stage))
  {
    hide Decimal;
    var t := Moved(s, k, stage);
    forall j | j in t.calls
      ensures CallOk(t, j)
    {
      assert CallOk(s, j);
    }
  }

  lemma RegisterKeepsCalls(s: State, k: nat)
    requires CallsOk(s)
    ensures CallsOk(Next(s, Register(k)))
  {
    hide Decimal;
    if At(s, k) == Some(Allocated) {
      var t := Next(s, Register(k));
      forall j | j in t.calls
        ensures CallOk(t, j)
      {
        assert CallOk(s, j) && CallOk(s, k);
        if Decimal(j) == Decimal(k) {
          DecimalInjective(j, k);
        }
      }
    }
  }

  lemma ReceiveKeepsCalls(s: State, k: nat)
    requires CallsOk(s)
    ensures CallsOk(Next(s, Receive(k)))
  {
    hide Decimal;
    if At(s, k) == Some(Waiting) {
      var t := Next(s, Receive(k));
      forall j | j in t.calls
        ensures CallOk(t, j)
      {
        assert CallOk(s, j);
      }
    }
  }

  lemma LeaveKeepsCalls(s: State, k: nat)
    requires CallsOk(s)
    ensures CallsOk(Next(s, Leave(k)))
  {
    hide Decimal;
    var t := Next(s, Leave(k));
    forall j | j in t.calls
      ensures CallOk(t, j)
    {
      assert CallOk(s, j);
      if Decimal(j) == Decimal(k) {
        DecimalInjective(j, k);
      }
    }
  }

  lemma FinishKeepsCalls(s: State)
    requires CallsOk(s) && ThreadsOk(s)
    ensures CallsOk(Next(s, Finish)) && !Next(s, Finish).panicked
  {
    hide Decimal;
    if s.reader == Done && s.finisher == AwaitDone {
      var t := Next(s, Finish);
      forall j | j in t.calls
        ensures CallOk(t, j)
      {
        assert CallOk(s, j);
        if Decimal(j) in s.pending {
          DecimalInjective(s.pending[Decimal(j)], j);
          assert j in s.pending.Values;
        }
        if j in s.pending.Values {
          var id :| id in s.pending && s.pending[id] == j;
        }
      }
      forall j | j in s.pending.Values && j in s.calls
        ensures !s.calls[j].closed
      {
        assert CallOk(s, j);
      }
    }
  }

  lemma SendReplyKeepsCalls(s: State)
    requires CallsOk(s) && ThreadsOk(s)
    ensures CallsOk(Next(s, SendReply))
  {
    hide Decimal;
    var t := Next(s, SendReply);
    forall j | j in t.calls
      ensures CallOk(t, j)
    {
      assert CallOk(s, j);
    }
  }

  lemma IdsTaken(s: State)
    requires CallsOk(s)
    ensures forall k :: k in s.calls ==> k <= s.nextID
  {
    hide Decimal;
    forall k | k in s.calls
      ensures k <= s.nextID
    {
      assert CallOk(s, k);
    }
  }

  lemma BeginKeepsCalls(s: State, prompt: bool)
    requires CallsOk(s)
    ensures CallsOk(Next(s, Begin(prompt)))
  {
    hide Decimal;
    var t, n := Next(s, Begin(prompt)), s.nextID + 1;
    IdsTaken(s);
    assert Decimal(n) !in s.pending by {
      if Decimal(n) in s.pending {
        DecimalInjective(s.pending[Decimal(n)], n);
      }
    }
    forall j | j in t.calls
      ensures CallOk(t, j)
    {
      assert j != n ==> CallOk(s, j);
    }
  }

  /** Every step keeps calls, registrations and channels in order. */
  lemma NextKeepsCalls(s: State, step: Step)
    requires CallsOk(s) && ThreadsOk(s)
    ensures CallsOk(Next(s, step))
  {
    hide Decimal, Dispatch, NormalizeID, CallOk, OnlyCall;
    match step
    case Begin(prompt) => BeginKeepsCalls(s, prompt);
    case Register(k) => RegisterKeepsCalls(s, k);
    case Receive(k) => ReceiveKeepsCalls(s, k);
    case Leave(k) => LeaveKeepsCalls(s, k);
    case Write(k, ok) =>
      if At(s, k) == Some(Writing) {
        MoveKeepsCalls(s, k, if ok then Waiting else Leaving(WriteFailed));
      }
    case Cancel(k) =>
      if At(s, k) == Some(Waiting) {
        MoveKeepsCalls(s, k, Leaving(Cancelled));
      }
    case Finish => FinishKeepsCalls(s);
    case SendReply => SendReplyKeepsCalls(s);
    case _ => SameCalls(s, Next(s, step));
  }

  lemma SameCalls(s: State, t: State)
    requires CallsOk(s)
    requires t.calls == s.calls && t.pending == s.pending && t.exited == s.exited && t.nextID == s.nextID
    ensures CallsOk(t)
  {
    hide Decimal;
    forall k | k in t.calls
      ensures CallOk(t, k)
    {
      assert CallOk(s, k);
    }
  }

  predicate OwnCallStep(step: Step) { step.Register? || step.Write? || step.Cancel? || step.Receive? || step.Leave? }

  /** A step of a call's own moves no thread. */
  lemma CallStepKeepsThreads(s: State, step: Step)
    requires CallsOk(s) && ThreadsOk(s) && OwnCallStep(step)
    ensures ThreadsOk(Next(s, step))
  {
    hide Decimal, NormalizeID, CallsOk;
  }

  /** And its threads: in particular no step sends on a closed channel or closes one twice. */
  lemma NextKeepsThreads(s: State, step: Step)
    requires CallsOk(s) && ThreadsOk(s)
    ensures ThreadsOk(Next(s, step))
  {
    hide Next, ThreadsOk, CallsOk;
    if OwnCallStep(step) {
      CallStepKeepsThreads(s, step);
    } else {
      OtherStepKeepsThreads(s, step);
    }
  }

  lemma OtherStepKeepsThreads(s: State, step: Step)
    requires CallsOk(s) && ThreadsOk(s) && !OwnCallStep(step)
    ensures ThreadsOk(Next(s, step))
  {
    hide Decimal, NormalizeID;
    match step
    case Begin(prompt) =>
      if s.reader.Found? || s.reader.Answering? {
        assert CallOk(s, s.reader.k);
      }
    case Finish => FinishKeepsCalls(s);
    case SendReply =>
      if s.reader.Answering? {
        assert CallOk(s, s.reader.k);
      }
    case Read(f) =>
      if f.Reply? && NormalizeID(f.id) in s.pending {
        var k := s.pending[NormalizeID(f.id)];
        assert CallOk(s, k);
      }
    case _ =>
  }
}
