/** What becomes of one call, the agent running or gone: each step of its own, and a reply's way to it. */
module AcpCalls {
  import opened AcpProtocol
  import opened AcpRuns
  import opened Text

  /** The call's stage, and the reply waiting for it. */
  predicate Is(s: State, k: nat, stage: Stage, reply: Option<Frame>) {
    k in s.calls && s.calls[k].stage == stage && s.calls[k].reply == reply
  }

  // ---- the steps of a call ----

  /** A call is turned away once the agent is gone, and is registered under its id before. */
  lemma {:induction false} RegisterEnds(s: State, k: nat, reply: Option<Frame>)
    requires Is(s, k, Allocated, reply)
    ensures var t := Next(s, Register(k));
            if s.exited then Is(t, k, Ended(NotRunning), reply) && t.pending == s.pending
            else Is(t, k, Writing, reply) && t.pending == s.pending[Decimal(k) := k]
  {
    hide Decimal, Moves, OnlyCall;
  }

  /** A write that fails ends the call; one that does not leaves it waiting. */
  lemma {:induction false} WriteEnds(s: State, k: nat, ok: bool, reply: Option<Frame>)
    requires Is(s, k, Writing, reply)
    ensures Is(Next(s, Write(k, ok)), k, if ok then Waiting else Leaving(WriteFailed), reply)
  {
    hide Moves, OnlyCall;
  }

  /** A waiting call takes the reply that is there, running agent or not; without one it hears of the exit once
      its channel is closed, and goes on waiting until then. */
  lemma {:induction false} ReceiveEnds(s: State, k: nat, reply: Option<Frame>)
    requires Is(s, k, Waiting, reply)
    ensures var t := Next(s, Receive(k));
            if reply.Some? then Is(t, k, Leaving(Answered(reply.value)), None)
            else if s.calls[k].closed then Is(t, k, Leaving(AgentExited), None)
            else Is(t, k, Waiting, None)
  {
    hide Moves, OnlyCall;
  }

  /** A waiting call whose context ends is called off, and only a waiting one. */
  lemma {:induction false} CancelEnds(s: State, k: nat, stage: Stage, reply: Option<Frame>)
    requires Is(s, k, stage, reply)
    ensures Is(Next(s, Cancel(k)), k, if stage == Waiting then Leaving(Cancelled) else stage, reply)
  {
    hide Moves, OnlyCall;
  }

  /** With its outcome, a call's next step unregisters it and returns it. */
  lemma {:induction false} LeaveEnds(s: State, k: nat, o: Outcome, reply: Option<Frame>)
    requires Is(s, k, Leaving(o), reply)
    ensures var t := Next(s, Leave(k)); Is(t, k, Ended(o), reply) && Decimal(k) !in t.pending
  {
    hide Decimal, Moves, OnlyCall;
  }

  // ---- in any run ----

  /** Whatever else happens, a waiting call with its reply stays so until it receives or is called off. */
  lemma {:induction false} StaysWaiting(s: State, step: Step, k: nat, f: Frame)
    requires Sound(s) && Is(s, k, Waiting, Some(f)) && step != Receive(k) && step != Cancel(k)
    ensures Is(Next(s, step), k, Waiting, Some(f))
  {
    hide CallsOk, ThreadsOk, StreamOk, AnswersOk, AnsweredEarlier, Next, Mover;
    if Mover(s, step) == Some(k) {
      OwnStaysWaiting(s, step, k, f);
    } else {
      IdsTaken(s);
      OthersStay(s, step, k);
    }
  }

  lemma {:induction false} OwnStaysWaiting(s: State, step: Step, k: nat, f: Frame)
    requires Is(s, k, Waiting, Some(f)) && step != Receive(k) && step != Cancel(k) && Mover(s, step) == Some(k)
    ensures Is(Next(s, step), k, Waiting, Some(f))
  {
    hide Decimal, NormalizeID, Moves, OnlyCall;
  }

  lemma {:induction false} StaysLeaving(s: State, step: Step, k: nat, o: Outcome)
    requires Sound(s) && k in s.calls && s.calls[k].stage == Leaving(o)
    ensures var t := Next(s, step);
            k in t.calls && t.calls[k].stage == if step == Leave(k) then Ended(o) else Leaving(o)
  {
    hide CallsOk, ThreadsOk, StreamOk, AnswersOk, AnsweredEarlier, Next, Mover;
    if step == Leave(k) {
      LeaveEnds(s, k, o, s.calls[k].reply);
    } else if Mover(s, step) == Some(k) {
      OwnStaysLeaving(s, step, k, o);
    } else {
      IdsTaken(s);
      OthersStay(s, step, k);
    }
  }

  lemma {:induction false} OwnStaysLeaving(s: State, step: Step, k: nat, o: Outcome)
    requires k in s.calls && s.calls[k].stage == Leaving(o) && step != Leave(k) && Mover(s, step) == Some(k)
    ensures var t := Next(s, step); k in t.calls && t.calls[k].stage == Leaving(o)
  {
    hide Decimal, NormalizeID, Moves, OnlyCall;
  }

  lemma {:induction false} NextSound(s: State, step: Step)
    requires Sound(s)
    ensures Sound(Next(s, step))
  {
    hide Sound, Next;
    RunKeepsSound(s, [step]);
    assert Run(s, [step]) == Run(Next(s, step), [step][1..]) == Next(s, step);
  }

  /** A call with its outcome ends with it as soon as it takes its next step. */
  lemma {:induction false} LeavingEnds(s: State, more: seq<Step>, k: nat, o: Outcome)
    requires Sound(s) && k in s.calls
             && (s.calls[k].stage == Ended(o) || (s.calls[k].stage == Leaving(o) && Leave(k) in more))
    ensures k in Run(s, more).calls && Run(s, more).calls[k].stage == Ended(o)
    decreases |more|
  {
    hide Sound, Next;
    if more != [] {
      var step, rest := more[0], more[1..];
      assert more == [step] + rest;
      NextSound(s, step);
      if s.calls[k].stage == Ended(o) {
        EndedStays(s, step, k, o);
      } else {
        StaysLeaving(s, step, k, o);
      }
      LeavingEnds(Next(s, step), rest, k, o);
    }
  }

  lemma {:induction false} EndedStays(s: State, step: Step, k: nat, o: Outcome)
    requires Sound(s) && k in s.calls && s.calls[k].stage == Ended(o)
    ensures var t := Next(s, step); k in t.calls && t.calls[k].stage == Ended(o)
  {
    hide CallsOk, ThreadsOk, StreamOk, AnswersOk, AnsweredEarlier, Next;
    KeepsOutcome(s, step, k);
  }

  /** A step of call k's own that receives, and one after it that returns. */
  predicate ReceivesThenLeaves(steps: seq<Step>, k: nat) {
    exists i, j :: 0 <= i < j < |steps| && steps[i] == Receive(k) && steps[j] == Leave(k)
  }

  lemma {:induction false} TakesFrom(s: State, more: seq<Step>, k: nat, f: Frame)
    requires Sound(s) && Is(s, k, Waiting, Some(f)) && Cancel(k) !in more && ReceivesThenLeaves(more, k)
    ensures k in Run(s, more).calls && Run(s, more).calls[k].stage == Ended(Answered(f))
    decreases |more|
  {
    hide Sound, Next;
    var i, j :| 0 <= i < j < |more| && more[i] == Receive(k) && more[j] == Leave(k);
    var step, rest := more[0], more[1..];
    NextSound(s, step);
    assert rest[j - 1] == more[j];
    if step == Receive(k) {
      ReceiveEnds(s, k, Some(f));
      assert Leave(k) in rest;
      LeavingEnds(Next(s, step), rest, k, Answered(f));
    } else {
      assert rest[i - 1] == more[i];
      StaysWaiting(s, step, k, f);
      TakesFrom(Next(s, step), rest, k, f);
    }
  }

  /** In every run, the agent running or gone: a waiting call whose reply is there ends with that reply, once
      it has received and returned, whatever happens between; unless its context ends first. */
  lemma {:induction false} TakesItsReply(steps: seq<Step>, more: seq<Step>, k: nat, f: Frame)
    requires Is(Run(START, steps), k, Waiting, Some(f)) && Cancel(k) !in more && ReceivesThenLeaves(more, k)
    ensures var t := Run(Run(START, steps), more); k in t.calls && t.calls[k].stage == Ended(Answered(f))
  {
    hide Sound, Run, ReceivesThenLeaves;
    StartSound();
    RunKeepsSound(START, steps);
    TakesFrom(Run(START, steps), more, k, f);
  }

  // ---- a reply's way ----

  /** In every run: a reply to a waiting call, read while the stream has room, is passed on to that call, the
      turn's end before it when it ends a turn, and the call ends with it. */
  lemma {:induction false} ReplyReachesItsCall(steps: seq<Step>, k: nat, f: Frame)
    requires var s := Run(START, steps);
             && Is(s, k, Waiting, None) && s.reader == Reading && !s.exited && |s.waiting| < MESSAGES_CAPACITY
             && f.Reply? && NormalizeID(f.id) == Decimal(k)
    ensures var s := Run(START, steps);
            var turn := s.calls[k].prompt && !f.failed;
            var t := Next(Next(if turn then Next(Next(s, Read(f)), PostTurnEnd) else Next(s, Read(f)), SendReply),
                          Receive(k));
            && Is(t, k, Leaving(Answered(f)), None) && t.reader == Reading
            && t.posted == s.posted + (if turn then [Post(TurnEnded(f.stop), |s.frames| + 1)] else [])
  {
    hide Next, CallsOk, ThreadsOk, StreamOk, AnswersOk, AnsweredEarlier;
    StartSound();
    RunKeepsSound(START, steps);
    var s := Run(START, steps);
    OpenWhileRunning(s, k);
    ReadFinds(s, k, f);
    var r := Next(s, Read(f));
    NextSound(s, Read(f));
    var p := if s.calls[k].prompt && !f.failed then Next(r, PostTurnEnd) else r;
    if s.calls[k].prompt && !f.failed {
      TurnEndPosted(r, k, f);
    }
    ReplySent(p, k, f);
    ReceiveEnds(Next(p, SendReply), k, Some(f));
    ReceiveOnlyCalls(Next(p, SendReply), k);
  }

  lemma {:induction false} ReadFinds(s: State, k: nat, f: Frame)
    requires CallsOk(s) && Is(s, k, Waiting, None) && s.reader == Reading && !s.exited
    requires f.Reply? && NormalizeID(f.id) == Decimal(k)
    ensures var t := Next(s, Read(f));
            t == s.(frames := s.frames + [f],
                    reader := if s.calls[k].prompt && !f.failed then Found(k, f) else Answering(k, f))
  {
    hide Decimal, NormalizeID;
    assert CallOk(s, k);
    DecimalInjective(s.pending[Decimal(k)], k);
  }

  lemma {:induction false} OpenWhileRunning(s: State, k: nat)
    requires CallsOk(s) && ThreadsOk(s) && k in s.calls && !s.exited
    ensures !s.calls[k].closed && !s.messagesClosed
  {
    hide Decimal, NormalizeID;
    assert CallOk(s, k);
  }

  lemma {:induction false} TurnEndPosted(s: State, k: nat, f: Frame)
    requires s.reader == Found(k, f) && f.Reply? && !s.messagesClosed && |s.waiting| < MESSAGES_CAPACITY
    ensures Next(s, PostTurnEnd) ==
            s.(waiting := s.waiting + [TurnEnded(f.stop)], posted := s.posted + [Post(TurnEnded(f.stop), |s.frames|)],
               reader := Answering(k, f))
  {
  }

  lemma {:induction false} ReplySent(s: State, k: nat, f: Frame)
    requires s.reader == Answering(k, f) && Is(s, k, Waiting, None) && !s.calls[k].closed
    ensures var t := Next(s, SendReply); Is(t, k, Waiting, Some(f)) && t.reader == Reading && t.posted == s.posted
  {
    hide OnlyCall;
  }

  lemma {:induction false} ReceiveOnlyCalls(s: State, k: nat)
    ensures var t := Next(s, Receive(k)); t.reader == s.reader && t.posted == s.posted
  {
    hide Moves, OnlyCall;
  }
}
