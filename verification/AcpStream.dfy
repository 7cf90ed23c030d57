/** The client's message stream as a queue: what is read from it is what was posted, in order; and what sending
    on a closed channel, or closing one twice, does. */
module AcpStream {
  import opened AcpProtocol
  import opened Text

  /** What reading the stream over steps gives. */
  function Taken(s: State, steps: seq<Step>): seq<Message>
    decreases |steps|
  {
    if steps == [] then []
    else (if steps[0].Consume? && s.waiting != [] then [s.waiting[0]] else []) + Taken(Next(s, steps[0]), steps[1..])
  }

  function Messages(posted: seq<Post>): seq<Message> {
    seq(|posted|, i requires 0 <= i < |posted| => posted[i].msg)
  }

  /** before was read so far, and the rest of what was posted waits. */
  ghost predicate Queued(s: State, before: seq<Message>) { Messages(s.posted) == before + s.waiting }

  lemma OnePosted(posted: seq<Post>, p: Post)
    ensures Messages(posted + [p]) == Messages(posted) + [p.msg]
  {
  }

  lemma {:induction false} SentQueued(s: State, msg: Message, at: nat, before: seq<Message>)
    requires Queued(s, before)
    ensures match Sent(s, msg, at) case None => true case Some(t) => Queued(t, before)
  {
    hide Messages;
    OnePosted(s.posted, Post(msg, at));
    assert before + (s.waiting + [msg]) == before + s.waiting + [msg];
  }

  lemma {:induction false} StepQueued(s: State, step: Step, before: seq<Message>)
    requires Queued(s, before)
    ensures Queued(Next(s, step), before + Taken(s, [step]))
  {
    assert Taken(Next(s, step), [step][1..]) == [];
    assert before + [] == before;
    if step.Consume? {
      if s.waiting != [] {
        assert s.waiting == [s.waiting[0]] + s.waiting[1..];
        assert before + s.waiting == before + [s.waiting[0]] + s.waiting[1..];
      }
    } else {
      OtherQueued(s, step, before);
    }
  }

  lemma {:induction false} OtherQueued(s: State, step: Step, before: seq<Message>)
    requires Queued(s, before) && !step.Consume?
    ensures Queued(Next(s, step), before)
  {
    hide Sent, Messages, Decimal, NormalizeID, Shut, AnyShut, Dispatch, Moved, Moves, OnlyCall;
    match step
    case PostMessage => if s.reader.Posting? { SentQueued(s, Said(s.reader.msg), |s.frames|, before); }
    case PostTurnEnd =>
      if s.reader.Found? && s.reader.frame.Reply? {
        SentQueued(s, TurnEnded(s.reader.frame.stop), |s.frames|, before);
      }
    case Announce => SentQueued(s, Exited, |s.frames| + 1, before);
    case _ =>
  }

  /** Over every run: what was read from the stream is what was posted first, in order, and the rest waits. */
  lemma {:induction false} StreamIsQueue(s: State, steps: seq<Step>, before: seq<Message>)
    requires Queued(s, before)
    ensures Queued(Run(s, steps), before + Taken(s, steps))
    decreases |steps|
  {
    hide Queued, Next;
    if steps == [] {
      assert before + [] == before;
    } else {
      StepQueued(s, steps[0], before);
      StreamIsQueue(Next(s, steps[0]), steps[1..], before + Taken(s, [steps[0]]));
      FirstTaken(s, steps);
      assert before + (Taken(s, [steps[0]]) + Taken(Next(s, steps[0]), steps[1..])) ==
             before + Taken(s, [steps[0]]) + Taken(Next(s, steps[0]), steps[1..]);
    }
  }

  lemma {:induction false} FirstTaken(s: State, steps: seq<Step>)
    requires steps != []
    ensures Taken(s, steps) == Taken(s, [steps[0]]) + Taken(Next(s, steps[0]), steps[1..])
  {
    hide Next;
    assert [steps[0]][1..] == [];
  }

  /** A frame that says something waits to be posted while 256 messages are unread, and is posted last of all once
      there are fewer. */
  lemma {:induction false} PostedWhenRoom(s: State)
    requires s.reader.Posting? && !s.messagesClosed
    ensures var t := Next(s, PostMessage);
            if |s.waiting| < 256 then t.waiting == s.waiting + [Said(s.reader.msg)] && t.reader == Reading
            else t == s
  {
  }

  /** The end of the agent's output is the end of everything: every registered call's channel is closed and no call
      is registered any more, the exit is posted last, and the stream is closed. */
  lemma {:induction false} EndClosesAll(s: State)
    requires s.reader == Reading && s.finisher == AwaitDone && !s.messagesClosed && |s.waiting| < 256
    ensures var gone := Finished(Next(s, EndOfOutput));
            var t := ClosedMessages(AnnouncedExit(gone));
            && gone.exited && gone.pending == map[]
            && (forall k :: k in s.calls ==> gone.calls[k].closed == (s.calls[k].closed || k in s.pending.Values))
            && t.waiting == s.waiting + [Exited] && t.messagesClosed && t.finisher == Closed && t.calls == gone.calls
  {
    hide Decimal, NormalizeID, Moves, OnlyCall, AnyShut, Dispatch, Moved;
  }

  /** Sending on a closed channel panics. */
  lemma {:induction false} SendingOnClosedPanics(s: State)
    ensures s.reader.Answering? && s.reader.k in s.calls && s.calls[s.reader.k].closed ==> SentReply(s).panicked
    ensures s.messagesClosed && s.reader.Posting? ==> PostedMessage(s).panicked
    ensures s.messagesClosed && s.reader.Found? && s.reader.frame.Reply? ==> PostedTurnEnd(s).panicked
    ensures s.messagesClosed && s.finisher == Announcing ==> AnnouncedExit(s).panicked
  {
    hide Decimal, NormalizeID, Moves, OnlyCall, Shut, AnyShut, Dispatch, Moved;
  }

  /** And so does closing one a second time. */
  lemma {:induction false} ClosingTwicePanics(s: State, k: nat)
    ensures s.messagesClosed && s.finisher == Closing ==> ClosedMessages(s).panicked
    ensures s.reader == Done && s.finisher == AwaitDone && k in s.pending.Values && k in s.calls
            && s.calls[k].closed ==>
              Finished(s).panicked
  {
    hide Decimal, NormalizeID, Moves, OnlyCall, Shut, Dispatch, Moved, Sent;
  }
}
