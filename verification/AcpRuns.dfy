/** What every run of the agent connection keeps: no panic, each call ended once and with its own
    reply, the turn's end in its place in the stream, and the exit last. */
module AcpRuns {
  import opened Text
  import opened AcpProtocol

  // ---- the stream of messages ----

  /** A message is the one its frame stands for. */
  predicate StandsFor(msg: Message, f: Frame) {
    match f
    case Says(m) => msg == Said(m)
    case Reply(_, failed, stop) => !failed && msg == TurnEnded(stop)
    case _ => false
  }

  predicate Announced(s: State) { s.finisher == Closing || s.finisher == Closed }

  /** The reader has taken a frame whose message is still to be posted. */
  predicate Owing(s: State) { s.reader.Posting? || s.reader.Found? }

  /** Messages are posted in the order of their frames, one a frame, each the one its frame stands
      for; the exit comes after every frame. */
  ghost predicate PostsInOrder(s: State) {
    && (forall i, j :: 0 <= i < j < |s.posted| ==> s.posted[i].at < s.posted[j].at)
    && (forall i :: 0 <= i < |s.posted| ==> PostOk(s, s.posted[i]))
    && (Announced(s) <==> s.posted != [] && s.posted[|s.posted| - 1].msg == Exited)
  }

  predicate PostOk(s: State, p: Post) {
    if p.at == |s.frames| + 1 then p.msg == Exited && Announced(s)
    else 1 <= p.at <= |s.frames| && StandsFor(p.msg, s.frames[p.at - 1]) && (Owing(s) ==> p.at < |s.frames|)
  }

  /** Every frame read so far that says something has its message in the stream, but for the one the
      reader is about to post. */
  ghost predicate NothingLost(s: State) {
    forall n :: 1 <= n <= |s.frames| && s.frames[n - 1].Says? && !(n == |s.frames| && s.reader.Posting?) ==>
      PostedAt(s.posted, n)
  }

  ghost predicate PostedAt(posted: seq<Post>, n: nat) {
    exists i :: 0 <= i < |posted| && posted[i].at == n
  }

  /** What the consumer has not taken yet is the end of what was posted. */
  predicate StreamKept(s: State) {
    && |s.waiting| <= |s.posted|
    && forall i :: 0 <= i < |s.waiting| ==> s.waiting[i] == s.posted[|s.posted| - |s.waiting| + i].msg
  }

  ghost predicate StreamOk(s: State) { PostsInOrder(s) && NothingLost(s) && StreamKept(s) }

  /** One more message, of a later frame than every one before it. */
  lemma AppendKeepsStream(s: State, t: State, p: Post)
    requires StreamOk(s)
    requires t.posted == s.posted + [p] && t.waiting == s.waiting + [p.msg] && t.frames == s.frames
    requires forall i :: 0 <= i < |s.posted| ==> s.posted[i].at < p.at
    requires PostOk(t, p)
    requires !Announced(s) && !Owing(t)
    requires Announced(t) <==> p.msg == Exited
    requires s.reader.Posting? ==> p.at == |s.frames|
    ensures StreamOk(t)
  {
    hide StandsFor;
    var n := |s.posted|;
    assert forall i :: 0 <= i < n ==> t.posted[i] == s.posted[i] && PostOk(s, s.posted[i]);
    assert PostedAt(t.posted, p.at) by { assert t.posted[n].at == p.at; }
    forall m | 1 <= m <= |t.frames| && t.frames[m - 1].Says? && !(m == |t.frames| && t.reader.Posting?)
      ensures PostedAt(t.posted, m)
    {
      if m != p.at {
        assert PostedAt(s.posted, m);
        var i :| 0 <= i < n && s.posted[i].at == m;
        assert t.posted[i].at == m;
      }
    }
  }

  lemma PostKeepsStream(s: State, step: Step)
    requires ThreadsOk(s) && StreamOk(s) && (step == PostMessage || step == PostTurnEnd || step == Announce)
    ensures StreamOk(Next(s, step))
  {
    hide NormalizeID, Decimal, StreamKept, NothingLost;
    var t := Next(s, step);
    if t != s {
      var p := t.posted[|s.posted|];
      assert t.posted == s.posted + [p];
      assert forall i :: 0 <= i < |s.posted| ==> PostOk(s, s.posted[i]);
      AppendKeepsStream(s, t, p);
    }
  }

  lemma ReadKeepsStream(s: State, f: Frame)
    requires ThreadsOk(s) && StreamOk(s)
    ensures StreamOk(Next(s, Read(f)))
  {
    hide NormalizeID, Decimal;
    var t := Next(s, Read(f));
    if t != s {
      assert t.frames[..|s.frames|] == s.frames;
      assert forall i :: 0 <= i < |s.posted| ==> PostOk(s, s.posted[i]);
    }
  }

  /** Every step keeps the stream. */
  lemma NextKeepsStream(s: State, step: Step)
    requires ThreadsOk(s) && StreamOk(s)
    ensures StreamOk(Next(s, step))
  {
    hide NormalizeID, Decimal, Begun, Registered, Written, CalledOff, Received, Left, Took, PostedMessage,
         PostedTurnEnd, SentReply, Finished, AnnouncedExit, ClosedMessages, OnlyCall, Moves;
    match step
    case PostMessage => PostKeepsStream(s, step);
    case PostTurnEnd => PostKeepsStream(s, step);
    case Announce => PostKeepsStream(s, step);
    case Read(f) => ReadKeepsStream(s, f);
    case Consume =>
      if s.waiting != [] {
        var t := Next(s, step);
        assert forall i :: 0 <= i < |s.posted| ==> PostOk(s, s.posted[i]) && PostOk(t, t.posted[i]);
      }
    case _ => SameStream(s, Next(s, step), step);
  }

  /** A step that posts nothing and reads no frame. */
  lemma SameStream(s: State, t: State, step: Step)
    requires StreamOk(s)
    requires t == Next(s, step) && !step.PostMessage? && !step.PostTurnEnd? && !step.Announce? && !step.Read?
             && !step.Consume?
    ensures StreamOk(t)
  {
    hide StreamOk, Owing, Announced, Next;
    SameStanding(s, step);
    StreamFrom(s, t);
  }

  lemma SameStanding(s: State, step: Step)
    requires !step.PostMessage? && !step.PostTurnEnd? && !step.Announce? && !step.Read? && !step.Consume?
    ensures var t := Next(s, step);
            && t.posted == s.posted && t.frames == s.frames && t.waiting == s.waiting
            && (Owing(t) ==> Owing(s)) && (t.reader.Posting? <==> s.reader.Posting?) && (Announced(t) <==> Announced(s))
  {
    hide Begun, Registered, Written, CalledOff, Received, Left, SentReply, Finished, ClosedMessages, OnlyCall, Moves;
  }

  lemma StreamFrom(s: State, t: State)
    requires StreamOk(s)
    requires t.posted == s.posted && t.frames == s.frames && t.waiting == s.waiting
    requires (Owing(t) ==> Owing(s)) && (t.reader.Posting? <==> s.reader.Posting?) && (Announced(t) <==> Announced(s))
    ensures StreamOk(t)
  {
    hide Owing, Announced, StandsFor;
    assert forall i :: 0 <= i < |s.posted| ==> PostOk(s, s.posted[i]);
  }

  // ---- replies ----

  /** The turn's end that f stands for is in the stream. */
  ghost predicate TurnPosted(s: State, f: Frame) {
    exists i :: 0 <= i < |s.posted| && TurnPostedAt(s, f, i)
  }

  predicate TurnPostedAt(s: State, f: Frame, i: nat)
    requires i < |s.posted|
  {
    f.Reply? && s.posted[i].msg == TurnEnded(f.stop) && 1 <= s.posted[i].at <= |s.frames|
      && s.frames[s.posted[i].at - 1] == f
  }

  /** f is a reply the agent sent to call k, and a turn's end was posted before it was passed on. */
  ghost predicate RepliesTo(s: State, k: nat, f: Frame)
    requires k in s.calls
  {
    && f.Reply? && f in s.frames && NormalizeID(f.id) == Decimal(k) && k in s.answered
    && (s.calls[k].prompt && !f.failed ==> TurnPosted(s, f))
  }

  /** A call's reply is its own; one that was answered has the reply until it takes it, and did not
      see the agent exit. */
  ghost predicate AnswerOk(s: State, k: nat)
    requires k in s.calls
  {
    var c, o := s.calls[k], OutcomeOf(s.calls[k]);
    && (c.reply.Some? ==> RepliesTo(s, k, c.reply.value))
    && (o.Some? && o.value.Answered? ==> RepliesTo(s, k, o.value.frame))
    && (o == Some(AgentExited) ==> s.exited && k !in s.answered)
    && (k in s.answered && o == None ==> c.reply.Some?)
  }

  ghost predicate AnswersOk(s: State) {
    && s.answered <= s.calls.Keys
    && (forall k :: k in s.calls ==> AnswerOk(s, k))
    && (s.reader.Answering? && s.reader.k in s.calls && s.calls[s.reader.k].prompt && s.reader.frame.Reply?
        && !s.reader.frame.failed ==>
          TurnPosted(s, s.reader.frame))
  }

  /** More posts and frames lose no turn's end. */
  lemma TurnStaysPosted(s: State, t: State, f: Frame)
    requires TurnPosted(s, f)
    requires s.posted <= t.posted && s.frames <= t.frames
    ensures TurnPosted(t, f)
  {
    var i :| 0 <= i < |s.posted| && TurnPostedAt(s, f, i);
    assert t.posted[i] == s.posted[i] && t.frames[s.posted[i].at - 1] == s.frames[s.posted[i].at - 1];
    assert TurnPostedAt(t, f, i);
  }

  lemma ReplyStays(s: State, t: State, k: nat, f: Frame)
    requires k in s.calls && k in t.calls && s.calls[k].prompt == t.calls[k].prompt
    requires RepliesTo(s, k, f)
    requires s.posted <= t.posted && s.frames <= t.frames && s.answered <= t.answered
    ensures RepliesTo(t, k, f)
  {
    hide NormalizeID, Decimal, TurnPosted;
    if s.calls[k].prompt && !f.failed {
      TurnStaysPosted(s, t, f);
    }
  }

  /** A call not touched by a step keeps its answer. */
  lemma AnswerStays(s: State, t: State, k: nat)
    requires k in s.calls && k in t.calls && s.calls[k].prompt == t.calls[k].prompt
    requires OutcomeOf(s.calls[k]) == OutcomeOf(t.calls[k]) && s.calls[k].reply == t.calls[k].reply
    requires AnswerOk(s, k)
    requires s.posted <= t.posted && s.frames <= t.frames && s.answered <= t.answered
    requires (k in t.answered ==> k in s.answered) && (s.exited ==> t.exited)
    ensures AnswerOk(t, k)
  {
    hide NormalizeID, Decimal, RepliesTo;
    var c, o := s.calls[k], OutcomeOf(s.calls[k]);
    if c.reply.Some? {
      ReplyStays(s, t, k, c.reply.value);
    }
    if o.Some? && o.value.Answered? {
      ReplyStays(s, t, k, o.value.frame);
    }
  }

  lemma OnlyGrows(s: State, step: Step)
    ensures var t := Next(s, step); s.posted <= t.posted && s.frames <= t.frames && s.answered <= t.answered
    ensures s.exited ==> Next(s, step).exited
    ensures !step.Begin? ==> Next(s, step).calls.Keys == s.calls.Keys
    ensures forall k :: k in s.calls && k in Next(s, step).calls && k <= s.nextID ==>
              Next(s, step).calls[k].prompt == s.calls[k].prompt
  {
    hide Next;
    RecordsGrow(s, step);
    KindsStay(s, step);
  }

  lemma RecordsGrow(s: State, step: Step)
    ensures var t := Next(s, step); s.posted <= t.posted && s.frames <= t.frames && s.answered <= t.answered
    ensures s.exited ==> Next(s, step).exited
  {
    hide Begun, Registered, Written, CalledOff, Received, Left, Took, PostedMessage, PostedTurnEnd, SentReply, Finished,
         AnnouncedExit, ClosedMessages, OnlyCall, Moves;
  }

  lemma KindsStay(s: State, step: Step)
    ensures !step.Begin? ==> Next(s, step).calls.Keys == s.calls.Keys
    ensures forall k :: k in s.calls && k in Next(s, step).calls && k <= s.nextID ==>
              Next(s, step).calls[k].prompt == s.calls[k].prompt
  {
    hide Begun, Registered, Written, CalledOff, Received, Left, Took, PostedMessage, PostedTurnEnd, SentReply, Finished,
         AnnouncedExit, ClosedMessages, Moves;
  }

  /** The call a step moves, if any. */
  function Mover(s: State, step: Step): Option<nat> {
    match step
    case Register(k) => Some(k)
    case Write(k, _) => Some(k)
    case Cancel(k) => Some(k)
    case Receive(k) => Some(k)
    case Leave(k) => Some(k)
    case SendReply => if s.reader.Answering? then Some(s.reader.k) else None
    case _ => None
  }

  lemma OthersStay(s: State, step: Step, k: nat)
    requires k in s.calls && k <= s.nextID && Mover(s, step) != Some(k)
    ensures var t := Next(s, step);
            && k in t.calls && t.calls[k].stage == s.calls[k].stage && t.calls[k].reply == s.calls[k].reply
            && t.calls[k].prompt == s.calls[k].prompt && (k in t.answered <==> k in s.answered)
  {
    hide Begun, Registered, Written, CalledOff, Received, Left, Took, PostedMessage, PostedTurnEnd, SentReply, Finished,
         AnnouncedExit, ClosedMessages, Moves;
    if OwnCallStep(step) {
      OthersStayOwn(s, step, k);
    }
  }

  lemma OthersStayOwn(s: State, step: Step, k: nat)
    requires k in s.calls && Mover(s, step) != Some(k) && OwnCallStep(step)
    ensures var t := Next(s, step); k in t.calls && t.calls[k] == s.calls[k] && t.answered == s.answered
  {
    hide Begun, Registered, Written, CalledOff, Received, Left, Took, PostedMessage, PostedTurnEnd, SentReply, Finished,
         AnnouncedExit, ClosedMessages, Moves;
  }

  lemma MovedCall(s: State, step: Step, k: nat)
    requires k in s.calls && Mover(s, step) == Some(k) && step != SendReply
    ensures var t := Next(s, step);
            k in t.calls && t.answered == s.answered && Moves(s.calls[k], t.calls[k])
  {
    hide Decimal, Registered, Written, CalledOff, Received, Left, Moves;
  }

  /** A call's own step keeps its answer. */
  lemma MoverAnswer(s: State, step: Step, k: nat)
    requires k in s.calls && Mover(s, step) == Some(k) && step != SendReply
    requires CallsOk(s) && AnswersOk(s)
    ensures k in Next(s, step).calls && AnswerOk(Next(s, step), k)
  {
    hide NormalizeID, Decimal, TurnPosted, RepliesTo, Next, Mover;
    var t := Next(s, step);
    assert CallOk(s, k) && AnswerOk(s, k);
    OnlyGrows(s, step);
    MovedCall(s, step, k);
    var c, o := s.calls[k], OutcomeOf(s.calls[k]);
    if c.reply.Some? {
      ReplyStays(s, t, k, c.reply.value);
    }
    if o.Some? && o.value.Answered? {
      ReplyStays(s, t, k, o.value.frame);
    }
  }

  lemma SendAnswer(s: State, k: nat)
    requires k in s.calls && Mover(s, SendReply) == Some(k)
    requires CallsOk(s) && ThreadsOk(s) && AnswersOk(s)
    ensures k in Next(s, SendReply).calls && AnswerOk(Next(s, SendReply), k)
  {
    hide NormalizeID, Decimal, TurnPosted, RepliesTo;
    var t := Next(s, SendReply);
    assert CallOk(s, k) && AnswerOk(s, k);
    if t != s {
      SendReplyAnswers(s);
      var o := OutcomeOf(s.calls[k]);
      if o.Some? && o.value.Answered? {
        ReplyStays(s, t, k, o.value.frame);
      }
    }
  }

  lemma SendReplyAnswers(s: State)
    requires CallsOk(s) && ThreadsOk(s) && AnswersOk(s) && s.reader.Answering?
    requires Next(s, SendReply) != s
    ensures var t := Next(s, SendReply); s.reader.k in t.calls && RepliesTo(t, s.reader.k, s.reader.frame)
  {
    hide NormalizeID, Decimal;
    var t := Next(s, SendReply);
    assert CallOk(s, s.reader.k);
    assert t.frames == s.frames && s.reader.frame == s.frames[|s.frames| - 1];
    if s.calls[s.reader.k].prompt && !s.reader.frame.failed {
      TurnStaysPosted(s, t, s.reader.frame);
    }
  }

  lemma PostTurnEndPosts(s: State)
    requires ThreadsOk(s) && s.reader.Found? && Next(s, PostTurnEnd).reader.Answering?
    ensures TurnPosted(Next(s, PostTurnEnd), s.reader.frame)
  {
    hide NormalizeID, Decimal;
    var t := Next(s, PostTurnEnd);
    assert TurnPostedAt(t, s.reader.frame, |s.posted|);
  }

  /** Every step keeps replies with their calls. */
  lemma NextKeepsAnswers(s: State, step: Step)
    requires CallsOk(s) && ThreadsOk(s) && AnswersOk(s)
    ensures AnswersOk(Next(s, step))
  {
    hide NormalizeID, Decimal, Next, AnswerOk, TurnPosted, CallOk;
    var t := Next(s, step);
    OnlyGrows(s, step);
    IdsTaken(s);
    forall k | k in t.calls
      ensures AnswerOk(t, k)
    {
      if k !in s.calls {
        NewCall(s, step, k);
      } else if Mover(s, step) == Some(k) && step == SendReply {
        SendAnswer(s, k);
      } else if Mover(s, step) == Some(k) {
        MoverAnswer(s, step, k);
      } else {
        OthersStay(s, step, k);
        AnswerStays(s, t, k);
      }
    }
    AnsweredAreCalls(s, step);
    ReaderKeepsTurn(s, step);
  }

  lemma NewCall(s: State, step: Step, k: nat)
    requires AnswersOk(s) && k in Next(s, step).calls && k !in s.calls
    ensures AnswerOk(Next(s, step), k)
  {
    hide NormalizeID, Decimal, Dispatch;
  }

  lemma AnsweredAreCalls(s: State, step: Step)
    requires s.answered <= s.calls.Keys
    ensures Next(s, step).answered <= Next(s, step).calls.Keys
  {
    hide Begun, Registered, Written, CalledOff, Received, Left, Took, PostedMessage, PostedTurnEnd, SentReply, Finished,
         AnnouncedExit, ClosedMessages;
  }

  /** How the reader comes to be answering a call. */
  lemma NowAnswering(s: State, step: Step)
    requires Next(s, step).reader.Answering? && Next(s, step).reader != s.reader
    ensures var r := Next(s, step).reader;
            || (step == PostTurnEnd && s.reader == Found(r.k, r.frame))
            || (step == Read(r.frame) && r.frame.Reply? && Next(s, step).calls == s.calls
                && (r.k in s.calls && s.calls[r.k].prompt ==> r.frame.failed))
  {
    hide NormalizeID, Begun, Registered, Written, CalledOff, Received, Left, PostedMessage, PostedTurnEnd, SentReply,
         Finished, AnnouncedExit, ClosedMessages, OnlyCall, Moves;
  }

  lemma ReaderKeepsTurn(s: State, step: Step)
    requires CallsOk(s) && ThreadsOk(s) && AnswersOk(s)
    ensures var t := Next(s, step);
            t.reader.Answering? && t.reader.k in t.calls && t.calls[t.reader.k].prompt && t.reader.frame.Reply?
              && !t.reader.frame.failed ==>
              TurnPosted(t, t.reader.frame)
  {
    hide NormalizeID, Decimal, TurnPosted, AnswerOk, Next;
    var t := Next(s, step);
    OnlyGrows(s, step);
    IdsTaken(s);
    if t.reader.Answering? && t.reader.k in t.calls && t.calls[t.reader.k].prompt && t.reader.frame.Reply?
      && !t.reader.frame.failed {
      if t.reader == s.reader {
        TurnStaysPosted(s, t, t.reader.frame);
      } else {
        NowAnswering(s, step);
        PostTurnEndPosts(s);
      }
    }
  }

  // ---- a peer that answers an id once ----

  /** No two frames answer the same call. */
  predicate AnswersOnce(frames: seq<Frame>) {
    forall i, j :: 0 <= i < j < |frames| && frames[i].Reply? && frames[j].Reply? ==>
      NormalizeID(frames[i].id) != NormalizeID(frames[j].id)
  }

  /** Call k was answered by one of the first n frames. */
  predicate AnsweredBy(frames: seq<Frame>, n: nat, k: nat)
    requires n <= |frames|
  {
    exists i :: 0 <= i < n && frames[i].Reply? && NormalizeID(frames[i].id) == Decimal(k)
  }

  /** How many frames come before the one the reader is answering now. */
  function Earlier(s: State): (n: nat)
    ensures n <= |s.frames|
  {
    if (s.reader.Found? || s.reader.Answering?) && s.frames != [] then |s.frames| - 1 else |s.frames|
  }

  /** Every answered call was, by a frame before the one the reader is answering now. */
  ghost predicate AnsweredEarlier(s: State) {
    forall k :: k in s.answered ==> AnsweredBy(s.frames, Earlier(s), k)
  }

  lemma StillAnswered(s: State, t: State)
    requires AnsweredEarlier(s) && s.frames <= t.frames && Earlier(s) <= Earlier(t)
    ensures forall k :: k in s.answered ==> AnsweredBy(t.frames, Earlier(t), k)
  {
    hide NormalizeID, Decimal, Earlier;
    forall k | k in s.answered
      ensures AnsweredBy(t.frames, Earlier(t), k)
    {
      var i :| 0 <= i < Earlier(s) && s.frames[i].Reply? && NormalizeID(s.frames[i].id) == Decimal(k);
      assert t.frames[i] == s.frames[i];
    }
  }

  lemma EarlierGrows(s: State, step: Step)
    requires ThreadsOk(s)
    ensures Earlier(Next(s, step)) >= Earlier(s)
  {
    hide NormalizeID, Decimal, Begun, Registered, Written, CalledOff, Received, Left, Finished, AnnouncedExit,
         ClosedMessages;
  }

  lemma NextKeepsEarlier(s: State, step: Step)
    requires CallsOk(s) && ThreadsOk(s) && AnsweredEarlier(s)
    ensures AnsweredEarlier(Next(s, step))
  {
    hide NormalizeID, Decimal, Next, AnsweredEarlier, AnsweredBy;
    var t := Next(s, step);
    OnlyGrows(s, step);
    EarlierGrows(s, step);
    StillAnswered(s, t);
    NowAnswered(s, step);
    assert AnsweredEarlier(t) by { EarlierFrom(s, t); }
  }

  lemma EarlierFrom(s: State, t: State)
    requires forall k :: k in t.answered ==> AnsweredBy(t.frames, Earlier(t), k)
    ensures AnsweredEarlier(t)
  {
  }

  lemma NowAnswered(s: State, step: Step)
    requires ThreadsOk(s)
    ensures var t := Next(s, step);
            forall k :: k in t.answered && k !in s.answered ==> AnsweredBy(t.frames, Earlier(t), k)
  {
    hide NormalizeID, Decimal, Begun, Registered, Written, CalledOff, Received, Left, Took, PostedMessage,
         PostedTurnEnd, Finished, AnnouncedExit, ClosedMessages;
    var t := Next(s, step);
    if t.answered != s.answered {
      assert s.frames[|s.frames| - 1] == s.reader.frame && Earlier(t) == |t.frames| && t.frames == s.frames;
    }
  }

  // ---- every run ----

  ghost predicate Sound(s: State) {
    CallsOk(s) && ThreadsOk(s) && StreamOk(s) && AnswersOk(s) && AnsweredEarlier(s)
  }

  lemma {:induction false} RunKeepsSound(s: State, steps: seq<Step>)
    requires Sound(s)
    ensures Sound(Run(s, steps))
    decreases |steps|
  {
    hide CallsOk, ThreadsOk, StreamOk, AnswersOk, AnsweredEarlier, Next;
    if steps != [] {
      NextKeepsCalls(s, steps[0]);
      NextKeepsThreads(s, steps[0]);
      NextKeepsStream(s, steps[0]);
      NextKeepsAnswers(s, steps[0]);
      NextKeepsEarlier(s, steps[0]);
      RunKeepsSound(Next(s, steps[0]), steps[1..]);
    }
  }

  lemma StartSound()
    ensures Sound(START)
  {
    StartOk();
  }

  /** In every run: no send on a closed channel and no channel closed twice. */
  lemma {:induction false} NeverPanics(steps: seq<Step>)
    ensures !Run(START, steps).panicked
  {
    hide CallsOk, StreamOk, AnswersOk, AnsweredEarlier;
    StartSound();
    RunKeepsSound(START, steps);
  }

  /** In every run: a call that has its outcome keeps it, and one that returned has returned for good. */
  lemma {:induction false} EndsOnce(s: State, steps: seq<Step>, k: nat)
    requires Sound(s) && k in s.calls && OutcomeOf(s.calls[k]).Some?
    ensures var t := Run(s, steps);
            && k in t.calls && OutcomeOf(t.calls[k]) == OutcomeOf(s.calls[k])
            && (s.calls[k].stage.Ended? ==> t.calls[k].stage.Ended?)
    decreases |steps|
  {
    hide CallsOk, ThreadsOk, StreamOk, AnswersOk, AnsweredEarlier, Next;
    if steps != [] {
      var t := Next(s, steps[0]);
      KeepsOutcome(s, steps[0], k);
      RunKeepsSound(s, [steps[0]]);
      assert Run(s, [steps[0]]) == Run(t, [steps[0]][1..]) == t;
      EndsOnce(t, steps[1..], k);
    }
  }

  lemma KeepsOutcome(s: State, step: Step, k: nat)
    requires CallsOk(s) && k in s.calls && OutcomeOf(s.calls[k]).Some?
    ensures var t := Next(s, step);
            && k in t.calls && OutcomeOf(t.calls[k]) == OutcomeOf(s.calls[k])
            && (s.calls[k].stage.Ended? ==> t.calls[k].stage.Ended?)
  {
    hide NormalizeID, Decimal, Took, PostedMessage, PostedTurnEnd, Finished, AnnouncedExit, ClosedMessages;
    IdsTaken(s);
  }

  /** In every run: a call ends with its own reply or with no reply at all; a call that was answered
      never hears that the agent exited; and a prompt's answer follows its turn's end in the stream. */
  lemma {:induction false} EndsWithItsReply(steps: seq<Step>, k: nat)
    requires k in Run(START, steps).calls && OutcomeOf(Run(START, steps).calls[k]).Some?
    ensures var s := Run(START, steps); var o := OutcomeOf(s.calls[k]).value;
            && (o.Answered? ==> o.frame.Reply? && o.frame in s.frames && NormalizeID(o.frame.id) == Decimal(k))
            && (o == AgentExited ==> k !in s.answered)
            && (o.Answered? && s.calls[k].prompt && !o.frame.failed ==> TurnPosted(s, o.frame))
  {
    hide CallsOk, ThreadsOk, StreamOk, AnsweredEarlier, TurnPosted, NormalizeID, Decimal;
    StartSound();
    RunKeepsSound(START, steps);
    assert AnswerOk(Run(START, steps), k);
  }

  function Progress(stage: Stage): nat {
    match stage
    case Allocated => 0
    case Writing => 1
    case Waiting => 2
    case Leaving(_) => 3
    case Ended(_) => 4
  }

  /** What a call's goroutine does next, its write going well or not. */
  function OwnStep(k: nat, stage: Stage, ok: bool): Step {
    match stage
    case Allocated => Register(k)
    case Writing => Write(k, ok)
    case Waiting => Receive(k)
    case _ => Leave(k)
  }

  /** Once the agent is gone a call's own next step moves it on: it waits for nothing. */
  lemma OwnStepMoves(s: State, k: nat, ok: bool)
    requires Sound(s) && s.exited && k in s.calls && !s.calls[k].stage.Ended?
    ensures var t := Next(s, OwnStep(k, s.calls[k].stage, ok));
            k in t.calls && Progress(t.calls[k].stage) > Progress(s.calls[k].stage)
  {
    hide ThreadsOk, StreamOk, AnswersOk, AnsweredEarlier, NormalizeID, Decimal;
    assert CallOk(s, k);
  }

  predicate IsOwnStep(s: State, k: nat, step: Step)
    requires k in s.calls
  {
    step == OwnStep(k, s.calls[k].stage, true) || step == OwnStep(k, s.calls[k].stage, false)
  }

  /** How many steps of a run are call k's own next ones. */
  function OwnSteps(s: State, steps: seq<Step>, k: nat): nat
    decreases |steps|
  {
    if steps == [] then 0
    else (if k in s.calls && IsOwnStep(s, k, steps[0]) then 1 else 0) + OwnSteps(Next(s, steps[0]), steps[1..], k)
  }

  lemma {:induction false} EndsInItsSteps(s: State, steps: seq<Step>, k: nat)
    requires Sound(s) && s.exited && k in s.calls
    requires OwnSteps(s, steps, k) >= 4 - Progress(s.calls[k].stage)
    ensures k in Run(s, steps).calls && Run(s, steps).calls[k].stage.Ended?
    decreases |steps|
  {
    hide CallsOk, ThreadsOk, StreamOk, AnswersOk, AnsweredEarlier, Next, OwnStep;
    if steps != [] {
      var step, t := steps[0], Next(s, steps[0]);
      NeverMovesBack(s, step, k);
      OnlyGrows(s, step);
      RunKeepsSound(s, [step]);
      assert Run(s, [step]) == Run(t, [step][1..]) == t;
      if IsOwnStep(s, k, step) && !s.calls[k].stage.Ended? {
        OwnStepMoves(s, k, step == OwnStep(k, s.calls[k].stage, true));
      }
      EndsInItsSteps(t, steps[1..], k);
    }
  }

  /** In every run that goes on after the agent is gone, however its steps are mixed: a call ends, at the
      latest with the fourth step it takes of its own. */
  lemma {:induction false} NoCallWaits(steps: seq<Step>, more: seq<Step>, k: nat)
    requires var s := Run(START, steps);
             s.exited && k in s.calls && OwnSteps(s, more, k) >= 4 - Progress(s.calls[k].stage)
    ensures var t := Run(Run(START, steps), more); k in t.calls && t.calls[k].stage.Ended?
  {
    hide CallsOk, ThreadsOk, StreamOk, AnswersOk, AnsweredEarlier, Run, OwnSteps;
    StartSound();
    RunKeepsSound(START, steps);
    EndsInItsSteps(Run(START, steps), more, k);
  }

  lemma NeverMovesBack(s: State, step: Step, k: nat)
    requires CallsOk(s) && k in s.calls
    ensures k in Next(s, step).calls && Progress(Next(s, step).calls[k].stage) >= Progress(s.calls[k].stage)
  {
    hide Next, Mover, Progress, CallsOk;
    IdsTaken(s);
    if Mover(s, step) == Some(k) {
      OwnMovesOn(s, step, k);
    } else {
      OthersStay(s, step, k);
    }
  }

  lemma OwnMovesOn(s: State, step: Step, k: nat)
    requires k in s.calls && Mover(s, step) == Some(k)
    ensures k in Next(s, step).calls && Progress(Next(s, step).calls[k].stage) >= Progress(s.calls[k].stage)
  {
    hide NormalizeID, Decimal, Took, PostedMessage, PostedTurnEnd, Finished, AnnouncedExit, ClosedMessages, Moves;
  }

  /** In every run against an agent that answers an id at most once, passing a reply on never blocks:
      the call's channel is open and empty. */
  lemma {:induction false} ReplyNeverBlocks(steps: seq<Step>)
    requires var s := Run(START, steps); s.reader.Answering? && AnswersOnce(s.frames)
    ensures var s := Run(START, steps);
            s.reader.k in s.calls && s.calls[s.reader.k].reply == None && !s.calls[s.reader.k].closed
  {
    hide StreamOk, NormalizeID, Decimal;
    StartSound();
    RunKeepsSound(START, steps);
    var s := Run(START, steps);
    assert CallOk(s, s.reader.k) && AnswerOk(s, s.reader.k);
    assert s.frames[|s.frames| - 1] == s.reader.frame;
    assert s.reader.k !in s.answered;
  }

  /** In every run, at every moment: each message stands for a frame of its own, in the order of the
      frames; no frame that says something has been passed over, but for the one the reader is about to
      post; and the exit is last. */
  lemma {:induction false} StreamInOrder(steps: seq<Step>)
    ensures var s := Run(START, steps);
            && (forall i, j :: 0 <= i < j < |s.posted| ==> s.posted[i].at < s.posted[j].at)
            && (forall i :: 0 <= i < |s.posted| && s.posted[i].msg != Exited ==>
                  1 <= s.posted[i].at <= |s.frames| && StandsFor(s.posted[i].msg, s.frames[s.posted[i].at - 1]))
            && (forall i :: 0 <= i < |s.posted| && s.posted[i].msg == Exited ==> i == |s.posted| - 1 && s.exited)
            && (s.messagesClosed ==> s.posted != [] && s.posted[|s.posted| - 1].msg == Exited)
            && (forall n :: 1 <= n <= |s.frames| && s.frames[n - 1].Says? && !(n == |s.frames| && s.reader.Posting?) ==>
                  PostedAt(s.posted, n))
  {
    hide CallsOk, AnswersOk, AnsweredEarlier;
    StartSound();
    RunKeepsSound(START, steps);
    var s := Run(START, steps);
    assert forall i :: 0 <= i < |s.posted| ==> PostOk(s, s.posted[i]);
  }

  /** In every run, while the agent runs as well as after: whatever is in the stream, every frame read
      before its own that says something has its message in front of it. So no turn is seen to end
      before its last words. */
  lemma {:induction false} LastWordsComeFirst(steps: seq<Step>, i: nat, n: nat)
    requires var s := Run(START, steps);
             i < |s.posted| && 1 <= n < s.posted[i].at && n <= |s.frames| && s.frames[n - 1].Says?
    ensures exists j: nat :: j < i && Run(START, steps).posted[j].at == n
  {
    hide CallsOk, AnswersOk, AnsweredEarlier;
    StartSound();
    RunKeepsSound(START, steps);
    var s := Run(START, steps);
    StreamInOrder(steps);
    assert PostOk(s, s.posted[i]);
    assert PostedAt(s.posted, n);
    var j: nat :| j < |s.posted| && s.posted[j].at == n;
  }

  // ---- ids ----

  /** A reply's id read back as a number or as a string is the call it was sent for. */
  lemma {:induction false} NormalizedIDs(k: nat)
    ensures NormalizeID(Decimal(k)) == Decimal(k)
    ensures NormalizeID(['"'] + Decimal(k) + ['"']) == Decimal(k)
  {
    hide Decimal;
    var d := Decimal(k);
    assert d[0] != '"' && d[|d| - 1] != '"';
    var q := d + ['"'];
    assert (['"'] + q)[1..] == q && ['"'] + d + ['"'] == ['"'] + q;
    assert TrimLeftQuotes(['"'] + q) == TrimLeftQuotes(q) == q;
    assert q[..|q| - 1] == d;
    assert TrimRightQuotes(q) == TrimRightQuotes(d) == d;
  }
}
