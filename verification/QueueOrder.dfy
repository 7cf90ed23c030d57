/** Who comes when: messages are sent in the order they were accepted unless someone reorders them, and
    what each event and key does to that order. */
module QueueOrder {
  import opened QueueModel
  import opened QueueRuns
  import opened Text

  // ---- first come, first served ----

  /** Events that neither reorder the queue nor take a message from its middle. */
  predicate Orderly(e: Event) {
    match e
    case Unread(texts) => texts == []
    case Connected(prompt) => prompt == ""
    case SteerDone(_, taken) => !taken
    case CancelTurn => false
    case QueueKey(key, _) => key.Up? || key.Down? || key.Esc? || key.Typing?
    case _ => true
  }

  /** The text accepted by an event, if one is: any but an empty one typed, or one typed to an agent that is
      gone. */
  function AcceptedBy(s: State, e: Event): seq<string> {
    match e
    case Submit(text, _) => if text == "" || s.phase == Failed then [] else [text]
    case Offer(text) => [text]
    case Connected(prompt) => if prompt == "" then [] else [prompt]
    case _ => []
  }

  /** The texts accepted over events, in order. */
  function AcceptedOver(s: State, events: seq<Event>): seq<string>
    decreases |events|
  {
    if events == [] then [] else AcceptedBy(s, events[0]) + AcceptedOver(Step(s, events[0]), events[1..])
  }

  /** What was said, and then what waits. */
  function Line(s: State): seq<string> { s.said + TextsOf(s.queue) }

  lemma SameTexts(a: seq<Queued>, b: seq<Queued>)
    requires |a| == |b| && forall i :: 0 <= i < |a| ==> a[i].text == b[i].text
    ensures TextsOf(a) == TextsOf(b)
  {
  }

  lemma OneQueued(s: State, text: string, due: Option<int>)
    ensures TextsOf(Enqueue(s, text, due).queue) == TextsOf(s.queue) + [text]
  {
  }

  lemma NextTurnTexts(queue: seq<Queued>)
    ensures TextsOf(ForNextTurn(queue)) == TextsOf(queue)
  {
    SameTexts(ForNextTurn(queue), queue);
  }

  lemma TextsOfFirst(queue: seq<Queued>)
    requires queue != []
    ensures TextsOf(queue) == [queue[0].text] + TextsOf(queue[1..])
  {
  }

  lemma NextInLine(s: State)
    requires s.queue != []
    ensures TextsOf(s.queue) == [s.queue[0].text] + TextsOf(NextQueued(s).queue)
    ensures NextQueued(s).said == s.said
  {
    hide TextsOf, ForNextTurn;
    NextTurnTexts(s.queue[1..]);
    TextsOfFirst(s.queue);
  }

  lemma SendNextInLine(s: State)
    ensures Line(SendNext(s)) == Line(s)
  {
    hide TextsOf, NextQueued;
    if s.queue != [] {
      NextInLine(s);
    }
  }

  lemma LeaveInLine(s: State, now: int)
    ensures Line(LeaveQueue(s, now)) == Line(s)
  {
    SameTexts(LeaveQueue(s, now).queue, s.queue);
  }

  lemma {:induction false} StepInLine(s: State, e: Event)
    requires NoneWaits(s) && Orderly(e)
    ensures NoneWaits(Step(s, e))
    ensures Line(Step(s, e)) == Line(s) + AcceptedBy(s, e)
  {
    hide NoneWaits, Line;
    NoneWaitsUnlessLate(s, e);
    LineOf(s, e);
  }

  lemma {:induction false} LineOf(s: State, e: Event)
    requires NoneWaits(s) && Orderly(e)
    ensures Line(Step(s, e)) == Line(s) + AcceptedBy(s, e)
  {
    hide Line, SendNext, KeyInQueue, Ticked, SteerAnswered, TextsOf, LeaveQueue, Enqueue, Send;
    match e
    case Submit(text, now) => OneTyped(s, text, now);
    case Offer(text) => OneOffered(s, text);
    case TurnEnded(failed) => TurnOverInLine(s, failed);
    case Connected(prompt) => ConnectInLine(s);
    case QueueKey(key, now) => KeyInLine(s, key, now);
    case Tick(now) => TickInLine(s, now);
    case SteerDone(i, taken) => RefusedInLine(s, i);
    case Unread(texts) => NoneUnread(s, texts);
    case Stopped => LineByTexts(s, Step(s, e));
    case Goal(_) => LineByTexts(s, Step(s, e));
    case Focus(_) => LineByTexts(s, Step(s, e));
  }

  lemma LineByTexts(s: State, t: State)
    requires t.said == s.said && t.queue == s.queue
    ensures Line(t) == Line(s)
  {
  }

  lemma OneTyped(s: State, text: string, now: int)
    requires NoneWaits(s)
    ensures Line(Submitted(s, text, now)) == Line(s) + if text == "" || s.phase == Failed then [] else [text]
  {
    OneQueued(s, text, Some(now + STEER_DELAY));
    OneQueued(s, text, None);
  }

  lemma OneOffered(s: State, text: string)
    requires NoneWaits(s)
    ensures Line(Step(s, Offer(text))) == Line(s) + [text]
  {
    hide KeyInQueue, Ticked, SteerAnswered, SendNext;
    OneQueued(s, text, None);
  }

  lemma TurnOverInLine(s: State, failed: bool)
    ensures Line(TurnOver(s, failed)) == Line(s)
  {
    hide SendNext;
    SendNextInLine(s.(phase := Ready));
  }

  lemma ConnectInLine(s: State)
    ensures Line(Connect(s, "")) == Line(s)
  {
    hide SendNext;
    SendNextInLine(s.(phase := Ready));
  }

  lemma KeyInLine(s: State, key: Key, now: int)
    requires key.Up? || key.Down? || key.Esc? || key.Typing?
    ensures Line(Step(s, QueueKey(key, now))) == Line(s)
  {
    hide Ticked, SteerAnswered, SendNext, LeaveQueue;
    LeaveInLine(s, now);
  }

  lemma TickInLine(s: State, now: int)
    ensures Line(Ticked(s, now)) == Line(s)
  {
    SameTexts(Ticked(s, now).queue, s.queue);
  }

  lemma RefusedInLine(s: State, i: nat)
    ensures Line(Step(s, SteerDone(i, false))) == Line(s)
  {
    hide KeyInQueue, Ticked, SendNext;
    if i < |s.steers| {
      SameTexts(SteerAnswered(s, i, false).queue, s.queue);
    }
  }

  lemma NoneUnread(s: State, texts: seq<string>)
    requires texts == []
    ensures Line(Step(s, Unread(texts))) == Line(s)
  {
    assert UnreadFirst(texts, s.nextId) + s.queue == s.queue;
  }

  /** Over any run of such events messages are said in the order they were accepted, after those that waited
      before, and those not said yet wait in that order. */
  lemma {:induction false} FirstComeFirstServed(s: State, events: seq<Event>)
    requires NoneWaits(s) && forall e <- events :: Orderly(e)
    ensures Line(Run(s, events)) == Line(s) + AcceptedOver(s, events)
    decreases |events|
  {
    hide NoneWaits, Line, Orderly, Step;
    if events != [] {
      StepInLine(s, events[0]);
      FirstComeFirstServed(Step(s, events[0]), events[1..]);
    }
  }

  // ---- what is accepted and given up ----

  /** Over every run the messages accepted are recorded, each as often as it was accepted. */
  lemma {:induction false} AcceptedRecorded(s: State, events: seq<Event>)
    ensures Run(s, events).accepted == s.accepted + multiset(AcceptedOver(s, events))
    decreases |events|
  {
    hide Step;
    if events != [] {
      AcceptedRecorded(Step(s, events[0]), events[1..]);
      OneAccepted(s, events[0]);
    }
  }

  lemma {:induction false} OneAccepted(s: State, e: Event)
    ensures Step(s, e).accepted == s.accepted + multiset(AcceptedBy(s, e))
  {
    hide KeyInQueue, Ticked, SteerAnswered, SendNext, LeaveQueue;
    match e
    case QueueKey(key, now) => if 0 <= s.sel < |s.queue| { KeyAccepts(s, key, now); }
    case Tick(now) => TickAccepts(s, now);
    case SteerDone(i, taken) => if i < |s.steers| { AnswerAccepts(s, i, taken); }
    case TurnEnded(failed) => NextAccepts(s.(phase := Ready));
    case Connected(prompt) => ConnectAccepts(s, prompt);
    case _ =>
  }

  lemma KeyAccepts(s: State, key: Key, now: int)
    requires 0 <= s.sel < |s.queue|
    ensures KeyInQueue(s, key, now).accepted == s.accepted
  {
  }

  lemma TickAccepts(s: State, now: int)
    ensures Ticked(s, now).accepted == s.accepted && Ticked(s, now).givenUp == s.givenUp
  {
  }

  lemma AnswerAccepts(s: State, i: nat, taken: bool)
    requires i < |s.steers|
    ensures SteerAnswered(s, i, taken).accepted == s.accepted && SteerAnswered(s, i, taken).givenUp == s.givenUp
  {
  }

  lemma NextAccepts(s: State)
    ensures SendNext(s).accepted == s.accepted && SendNext(s).givenUp == s.givenUp
  {
  }

  lemma ConnectAccepts(s: State, prompt: string)
    ensures Connect(s, prompt).accepted == s.accepted + if prompt == "" then multiset{} else multiset{prompt}
    ensures Connect(s, prompt).givenUp == s.givenUp
  {
    hide SendNext;
    var t := s.(phase := Ready);
    NextAccepts(t);
    NextAccepts(t.(nextId := t.nextId + 1, queue := [Queued(t.nextId + 1, prompt, None, false)] + t.queue,
                   accepted := t.accepted + multiset{prompt}));
  }

  /** A message is given up by nothing but stopping the turn, or deleting it or taking it back. */
  lemma {:induction false} GivenUpByHand(s: State, e: Event)
    requires !e.CancelTurn? && !(e.QueueKey? && (e.key.Drop? || e.key.Edit?))
    ensures Step(s, e).givenUp == s.givenUp
  {
    hide KeyInQueue, Ticked, SteerAnswered, SendNext, Connect;
    match e
    case QueueKey(key, now) => if 0 <= s.sel < |s.queue| { KeyGivesUp(s, key, now); }
    case Tick(now) => TickAccepts(s, now);
    case SteerDone(i, taken) => if i < |s.steers| { AnswerAccepts(s, i, taken); }
    case TurnEnded(failed) => NextAccepts(s.(phase := Ready));
    case Connected(prompt) => ConnectAccepts(s, prompt);
    case _ =>
  }

  lemma KeyGivesUp(s: State, key: Key, now: int)
    requires 0 <= s.sel < |s.queue| && !key.Drop? && !key.Edit?
    ensures KeyInQueue(s, key, now).givenUp == s.givenUp
  {
  }

  /** An agent that exits leaves everything else as it was, and so does setting or clearing the goal. */
  lemma {:induction false} OnlyPhaseOrGoal(s: State, on: bool)
    ensures Step(s, Stopped) == s.(phase := Failed) && Step(s, Goal(on)) == s.(goal := on)
  {
  }

  // ---- what puts a message out of its place ----

  /** Unread messages go before all others, in their order and with no countdown. */
  lemma UnreadGoFirst(s: State, texts: seq<string>)
    ensures var t := Step(s, Unread(texts));
            && TextsOf(t.queue) == texts + TextsOf(s.queue) && t.queue[|texts|..] == s.queue
            && forall i :: 0 <= i < |texts| ==> t.queue[i].due == None && !t.queue[i].sending
  {
  }

  /** The prompt given with the command line is the first turn, and the rest waits for its end. */
  lemma PromptGoesFirst(s: State, prompt: string)
    requires prompt != ""
    ensures var t := Step(s, Connected(prompt));
            t.phase == Busy && t.said == s.said + [prompt] && TextsOf(t.queue) == TextsOf(s.queue)
  {
    SameTexts(Connect(s, prompt).queue, s.queue);
  }

  /** A message typed during a turn waits behind the others; the clock steers it from five seconds on, and
      not before, when it is alone and the queue is not being edited. */
  lemma SteeredAfterFive(s: State, text: string, now: int, later: int)
    requires s.phase == Busy && s.queue == [] && s.sel < 0 && text != ""
    ensures var t := Step(s, Submit(text, now));
            && TextsOf(t.queue) == [text] && t.said == s.said && t.ticking
            && Step(t, Tick(later)).steers ==
               s.steers + if later - now >= 5 then [Steer(t.queue[0].id, text)] else []
  {
    hide KeyInQueue, SteerAnswered, SendNext;
    var t := Submitted(s, text, now);
    assert t.queue == [Queued(s.nextId + 1, text, Some(now + 5), false)];
    assert Counting(t.queue[0]);
    assert DueFrom(t.queue, later, 1) == None;
  }

  /** The clock goes on exactly while a turn runs and some message counts, and steers what is due first. */
  lemma ClockGoesOn(s: State, now: int)
    ensures var t := Ticked(s, now);
            && (t.ticking <==> s.phase == Busy && exists q <- s.queue :: q.due.Some? && !q.sending)
            && |s.steers| <= |t.steers| <= |s.steers| + 1 && TextsOf(t.queue) == TextsOf(s.queue)
  {
    SameTexts(Ticked(s, now).queue, s.queue);
  }

  /** Of a queue left at time now every countdown is later by as long as it was held, and nothing else differs. */
  ghost predicate Left(queue: seq<Queued>, next: seq<Queued>, delay: int) {
    && |next| == |queue|
    && forall i :: 0 <= i < |queue| ==>
         && next[i].id == queue[i].id && next[i].text == queue[i].text && next[i].sending == queue[i].sending
         && next[i].due == (match queue[i].due case None => None case Some(d) => Some(d + delay))
  }

  /** Entering the queue selects the message that stands last. */
  lemma FocusSelectsLast(s: State, now: int)
    requires s.sel < 0 && s.queue != []
    ensures var t := Step(s, Focus(now)); t.sel == |s.queue| - 1 && t.held == now && t.queue == s.queue
  {
  }

  /** The arrows move the selection by one, up towards the first message, and past either end they leave. */
  lemma ArrowsMove(s: State, now: int)
    requires 0 <= s.sel < |s.queue|
    ensures var t := KeyInQueue(s, Up, now);
            if s.sel > 0 then t.sel == s.sel - 1 && t.queue == s.queue
            else t.sel == -1 && Left(s.queue, t.queue, now - s.held)
    ensures var t := KeyInQueue(s, Down, now);
            if s.sel + 1 < |s.queue| then t.sel == s.sel + 1 && t.queue == s.queue
            else t.sel == -1 && Left(s.queue, t.queue, now - s.held)
  {
  }

  /** Moving a message up puts it before the one above it, and down after the one below; it stays selected. */
  lemma MovedByOne(s: State, now: int, a: seq<Queued>, x: Queued, y: Queued, b: seq<Queued>)
    requires s.queue == a + [x, y] + b
    ensures s.sel == |a| + 1 ==>
              var t := KeyInQueue(s, MoveUp, now); t.queue == a + [y, x] + b && t.sel == |a|
    ensures s.sel == |a| ==>
              var t := KeyInQueue(s, MoveDown, now); t.queue == a + [y, x] + b && t.sel == |a| + 1
  {
  }

  lemma WithoutOne(a: seq<Queued>, x: Queued, b: seq<Queued>)
    ensures Without(a + [x] + b, |a|) == a + b
  {
  }

  /** Deleting takes the selected message out and selects the one after it, or the last; with the last one
      gone the queue is left. */
  lemma DroppedTakesOut(s: State, now: int, a: seq<Queued>, x: Queued, b: seq<Queued>)
    requires s.queue == a + [x] + b && s.sel == |a|
    ensures var t := KeyInQueue(s, Drop, now);
            && t.queue == a + b && t.said == s.said && t.steers == s.steers && t.phase == s.phase
            && t.givenUp == s.givenUp + multiset{x.text}
            && t.sel == (if b != [] then |a| else |a| - 1)
  {
    hide Without;
    WithoutOne(a, x, b);
  }

  /** Taken back into the input, the selected message leaves the queue, and so does the selection. */
  lemma EditTakesOut(s: State, now: int, a: seq<Queued>, x: Queued, b: seq<Queued>)
    requires s.queue == a + [x] + b && s.sel == |a|
    ensures var t := KeyInQueue(s, Edit, now);
            && Left(a + b, t.queue, now - s.held) && t.sel == -1
            && t.said == s.said && t.steers == s.steers && t.phase == s.phase
            && t.givenUp == s.givenUp + multiset{x.text}
  {
    hide Without;
    WithoutOne(a, x, b);
  }

  /** Sent at once, the selected message is steered into the turn that runs. */
  lemma SentNowIsSteered(s: State, now: int, a: seq<Queued>, x: Queued, b: seq<Queued>)
    requires s.queue == a + [x] + b && s.sel == |a| && !x.sending && s.phase == Busy
    ensures var t := KeyInQueue(s, SendNow, now);
            && t.steers == s.steers + [Steer(x.id, x.text)] && t.queue == a + [x.(sending := true)] + b
            && t.said == s.said && t.sel == s.sel
  {
  }

  /** With no turn running it becomes one, out of its place. */
  lemma SentNowIsSaid(s: State, now: int, a: seq<Queued>, x: Queued, b: seq<Queued>)
    requires s.queue == a + [x] + b && s.sel == |a| && !x.sending && s.phase != Busy
    ensures var t := KeyInQueue(s, SendNow, now);
            && t.said == s.said + [x.text] && t.phase == Busy && t.sel == -1 && t.steers == s.steers
            && Left(a + b, t.queue, now - s.held)
  {
    hide Without;
    WithoutOne(a, x, b);
  }

  /** A steer that was taken is part of the conversation and leaves the queue; refused, or answered when the
      turn is over, it waits in its place without a countdown. */
  lemma SteerEnds(s: State, i: nat, taken: bool, a: seq<Queued>, x: Queued, b: seq<Queued>)
    requires s.queue == a + [x] + b && i < |s.steers| && s.steers[i].id == x.id
    requires forall q <- a :: q.id != x.id
    ensures var t := SteerAnswered(s, i, taken);
            && t.phase == s.phase && t.steers == s.steers[..i] + s.steers[i + 1..]
            && if taken && s.phase == Busy then t.said == s.said + [s.steers[i].text] && t.queue == a + b
               else t.said == s.said && t.queue == a + [x.(sending := false, due := None)] + b
  {
    hide PlaceOf, Without;
    PlaceIs(a, x, b, 0);
    WithoutOne(a, x, b);
    InPlace(a, x, b, x.(sending := false, due := None));
  }

  lemma InPlace(a: seq<Queued>, x: Queued, b: seq<Queued>, y: Queued)
    ensures (a + [x] + b)[|a| := y] == a + [y] + b && (a + [x] + b)[|a|] == x
  {
  }

  lemma {:induction false} PlaceIs(a: seq<Queued>, x: Queued, b: seq<Queued>, k: nat)
    requires k <= |a| && forall q <- a :: q.id != x.id
    ensures PlaceOf(a + [x] + b, x.id, k) == Some(|a|)
    decreases |a| - k
  {
    if k < |a| {
      PlaceIs(a, x, b, k + 1);
    }
  }

  /** Stopping a turn drops all that waits and the goal, and leaves the turn to end by itself. */
  lemma StoppingDropsAll(s: State)
    requires s.phase == Busy
    ensures var t := Cancelled(s);
            && t.queue == [] && t.sel == -1 && !t.goal && t.phase == Busy && t.said == s.said
            && t.givenUp == s.givenUp + multiset(TextsOf(s.queue))
  {
  }

  /** A turn's end sends what stands first, the others left for turns of their own; with nothing waiting the
      agent is ready, and a goal it works on is given up if and only if the turn failed. */
  lemma TurnEndSendsFirst(s: State, failed: bool)
    requires s.phase != Failed
    ensures var t := TurnOver(s, failed);
            if s.queue == [] then t.phase == Ready && t.said == s.said && (t.goal <==> s.goal && !failed)
            else
              && t.phase == Busy && t.said == s.said + [s.queue[0].text] && t.goal == s.goal
              && TextsOf(t.queue) == TextsOf(s.queue[1..])
              && forall q <- t.queue :: q.due == None && !q.sending
  {
  }
}
