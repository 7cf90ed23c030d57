/** What the queue keeps over every run: no accepted message is lost, the selection is on a message, no
    countdown is left without a clock, and being in the queue holds the countdowns. */
module QueueRuns {
  import opened Text
  import opened QueueModel

  // ---- texts in the queue ----

  lemma TextsConcat(x: seq<Queued>, y: seq<Queued>)
    ensures TextsOf(x + y) == TextsOf(x) + TextsOf(y)
  {
  }

  lemma TextsWithout(queue: seq<Queued>, i: nat)
    requires i < |queue|
    ensures multiset(TextsOf(queue)) == multiset(TextsOf(Without(queue, i))) + multiset{queue[i].text}
  {
    var a, b := queue[..i], queue[i + 1..];
    assert queue == a + [queue[i]] + b;
    TextsConcat(a, [queue[i]] + b);
    TextsConcat([queue[i]], b);
    TextsConcat(a, b);
    assert queue == a + ([queue[i]] + b);
    assert TextsOf([queue[i]]) == [queue[i].text];
  }

  lemma TextsFirst(queue: seq<Queued>)
    requires queue != []
    ensures multiset(TextsOf(queue)) == multiset(TextsOf(queue[1..])) + multiset{queue[0].text}
  {
    TextsWithout(queue, 0);
    assert Without(queue, 0) == queue[1..];
  }

  lemma TextsAppend(queue: seq<Queued>, q: Queued)
    ensures multiset(TextsOf(queue + [q])) == multiset(TextsOf(queue)) + multiset{q.text}
  {
    TextsConcat(queue, [q]);
    assert TextsOf([q]) == [q.text];
  }

  lemma TextsPrepend(x: seq<Queued>, queue: seq<Queued>)
    ensures multiset(TextsOf(x + queue)) == multiset(TextsOf(x)) + multiset(TextsOf(queue))
  {
    TextsConcat(x, queue);
  }

  lemma TextsSwapped(queue: seq<Queued>, i: nat, j: nat)
    requires i < |queue| && j < |queue|
    ensures multiset(TextsOf(queue[i := queue[j]][j := queue[i]])) == multiset(TextsOf(queue))
  {
    var t := TextsOf(queue);
    assert TextsOf(queue[i := queue[j]][j := queue[i]]) == t[i := t[j]][j := t[i]];
  }

  lemma SaidOneMore(said: seq<string>, text: string)
    ensures multiset(said + [text]) == multiset(said) + multiset{text}
  {
  }

  // ---- what each step keeps ----

  /** Ids are handed out once, and a steer out is for the text its message has. */
  ghost predicate IdsOk(queue: seq<Queued>, steers: seq<Steer>, nextId: nat) {
    && (forall i :: 0 <= i < |queue| ==> queue[i].id <= nextId)
    && (forall i, j :: 0 <= i < j < |queue| ==> queue[i].id != queue[j].id)
    && (forall k :: 0 <= k < |steers| ==> steers[k].id <= nextId)
    && (forall k, i :: 0 <= k < |steers| && 0 <= i < |queue| && queue[i].id == steers[k].id ==>
          queue[i].text == steers[k].text)
  }

  predicate NoneDue(queue: seq<Queued>) { forall i :: 0 <= i < |queue| ==> queue[i].due == None }

  predicate SelOk(s: State) { -1 <= s.sel && (s.sel < |s.queue| || s.sel == -1) }

  /** A countdown has a clock while a turn runs; between turns and before the first there is none. */
  predicate ClockOk(s: State) {
    && (s.phase == Busy && AnyCounting(s.queue) ==> s.ticking)
    && (s.phase == Ready || s.phase == Connecting ==> NoneDue(s.queue))
  }

  /** Everything accepted is in the queue, in the conversation, or was given up. */
  ghost predicate Conserved(s: State) {
    s.accepted <= multiset(TextsOf(s.queue)) + multiset(s.said) + s.givenUp
  }

  ghost predicate Kept(s: State) { SelOk(s) && ClockOk(s) && IdsOk(s.queue, s.steers, s.nextId) && Conserved(s) }

  lemma StartKept()
    ensures Kept(START)
  {
  }

  // ---- ids through a change of the queue ----

  /** Each message of next is one of queue's, at the place from gives, and no two are the same. */
  ghost predicate Rearranged(queue: seq<Queued>, next: seq<Queued>, from: seq<nat>) {
    && |from| == |next|
    && (forall i :: 0 <= i < |from| ==>
          from[i] < |queue| && queue[from[i]].id == next[i].id && queue[from[i]].text == next[i].text)
    && (forall i, j :: 0 <= i < j < |from| ==> from[i] != from[j])
  }

  lemma RearrangedKeepsIds(queue: seq<Queued>, next: seq<Queued>, from: seq<nat>, steers: seq<Steer>, nextId: nat)
    requires IdsOk(queue, steers, nextId) && Rearranged(queue, next, from)
    ensures IdsOk(next, steers, nextId)
  {
    forall i, j | 0 <= i < j < |next|
      ensures next[i].id != next[j].id
    {
      var a, b := from[i], from[j];
      assert queue[a].id != queue[b].id;
    }
    forall k, i | 0 <= k < |steers| && 0 <= i < |next| && next[i].id == steers[k].id
      ensures next[i].text == steers[k].text
    {
      assert queue[from[i]].text == steers[k].text;
    }
  }

  /** The same messages in place, whatever their countdowns. */
  lemma SameMessages(queue: seq<Queued>, next: seq<Queued>, steers: seq<Steer>, nextId: nat)
    requires IdsOk(queue, steers, nextId) && |next| == |queue|
    requires forall i :: 0 <= i < |queue| ==> next[i].id == queue[i].id && next[i].text == queue[i].text
    ensures IdsOk(next, steers, nextId) && TextsOf(next) == TextsOf(queue)
  {
    RearrangedKeepsIds(queue, next, seq(|next|, k requires 0 <= k < |next| => k), steers, nextId);
  }

  lemma OneSteerMore(queue: seq<Queued>, steers: seq<Steer>, nextId: nat, i: nat)
    requires IdsOk(queue, steers, nextId) && i < |queue|
    ensures IdsOk(queue, steers + [Steer(queue[i].id, queue[i].text)], nextId)
  {
  }

  lemma OneSteerLess(queue: seq<Queued>, steers: seq<Steer>, nextId: nat, k: nat)
    requires IdsOk(queue, steers, nextId) && k < |steers|
    ensures IdsOk(queue, steers[..k] + steers[k + 1..], nextId)
  {
  }

  lemma OneLess(queue: seq<Queued>, i: nat, steers: seq<Steer>, nextId: nat)
    requires IdsOk(queue, steers, nextId) && i < |queue|
    ensures IdsOk(Without(queue, i), steers, nextId)
  {
    var n := |queue| - 1;
    RearrangedKeepsIds(queue, Without(queue, i), seq(n, k requires 0 <= k < n => if k < i then k else k + 1), steers,
                       nextId);
  }

  // ---- operations ----

  lemma DroppedKeeps(s: State, i: nat)
    requires i < |s.queue| && SelOk(s) && IdsOk(s.queue, s.steers, s.nextId)
    ensures var t := Dropped(s, i);
            && t == s.(queue := Without(s.queue, i), sel := t.sel) && SelOk(t)
            && IdsOk(t.queue, t.steers, t.nextId)
            && multiset(TextsOf(s.queue)) == multiset(TextsOf(t.queue)) + multiset{s.queue[i].text}
            && (AnyCounting(t.queue) ==> AnyCounting(s.queue)) && (NoneDue(s.queue) ==> NoneDue(t.queue))
  {
    hide TextsOf, IdsOk, NoneDue, AnyCounting;
    TextsWithout(s.queue, i);
    OneLess(s.queue, i, s.steers, s.nextId);
    WithoutDue(s.queue, i);
  }

  lemma WithoutDue(queue: seq<Queued>, i: nat)
    requires i < |queue|
    ensures AnyCounting(Without(queue, i)) ==> AnyCounting(queue)
    ensures NoneDue(queue) ==> NoneDue(Without(queue, i))
  {
    var rest := Without(queue, i);
    if AnyCounting(rest) {
      var k :| 0 <= k < |rest| && Counting(rest[k]);
      assert Counting(queue[if k < i then k else k + 1]);
    }
  }

  lemma NextTurnKeepsIds(queue: seq<Queued>, steers: seq<Steer>, nextId: nat)
    requires IdsOk(queue, steers, nextId)
    ensures var next := ForNextTurn(queue);
            IdsOk(next, steers, nextId) && TextsOf(next) == TextsOf(queue) && NoneDue(next) && !AnyCounting(next)
  {
    SameMessages(queue, ForNextTurn(queue), steers, nextId);
  }

  /** Whatever was counting before, the messages left are for the next turn. */
  lemma SendNextKeeps(s: State)
    requires SelOk(s) && Conserved(s) && s.phase == Ready && IdsOk(s.queue, s.steers, s.nextId)
    ensures Kept(SendNext(s))
  {
    hide TextsOf, IdsOk, AnyCounting, NoneDue, ForNextTurn;
    if s.queue == [] {
      NoQueue();
    } else {
      TextsFirst(s.queue);
      OneLess(s.queue, 0, s.steers, s.nextId);
      assert Without(s.queue, 0) == s.queue[1..];
      NextTurnKeepsIds(s.queue[1..], s.steers, s.nextId);
      SaidOneMore(s.said, s.queue[0].text);
    }
  }

  lemma NoQueue()
    ensures NoneDue([]) && !AnyCounting([]) && TextsOf([]) == []
  {
  }

  lemma SteerQueuedKeeps(s: State, i: nat)
    requires i < |s.queue| && IdsOk(s.queue, s.steers, s.nextId)
    ensures var t := SteerQueued(s, i);
            && t == s.(queue := t.queue, steers := t.steers) && |t.queue| == |s.queue|
            && IdsOk(t.queue, t.steers, t.nextId) && TextsOf(t.queue) == TextsOf(s.queue)
            && (AnyCounting(t.queue) ==> AnyCounting(s.queue)) && (NoneDue(s.queue) ==> NoneDue(t.queue))
  {
    hide IdsOk, TextsOf;
    var t := SteerQueued(s, i);
    OneSteerMore(s.queue, s.steers, s.nextId, i);
    SameMessages(s.queue, t.queue, t.steers, t.nextId);
    if AnyCounting(t.queue) {
      var k :| 0 <= k < |t.queue| && Counting(t.queue[k]);
      assert Counting(s.queue[k]);
    }
  }

  lemma LeaveQueueKeeps(s: State, now: int)
    requires SelOk(s) && IdsOk(s.queue, s.steers, s.nextId)
    ensures var t := LeaveQueue(s, now);
            && t == s.(sel := -1, queue := t.queue, ticking := t.ticking)
            && IdsOk(t.queue, t.steers, t.nextId) && TextsOf(t.queue) == TextsOf(s.queue)
            && (NoneDue(s.queue) ==> NoneDue(t.queue))
            && (if s.sel >= 0 then t.ticking else t == s)
  {
    hide IdsOk, TextsOf;
    if s.sel >= 0 {
      SameMessages(s.queue, LeaveQueue(s, now).queue, s.steers, s.nextId);
    }
  }

  // ---- events ----

  lemma TickKeeps(s: State, now: int)
    requires Kept(s)
    ensures Kept(Ticked(s, now))
  {
    hide TextsOf, IdsOk, AnyCounting, NoneDue, SteerQueued;
    if s.sel < 0 && s.phase == Busy && DueFrom(s.queue, now, 0).Some? {
      SteerQueuedKeeps(s, DueFrom(s.queue, now, 0).value);
    }
  }

  lemma RefusedKeeps(s: State, at: nat)
    requires at < |s.queue| && IdsOk(s.queue, s.steers, s.nextId)
    ensures var next := s.queue[at := s.queue[at].(sending := false, due := None)];
            && IdsOk(next, s.steers, s.nextId) && TextsOf(next) == TextsOf(s.queue)
            && (AnyCounting(next) ==> AnyCounting(s.queue)) && (NoneDue(s.queue) ==> NoneDue(next))
  {
    hide IdsOk, TextsOf;
    var next := s.queue[at := s.queue[at].(sending := false, due := None)];
    SameMessages(s.queue, next, s.steers, s.nextId);
    if AnyCounting(next) {
      var k :| 0 <= k < |next| && Counting(next[k]);
      assert Counting(s.queue[k]);
    }
  }

  lemma SteerAnsweredKeeps(s: State, i: nat, taken: bool)
    requires Kept(s) && i < |s.steers|
    ensures Kept(SteerAnswered(s, i, taken))
  {
    hide TextsOf, IdsOk, AnyCounting, NoneDue, Dropped;
    var steer := s.steers[i];
    var t := s.(steers := s.steers[..i] + s.steers[i + 1..]);
    OneSteerLess(s.queue, s.steers, s.nextId, i);
    var at := PlaceOf(s.queue, steer.id, 0);
    if at.Some? {
      SteerIsForText(s, i, at.value);
      RefusedKeeps(t, at.value);
      DroppedKeeps(t, at.value);
    }
    SaidOneMore(s.said, steer.text);
  }

  lemma SteerIsForText(s: State, k: nat, i: nat)
    requires IdsOk(s.queue, s.steers, s.nextId) && k < |s.steers| && i < |s.queue| && s.queue[i].id == s.steers[k].id
    ensures s.queue[i].text == s.steers[k].text
  {
  }

  lemma EnqueueKeeps(s: State, text: string, due: Option<int>)
    requires IdsOk(s.queue, s.steers, s.nextId)
    ensures var t := Enqueue(s, text, due);
            && IdsOk(t.queue, t.steers, t.nextId) && |t.queue| == |s.queue| + 1
            && multiset(TextsOf(t.queue)) == multiset(TextsOf(s.queue)) + multiset{text}
            && (due == None && AnyCounting(t.queue) ==> AnyCounting(s.queue))
            && (due == None && NoneDue(s.queue) ==> NoneDue(t.queue))
  {
    hide TextsOf;
    TextsAppend(s.queue, Queued(s.nextId + 1, text, due, false));
    var t := Enqueue(s, text, due);
    if due == None && AnyCounting(t.queue) {
      var k :| 0 <= k < |t.queue| && Counting(t.queue[k]);
      assert Counting(s.queue[k]);
    }
  }

  lemma SubmitKeeps(s: State, text: string, now: int)
    requires Kept(s)
    ensures Kept(Step(s, Submit(text, now)))
  {
    hide TextsOf, IdsOk, AnyCounting, NoneDue;
    EnqueueKeeps(s, text, Some(now + STEER_DELAY));
    EnqueueKeeps(s, text, None);
    NoneDueNoneCounting(s.queue);
    SaidOneMore(s.said, text);
  }

  lemma OfferKeeps(s: State, text: string)
    requires Kept(s)
    ensures Kept(Step(s, Offer(text)))
  {
    hide TextsOf, IdsOk, AnyCounting, NoneDue;
    EnqueueKeeps(s, text, None);
    SaidOneMore(s.said, text);
    NoneDueNoneCounting(s.queue);
  }

  lemma NoneDueNoneCounting(queue: seq<Queued>)
    ensures NoneDue(queue) ==> !AnyCounting(queue)
  {
  }

  lemma PrependKeeps(s: State, more: seq<Queued>)
    requires IdsOk(s.queue, s.steers, s.nextId)
    requires forall i :: 0 <= i < |more| ==> more[i].id == s.nextId + 1 + i && more[i].due == None
    ensures var next := more + s.queue;
            && IdsOk(next, s.steers, s.nextId + |more|)
            && multiset(TextsOf(next)) == multiset(TextsOf(more)) + multiset(TextsOf(s.queue))
            && (AnyCounting(next) ==> AnyCounting(s.queue)) && (NoneDue(s.queue) ==> NoneDue(next))
  {
    hide TextsOf;
    TextsPrepend(more, s.queue);
    var next := more + s.queue;
    if AnyCounting(next) {
      var k :| 0 <= k < |next| && Counting(next[k]);
      assert k >= |more| && Counting(s.queue[k - |more|]);
    }
  }

  lemma UnreadKeeps(s: State, texts: seq<string>)
    requires Kept(s)
    ensures Kept(Step(s, Unread(texts)))
  {
    var more := UnreadFirst(texts, s.nextId);
    assert forall i :: 0 <= i < |more| ==> more[i].id == s.nextId + 1 + i && more[i].due == None;
    UnreadKept(s, texts, more);
  }

  lemma UnreadKept(s: State, texts: seq<string>, more: seq<Queued>)
    requires Kept(s) && more == UnreadFirst(texts, s.nextId)
    requires forall i :: 0 <= i < |more| ==> more[i].id == s.nextId + 1 + i && more[i].due == None
    ensures Kept(Step(s, Unread(texts)))
  {
    hide TextsOf, IdsOk, AnyCounting, NoneDue, UnreadFirst;
    PrependKeeps(s, more);
  }

  lemma TextOne(q: Queued)
    ensures TextsOf([q]) == [q.text]
  {
  }

  lemma ConnectKeeps(s: State, prompt: string)
    requires Kept(s)
    ensures Kept(Connect(s, prompt))
  {
    hide TextsOf, IdsOk, AnyCounting, NoneDue, SendNext;
    var t := s.(phase := Ready);
    if prompt == "" {
      SendNextKeeps(t);
    } else {
      var more := [Queued(t.nextId + 1, prompt, None, false)];
      PrependKeeps(t, more);
      TextOne(more[0]);
      SendNextKeeps(t.(nextId := t.nextId + 1, queue := more + t.queue, accepted := t.accepted + multiset{prompt}));
    }
  }

  lemma TurnOverKeeps(s: State, failed: bool)
    requires Kept(s)
    ensures Kept(TurnOver(s, failed))
  {
    hide TextsOf, IdsOk, AnyCounting, SendNext;
    if s.phase != Failed {
      SendNextKeeps(s.(phase := Ready));
    }
  }

  lemma GiveUpKeeps(s: State, i: nat, now: int)
    requires Kept(s) && i < |s.queue| && s.sel == i
    ensures Kept(KeyInQueue(s, Edit, now)) && Kept(KeyInQueue(s, Drop, now))
  {
    hide TextsOf, IdsOk, LeaveQueue, Dropped, AnyCounting, NoneDue;
    DroppedKeeps(s, i);
    var t := Dropped(s, i).(givenUp := s.givenUp + multiset{s.queue[i].text});
    LeaveQueueKeeps(t, now);
  }

  lemma SendNowKeeps(s: State, i: nat, now: int)
    requires Kept(s) && i < |s.queue| && s.sel == i
    ensures Kept(KeyInQueue(s, SendNow, now))
  {
    hide TextsOf, IdsOk, LeaveQueue, Dropped, AnyCounting, NoneDue, SteerQueued;
    DroppedKeeps(s, i);
    LeaveQueueKeeps(Dropped(s, i), now);
    DroppedSelects(s, i);
    SaidOneMore(s.said, s.queue[i].text);
    SteerQueuedKeeps(s, i);
  }

  /** The selection stays on a neighbour, if there is one. */
  lemma DroppedSelects(s: State, i: nat)
    requires i < |s.queue| && s.sel >= 0
    ensures var t := Dropped(s, i);
            t.sel >= 0 || (t.queue == [] && !AnyCounting(t.queue) && NoneDue(t.queue))
  {
  }

  lemma SwapKeeps(s: State, i: nat, j: nat)
    requires Kept(s) && i < |s.queue| && j < |s.queue| && i != j
    ensures Kept(Swapped(s, i, j))
  {
    hide TextsOf, IdsOk;
    TextsSwapped(s.queue, i, j);
    var t := Swapped(s, i, j);
    var from: seq<nat> := seq(|s.queue|,
                              k requires 0 <= k < |s.queue| => if k == i then j else if k == j then i else k);
    RearrangedKeepsIds(s.queue, t.queue, from, s.steers, s.nextId);
    if AnyCounting(t.queue) {
      var k :| 0 <= k < |t.queue| && Counting(t.queue[k]);
      assert Counting(s.queue[from[k]]);
    }
  }

  lemma KeyKeeps(s: State, key: Key, now: int)
    requires Kept(s) && 0 <= s.sel < |s.queue|
    ensures Kept(KeyInQueue(s, key, now))
  {
    hide TextsOf, IdsOk, LeaveQueue, AnyCounting, NoneDue;
    var i := s.sel;
    match key
    case Edit => GiveUpKeeps(s, i, now);
    case Drop => GiveUpKeeps(s, i, now);
    case SendNow => SendNowKeeps(s, i, now);
    case MoveUp =>
      if i > 0 {
        SwapKeeps(s, i, i - 1);
      }
    case MoveDown =>
      if i < |s.queue| - 1 {
        SwapKeeps(s, i, i + 1);
      }
    case _ => LeaveQueueKeeps(s, now);
  }

  lemma CancelKeeps(s: State)
    requires Kept(s)
    ensures Kept(Step(s, CancelTurn))
  {
    NoQueue();
  }

  /** Every event keeps all of it. */
  lemma StepKeeps(s: State, e: Event)
    requires Kept(s)
    ensures Kept(Step(s, e))
  {
    hide KeyInQueue, Ticked, SteerAnswered, TurnOver, Connect, TextsOf, IdsOk, AnyCounting, NoneDue;
    match e
    case Submit(text, now) => SubmitKeeps(s, text, now);
    case Offer(text) => OfferKeeps(s, text);
    case Tick(now) => TickKeeps(s, now);
    case SteerDone(i, taken) =>
      if i < |s.steers| {
        SteerAnsweredKeeps(s, i, taken);
      }
    case Unread(texts) => UnreadKeeps(s, texts);
    case TurnEnded(failed) => TurnOverKeeps(s, failed);
    case Connected(prompt) => ConnectKeeps(s, prompt);
    case CancelTurn => CancelKeeps(s);
    case QueueKey(key, now) =>
      if 0 <= s.sel < |s.queue| {
        KeyKeeps(s, key, now);
      }
    case _ =>
  }

  lemma {:induction false} RunKeeps(s: State, events: seq<Event>)
    requires Kept(s)
    ensures Kept(Run(s, events))
    decreases |events|
  {
    hide Kept, Step;
    if events != [] {
      StepKeeps(s, events[0]);
      RunKeeps(Step(s, events[0]), events[1..]);
    }
  }

  /** Over every run: each message accepted is in the queue, has entered the conversation, or was given
      up by the person, as often as it was accepted; the selection is none or a message; and while a
      turn runs every countdown has a clock. */
  lemma {:induction false} NothingLost(events: seq<Event>)
    ensures var s := Run(START, events);
            && s.accepted <= multiset(TextsOf(s.queue)) + multiset(s.said) + s.givenUp
            && -1 <= s.sel && (s.queue == [] ==> s.sel == -1) && (s.queue != [] ==> s.sel < |s.queue|)
            && (s.phase == Busy && AnyCounting(s.queue) ==> s.ticking)
  {
    hide TextsOf, IdsOk, AnyCounting, NoneDue, Step;
    StartKept();
    RunKeeps(START, events);
  }

  // ---- nothing waits between turns ----

  /** No message is left waiting while the agent is ready for one. */
  predicate NoneWaits(s: State) { s.phase == Ready ==> s.queue == [] }

  /** The one event that leaves a message waiting for nothing: a turn's unread messages that come after
      its end. */
  predicate LateUnread(s: State, e: Event) {
    e.Unread? && e.texts != [] && s.phase == Ready
  }

  lemma NoneWaitsUnlessLate(s: State, e: Event)
    requires NoneWaits(s)
    ensures NoneWaits(Step(s, e)) <==> !LateUnread(s, e)
  {
    hide TextsOf, KeyInQueue, Ticked, SteerAnswered, SendNext;
  }

  /** At every moment of a run no message is left waiting beside an agent that is ready. */
  predicate NeverWaits(s: State, events: seq<Event>)
    decreases |events|
  {
    NoneWaits(s) && (events != [] ==> NeverWaits(Step(s, events[0]), events[1..]))
  }

  /** No unread messages come between a turn's end and the next turn. */
  predicate NoneLate(s: State, events: seq<Event>)
    decreases |events|
  {
    events != [] ==> !LateUnread(s, events[0]) && NoneLate(Step(s, events[0]), events[1..])
  }

  lemma {:induction false} NeverWaitsFrom(s: State, events: seq<Event>)
    requires NoneWaits(s)
    ensures NeverWaits(s, events) <==> NoneLate(s, events)
    decreases |events|
  {
    hide Step, NoneWaits, LateUnread;
    if events != [] {
      NoneWaitsUnlessLate(s, events[0]);
      if NoneWaits(Step(s, events[0])) {
        NeverWaitsFrom(Step(s, events[0]), events[1..]);
      }
    }
  }

  /** Over every run: no message is ever left waiting beside a ready agent if and only if none is handed back
      late. */
  lemma {:induction false} NeverWaitsUnlessLate(events: seq<Event>)
    ensures NeverWaits(START, events) <==> NoneLate(START, events)
  {
    NeverWaitsFrom(START, events);
  }

  /** A text handed back after its turn's end is left waiting. */
  lemma LateTextWaits()
    ensures var events := [Connected(""), Submit("a", 0), TurnEnded(false), Unread(["b"])];
            var s := Run(START, events);
            !NeverWaits(START, events) && s.phase == Ready && TextsOf(s.queue) == ["b"]
  {
    hide Step, NeverWaits;
    var e1, e2, e3, e4 := Connected(""), Submit("a", 0), TurnEnded(false), Unread(["b"]);
    var events := [e1, e2, e3, e4];
    var s1, s2, s3 := Step(START, e1), Step(Step(START, e1), e2), Step(Step(Step(START, e1), e2), e3);
    FirstTurn();
    assert events[1..] == [e2, e3, e4] && [e2, e3, e4][1..] == [e3, e4] && [e3, e4][1..] == [e4] && [e4][1..] == [];
    assert Run(START, events) == Run(s1, [e2, e3, e4]) == Run(s2, [e3, e4]) == Run(s3, [e4]) == Run(Step(s3, e4), []);
    NeverWaitsUnlessLate(events);
    assert NoneLate(START, events) ==> NoneLate(s1, [e2, e3, e4]);
    assert NoneLate(s1, [e2, e3, e4]) ==> NoneLate(s2, [e3, e4]);
    assert NoneLate(s2, [e3, e4]) ==> NoneLate(s3, [e4]);
  }

  lemma FirstTurn()
    ensures var s3 := Step(Step(Step(START, Connected("")), Submit("a", 0)), TurnEnded(false));
            s3.phase == Ready && s3.queue == []
            && Step(s3, Unread(["b"])).phase == Ready && TextsOf(Step(s3, Unread(["b"])).queue) == ["b"]
  {
    var s1 := Step(START, Connected(""));
    assert s1 == START.(phase := Ready);
    var s2 := Step(s1, Submit("a", 0));
    assert s2.phase == Busy && s2.queue == [] && !s2.goal;
    var s3 := Step(s2, TurnEnded(false));
    assert s3.phase == Ready && s3.queue == [];
    assert UnreadFirst(["b"], s3.nextId) + s3.queue == UnreadFirst(["b"], s3.nextId);
  }
}
