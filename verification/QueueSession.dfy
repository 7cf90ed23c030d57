/** The session's part of the queue: its fields, and the handlers that change them in place. What a
    handler starts and waits for (a steer, a turn, a clock tick) comes back as a later event. */
module QueueSession {
  import opened Text
  import opened QueueModel

  class Session {
    var phase: Phase
    var queue: seq<Queued>
    var sel: int
    var held: int
    var nextId: nat
    var ticking: bool
    var said: seq<string>
    var goal: bool
    var steers: seq<Steer>
    ghost var accepted: multiset<string>
    ghost var givenUp: multiset<string>

    constructor ()
      ensures View() == START
    {
      phase, queue, sel, held, nextId, ticking := Connecting, [], -1, 0, 0, false;
      said, goal, steers, accepted, givenUp := [], false, [], multiset{}, multiset{};
    }

    ghost function View(): State
      reads this
    {
      State(phase, queue, sel, held, nextId, ticking, said, goal, steers, accepted, givenUp)
    }

    method EnqueueText(text: string)
      modifies this`queue, this`nextId
      ensures View() == Enqueue(old(View()), text, None)
    {
      nextId := nextId + 1;
      queue := queue + [Queued(nextId, text, None, false)];
    }

    method QueueDuringRun(text: string, now: int)
      modifies this`queue, this`nextId, this`ticking
      ensures View() == Enqueue(old(View()), text, Some(now + STEER_DELAY)).(ticking := true)
    {
      nextId := nextId + 1;
      queue := queue + [Queued(nextId, text, Some(now + STEER_DELAY), false)];
      ticking := true;
    }

    /** One pass over the queue: at most one steer, and whether the clock has to tick again. */
    method QueueTicked(now: int)
      modifies this`queue, this`ticking, this`steers
      ensures View() == Ticked(old(View()), now)
    {
      hide SteerQueued, DueFrom, AnyCounting;
      ticking := false;
      var counting, sent := false, false;
      ghost var s := old(View());
      ghost var due := if s.sel < 0 && s.phase == Busy then DueFrom(s.queue, now, 0) else None;
      ghost var after := if due.Some? then SteerQueued(s, due.value) else s;
      AfterSteer(s, due);
      NoneCounting(s.queue);
      for i := 0 to |queue|
        invariant View() == (if sent then after else s).(ticking := false)
        invariant sent <==> due.Some? && due.value < i
        invariant counting == AnyCounting(s.queue[..i])
      {
        var q := queue[i];
        DueAt(s, due, now, i);
        OneMoreCounting(s.queue, i);
        if q.due.None? || q.sending {
          continue;
        }
        counting := true;
        if sel < 0 && phase == Busy && !sent && q.due.value <= now {
          SteerMessage(i);
          sent := true;
        }
      }
      assert s.queue[..|s.queue|] == s.queue;
      if counting && phase == Busy {
        ticking := true;
      }
    }

    method SteerMessage(i: nat)
      requires i < |queue|
      modifies this`queue, this`steers
      ensures View() == SteerQueued(old(View()), i)
    {
      queue := queue[i := queue[i].(sending := true)];
      steers := steers + [Steer(queue[i].id, queue[i].text)];
    }

    method QueueIndex(id: nat) returns (r: int)
      ensures r == match PlaceOf(queue, id, 0) case None => -1 case Some(i) => i
    {
      for i := 0 to |queue|
        invariant PlaceOf(queue, id, 0) == PlaceOf(queue, id, i)
      {
        if queue[i].id == id {
          return i;
        }
      }
      return -1;
    }

    method DropQueued(i: nat)
      requires i < |queue|
      modifies this`queue, this`sel
      ensures View() == Dropped(old(View()), i)
    {
      queue := queue[..i] + queue[i + 1..];
      if sel >= |queue| {
        sel := |queue| - 1;
      }
    }

    /** The first message is taken for a new turn; the turn the others were for is over. */
    method TakeNext() returns (next: string, ok: bool)
      modifies this`queue, this`sel
      ensures ok == (old(queue) != [])
      ensures !ok ==> View() == old(View())
      ensures ok ==> next == old(queue)[0].text && View() == NextQueued(old(View()))
    {
      if |queue| == 0 {
        return "", false;
      }
      next := queue[0].text;
      queue := queue[1..];
      for i := 0 to |queue|
        invariant View() == old(View()).(queue := queue) && |queue| == |old(queue)| - 1
        invariant forall k :: 0 <= k < i ==> queue[k] == old(queue)[k + 1].(due := None, sending := false)
        invariant forall k :: i <= k < |queue| ==> queue[k] == old(queue)[k + 1]
      {
        queue := queue[i := queue[i].(due := None, sending := false)];
      }
      assert queue == ForNextTurn(old(queue)[1..]);
      if sel >= |queue| {
        sel := |queue| - 1;
      }
      ok := true;
    }

    method FocusQueue(i: nat, now: int)
      modifies this`sel, this`held
      ensures View() == old(View()).(sel := i, held := if old(sel) < 0 then now else old(held))
    {
      if sel < 0 {
        held := now;
      }
      sel := i;
    }

    method Leave(now: int)
      modifies this`sel, this`queue, this`ticking
      ensures View() == LeaveQueue(old(View()), now)
    {
      if sel < 0 {
        return;
      }
      sel := -1;
      var delay := now - held;
      for i := 0 to |queue|
        invariant View() == old(View()).(sel := -1, queue := queue) && |queue| == |old(queue)|
        invariant forall k :: 0 <= k < i ==> queue[k] == Shifted(old(queue), delay)[k]
        invariant forall k :: i <= k < |queue| ==> queue[k] == old(queue)[k]
      {
        if queue[i].due.Some? {
          queue := queue[i := queue[i].(due := Some(queue[i].due.value + delay))];
        }
      }
      assert queue == Shifted(old(queue), delay);
      ticking := true;
    }

    /** A message begins a turn of its own. */
    method SendText(text: string)
      modifies this`said, this`phase
      ensures View() == Send(old(View()), text)
    {
      said := said + [text];
      phase := Busy;
    }

    method SubmitText(text: string, now: int)
      modifies this
      ensures View() == Submitted(old(View()), text, now)
    {
      if text == "" {
        return;
      }
      match phase
      case Busy =>
        accepted := accepted + multiset{text};
        QueueDuringRun(text, now);
      case Ready =>
        accepted := accepted + multiset{text};
        SendText(text);
      case Connecting =>
        accepted := accepted + multiset{text};
        EnqueueText(text);
      case Failed =>
    }

    method SteerAnswer(i: nat, taken: bool)
      requires i < |steers|
      modifies this
      ensures View() == SteerAnswered(old(View()), i, taken)
    {
      hide PlaceOf, Dropped, SteerAnswered;
      ghost var s := View();
      SteerAnsweredParts(s, i, taken);
      var steer := steers[i];
      steers := steers[..i] + steers[i + 1..];
      ghost var t := View();
      var at := QueueIndex(steer.id);
      if !taken || phase != Busy {
        if at >= 0 {
          queue := queue[at := queue[at].(sending := false, due := None)];
          assert View() == t.(queue := queue);
        }
        return;
      }
      if at >= 0 {
        DropQueued(at);
      }
      ghost var u := View();
      said := said + [steer.text];
      assert View() == Said(u, steer.text);
    }

    /** Puts texts before everything queued, each with an id of its own. */
    method SteeringUnread(texts: seq<string>)
      modifies this`queue, this`nextId
      ensures View() == Step(old(View()), Unread(texts))
    {
      var unread: seq<Queued> := [];
      for i := 0 to |texts|
        invariant View() == old(View()).(nextId := old(nextId) + i)
        invariant unread == UnreadFirst(texts, old(nextId))[..i]
      {
        nextId := nextId + 1;
        unread := unread + [Queued(nextId, texts[i], None, false)];
      }
      queue := unread + queue;
    }

    method FinishTurn(failed: bool)
      modifies this
      ensures View() == TurnOver(old(View()), failed)
    {
      hide NextQueued;
      if phase == Failed {
        return;
      }
      phase := Ready;
      if goal && |queue| == 0 {
        if failed {
          goal := false;
        }
        return;
      }
      var next, ok := TakeNext();
      if ok {
        SendText(next);
      }
    }

    method CancelTurn()
      modifies this
      ensures View() == Cancelled(old(View()))
    {
      if phase != Busy {
        return;
      }
      givenUp := givenUp + multiset(TextsOf(queue));
      queue, sel, goal := [], -1, false;
    }

    /** The selected message changes places with its neighbour. */
    method SwapWith(i: nat, j: nat)
      requires i < |queue| && j < |queue|
      modifies this`queue, this`sel
      ensures View() == Swapped(old(View()), i, j)
    {
      queue := queue[i := queue[j]][j := queue[i]];
      sel := j;
    }

    method GiveUp(i: nat)
      requires i < |queue|
      modifies this`queue, this`sel, this`givenUp
      ensures View() == Dropped(old(View()), i).(givenUp := old(givenUp) + multiset{old(queue)[i].text})
    {
      hide Dropped;
      ghost var text := queue[i].text;
      DropQueued(i);
      givenUp := givenUp + multiset{text};
    }

    /** Dispatches a key on the selected message. */
    method HandleKey(key: Key, now: int)
      requires 0 <= sel < |queue|
      modifies this
      ensures View() == KeyInQueue(old(View()), key, now)
    {
      hide LeaveQueue, Dropped, SteerQueued, Swapped;
      var i := sel;
      match key
      case Up =>
        if i > 0 {
          sel := sel - 1;
        } else {
          Leave(now);
        }
      case Down =>
        if i < |queue| - 1 {
          sel := sel + 1;
        } else {
          Leave(now);
        }
      case MoveUp =>
        if i > 0 {
          SwapWith(i, i - 1);
        }
      case MoveDown =>
        if i < |queue| - 1 {
          SwapWith(i, i + 1);
        }
      case Edit =>
        GiveUp(i);
        Leave(now);
      case Drop =>
        GiveUp(i);
        if |queue| == 0 {
          Leave(now);
        }
      case SendNow =>
        if queue[i].sending {
          return;
        }
        if phase != Busy {
          var text := queue[i].text;
          DropQueued(i);
          Leave(now);
          SendText(text);
        } else {
          SteerMessage(i);
        }
      case Esc => Leave(now);
      case Typing => Leave(now);
    }
  }

  /** Steering one message leaves the others as they were. */
  lemma AfterSteer(s: State, due: Option<nat>)
    requires due.Some? ==> due.value < |s.queue|
    ensures var t := if due.Some? then SteerQueued(s, due.value) else s;
            && t == s.(queue := t.queue, steers := t.steers) && |t.queue| == |s.queue|
            && forall k :: 0 <= k < |s.queue| && due != Some(k) ==> t.queue[k] == s.queue[k]
    ensures due.Some? ==> SteerQueued(s.(ticking := false), due.value) == SteerQueued(s, due.value).(ticking := false)
  {
  }

  lemma NoneCounting(queue: seq<Queued>)
    ensures !AnyCounting(queue[..0])
  {
  }

  lemma OneMoreCounting(queue: seq<Queued>, i: nat)
    requires i < |queue|
    ensures AnyCounting(queue[..i + 1]) <==> AnyCounting(queue[..i]) || Counting(queue[i])
  {
    var a, b := queue[..i], queue[..i + 1];
    assert b == a + [queue[i]];
    if AnyCounting(a) {
      var k :| 0 <= k < i && Counting(a[k]);
      assert Counting(b[k]);
    }
    if Counting(queue[i]) {
      assert Counting(b[i]);
    }
  }

  lemma {:induction false} DueAt(s: State, due: Option<nat>, now: int, i: nat)
    requires i < |s.queue| && due == if s.sel < 0 && s.phase == Busy then DueFrom(s.queue, now, 0) else None
    ensures due == Some(i) ==> Counting(s.queue[i]) && s.queue[i].due.value <= now && s.sel < 0 && s.phase == Busy
    ensures s.sel < 0 && s.phase == Busy && Counting(s.queue[i]) && s.queue[i].due.value <= now ==>
            due.Some? && due.value <= i
  {
  }

  lemma SteerAnsweredParts(s: State, i: nat, taken: bool)
    requires i < |s.steers|
    ensures var steer, t := s.steers[i], s.(steers := s.steers[..i] + s.steers[i + 1..]);
            var at := PlaceOf(t.queue, steer.id, 0);
            SteerAnswered(s, i, taken) ==
            if taken && t.phase == Busy then Said(if at.Some? then Dropped(t, at.value) else t, steer.text)
            else if at.Some? then t.(queue := t.queue[at.value := t.queue[at.value].(sending := false, due := None)])
            else t
  {
    hide PlaceOf, Dropped;
  }
}
