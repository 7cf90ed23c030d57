/** Being in the queue holds the countdowns: the clock steers nothing meanwhile, and leaving restores
    every remaining countdown to what it was when the queue was entered. */
module QueueHold {
  import opened Text
  import opened QueueModel
  import opened QueueRuns

  /** A tick steers at most one message, the first one due, and none while a message is selected or no turn
      runs. */
  lemma {:induction false} ClockSteers(s: State, now: int)
    ensures var t := Ticked(s, now);
            && (s.sel >= 0 || s.phase != Busy ==> t.steers == s.steers && t.queue == s.queue)
            && (s.sel < 0 && s.phase == Busy ==>
                  match DueFrom(s.queue, now, 0)
                  case None => t.queue == s.queue && t.steers == s.steers
                  case Some(i) => t.steers == s.steers + [Steer(s.queue[i].id, s.queue[i].text)] && t.queue[i].sending)
  {
  }

  /** q is message k of queue, with its countdown or with none. */
  predicate SameOrNone(queue: seq<Queued>, k: nat, q: Queued) {
    k < |queue| && queue[k].id == q.id && (q.due == queue[k].due || q.due == None)
  }

  /** Every message of next was in queue, with the countdown it has now if it has one, or is newer. */
  ghost predicate Holds(queue: seq<Queued>, nextId: nat, next: seq<Queued>) {
    forall i :: 0 <= i < |next| ==> next[i].id > nextId || exists k: nat :: SameOrNone(queue, k, next[i])
  }

  lemma HoldsSame(queue: seq<Queued>, nextId: nat)
    ensures Holds(queue, nextId, queue)
  {
    forall i | 0 <= i < |queue|
      ensures exists k: nat :: SameOrNone(queue, k, queue[i])
    {
      assert SameOrNone(queue, i, queue[i]);
    }
  }

  lemma HoldsThen(a: seq<Queued>, n: nat, b: seq<Queued>, m: nat, c: seq<Queued>)
    requires Holds(a, n, b) && Holds(b, m, c) && n <= m
    ensures Holds(a, n, c)
  {
    forall i | 0 <= i < |c|
      ensures c[i].id > n || exists k: nat :: SameOrNone(a, k, c[i])
    {
      if c[i].id <= m {
        var k: nat :| SameOrNone(b, k, c[i]);
        if b[k].id <= n {
          var j: nat :| SameOrNone(a, j, b[k]);
          assert SameOrNone(a, j, c[i]);
        }
      }
    }
  }

  lemma HoldsFrom(queue: seq<Queued>, nextId: nat, next: seq<Queued>, from: seq<nat>)
    requires |from| == |next|
    requires forall i :: 0 <= i < |next| ==> SameOrNone(queue, from[i], next[i])
    ensures Holds(queue, nextId, next)
  {
  }

  lemma WithoutHolds(queue: seq<Queued>, i: nat, nextId: nat)
    requires i < |queue|
    ensures Holds(queue, nextId, Without(queue, i))
  {
    var n := |queue| - 1;
    HoldsFrom(queue, nextId, Without(queue, i), seq(n, k requires 0 <= k < n => if k < i then k else k + 1));
  }

  lemma InPlaceHolds(queue: seq<Queued>, next: seq<Queued>, nextId: nat)
    requires |next| == |queue|
    requires forall i :: 0 <= i < |queue| ==> SameOrNone(queue, i, next[i])
    ensures Holds(queue, nextId, next)
  {
    HoldsFrom(queue, nextId, next, seq(|next|, k requires 0 <= k < |next| => k));
  }

  lemma NewerHolds(queue: seq<Queued>, nextId: nat, before: seq<Queued>, after: seq<Queued>)
    requires forall i :: 0 <= i < |before| ==> before[i].id > nextId
    requires forall i :: 0 <= i < |after| ==> after[i].id > nextId
    ensures Holds(queue, nextId, before + queue + after)
  {
    var next := before + queue + after;
    forall i | 0 <= i < |next| && next[i].id <= nextId
      ensures exists k: nat :: SameOrNone(queue, k, next[i])
    {
      assert SameOrNone(queue, i - |before|, next[i]);
    }
  }

  lemma SwappedHolds(s: State, i: nat, j: nat)
    requires i < |s.queue| && j < |s.queue|
    ensures Holds(s.queue, s.nextId, Swapped(s, i, j).queue)
  {
    var n := |s.queue|;
    HoldsFrom(s.queue, s.nextId, Swapped(s, i, j).queue,
              seq(n, k requires 0 <= k < n => if k == j then i else if k == i then j else k));
  }

  lemma SendNextHolds(s: State)
    ensures var t := SendNext(s); Holds(s.queue, s.nextId, t.queue) && t.held == s.held && t.nextId == s.nextId
  {
    if s.queue == [] {
      HoldsSame(s.queue, s.nextId);
    } else {
      var t, n := SendNext(s), |s.queue| - 1;
      HoldsFrom(s.queue, s.nextId, t.queue, seq(n, k requires 0 <= k < n => k + 1));
    }
  }

  lemma SteerAnsweredHolds(s: State, i: nat, taken: bool)
    requires i < |s.steers|
    ensures var t := SteerAnswered(s, i, taken);
            Holds(s.queue, s.nextId, t.queue) && t.held == s.held && t.nextId == s.nextId
  {
    HoldsSame(s.queue, s.nextId);
    var at := PlaceOf(s.queue, s.steers[i].id, 0);
    if at.Some? {
      WithoutHolds(s.queue, at.value, s.nextId);
      InPlaceHolds(s.queue, s.queue[at.value := s.queue[at.value].(sending := false, due := None)], s.nextId);
    }
  }

  lemma ConnectHolds(s: State, prompt: string)
    ensures var t := Connect(s, prompt); Holds(s.queue, s.nextId, t.queue) && t.held == s.held && t.nextId >= s.nextId
  {
    hide SendNext, Holds;
    var t := s.(phase := Ready);
    if prompt == "" {
      SendNextHolds(t);
    } else {
      var more := [Queued(t.nextId + 1, prompt, None, false)];
      var u := t.(nextId := t.nextId + 1, queue := more + t.queue, accepted := t.accepted + multiset{prompt});
      NewerHolds(s.queue, s.nextId, more, []);
      assert more + s.queue + [] == more + s.queue;
      SendNextHolds(u);
      HoldsThen(s.queue, s.nextId, u.queue, u.nextId, SendNext(u).queue);
    }
  }

  lemma KeyHolds(s: State, key: Key, now: int)
    requires 0 <= s.sel < |s.queue| && KeyInQueue(s, key, now).sel >= 0
    ensures var t := KeyInQueue(s, key, now);
            Holds(s.queue, s.nextId, t.queue) && t.held == s.held && t.nextId == s.nextId
  {
    hide Holds;
    var i := s.sel;
    HoldsSame(s.queue, s.nextId);
    WithoutHolds(s.queue, i, s.nextId);
    SteerHolds(s, i);
    match key
    case MoveUp =>
      if i > 0 {
        SwappedHolds(s, i, i - 1);
      }
    case MoveDown =>
      if i < |s.queue| - 1 {
        SwappedHolds(s, i, i + 1);
      }
    case _ =>
  }

  lemma SteerHolds(s: State, i: nat)
    requires i < |s.queue|
    ensures Holds(s.queue, s.nextId, SteerQueued(s, i).queue)
  {
    InPlaceHolds(s.queue, SteerQueued(s, i).queue, s.nextId);
  }

  /** While a message stays selected, no event moves a countdown. */
  lemma StepHolds(s: State, e: Event)
    requires SelOk(s) && s.sel >= 0 && Step(s, e).sel >= 0
    ensures var t := Step(s, e); Holds(s.queue, s.nextId, t.queue) && t.held == s.held && t.nextId >= s.nextId
  {
    hide Holds, KeyInQueue, SteerAnswered, Connect, SendNext;
    HoldsSame(s.queue, s.nextId);
    match e
    case Submit(text, now) => EnqueueHolds(s, text, Some(now + STEER_DELAY)); EnqueueHolds(s, text, None);
    case Offer(text) => EnqueueHolds(s, text, None);
    case SteerDone(i, taken) =>
      if i < |s.steers| {
        SteerAnsweredHolds(s, i, taken);
      }
    case Unread(texts) => UnreadHolds(s, texts);
    case TurnEnded(failed) => SendNextHolds(s.(phase := Ready));
    case Connected(prompt) => ConnectHolds(s, prompt);
    case QueueKey(key, now) => KeyHolds(s, key, now);
    case _ =>
  }

  lemma EnqueueHolds(s: State, text: string, due: Option<int>)
    ensures Holds(s.queue, s.nextId, Enqueue(s, text, due).queue)
  {
    NewerHolds(s.queue, s.nextId, [], [Queued(s.nextId + 1, text, due, false)]);
    assert [] + s.queue + [Queued(s.nextId + 1, text, due, false)] == Enqueue(s, text, due).queue;
  }

  lemma UnreadHolds(s: State, texts: seq<string>)
    ensures Holds(s.queue, s.nextId, UnreadFirst(texts, s.nextId) + s.queue)
  {
    var more := UnreadFirst(texts, s.nextId);
    NewerHolds(s.queue, s.nextId, more, []);
    assert more + s.queue + [] == more + s.queue;
  }

  /** A message is selected before every event of the run and after it. */
  predicate StaysSelected(s: State, events: seq<Event>)
    decreases |events|
  {
    s.sel >= 0 && (events != [] ==> StaysSelected(Step(s, events[0]), events[1..]))
  }

  lemma {:induction false} RunHolds(s: State, events: seq<Event>)
    requires Kept(s) && StaysSelected(s, events)
    ensures var t := Run(s, events);
            Holds(s.queue, s.nextId, t.queue) && t.held == s.held && t.nextId >= s.nextId && t.sel >= 0
    decreases |events|
  {
    hide Holds, Step;
    if events == [] {
      HoldsSame(s.queue, s.nextId);
    } else {
      var t := Step(s, events[0]);
      StepKeeps(s, events[0]);
      StepHolds(s, events[0]);
      RunHolds(t, events[1..]);
      HoldsThen(s.queue, s.nextId, t.queue, t.nextId, Run(t, events[1..]).queue);
    }
  }

  predicate ShiftOf(p: Queued, q: Queued, delay: int) {
    q.id == p.id && (q.due.Some? ==> p.due.Some? && q.due.value == p.due.value + delay)
  }

  predicate ShiftedFrom(queue: seq<Queued>, q: Queued, delay: int) {
    exists k :: 0 <= k < |queue| && ShiftOf(queue[k], q, delay)
  }

  lemma ShiftsWithout(s: State, now: int, i: nat)
    requires 0 <= s.sel < |s.queue|
    requires var t := LeaveQueue(Dropped(s, s.sel), now); i < |t.queue|
    ensures ShiftedFrom(s.queue, LeaveQueue(Dropped(s, s.sel), now).queue[i], now - s.held)
  {
    var k := if i < s.sel then i else i + 1;
    assert ShiftOf(s.queue[k], LeaveQueue(Dropped(s, s.sel), now).queue[i], now - s.held);
  }

  lemma ShiftsAll(s: State, now: int, i: nat)
    requires 0 <= s.sel && i < |s.queue|
    ensures ShiftedFrom(s.queue, LeaveQueue(s, now).queue[i], now - s.held)
  {
    assert ShiftOf(s.queue[i], LeaveQueue(s, now).queue[i], now - s.held);
  }

  /** What a key that leaves the queue leaves there. */
  lemma LeavesWhat(s: State, key: Key, now: int)
    requires 0 <= s.sel < |s.queue| && KeyInQueue(s, key, now).sel < 0
    ensures var left := if key.Edit? || key.Drop? || key.SendNow? then Dropped(s, s.sel) else s;
            KeyInQueue(s, key, now).queue == LeaveQueue(left, now).queue
  {
    hide Without, Shifted;
  }

  /** A key that leaves the queue moves every countdown left by as long as it was held. */
  lemma LeavingShifts(s: State, key: Key, now: int)
    requires 0 <= s.sel < |s.queue| && KeyInQueue(s, key, now).sel < 0
    ensures forall q :: q in KeyInQueue(s, key, now).queue ==> ShiftedFrom(s.queue, q, now - s.held)
  {
    hide KeyInQueue, LeaveQueue, Dropped, ShiftedFrom;
    LeavesWhat(s, key, now);
    LeftAsMany(s, now);
    var queue := KeyInQueue(s, key, now).queue;
    forall q | q in queue
      ensures ShiftedFrom(s.queue, q, now - s.held)
    {
      var i :| 0 <= i < |queue| && queue[i] == q;
      if key.Edit? || key.Drop? || key.SendNow? {
        ShiftsWithout(s, now, i);
      } else {
        ShiftsAll(s, now, i);
      }
    }
  }

  lemma LeftAsMany(s: State, now: int)
    ensures |LeaveQueue(s, now).queue| == |s.queue|
  {
  }

  /** From entering the queue at now0 to the key that leaves it at now1, whatever happens between:
      each message still there either waits for the next turn, or counts down what it had left when the
      queue was entered. */
  lemma {:induction false} CountdownsResume(s: State, now0: int, events: seq<Event>, key: Key, now1: int)
    requires Kept(s) && s.sel < 0 && s.queue != []
    requires StaysSelected(Step(s, Focus(now0)), events)
    requires var b := Run(Step(s, Focus(now0)), events);
             0 <= b.sel < |b.queue| && KeyInQueue(b, key, now1).sel < 0
    ensures var c := KeyInQueue(Run(Step(s, Focus(now0)), events), key, now1);
            forall q, p :: q in c.queue && p in s.queue && q.id == p.id && q.due.Some? ==>
              p.due.Some? && q.due.value - now1 == p.due.value - now0
  {
    hide Holds, KeyInQueue, Run, StaysSelected, IdsOk;
    var a := Step(s, Focus(now0));
    StepKeeps(s, Focus(now0));
    RunHolds(a, events);
    var b := Run(a, events);
    LeavingShifts(b, key, now1);
    var c := KeyInQueue(b, key, now1);
    forall q, p | q in c.queue && p in s.queue && q.id == p.id && q.due.Some?
      ensures p.due.Some? && q.due.value - now1 == p.due.value - now0
    {
      Traced(s, b, q, p, now1 - now0);
    }
  }

  lemma Traced(s: State, b: State, q: Queued, p: Queued, delay: int)
    requires IdsOk(s.queue, s.steers, s.nextId) && Holds(s.queue, s.nextId, b.queue)
    requires ShiftedFrom(b.queue, q, delay) && p in s.queue && q.id == p.id && q.due.Some?
    ensures p.due.Some? && q.due.value == p.due.value + delay
  {
    var k :| 0 <= k < |b.queue| && ShiftOf(b.queue[k], q, delay);
    var i :| 0 <= i < |s.queue| && s.queue[i] == p;
    var j: nat :| SameOrNone(s.queue, j, b.queue[k]);
    assert i == j;
  }
}
