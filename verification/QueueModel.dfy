/** Messages sent while the agent works: listed in a queue, handed to the running turn after a delay or
    run as turns of their own, edited, moved or dropped meanwhile. One step is one event the interface
    handles. Times are in seconds. */
module QueueModel {
  import opened Text

  const STEER_DELAY := 5

  /** due is the end of the message's countdown, None when it has none; sending tells that a steer of it is
      unanswered. */
  datatype Queued = Queued(id: nat, text: string, due: Option<int>, sending: bool)

  datatype Phase = Connecting | Ready | Busy | Failed

  /** A message handed to the running turn, the answer not back yet. */
  datatype Steer = Steer(id: nat, text: string)

  /** said is the conversation's messages, oldest first; accepted are the messages taken from the
      person so far, and given up those dropped, taken back into the input, or stopped. */
  datatype State = State(
    phase: Phase,
    queue: seq<Queued>,
    sel: int,
    held: int,
    nextId: nat,
    ticking: bool,
    said: seq<string>,
    goal: bool,
    steers: seq<Steer>,
    accepted: multiset<string>,
    givenUp: multiset<string>)

  const START := State(Connecting, [], -1, 0, 0, false, [], false, [], multiset{}, multiset{})

  datatype Key = Up | Down | MoveUp | MoveDown | Edit | Drop | SendNow | Esc | Typing

  datatype Event =
    | Submit(text: string, now: int)       // the input's enter
    | Offer(text: string)                  // a command's or the goal's next message
    | Tick(now: int)                       // the countdown clock
    | SteerDone(i: nat, taken: bool)       // the answer to one of the steers out
    | Unread(texts: seq<string>)           // the turn ended before reading these
    | TurnEnded(failed: bool)
    | Connected(prompt: string)
    | Stopped                              // the agent exited or could not start
    | CancelTurn
    | Goal(on: bool)
    | Focus(now: int)                      // up from an empty input
    | QueueKey(key: Key, now: int)

  function TextsOf(queue: seq<Queued>): seq<string> {
    seq(|queue|, i requires 0 <= i < |queue| => queue[i].text)
  }

  predicate Counting(q: Queued) { q.due.Some? && !q.sending }

  // ---- the queue's own operations ----

  function Enqueue(s: State, text: string, due: Option<int>): State {
    s.(nextId := s.nextId + 1, queue := s.queue + [Queued(s.nextId + 1, text, due, false)])
  }

  function Without(queue: seq<Queued>, i: nat): seq<Queued>
    requires i < |queue|
  {
    queue[..i] + queue[i + 1..]
  }

  function ClampSel(s: State): State {
    if s.sel >= |s.queue| then s.(sel := |s.queue| - 1) else s
  }

  function Dropped(s: State, i: nat): State
    requires i < |s.queue|
  {
    ClampSel(s.(queue := Without(s.queue, i)))
  }

  function ForNextTurn(queue: seq<Queued>): (r: seq<Queued>)
    ensures |r| == |queue|
  {
    seq(|queue|, i requires 0 <= i < |queue| => queue[i].(due := None, sending := false))
  }

  /** Without its head, and with no countdown left. */
  function NextQueued(s: State): State
    requires s.queue != []
  {
    ClampSel(s.(queue := ForNextTurn(s.queue[1..])))
  }

  function Said(s: State, text: string): State {
    s.(said := s.said + [text])
  }

  function Send(s: State, text: string): State { Said(s, text).(phase := Busy) }

  /** The first queued message becomes a turn, if there is one. */
  function SendNext(s: State): (t: State)
    ensures if s.queue == [] then t == s else t.phase == Busy
  {
    if s.queue == [] then s else Send(NextQueued(s), s.queue[0].text)
  }

  function Shifted(queue: seq<Queued>, delay: int): (r: seq<Queued>)
    ensures |r| == |queue|
  {
    seq(|queue|, i requires 0 <= i < |queue| =>
      if queue[i].due.Some? then queue[i].(due := Some(queue[i].due.value + delay)) else queue[i])
  }

  /** Nothing selected any more; every countdown moved by the time since held. */
  function LeaveQueue(s: State, now: int): State {
    if s.sel < 0 then s
    else s.(sel := -1, queue := Shifted(s.queue, now - s.held), ticking := true)
  }

  function SteerQueued(s: State, i: nat): State
    requires i < |s.queue|
  {
    s.(queue := s.queue[i := s.queue[i].(sending := true)],
       steers := s.steers + [Steer(s.queue[i].id, s.queue[i].text)])
  }

  /** The first place from i on that holds this id. */
  function PlaceOf(queue: seq<Queued>, id: nat, i: nat): (r: Option<nat>)
    requires i <= |queue|
    ensures r.Some? ==> i <= r.value < |queue| && queue[r.value].id == id
    ensures r.None? ==> forall k :: i <= k < |queue| ==> queue[k].id != id
    decreases |queue| - i
  {
    if i == |queue| then None else if queue[i].id == id then Some(i) else PlaceOf(queue, id, i + 1)
  }

  /** The first message from the i-th on whose countdown ran out. */
  function DueFrom(queue: seq<Queued>, now: int, i: nat): (r: Option<nat>)
    requires i <= |queue|
    ensures r.Some? ==> i <= r.value < |queue| && Counting(queue[r.value]) && queue[r.value].due.value <= now
    ensures forall k :: i <= k < (if r.Some? then r.value else |queue|) ==>
              !(Counting(queue[k]) && queue[k].due.value <= now)
    decreases |queue| - i
  {
    if i == |queue| then None
    else if Counting(queue[i]) && queue[i].due.value <= now then Some(i)
    else DueFrom(queue, now, i + 1)
  }

  predicate AnyCounting(queue: seq<Queued>) { exists i :: 0 <= i < |queue| && Counting(queue[i]) }

  // ---- events ----

  function Ticked(s: State, now: int): (t: State)
    ensures t.phase == s.phase && |t.queue| == |s.queue|
  {
    var due := if s.sel < 0 && s.phase == Busy then DueFrom(s.queue, now, 0) else None;
    var t := if due.Some? then SteerQueued(s, due.value) else s;
    t.(ticking := AnyCounting(s.queue) && s.phase == Busy)
  }

  function SteerAnswered(s: State, i: nat, taken: bool): (t: State)
    requires i < |s.steers|
    ensures t.phase == s.phase && |t.queue| <= |s.queue|
  {
    var steer := s.steers[i];
    var t := s.(steers := s.steers[..i] + s.steers[i + 1..]);
    var at := PlaceOf(s.queue, steer.id, 0);
    if !taken || s.phase != Busy then
      if at.Some? then t.(queue := s.queue[at.value := s.queue[at.value].(sending := false, due := None)]) else t
    else
      Said(if at.Some? then Dropped(t, at.value) else t, steer.text)
  }

  /** Messages a turn left unread go first. */
  function UnreadFirst(texts: seq<string>, id: nat): (r: seq<Queued>)
    ensures |r| == |texts|
  {
    seq(|texts|, i requires 0 <= i < |texts| => Queued(id + 1 + i, texts[i], None, false))
  }

  function TurnOver(s: State, failed: bool): State {
    if s.phase == Failed then s
    else
      var t := s.(phase := Ready);
      if t.goal && t.queue == [] then (if failed then t.(goal := false) else t) else SendNext(t)
  }

  function Connect(s: State, prompt: string): State {
    var t := s.(phase := Ready);
    SendNext(if prompt == "" then t
             else t.(nextId := t.nextId + 1, queue := [Queued(t.nextId + 1, prompt, None, false)] + t.queue,
                     accepted := t.accepted + multiset{prompt}))
  }

  function Swapped(s: State, i: nat, j: nat): State
    requires i < |s.queue| && j < |s.queue|
  {
    s.(queue := s.queue[i := s.queue[j]][j := s.queue[i]], sel := j)
  }

  /** A key while message sel of the queue is selected. */
  function KeyInQueue(s: State, key: Key, now: int): (t: State)
    requires 0 <= s.sel < |s.queue|
    ensures t.phase == s.phase || t.phase == Busy
  {
    var i := s.sel;
    match key
    case Up => if i > 0 then s.(sel := i - 1) else LeaveQueue(s, now)
    case Down => if i < |s.queue| - 1 then s.(sel := i + 1) else LeaveQueue(s, now)
    case MoveUp => if i > 0 then Swapped(s, i, i - 1) else s
    case MoveDown => if i < |s.queue| - 1 then Swapped(s, i, i + 1) else s
    case Edit => LeaveQueue(Dropped(s, i).(givenUp := s.givenUp + multiset{s.queue[i].text}), now)
    case Drop =>
      var t := Dropped(s, i).(givenUp := s.givenUp + multiset{s.queue[i].text});
      if t.queue == [] then LeaveQueue(t, now) else t
    case SendNow =>
      if s.queue[i].sending then s
      else if s.phase != Busy then Send(LeaveQueue(Dropped(s, i), now), s.queue[i].text)
      else SteerQueued(s, i)
    case Esc => LeaveQueue(s, now)
    case Typing => LeaveQueue(s, now)
  }

  /** What was typed: sent, or queued behind the running turn or for the first one. */
  function Submitted(s: State, text: string, now: int): State {
    if text == "" then s
    else match s.phase
      case Busy => Enqueue(s, text, Some(now + STEER_DELAY)).(ticking := true, accepted := s.accepted + multiset{text})
      case Ready => Send(s, text).(accepted := s.accepted + multiset{text})
      case Connecting => Enqueue(s, text, None).(accepted := s.accepted + multiset{text})
      case Failed => s
  }

  /** Stopping means stopping: nothing queued goes on. */
  function Cancelled(s: State): State {
    if s.phase != Busy then s
    else s.(queue := [], sel := -1, goal := false, givenUp := s.givenUp + multiset(TextsOf(s.queue)))
  }

  function Step(s: State, e: Event): State {
    match e
    case Submit(text, now) => Submitted(s, text, now)
    case Offer(text) =>
      (if s.phase == Ready then Send(s, text) else Enqueue(s, text, None)).(accepted := s.accepted + multiset{text})
    case Tick(now) => Ticked(s, now)
    case SteerDone(i, taken) => if i < |s.steers| then SteerAnswered(s, i, taken) else s
    case Unread(texts) => s.(nextId := s.nextId + |texts|, queue := UnreadFirst(texts, s.nextId) + s.queue)
    case TurnEnded(failed) => TurnOver(s, failed)
    case Connected(prompt) => Connect(s, prompt)
    case Stopped => s.(phase := Failed)
    case CancelTurn => Cancelled(s)
    case Goal(on) => s.(goal := on)
    case Focus(now) => if s.sel >= 0 || s.queue == [] then s else s.(sel := |s.queue| - 1, held := now)
    case QueueKey(key, now) => if 0 <= s.sel < |s.queue| then KeyInQueue(s, key, now) else s
  }

  function Run(s: State, events: seq<Event>): State
    decreases |events|
  {
    if events == [] then s else Run(Step(s, events[0]), events[1..])
  }
}
