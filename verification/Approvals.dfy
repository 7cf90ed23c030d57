/** Permissions and questions put to the person: one dialog at a time, the others after it in their order,
    and the answer each is given. */
module Approvals {
  import opened Text

  datatype Request = Permission(options: seq<string>) | Question(options: seq<string>, multi: bool)

  /** A request and what has been done in its dialog so far. */
  datatype Approval = Approval(req: Request, cursor: nat, typed: string, picked: set<nat>)

  /** A key by name, with the text it types. */
  datatype Key = Key(name: string, text: string)

  function Shortcut(name: string): Option<string> {
    if name == "y" then Some("allow")
    else if name == "a" then Some("allow_always")
    else if name == "p" then Some("allow_pattern")
    else if name == "n" then Some("deny")
    else if name == "N" then Some("deny_always")
    else None
  }

  function OptionOr(options: seq<string>, id: string): string { if id in options then id else "" }

  /** The option a digit key names. */
  function DigitIndex(name: string): Option<nat> {
    if |name| == 1 && '1' <= name[0] <= '9' then Some(name[0] as int - '1' as int) else None
  }

  function Turn(cursor: nat, n: nat, delta: int): (c: nat)
    requires delta == 1 || delta == -1
    requires cursor < Atleast1(n)
    ensures c < Atleast1(n)
  {
    if delta == 1 then (cursor + 1) % Atleast1(n) else (cursor - 1 + n) % Atleast1(n)
  }

  function Atleast1(n: nat): nat { if n == 0 then 1 else n }

  /** The cursor is on an option, when there is one. */
  predicate Valid(a: Approval) {
    a.cursor < Atleast1(|a.req.options|) && forall i :: i in a.picked ==> i < |a.req.options|
  }

  /** The dialog after a key, and the answer if the key gave one. */
  function HandlePermission(a: Approval, key: Key): (r: (Approval, Option<string>))
    requires a.req.Permission? && Valid(a)
    ensures Valid(r.0) && r.0.req == a.req
    ensures r.1.Some? ==> r.1.value == "" || r.1.value in a.req.options
    ensures key.name == "esc" || key.name == "ctrl+c" ==> r.1 == Some("") || r.1 == Some("deny")
  {
    var options, k := a.req.options, key.name;
    if k == "up" || k == "k" || k == "shift+tab" then (a.(cursor := Turn(a.cursor, |options|, -1)), None)
    else if k == "down" || k == "j" || k == "tab" then (a.(cursor := Turn(a.cursor, |options|, 1)), None)
    else if k == "enter" then (a, if options == [] then None else Some(options[a.cursor]))
    else if k == "esc" || k == "ctrl+c" then (a, Some(OptionOr(options, "deny")))
    else
      var digit := DigitIndex(k);
      if digit.Some? && digit.value < |options| then (a, Some(options[digit.value]))
      else
        match Shortcut(k)
        case Some(id) => (a, if id in options then Some(id) else None)
        case None => (a, None)
  }

  /** The labels picked among options[i..], without changing their order. */
  function Chosen(options: seq<string>, picked: set<nat>, i: nat): seq<string>
    requires i <= |options|
    decreases |options| - i
  {
    if i == |options| then []
    else (if i in picked then [options[i]] else []) + Chosen(options, picked, i + 1)
  }

  function Joined(labels: seq<string>): string {
    if labels == [] then ""
    else if |labels| == 1 then labels[0]
    else labels[0] + ", " + Joined(labels[1..])
  }

  function Toggle(a: Approval, i: nat): Approval {
    a.(picked := if i in a.picked then a.picked - {i} else a.picked + {i})
  }

  /** What a question may be answered: nothing, what was typed, an option, or the ticked ones. */
  predicate QuestionAnswer(a: Approval, answer: string) {
    || answer == ""
    || (a.typed != "" && answer == a.typed)
    || answer in a.req.options
    || (a.req.Question? && a.req.multi && answer == Joined(Chosen(a.req.options, a.picked, 0)))
  }

  function HandleQuestion(a: Approval, key: Key): (r: (Approval, Option<string>))
    requires a.req.Question? && Valid(a)
    ensures Valid(r.0) && r.0.req == a.req
    ensures r.1.Some? ==> QuestionAnswer(a, r.1.value)
  {
    var options, k, typing := a.req.options, key.name, a.typed != "";
    var digit := DigitIndex(k);
    if k == "esc" || k == "ctrl+c" then (a, Some(""))
    else if k == "up" || k == "shift+tab" then (a.(cursor := Turn(a.cursor, |options|, -1)), None)
    else if k == "down" || k == "tab" then (a.(cursor := Turn(a.cursor, |options|, 1)), None)
    else if k == "backspace" then (if typing then a.(typed := a.typed[..|a.typed| - 1]) else a, None)
    else if k == "enter" then
      var ticked := Joined(Chosen(options, a.picked, 0));
      (a, if typing then Some(a.typed)
          else if a.req.multi && ticked != "" then Some(ticked)
          else if options != [] then Some(options[a.cursor])
          else None)
    else if k == "space" && !typing && a.req.multi && options != [] then (Toggle(a, a.cursor), None)
    else if !typing && digit.Some? && digit.value < |options| then
      if a.req.multi then (Toggle(a.(cursor := digit.value), digit.value), None)
      else (a, Some(options[digit.value]))
    else (a.(typed := a.typed + key.text), None)
  }

  function Handle(a: Approval, key: Key): (r: (Approval, Option<string>))
    requires Valid(a)
    ensures Valid(r.0) && r.0.req == a.req
    ensures r.1.Some? ==> Allowed(a, r.1.value)
  {
    match a.req
    case Permission(_) => HandlePermission(a, key)
    case Question(_, _) => HandleQuestion(a, key)
  }

  /** A permission is answered with an option it offers, or refused; a question as its dialog stands. */
  predicate Allowed(a: Approval, answer: string) {
    if a.req.Permission? then answer == "" || answer in a.req.options else QuestionAnswer(a, answer)
  }

  // ---- the arrows ----

  const DOWN := Key("down", "")
  const UP := Key("up", "")
  const ENTER := Key("enter", "")

  function Downs(a: Approval, n: nat): (r: Approval)
    requires Valid(a)
    ensures Valid(r)
    decreases n
  {
    if n == 0 then a else Downs(Handle(a, DOWN).0, n - 1)
  }

  /** The arrows reach every option: n steps down from the first one, enter answers with the n-th, of a
      permission or of a question with nothing typed or ticked. */
  lemma {:induction false} DownsThenEnter(a: Approval, n: nat)
    requires Valid(a) && a.typed == "" && a.picked == {} && a.cursor + n < |a.req.options|
    ensures Downs(a, n) == a.(cursor := a.cursor + n)
    ensures Handle(Downs(a, n), ENTER).1 == Some(a.req.options[a.cursor + n])
    decreases n
  {
    hide Handle;
    if n == 0 {
      EnterTakes(a);
    } else {
      OneDown(a);
      DownsThenEnter(a.(cursor := a.cursor + 1), n - 1);
    }
  }

  lemma OneDown(a: Approval)
    requires Valid(a) && a.cursor + 1 < |a.req.options|
    ensures Handle(a, DOWN).0 == a.(cursor := a.cursor + 1)
  {
    hide Turn;
    TurnDown(a.cursor, |a.req.options|);
  }

  lemma EnterTakes(a: Approval)
    requires Valid(a) && a.typed == "" && a.picked == {} && a.req.options != []
    ensures Handle(a, ENTER).1 == Some(a.req.options[a.cursor])
  {
    hide Turn, Chosen;
    NothingTicked(a.req.options, 0);
  }

  lemma {:induction false} NothingTicked(options: seq<string>, i: nat)
    requires i <= |options|
    ensures Chosen(options, {}, i) == []
    decreases |options| - i
  {
    if i < |options| {
      NothingTicked(options, i + 1);
    }
  }

  /** Up takes down back, and the other way, round the ends too. */
  lemma UpUndoesDown(a: Approval)
    requires Valid(a) && a.req.options != []
    ensures Handle(Handle(a, DOWN).0, UP).0 == a && Handle(Handle(a, UP).0, DOWN).0 == a
  {
    var n := |a.req.options|;
    TurnBack(a.cursor, n);
    hide Turn;
  }

  lemma TurnBack(c: nat, n: nat)
    requires c < n
    ensures Turn(Turn(c, n, 1), n, -1) == c && Turn(Turn(c, n, -1), n, 1) == c
  {
    hide Turn;
    TurnDown(c, n);
    TurnUp(c, n);
    TurnUp(if c + 1 == n then 0 else c + 1, n);
    TurnDown(if c == 0 then n - 1 else c - 1, n);
  }

  lemma TurnDown(c: nat, n: nat)
    requires c < n
    ensures Turn(c, n, 1) == if c + 1 == n then 0 else c + 1
  {
  }

  lemma TurnUp(c: nat, n: nat)
    requires c < n
    ensures Turn(c, n, -1) == if c == 0 then n - 1 else c - 1
  {
    if c > 0 {
      SmallMod(c - 1, n);
    }
  }

  lemma SmallMod(x: nat, n: nat)
    requires x < n
    ensures (x + n) % n == x
  {
    assert x + n == 1 * n + x;
    assert (x + n) / n == 1;
  }

  // ---- the requests of a session ----

  /** An answer, and the dialog as it stood when it was given. */
  datatype Given = Given(dialog: Approval, answer: string)

  /** The request on screen, those waiting behind it, and, for the record, every request that came and
      every answer given, in order. */
  datatype State = State(current: Option<Approval>, waiting: seq<Approval>, came: seq<Request>, answers: seq<Given>)

  datatype Event = Arrive(req: Request) | Press(key: Key) | Paste(text: string) | TurnEnds

  function Asked(req: Request): Approval { Approval(req, 0, "", {}) }

  function Queue(s: State, req: Request): State {
    var t := s.(came := s.came + [req]);
    if s.current == None then t.(current := Some(Asked(req))) else t.(waiting := s.waiting + [Asked(req)])
  }

  /** The request on screen is answered, and the next one shown. */
  function Answered(s: State, answer: string): State
    requires s.current.Some?
  {
    var t := s.(answers := s.answers + [Given(s.current.value, answer)]);
    if s.waiting == [] then t.(current := None) else t.(current := Some(s.waiting[0]), waiting := s.waiting[1..])
  }

  function DropAll(s: State): State
    decreases |s.waiting|, s.current.Some?
  {
    if s.current == None then s else DropAll(Answered(s, ""))
  }

  function Pressed(s: State, key: Key): State
    requires s.current.Some? ==> Valid(s.current.value)
  {
    if s.current == None then s
    else
      var r := Handle(s.current.value, key);
      if r.1.Some? then Answered(s, r.1.value) else s.(current := Some(r.0))
  }

  /** Without the line breaks at its end. */
  function TrimBreaks(s: string): string {
    if s != "" && (s[|s| - 1] == '\r' || s[|s| - 1] == '\n') then TrimBreaks(s[..|s| - 1]) else s
  }

  function WithoutReturns(s: string): string {
    if s == "" then "" else (if s[0] == '\r' then [] else [s[0]]) + WithoutReturns(s[1..])
  }

  /** A question takes the text into the answer being typed. */
  function Pasted(s: State, text: string): State {
    if s.current == None || !s.current.value.req.Question? then s
    else s.(current := Some(s.current.value.(typed := s.current.value.typed + WithoutReturns(TrimBreaks(text)))))
  }

  /** Requests still unanswered, in order. */
  function Open(s: State): seq<Request> {
    (if s.current == None then [] else [s.current.value.req]) + Reqs(s.waiting)
  }

  function Reqs(waiting: seq<Approval>): seq<Request> {
    seq(|waiting|, i requires 0 <= i < |waiting| => waiting[i].req)
  }

  /** The requests that came are those answered, in order, then those open, in order; every answer is
      one its request allows; and none waits behind an empty screen. */
  ghost predicate Kept(s: State) {
    && |s.answers| <= |s.came|
    && s.came[|s.answers|..] == Open(s)
    && (forall i :: 0 <= i < |s.answers| ==>
          s.answers[i].dialog.req == s.came[i] && Allowed(s.answers[i].dialog, s.answers[i].answer))
    && (s.current == None ==> s.waiting == [])
    && (s.current.Some? ==> Valid(s.current.value))
    && forall i :: 0 <= i < |s.waiting| ==> Valid(s.waiting[i])
  }

  lemma QueueKeeps(s: State, req: Request)
    requires Kept(s)
    ensures Kept(Queue(s, req))
  {
    var t := Queue(s, req);
    assert t.came[|s.answers|..] == s.came[|s.answers|..] + [req];
    assert Open(t) == Open(s) + [req];
  }

  lemma AnsweredKeeps(s: State, answer: string)
    requires Kept(s) && s.current.Some? && Allowed(s.current.value, answer)
    ensures Kept(Answered(s, answer))
  {
    var t, n := Answered(s, answer), |s.answers|;
    assert s.came[n..][0] == Open(s)[0] == s.current.value.req;
    assert s.came[n..][1..] == s.came[n + 1..];
    assert Open(s)[1..] == Reqs(s.waiting);
    if s.waiting != [] {
      assert Reqs(s.waiting) == [s.waiting[0].req] + Reqs(s.waiting[1..]);
    }
    assert t.came[n + 1..] == Open(t);
  }

  lemma {:induction false} DropAllKeeps(s: State)
    requires Kept(s)
    ensures Kept(DropAll(s)) && DropAll(s).current == None && DropAll(s).came == s.came
    ensures s.answers <= DropAll(s).answers
    ensures forall i :: |s.answers| <= i < |DropAll(s).answers| ==> DropAll(s).answers[i].answer == ""
    decreases |s.waiting|, s.current.Some?
  {
    hide Kept, Open;
    if s.current.Some? {
      AnsweredKeeps(s, "");
      DropAllKeeps(Answered(s, ""));
    }
  }

  function Step(s: State, e: Event): State
    requires s.current.Some? ==> Valid(s.current.value)
  {
    match e
    case Arrive(req) => Queue(s, req)
    case Press(key) => Pressed(s, key)
    case Paste(text) => Pasted(s, text)
    case TurnEnds => DropAll(s)
  }

  lemma StepKeeps(s: State, e: Event)
    requires Kept(s)
    ensures Kept(Step(s, e))
  {
    hide Handle, DropAll;
    match e
    case Arrive(req) => QueueKeeps(s, req);
    case Press(key) =>
      if s.current.Some? {
        var r := Handle(s.current.value, key);
        if r.1.Some? {
          AnsweredKeeps(s, r.1.value);
        }
      }
    case Paste(text) =>
    case TurnEnds => DropAllKeeps(s);
  }

  const START := State(None, [], [], [])

  /** The state after a run of events. */
  function Run(s: State, events: seq<Event>): (t: State)
    requires Kept(s)
    ensures Kept(t)
    decreases |events|
  {
    if events == [] then s
    else
      StepKeeps(s, events[0]);
      Run(Step(s, events[0]), events[1..])
  }

  lemma StartKept()
    ensures Kept(START)
  {
  }

  /** In every run: the n-th answer was given to the n-th request that came, and is one its dialog allowed
      as it stood; the requests after the last answered are those open, in order, the first on screen; and
      once a turn has ended every request has its answer. */
  lemma {:induction false} AnsweredInOrderOnce(events: seq<Event>)
    ensures var s := Run(START, events);
            && |s.answers| <= |s.came| && Open(s) == s.came[|s.answers|..]
            && (forall i :: 0 <= i < |s.answers| ==>
                  s.answers[i].dialog.req == s.came[i] && Allowed(s.answers[i].dialog, s.answers[i].answer))
            && (s.waiting != [] ==> s.current.Some?)
            && (events != [] && events[|events| - 1] == TurnEnds ==> |s.answers| == |s.came| && s.current == None)
  {
    hide Open, Step;
    StartKept();
    var s := Run(START, events);
    if events != [] && events[|events| - 1] == TurnEnds {
      LastStep(START, events);
      DropAllKeeps(Run(START, events[..|events| - 1]));
      NothingOpen(s);
    }
  }

  lemma NothingOpen(s: State)
    requires Kept(s) && s.current == None
    ensures Open(s) == [] && |s.answers| == |s.came|
  {
  }

  lemma {:induction false} LastStep(s: State, events: seq<Event>)
    requires Kept(s) && events != [] && events[|events| - 1] == TurnEnds
    ensures Run(s, events) == DropAll(Run(s, events[..|events| - 1]))
    decreases |events|
  {
    hide DropAll, Open;
    StepKeeps(s, events[0]);
    if |events| == 1 {
      assert events[1..] == [] && events[..0] == [];
    } else {
      var rest, front := events[1..], events[..|events| - 1];
      assert rest[..|rest| - 1] == front[1..];
      LastStep(Step(s, events[0]), rest);
    }
  }

  // ---- the session's fields ----

  class Asking {
    var current: Option<Approval>
    var waiting: seq<Approval>
    ghost var came: seq<Request>
    ghost var answers: seq<Given>

    constructor ()
      ensures View() == START
    {
      current, waiting, came, answers := None, [], [], [];
    }

    ghost function View(): State
      reads this
    {
      State(current, waiting, came, answers)
    }

    method QueueApproval(req: Request)
      modifies this
      ensures View() == Queue(old(View()), req)
    {
      came := came + [req];
      if current == None {
        current := Some(Asked(req));
        return;
      }
      waiting := waiting + [Asked(req)];
    }

    /** The head of waiting, if there is one, takes the screen. */
    method NextApproval()
      modifies this`current, this`waiting
      ensures waiting == if old(waiting) == [] then [] else old(waiting)[1..]
      ensures current == if old(waiting) == [] then None else Some(old(waiting)[0])
    {
      current := None;
      if |waiting| > 0 {
        current, waiting := Some(waiting[0]), waiting[1..];
      }
    }

    /** Every open request is answered "", and none stays open. */
    method DropApprovals()
      modifies this
      ensures View() == DropAll(old(View()))
    {
      while current.Some?
        invariant DropAll(View()) == DropAll(old(View()))
        decreases |waiting|, current.Some?
      {
        answers := answers + [Given(current.value, "")];
        NextApproval();
      }
    }

    method HandleKey(key: Key)
      requires current.Some? ==> Valid(current.value)
      modifies this
      ensures View() == Pressed(old(View()), key)
    {
      if current.Some? {
        var r := Handle(current.value, key);
        if r.1.Some? {
          answers := answers + [Given(current.value, r.1.value)];
          NextApproval();
        } else {
          current := Some(r.0);
        }
      }
    }
  }
}
