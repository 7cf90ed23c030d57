/** What each key answers a permission or a question with. */
module ApprovalKeys {
  import opened Approvals
  import opened Text

  // ---- permissions ----

  /** y, a, p, n and N each give the one option they stand for when it is offered, and nothing when it is
      not. */
  lemma {:induction false} DecisionKeys(a: Approval, text: string)
    requires a.req.Permission? && Valid(a)
    ensures var offered := a.req.options;
            && Handle(a, Key("y", text)) == (a, if "allow" in offered then Some("allow") else None)
            && Handle(a, Key("a", text)) == (a, if "allow_always" in offered then Some("allow_always") else None)
            && Handle(a, Key("p", text)) == (a, if "allow_pattern" in offered then Some("allow_pattern") else None)
            && Handle(a, Key("n", text)) == (a, if "deny" in offered then Some("deny") else None)
            && Handle(a, Key("N", text)) == (a, if "deny_always" in offered then Some("deny_always") else None)
  {
    hide Handle, Valid;
    OneLetter(a, "y", text);
    OneLetter(a, "a", text);
    OneLetter(a, "p", text);
    OneLetter(a, "n", text);
    OneLetter(a, "N", text);
  }

  lemma {:induction false} OneLetter(a: Approval, name: string, text: string)
    requires a.req.Permission? && Valid(a) && |name| == 1 && name[0] != 'k' && name[0] != 'j'
             && !('1' <= name[0] <= '9')
    ensures Handle(a, Key(name, text)) ==
            (a, match Shortcut(name) case Some(id) => (if id in a.req.options then Some(id)
                                                         else None) case None => None)
  {
    hide Shortcut, Turn;
  }

  /** The n-th digit gives the n-th option, when there are as many. */
  lemma {:induction false} DigitKeys(a: Approval, n: nat, text: string)
    requires a.req.Permission? && Valid(a) && n < 9 && n < |a.req.options|
    ensures Handle(a, Key(["123456789"[n]], text)) == (a, Some(a.req.options[n]))
  {
    hide Turn;
    DigitOf(n);
  }

  lemma {:induction false} DigitOf(n: nat)
    requires n < 9
    ensures DigitIndex(["123456789"[n]]) == Some(n)
    ensures "123456789"[n] != 'k' && "123456789"[n] != 'j'
  {
    var digits := "123456789";
    assert digits[0] == '1' && digits[1] == '2' && digits[2] == '3' && digits[3] == '4' && digits[4] == '5';
    assert digits[5] == '6' && digits[6] == '7' && digits[7] == '8' && digits[8] == '9';
  }

  /** Leaving refuses: with the option that denies when it is offered. Enter takes the option the cursor is
      on. */
  lemma {:induction false} LeaveAndEnter(a: Approval, key: Key)
    requires a.req.Permission? && Valid(a) && a.req.options != []
    ensures key.name == "esc" || key.name == "ctrl+c" ==>
              Handle(a, key) == (a, Some(if "deny" in a.req.options then "deny" else ""))
    ensures key.name == "enter" ==> Handle(a, key) == (a, Some(a.req.options[a.cursor]))
  {
    hide Turn, Shortcut, DigitIndex;
  }

  // ---- the cursor ----

  /** The cursor goes up by up and shift-tab and down by down and tab, round the ends, and in a permission by k
      and j as well; none of these answers. */
  lemma {:induction false} MoveKeys(a: Approval, key: Key)
    requires Valid(a) && a.req.options != []
    ensures key.name == "up" || key.name == "shift+tab" || (a.req.Permission? && key.name == "k") ==>
              Handle(a, key) == (a.(cursor := if a.cursor == 0 then |a.req.options| - 1 else a.cursor - 1), None)
    ensures key.name == "down" || key.name == "tab" || (a.req.Permission? && key.name == "j") ==>
              Handle(a, key) == (a.(cursor := if a.cursor + 1 == |a.req.options| then 0 else a.cursor + 1), None)
  {
    hide Shortcut, DigitIndex, Turn;
    TurnDown(a.cursor, |a.req.options|);
    TurnUp(a.cursor, |a.req.options|);
  }

  // ---- questions ----

  /** The key that types one character. */
  function KeyFor(c: char): Key { Key(if c == ' ' then "space" else [c], [c]) }

  /** A character goes into the answer being typed, unless nothing is typed yet and it is a digit of an option or
      the space that ticks one. */
  predicate Types(a: Approval, c: char)
    requires a.req.Question?
  {
    a.typed != "" || (!(c == ' ' && a.req.multi && a.req.options != []) && !NamesOption(a, c))
  }

  predicate NamesOption(a: Approval, c: char) { '1' <= c <= '9' && c as int - '1' as int < |a.req.options| }

  lemma {:induction false} OneTyped(a: Approval, c: char)
    requires a.req.Question? && Valid(a) && Types(a, c)
    ensures Handle(a, KeyFor(c)) == (a.(typed := a.typed + [c]), None)
  {
    hide Turn, Chosen, Joined;
  }

  /** What a character does that is not typed: the space ticks or clears the option under the cursor; a digit does
      the same to its own, or of a question with one answer gives it. */
  lemma {:induction false} NotTyped(a: Approval, c: char)
    requires a.req.Question? && Valid(a) && !Types(a, c)
    ensures var i: nat := if c == ' ' then a.cursor else c as int - '1' as int;
            && i < |a.req.options|
            && Handle(a, KeyFor(c)) ==
               if a.req.multi then
                 (a.(cursor := i, picked := if i in a.picked then a.picked - {i} else a.picked + {i}), None)
               else (a, Some(a.req.options[i]))
  {
    hide Turn, Chosen, Joined;
  }

  function TypeAll(a: Approval, s: string): (r: Approval)
    requires Valid(a)
    ensures Valid(r) && r.req == a.req
    decreases |s|
  {
    if s == "" then a else TypeAll(Handle(a, KeyFor(s[0])).0, s[1..])
  }

  lemma {:induction false} AllTyped(a: Approval, s: string)
    requires a.req.Question? && Valid(a) && (s != "" ==> Types(a, s[0]))
    ensures TypeAll(a, s) == a.(typed := a.typed + s)
    decreases |s|
  {
    hide Handle, Valid;
    if s == "" {
      assert a.typed + s == a.typed;
    } else {
      OneTyped(a, s[0]);
      var b := a.(typed := a.typed + [s[0]]);
      AllTyped(b, s[1..]);
      assert a.typed + [s[0]] + s[1..] == a.typed + s;
    }
  }

  /** Typing an answer and pressing enter gives that answer, whatever it is, if its first character is one that
      is typed. */
  lemma {:induction false} TypedIsAnswered(a: Approval, s: string)
    requires a.req.Question? && Valid(a) && a.typed == "" && s != "" && Types(a, s[0])
    ensures Handle(TypeAll(a, s), ENTER) == (a.(typed := s), Some(s))
  {
    hide Turn, Chosen, Joined, DigitIndex, Types;
    AllTyped(a, s);
    assert a.typed + s == s;
  }

  /** Backspace takes back one character typed. */
  lemma {:induction false} BackspaceUntypes(a: Approval, c: char)
    requires a.req.Question? && Valid(a) && Types(a, c)
    ensures Handle(Handle(a, KeyFor(c)).0, Key("backspace", "")) == (a, None)
  {
    hide Turn, Chosen, Joined, DigitIndex, Types;
    OneTyped(a, c);
    assert (a.typed + [c])[..|a.typed|] == a.typed;
  }

  /** Ticked options are answered in the order they are offered, with a comma between. */
  lemma {:induction false} TickedAreAnswered(a: Approval, i: nat, j: nat)
    requires a.req.Question? && a.req.multi && Valid(a) && a.typed == ""
    requires i < j < |a.req.options| && a.picked == {i, j} && a.req.options[i] != ""
    ensures Handle(a, ENTER) == (a, Some(a.req.options[i] + ", " + a.req.options[j]))
  {
    hide Turn, DigitIndex;
    TwoChosen(a.req.options, i, j, 0);
    var labels := [a.req.options[i], a.req.options[j]];
    assert labels[1..] == [a.req.options[j]];
    assert Joined(labels) == labels[0] + ", " + Joined(labels[1..]);
  }

  lemma {:induction false} TwoChosen(options: seq<string>, i: nat, j: nat, from: nat)
    requires i < j < |options| && from <= |options|
    ensures Chosen(options, {i, j}, from) ==
            (if from <= i then [options[i]] else []) + (if from <= j then [options[j]] else [])
    decreases |options| - from
  {
    if from < |options| {
      TwoChosen(options, i, j, from + 1);
    }
  }

  /** Leaving a question dismisses it. */
  lemma {:induction false} QuestionLeft(a: Approval, key: Key)
    requires a.req.Question? && Valid(a) && (key.name == "esc" || key.name == "ctrl+c")
    ensures Handle(a, key) == (a, Some(""))
  {
    hide Turn, Chosen, Joined, DigitIndex;
  }

  // ---- on screen ----

  /** A key that does not answer changes the dialog on screen and nothing else; one that does is given to the
      request on screen as it then stood. */
  lemma {:induction false} KeyOnScreen(s: State, key: Key)
    requires s.current.Some? && Valid(s.current.value)
    ensures var a := s.current.value;
            match Handle(a, key).1
            case None => Pressed(s, key) == s.(current := Some(Handle(a, key).0))
            case Some(answer) => Pressed(s, key).answers == s.answers + [Given(a, answer)]
  {
    hide Handle, Valid;
  }

  lemma {:induction false} BreaksTrimmed(a: string, breaks: string)
    requires a == "" || (a[|a| - 1] != '\r' && a[|a| - 1] != '\n')
    requires forall c <- breaks :: c == '\r' || c == '\n'
    ensures TrimBreaks(a + breaks) == a
  {
    if breaks == "" {
      assert a + breaks == a;
    } else {
      var n := |breaks| - 1;
      assert (a + breaks)[..|a + breaks| - 1] == a + breaks[..n] && breaks[n] in breaks;
      assert forall c <- breaks[..n] :: c in breaks;
      BreaksTrimmed(a, breaks[..n]);
    }
  }

  lemma {:induction false} ReturnsDropped(a: string, b: string)
    requires '\r' !in a
    ensures WithoutReturns(a) == a && WithoutReturns(a + b) == a + WithoutReturns(b)
  {
    if a == "" {
      assert a + b == b;
    } else {
      assert (a + b)[1..] == a[1..] + b;
      ReturnsDropped(a[1..], b);
      assert a == [a[0]] + a[1..];
    }
  }

  /** A line pasted loses the breaks behind it; between two lines a carriage return goes and the newline stays. */
  lemma {:induction false} PastedLines(a: string, b: string, breaks: string)
    requires '\r' !in a && '\r' !in b && b != "" && b[|b| - 1] != '\n'
    requires forall c <- breaks :: c == '\r' || c == '\n'
    ensures WithoutReturns(TrimBreaks(b + breaks)) == b
    ensures WithoutReturns(TrimBreaks(a + "\r\n" + b + breaks)) == a + "\n" + b
  {
    hide TrimBreaks, WithoutReturns;
    assert b[|b| - 1] in b;
    BreaksTrimmed(b, breaks);
    BreaksTrimmed(a + "\r\n" + b, breaks);
    PlainKept(b);
    ReturnBetween(a, b);
  }

  lemma {:induction false} PlainKept(b: string)
    requires '\r' !in b
    ensures WithoutReturns(b) == b
  {
    ReturnsDropped(b, "");
  }

  lemma {:induction false} ReturnBetween(a: string, b: string)
    requires '\r' !in a && '\r' !in b
    ensures WithoutReturns(a + "\r\n" + b) == a + "\n" + b
  {
    hide WithoutReturns;
    var rest := "\n" + b;
    assert a + "\r\n" + b == a + ("\r" + rest) && a + "\n" + b == a + rest;
    ReturnsDropped(a, "\r" + rest);
    ReturnGone(rest);
    PlainKept(rest);
  }

  lemma {:induction false} ReturnGone(rest: string)
    ensures WithoutReturns("\r" + rest) == WithoutReturns(rest)
  {
    assert ("\r" + rest)[1..] == rest;
  }

  /** What is pasted into a question is behind what was typed, and the whole its answer once enter is pressed; a
      permission takes no text. */
  lemma {:induction false} PastedIsAnswered(s: State, text: string, enter: Key)
    requires s.current.Some? && Valid(s.current.value) && enter.name == "enter"
    ensures var a := s.current.value;
            if a.req.Question? then
              var typed := a.typed + WithoutReturns(TrimBreaks(text));
              typed != "" ==> Pressed(Pasted(s, text), enter).answers == s.answers + [Given(a.(typed := typed), typed)]
            else Pasted(s, text) == s
  {
    hide Turn, Shortcut, DigitIndex, Chosen, Joined, WithoutReturns, TrimBreaks;
  }
}
