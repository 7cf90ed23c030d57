/** What runs of vim keys keep: undo takes back what was saved, the cursor stays on the text, and a
    put undoes a delete. */
module VimRuns {
  import opened Text
  import opened VimMotion
  import opened Vim

  // ---- saving ----

  /** What a key does to the text and the undo stack: saves both once and may change the text, takes
      the last save back, or leaves both alone. */
  datatype Effect = Saves | TakesBack | Leaves

  function PlainEffect(e: Editor, key: char): Effect
    requires 0 <= e.cursor <= |e.text|
  {
    match key
    case 'o' => Saves
    case 'O' => Saves
    case 'D' => Saves
    case 'C' => Saves
    case 'x' => if e.cursor < LineEnd(e.text, e.cursor) then Saves else Leaves
    case 'X' => if e.cursor > LineStart(e.text, e.cursor) then Saves else Leaves
    case 'p' => if e.register != "" then Saves else Leaves
    case 'P' => if e.register != "" then Saves else Leaves
    case 'u' => TakesBack
    case _ => Leaves
  }

  function AnswerEffect(e: Editor, op: char, key: char): Effect
    requires 0 <= e.cursor <= |e.text|
  {
    if (op == 'd' || op == 'c') && (key == op || Motion(e.text, e.cursor, key).Some?) then Saves else Leaves
  }

  function EffectOf(e: Editor, key: char): Effect {
    match e.pending
    case Some(op) => AnswerEffect(Settled(e), op, key)
    case None => PlainEffect(Settled(e), key)
  }

  /** r is e after a key with this effect. */
  predicate Had(effect: Effect, e: Editor, r: Editor)
    requires 0 <= e.cursor
  {
    match effect
    case Saves => r.undo == Push(e.undo, Snapshot(e.text, e.cursor))
    case TakesBack => r == Undo(e)
    case Leaves => r.undo == e.undo && r.text == e.text
  }

  lemma AnswerHad(e: Editor, op: char, key: char)
    requires 0 <= e.cursor <= |e.text| && Answer(e, op, key).Some?
    ensures Had(AnswerEffect(e, op, key), e, Answer(e, op, key).value.after)
  {
    hide LineStart, LineEnd, Motion, Cut, Push, Span;
  }

  lemma PlainHad(e: Editor, key: char)
    requires 0 <= e.cursor <= |e.text|
    ensures Had(PlainEffect(e, key), e, Plain(e, key).after)
  {
    hide LineStart, LineEnd, FirstNonBlank, Motion, Cut, Insert, Push;
  }

  /** A key saves the text and cursor once, before it changes anything; or takes the last save back;
      or changes neither the text nor the saves. */
  lemma StepEffect(e: Editor, key: char)
    requires Step(e, key).Some?
    ensures Had(EffectOf(e, key), Settled(e), Step(e, key).value.after)
    ensures EffectOf(e, key) == TakesBack ==> e.pending == None && key == 'u'
  {
    hide Answer, Plain, Push;
    match e.pending
    case Some(op) => AnswerHad(Settled(e).(pending := None), op, key);
    case None => PlainHad(Settled(e), key);
  }

  /** The cursor is on the text, and so is every saved one. */
  predicate Valid(e: Editor) {
    && 0 <= e.cursor <= |e.text|
    && |e.undo| <= MAX_UNDO
    && forall s :: s in e.undo ==> s.cursor <= |s.text|
  }

  lemma PushKeeps(undo: seq<Snapshot>, s: Snapshot)
    requires |undo| <= MAX_UNDO && s.cursor <= |s.text|
    requires forall t :: t in undo ==> t.cursor <= |t.text|
    ensures |Push(undo, s)| <= MAX_UNDO
    ensures forall t :: t in Push(undo, s) ==> t.cursor <= |t.text|
  {
  }

  lemma AnswerKeepsCursor(e: Editor, op: char, key: char)
    requires 0 <= e.cursor <= |e.text|
    requires Answer(e, op, key).Some?
    ensures var r := Answer(e, op, key).value.after; 0 <= r.cursor <= |r.text|
  {
    hide Push, Motion, LineStart, LineEnd, WholeLine;
  }

  lemma PlainKeepsCursor(e: Editor, key: char)
    requires 0 <= e.cursor <= |e.text| && key != 'u'
    ensures var r := Plain(e, key).after; 0 <= r.cursor <= |r.text|
  {
    hide Push, Motion, LineStart, LineEnd, FirstNonBlank, OpenLine, DeleteHere, DeleteBefore, DeleteRest, Put;
  }

  lemma UndoKey(e: Editor)
    requires 0 <= e.cursor <= |e.text|
    ensures Plain(e, 'u') == Edited(Undo(e), false)
  {
  }

  /** Every key keeps the cursor, and every saved cursor, on its text. */
  lemma StepKeepsValid(e: Editor, key: char)
    requires Valid(e) && Step(e, key).Some?
    ensures Valid(Step(e, key).value.after)
  {
    hide Plain, Answer, EffectOf, Push;
    StepEffect(e, key);
    PushKeeps(e.undo, Snapshot(e.text, e.cursor));
    match e.pending
    case Some(op) => AnswerKeepsCursor(Settled(e).(pending := None), op, key);
    case None =>
      if key == 'u' {
        UndoKey(e);
      } else {
        PlainKeepsCursor(e, key);
      }
  }

  // ---- runs ----

  /** The editor after keys, None if one of them slices past the text. */
  function Run(e: Editor, keys: seq<char>): Option<Editor>
    decreases |keys|
  {
    if keys == [] then Some(e)
    else match Step(e, keys[0])
      case None => None
      case Some(r) => Run(r.after, keys[1..])
  }

  /** No key of the run takes a save back. */
  predicate TakesNothingBack(e: Editor, keys: seq<char>)
    decreases |keys|
  {
    keys != [] ==>
      && EffectOf(e, keys[0]) != TakesBack
      && (Step(e, keys[0]).Some? ==> TakesNothingBack(Step(e, keys[0]).value.after, keys[1..]))
  }

  /** The text and cursor before each saving key of a run. */
  function Saved(e: Editor, keys: seq<char>): seq<Snapshot>
    decreases |keys|
  {
    if keys == [] || Step(e, keys[0]).None? then []
    else
      var s := Settled(e);
      (if EffectOf(e, keys[0]) == Saves then [Snapshot(s.text, s.cursor)] else [])
      + Saved(Step(e, keys[0]).value.after, keys[1..])
  }

  /** The last MAX_UNDO of a history. */
  function Kept(all: seq<Snapshot>): seq<Snapshot> {
    if |all| <= MAX_UNDO then all else all[|all| - MAX_UNDO..]
  }

  lemma PushIsKept(undo: seq<Snapshot>, s: Snapshot)
    requires |undo| <= MAX_UNDO
    ensures Push(undo, s) == Kept(undo + [s])
  {
  }

  lemma KeptTwice(a: seq<Snapshot>, b: seq<Snapshot>)
    ensures Kept(Kept(a) + b) == Kept(a + b)
  {
    if |a| > MAX_UNDO {
      var d := |a| - MAX_UNDO;
      assert Kept(a) + b == (a + b)[d..];
    }
  }

  lemma {:induction false} KeepsValidOverRun(e: Editor, keys: seq<char>)
    requires Valid(e) && Run(e, keys).Some?
    ensures Valid(Run(e, keys).value)
    decreases |keys|
  {
    hide Step, Valid;
    if keys != [] {
      StepKeepsValid(e, keys[0]);
      KeepsValidOverRun(Step(e, keys[0]).value.after, keys[1..]);
    }
  }

  /** The undo stack after a run is what was on it and what the run saved, the newest MAX_UNDO. */
  lemma {:induction false} RunSaves(e: Editor, keys: seq<char>)
    requires Valid(e) && Run(e, keys).Some? && TakesNothingBack(e, keys)
    ensures Run(e, keys).value.undo == Kept(e.undo + Saved(e, keys))
    decreases |keys|
  {
    hide Step, EffectOf, Push, Kept;
    if keys == [] {
      assert e.undo + [] == e.undo;
      assert Kept(e.undo) == e.undo by { KeptShort(e.undo); }
    } else {
      var r := Step(e, keys[0]).value.after;
      var more := Saved(r, keys[1..]);
      StepEffect(e, keys[0]);
      StepKeepsValid(e, keys[0]);
      RunSaves(r, keys[1..]);
      if EffectOf(e, keys[0]) == Saves {
        var s := Snapshot(Settled(e).text, Settled(e).cursor);
        PushIsKept(e.undo, s);
        KeptTwice(e.undo + [s], more);
        assert (e.undo + [s]) + more == e.undo + ([s] + more);
      } else {
        assert [] + more == more;
      }
    }
  }

  lemma KeptShort(a: seq<Snapshot>)
    requires |a| <= MAX_UNDO
    ensures Kept(a) == a
  {
  }

  /** Before the first save of a run the text is what it was. */
  lemma {:induction false} FirstSaved(e: Editor, keys: seq<char>)
    requires Run(e, keys).Some? && TakesNothingBack(e, keys)
    ensures Saved(e, keys) != [] ==> Saved(e, keys)[0].text == e.text
    ensures Saved(e, keys) == [] ==> Run(e, keys).value.text == e.text
    decreases |keys|
  {
    hide Step, EffectOf;
    if keys != [] {
      StepEffect(e, keys[0]);
      FirstSaved(Step(e, keys[0]).value.after, keys[1..]);
    }
  }

  function Us(n: nat): (keys: seq<char>)
    ensures |keys| == n
  {
    seq(n, _ => 'u')
  }

  /** n undos go back to the n-th last save. */
  lemma {:induction false} UndoTakesBack(e: Editor, n: nat)
    requires Valid(e) && e.pending == None && n <= |e.undo|
    ensures var k := |e.undo| - n;
            Run(e, Us(n)) == Some(if n == 0 then e
                                  else e.(text := e.undo[k].text, cursor := e.undo[k].cursor, undo := e.undo[..k]))
    decreases n
  {
    if n > 0 {
      var r := Undo(e);
      assert Step(e, 'u') == Some(Edited(r, false));
      assert Us(n)[0] == 'u' && Us(n)[1..] == Us(n - 1);
      assert forall i :: 0 <= i < |r.undo| ==> r.undo[i] in e.undo;
      assert e.undo[|e.undo| - 1] in e.undo;
      UndoTakesBack(r, n - 1);
      assert n > 1 ==> r.undo[..|e.undo| - n] == e.undo[..|e.undo| - n];
    }
  }

  /** With an operator or a prefix pending, u answers it, and changes nothing else. */
  lemma UAnswersPending(e: Editor)
    requires Valid(e) && e.pending.Some?
    ensures Step(e, 'u') == Some(Edited(e.(pending := None), false))
  {
  }

  /** The undos that take n saves back: one more when something is pending. */
  function Undos(e: Editor, n: nat): nat { n + if e.pending.Some? then 1 else 0 }

  lemma {:induction false} UndosTakeBack(e: Editor, n: nat)
    requires Valid(e) && n <= |e.undo|
    ensures var k := |e.undo| - n; var p := e.(pending := None);
            Run(e, Us(Undos(e, n))) ==
            Some(if n == 0 then p
                 else p.(text := e.undo[k].text, cursor := e.undo[k].cursor, undo := e.undo[..k]))
  {
    hide Step;
    if e.pending.Some? {
      UAnswersPending(e);
      assert Us(n + 1)[0] == 'u' && Us(n + 1)[1..] == Us(n);
      UndoTakesBack(e.(pending := None), n);
    } else {
      UndoTakesBack(e, n);
    }
  }

  /** A run that saves n times, at most MAX_UNDO, is taken back by n undos, after one more u for whatever it
      left pending: the text from before the run, and the cursor from before its first save. */
  lemma {:induction false} UndoRestoresRun(e: Editor, keys: seq<char>)
    requires Valid(e) && Run(e, keys).Some? && TakesNothingBack(e, keys)
    requires |Saved(e, keys)| <= MAX_UNDO
    ensures var n := |Saved(e, keys)|; var done := Run(e, keys).value;
            var r := Run(done, Us(Undos(done, n)));
            && r.Some?
            && r.value.text == e.text && r.value.pending == None
            && (n > 0 ==> r.value.text == Saved(e, keys)[0].text && r.value.cursor == Saved(e, keys)[0].cursor)
  {
    hide Run, Saved, Step, TakesNothingBack, Us, Valid;
    var saved, done := Saved(e, keys), Run(e, keys).value;
    var n := |saved|;
    RunSaves(e, keys);
    FirstSaved(e, keys);
    KeepsValidOverRun(e, keys);
    var all := e.undo + saved;
    if n > 0 {
      assert done.undo[|done.undo| - n] == all[|e.undo|] == saved[0];
    }
    UndosTakeBack(done, n);
  }

  // ---- a put undoes a delete ----

  lemma {:induction false} TwoKeys(e: Editor, a: char, b: char)
    requires Step(e, a).Some? && Step(Step(e, a).value.after, b).Some?
    ensures Run(e, [a, b]) == Some(Step(Step(e, a).value.after, b).value.after)
  {
    hide Step;
    var mid := Step(e, a).value.after;
    assert [a, b][1..] == [b] && [b][1..] == [];
    assert Run(mid, [b]) == Run(Step(mid, b).value.after, []);
  }

  /** d then its motion, as one editor state. */
  lemma {:induction false} DeleteKeys(e: Editor, key: char)
    requires Valid(e) && e.pending == None && Answer(e, 'd', key).Some?
    ensures Run(e, ['d', key]) == Some(Answer(e, 'd', key).value.after)
  {
    hide Answer;
    assert Step(e, 'd') == Some(Edited(e.(pending := Some('d')), false));
    assert e.(pending := Some('d')).(pending := None) == e;
    TwoKeys(e, 'd', key);
  }

  /** What a put makes of the text. */
  lemma PutText(e: Editor, key: char)
    requires 0 <= e.cursor <= |e.text| && (key == 'p' || key == 'P')
    ensures Plain(e, key).after.text ==
            var reg := e.register;
            if reg == "" then e.text
            else if reg[|reg| - 1] != '\n' then
              Insert(e.text,
                     if key == 'p' && e.cursor < |e.text| && e.text[e.cursor] != '\n' then e.cursor + 1 else e.cursor,
                     reg)
            else if key == 'p' then Insert(e.text, LineEnd(e.text, e.cursor), "\n" + reg[..|reg| - 1])
            else Insert(e.text, LineStart(e.text, e.cursor), reg)
  {
    hide LineStart, LineEnd, Insert;
  }

  lemma LineBack(text: string, start: nat, end: nat)
    requires start <= end < |text| && text[end] == '\n'
    ensures Insert(Cut(text, start, end + 1), start, text[start..end] + "\n") == text
  {
    assert text == text[..start] + (text[start..end] + "\n") + text[end + 1..];
    var out := Cut(text, start, end + 1);
    assert out[..start] == text[..start] && out[start..] == text[end + 1..];
  }

  lemma {:induction false} StartStays(text: string, start: nat, upto: nat)
    requires start <= upto <= |text| && (start == 0 || text[start - 1] == '\n')
    ensures LineStart(Cut(text, start, upto), start) == start
  {
    var out := Cut(text, start, upto);
    assert start > 0 ==> out[start - 1] == text[start - 1];
  }

  /** What dd leaves when there is a line below. */
  lemma WholeLineAbove(e: Editor)
    requires 0 <= e.cursor <= |e.text| && LineEnd(e.text, e.cursor) < |e.text|
    ensures var start, end := LineStart(e.text, e.cursor), LineEnd(e.text, e.cursor);
            var mid := WholeLine(e, 'd').after;
            && mid.text == Cut(e.text, start, end + 1) && mid.cursor == start
            && mid.register == e.text[start..end] + "\n"
  {
    hide LineStart, LineEnd, Cut;
    var start, end := LineStart(e.text, e.cursor), LineEnd(e.text, e.cursor);
    CutLength(e.text, start, end + 1);
    StartStays(e.text, start, end + 1);
  }

  /** dd on a line with another below it, then P. */
  lemma {:induction false} DeleteLineThenPutAbove(e: Editor)
    requires Valid(e) && e.pending == None
    requires LineEnd(e.text, e.cursor) < |e.text|
    ensures var mid := WholeLine(e, 'd').after;
            && Run(e, ['d', 'd']) == Some(mid)
            && Plain(mid, 'P').after.text == e.text
  {
    hide LineStart, LineEnd, Insert, Plain, Run, Cut, Answer, WholeLine;
    DoubleKey(e, 'd');
    DeleteKeys(e, 'd');
    WholeLineAbove(e);
    var start, end := LineStart(e.text, e.cursor), LineEnd(e.text, e.cursor);
    CutLength(e.text, start, end + 1);
    StartStays(e.text, start, end + 1);
    LineBack(e.text, start, end);
    PutText(WholeLine(e, 'd').after, 'P');
  }

  lemma CutLength(text: string, from: nat, upto: nat)
    requires from <= upto <= |text|
    ensures |Cut(text, from, upto)| == |text| - (upto - from)
  {
  }

  lemma DoubleKey(e: Editor, op: char)
    requires 0 <= e.cursor <= |e.text| && IsOperator(op)
    ensures Answer(e, op, op) == Some(WholeLine(e, op))
  {
    hide WholeLine;
  }

  lemma LastLineBack(text: string, start: nat)
    requires 0 < start <= |text| && text[start - 1] == '\n'
    ensures var out := Cut(text, start - 1, |text|);
            Insert(out, |out|, "\n" + text[start..|text|]) == text
  {
    var out := Cut(text, start - 1, |text|);
    assert out == text[..start - 1];
    assert text == text[..start - 1] + ("\n" + text[start..|text|]);
  }

  /** dd on the last of two or more lines, then p. */
  lemma {:induction false} DeleteLastLineThenPutBelow(e: Editor)
    requires Valid(e) && e.pending == None
    requires LineEnd(e.text, e.cursor) == |e.text| && LineStart(e.text, e.cursor) > 0
    ensures var mid := WholeLine(e, 'd').after;
            && Run(e, ['d', 'd']) == Some(mid)
            && Plain(mid, 'p').after.text == e.text
  {
    hide LineStart, LineEnd, Insert, Plain, Run, Cut, Answer;
    DoubleKey(e, 'd');
    DeleteKeys(e, 'd');
    var start, n := LineStart(e.text, e.cursor), |e.text|;
    var mid := WholeLine(e, 'd').after;
    var out := Cut(e.text, start - 1, n);
    CutLength(e.text, start - 1, n);
    assert mid.text == out && mid.cursor == LineStart(out, |out|);
    LastLineEnds(out, mid.cursor);
    LastLineBack(e.text, start);
    assert mid.register == e.text[start..n] + "\n";
    assert mid.register[..|mid.register| - 1] == e.text[start..n];
    PutText(mid, 'p');
  }

  lemma PieceBack(text: string, from: nat, upto: nat)
    requires from <= upto <= |text|
    ensures Insert(Cut(text, from, upto), from, text[from..upto]) == text
  {
    var out := Cut(text, from, upto);
    assert out[..from] == text[..from] && out[from..] == text[upto..];
    assert text == text[..from] + text[from..upto] + text[upto..];
  }

  /** A piece put where its line starts instead: the same text only when that is where it was. */
  lemma PieceElsewhere(text: string, from: nat, upto: nat, at: nat)
    requires at <= from < upto <= |text| && text[upto - 1] == '\n'
    requires forall i :: at <= i < from ==> text[i] != '\n'
    ensures Insert(Cut(text, from, upto), at, text[from..upto]) == text <==> at == from
  {
    if at == from {
      PieceBack(text, from, upto);
    } else {
      var out, reg := Cut(text, from, upto), text[from..upto];
      var r := Insert(out, at, reg);
      assert out[at..][from - 1 - at] == out[from - 1] == text[from - 1];
      assert r[upto - 1] == out[at..][from - 1 - at];
    }
  }

  lemma NothingPut(text: string, at: nat)
    requires at <= |text|
    ensures Insert(text, at, "") == text
  {
  }

  lemma CutFront(text: string, from: nat, upto: nat)
    requires from <= upto <= |text|
    ensures Cut(text, from, upto)[..from] == text[..from]
  {
  }

  lemma MotionKey(e: Editor, op: char, key: char)
    requires 0 <= e.cursor <= |e.text| && IsOperator(op) && key != op
    ensures Answer(e, op, key) == Operate(e, op, key)
  {
    hide Operate;
  }

  lemma MotionCuts(e: Editor, key: char)
    requires 0 <= e.cursor <= |e.text| && Motion(e.text, e.cursor, key).Some?
    ensures var s := Span(e.text, e.cursor, 'd', key, Motion(e.text, e.cursor, key).value);
            && s.1 <= |e.text| && Operate(e, 'd', key).Some?
            && var mid := Operate(e, 'd', key).value.after;
               mid.text == Cut(e.text, s.0, s.1) && mid.cursor == s.0 && mid.register == e.text[s.0..s.1]
  {
    hide Motion, Span, Cut;
    var s := Span(e.text, e.cursor, 'd', key, Motion(e.text, e.cursor, key).value);
    CutLength(e.text, s.0, s.1);
  }

  /** Delete to a motion's end, then P. The deleted text goes back where it was unless it ends in a
      newline, which makes P a line put: then exactly when the cut was at a line's start. */
  lemma {:induction false} DeleteThenPut(e: Editor, key: char)
    requires Valid(e) && e.pending == None && key != 'd' && Motion(e.text, e.cursor, key).Some?
    ensures var s := Span(e.text, e.cursor, 'd', key, Motion(e.text, e.cursor, key).value);
            var mid := Operate(e, 'd', key).value.after;
            && Run(e, ['d', key]) == Some(mid)
            && mid.register == e.text[s.0..s.1]
            && (Plain(mid, 'P').after.text == e.text <==>
                (s.0 < s.1 && e.text[s.1 - 1] == '\n' ==> LineStart(e.text, s.0) == s.0))
  {
    hide Motion, LineStart, LineEnd, Span, Plain, Run, Cut, Insert, Answer, Operate;
    MotionKey(e, 'd', key);
    MotionCuts(e, key);
    DeleteKeys(e, key);
    var s := Span(e.text, e.cursor, 'd', key, Motion(e.text, e.cursor, key).value);
    PieceReturns(e.text, s.0, s.1);
    PutText(Operate(e, 'd', key).value.after, 'P');
  }

  /** "b" and the newline after it, cut from inside a line, are put back above the line. */
  lemma PutCanGoElsewhere()
    ensures var e := Editor("ab\ncd", 1, None, "", []);
            var mid := Operate(e, 'd', 'w').value.after;
            Run(e, "dw") == Some(mid) && mid.register == "b\n" && Plain(mid, 'P').after.text != e.text
  {
    hide Plain, Run, Operate;
    var e := Editor("ab\ncd", 1, None, "", []);
    NextWord(e.text);
    assert e.text[1..3] == "b\n" && "dw" == ['d', 'w'];
    MotionCuts(e, 'w');
    DeleteThenPut(e, 'w');
  }

  lemma {:induction false} NextWord(text: string)
    requires text == "ab\ncd"
    ensures Motion(text, 1, 'w') == Some(3) && Span(text, 1, 'd', 'w', 3) == (1, 3) && LineStart(text, 1) == 0
  {
    assert text[0] == 'a' && text[1] == 'b' && text[2] == '\n' && text[3] == 'c';
    assert Past(text, 2, 5, NOT_SPACE) == 2 && Past(text, 1, 5, NOT_SPACE) == 2;
    assert Past(text, 3, 5, SPACE) == 3 && Past(text, 2, 5, SPACE) == 3;
  }

  /** A piece put back at its start, or, one ending in a newline, at the start of the line it left. */
  lemma {:induction false} PieceReturns(text: string, from: nat, upto: nat)
    requires from <= upto <= |text|
    ensures var out, reg := Cut(text, from, upto), text[from..upto];
            && from <= |out|
            && ((if reg == "" then out
                 else Insert(out, if reg[|reg| - 1] == '\n' then LineStart(out, from) else from, reg)) == text <==>
                (from < upto && text[upto - 1] == '\n' ==> LineStart(text, from) == from))
  {
    hide LineStart, Cut, Insert;
    var out, reg := Cut(text, from, upto), text[from..upto];
    CutLength(text, from, upto);
    PieceBack(text, from, upto);
    if reg == "" {
      NothingPut(out, from);
    } else if reg[|reg| - 1] == '\n' {
      CutFront(text, from, upto);
      SameLineStart(out, text, from);
      PieceElsewhere(text, from, upto, LineStart(text, from));
    }
  }

  /** D, then P. */
  lemma DeleteRestThenPut(e: Editor)
    requires Valid(e) && e.pending == None
    ensures var mid := DeleteRest(e, 'D').after;
            && Step(e, 'D') == Some(Edited(mid, false))
            && Plain(mid, 'P').after.text == e.text
  {
    hide LineStart, LineEnd, Cut, Insert, Plain;
    var end := LineEnd(e.text, e.cursor);
    var mid := DeleteRest(e, 'D').after;
    RestKey(e);
    PutText(mid, 'P');
    RestIsOneLine(e.text, e.cursor, end);
    PieceBack(e.text, e.cursor, end);
  }

  lemma RestKey(e: Editor)
    requires Valid(e) && e.pending == None
    ensures Step(e, 'D') == Some(Edited(DeleteRest(e, 'D').after, false))
  {
    hide LineStart, LineEnd, Cut;
  }

  lemma {:induction false} RestIsOneLine(text: string, cursor: nat, end: nat)
    requires cursor <= |text| && end == LineEnd(text, cursor)
    ensures text[cursor..end] == "" ==> Cut(text, cursor, end) == text
    ensures text[cursor..end] != "" ==> text[cursor..end][end - cursor - 1] != '\n'
  {
  }
}
