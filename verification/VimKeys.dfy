/** What the keys that are no motions do: the operators with a motion, whole lines, single characters, new
    lines, and the keys that go back to typing. */
module VimKeys {
  import opened Text
  import opened Vim
  import opened VimMotion
  import opened VimRuns
  import opened VimWhere

  /** The editor ready for a key, nothing pending. */
  predicate Ready(e: Editor) { Valid(e) && e.pending == None }

  /** The text saved for undo, and then changed so. */
  predicate Changed(e: Editor, r: Option<Edited>, text: string, cursor: int, register: string, insert: bool) {
    && 0 <= e.cursor
    && r == Some(Edited(e.(text := text, cursor := cursor, register := register,
                           undo := Push(e.undo, Snapshot(e.text, e.cursor))), insert))
  }

  /** The newest hundred saves are kept. */
  lemma HundredSaves(undo: seq<Snapshot>, s: Snapshot)
    requires |undo| <= 100
    ensures Push(undo, s) == (if |undo| < 100 then undo else undo[1..]) + [s]
  {
  }

  // ---- an operator and a motion ----

  /** What an operator takes: what lies between the cursor and where the motion alone would go, for e the
      character it lands on too, for $ all to the end of the line, and for cw up to where e goes. */
  function Taken(e: Editor, op: char, key: char): (int, int) {
    var to := if op == 'c' && key == 'w' then Goes(e, 'e') + 1 else Goes(e, key);
    var lo, hi := if e.cursor < to then e.cursor else to, if e.cursor < to then to else e.cursor;
    if key == '$' && 0 <= e.cursor <= |e.text| then (lo, LineEnd(e.text, e.cursor))
    else if key == 'e' then (lo, if hi < |e.text| then hi + 1 else hi)
    else (lo, hi)
  }

  lemma {:induction false} TakenIsSpan(e: Editor, op: char, key: char)
    requires Ready(e) && IsOperator(op) && IsMotion(key) && !(op == 'c' && key == 'w' && e.text == "")
    ensures Motion(e.text, e.cursor, key).Some?
    ensures Taken(e, op, key) == Span(e.text, e.cursor, op, key, Motion(e.text, e.cursor, key).value)
    ensures 0 <= Taken(e, op, key).0 <= Taken(e, op, key).1 <= |e.text|
  {
    hide Goes, OnlyMoves, LineStart, LineEnd, WordEnd, Motion;
    MotionMoves(e, key);
    MotionMoves(e, 'e');
    EndIsMotion(e.text, e.cursor);
  }

  lemma {:induction false} EndIsMotion(text: string, cursor: nat)
    requires cursor <= |text|
    ensures Motion(text, cursor, 'e') == Some(WordEnd(text, cursor))
  {
    hide LineStart, LineEnd, WordEnd;
  }

  lemma {:induction false} OperatorWaits(e: Editor, op: char)
    requires Ready(e) && (IsOperator(op) || op == 'g')
    ensures Step(e, op) == Some(Edited(e.(pending := Some(op)), false))
  {
    hide Motion;
  }

  /** d and c cut it, y copies it; each keeps it in the register; c goes on typing. */
  lemma {:induction false} OperatorTakes(e: Editor, op: char, key: char)
    requires Ready(e) && IsOperator(op) && IsMotion(key) && !(op == 'c' && key == 'w' && e.text == "")
    ensures var t := Taken(e, op, key);
            var r := Step(e.(pending := Some(op)), key);
            && 0 <= t.0 <= t.1 <= |e.text|
            && if op == 'y' then r == Some(Edited(e.(register := e.text[t.0..t.1]), false))
               else Changed(e, r, e.text[..t.0] + e.text[t.1..], t.0, e.text[t.0..t.1], op == 'c')
  {
    hide Taken, Motion, Span;
    TakenIsSpan(e, op, key);
    AnswerIsOperate(e, op, key);
  }

  lemma {:induction false} AnswerIsOperate(e: Editor, op: char, key: char)
    requires Ready(e) && IsOperator(op) && IsMotion(key)
    ensures Step(e.(pending := Some(op)), key) == Operate(e, op, key)
  {
    hide Operate, WholeLine;
  }

  /** cw on a character of a word takes to the end of that word if and only if the character is not the word's
      last, or is the text's; from the last one it takes what follows as well. */
  lemma {:induction false} ChangeWordStays(e: Editor)
    requires Ready(e) && e.cursor < |e.text| && !IsSpace(e.text[e.cursor])
    ensures WordLast(e.text, Taken(e, 'c', 'w').1 - 1)
            && (forall i :: e.cursor <= i < Taken(e, 'c', 'w').1 - 1 ==> !IsSpace(e.text[i]))
            <==> !WordLast(e.text, e.cursor) || e.cursor + 1 == |e.text|
  {
    hide Goes, OnlyMoves, WordEnd, IsSpace;
    WordEndsAfter(e);
    MotionMoves(e, 'e');
    EndIsMotion(e.text, e.cursor);
    WordEndFrom(e.text, e.cursor);
  }

  /** From inside a word its end is reached over no space; from its last character, over the space behind it. */
  lemma {:induction false} WordEndFrom(text: string, cursor: nat)
    requires cursor < |text| && !IsSpace(text[cursor])
    ensures var c := WordEnd(text, cursor);
            && cursor <= c < |text|
            && (!WordLast(text, cursor) || cursor + 1 == |text| ==>
                  WordLast(text, c) && forall i :: cursor <= i < c ==> !IsSpace(text[i]))
            && (WordLast(text, cursor) && cursor + 1 < |text| ==> cursor < c && IsSpace(text[cursor + 1]))
            && (WordLast(text, cursor) && cursor + 1 == c < |text| ==> !WordLast(text, c))
  {
    hide Past, LastOf, IsSpace;
    var p := Past(text, cursor + 1, |text|, SPACE);
    if cursor + 1 < |text| {
      if IsSpace(text[cursor + 1]) {
        assert SPACE(text[cursor + 1]);
        NoSpaceThere(text, cursor + 1);
      } else {
        assert !SPACE(text[cursor + 1]);
        NoSpaceThere(text, cursor + 1);
        RunToLast(text, cursor + 1);
        NoSpaceUpTo(text, cursor + 1);
      }
    }
  }

  lemma {:induction false} NoSpaceThere(text: string, i: nat)
    requires i < |text|
    ensures !SPACE(text[i]) ==> Past(text, i, |text|, SPACE) == i
    ensures SPACE(text[i]) ==> Past(text, i, |text|, SPACE) > i
  {
    hide IsSpace;
  }

  lemma {:induction false} NoSpaceUpTo(text: string, i: nat)
    requires i < |text| && !IsSpace(text[i])
    ensures forall k :: i <= k <= LastOf(text, i) && k < |text| ==> !IsSpace(text[k])
    decreases |text| - i
  {
    hide IsSpace;
    if i + 1 < |text| && !IsSpace(text[i + 1]) {
      NoSpaceUpTo(text, i + 1);
    }
  }

  // ---- whole lines ----

  /** yy keeps the line, closed by a newline, and changes nothing; cc empties it and goes on typing there. */
  lemma {:induction false} LineKeys(e: Editor)
    requires Ready(e)
    ensures var start, end := LineStart(e.text, e.cursor), LineEnd(e.text, e.cursor);
            var line := e.text[start..end] + "\n";
            && Step(e.(pending := Some('y')), 'y') == Some(Edited(e.(register := line), false))
            && Changed(e, Step(e.(pending := Some('c')), 'c'), e.text[..start] + e.text[end..], start, line, true)
  {
    hide LineStart, LineEnd;
  }

  /** yy then p puts the line once more, below itself, and the cursor on the copy. */
  lemma {:induction false} CopyLineBelow(e: Editor)
    requires Ready(e)
    ensures var start, end := LineStart(e.text, e.cursor), LineEnd(e.text, e.cursor);
            var r := Plain(e.(register := e.text[start..end] + "\n"), 'p').after;
            && r.text == e.text[..end] + "\n" + e.text[start..end] + e.text[end..] && r.cursor == end + 1
  {
    hide LineStart, LineEnd;
    var start, end := LineStart(e.text, e.cursor), LineEnd(e.text, e.cursor);
    var reg := e.text[start..end] + "\n";
    assert reg[..|reg| - 1] == e.text[start..end];
    assert e.text[..end] + ("\n" + e.text[start..end]) + e.text[end..] ==
      e.text[..end] + "\n" + e.text[start..end] + e.text[end..];
  }

  /** dd takes the line with the newline behind it and goes to the start of the next; of the last line it takes
      the newline before it and goes to the start of the line above. It stays in normal mode. */
  lemma {:induction false} DeleteLineKey(e: Editor)
    requires Ready(e)
    ensures var start, end := LineStart(e.text, e.cursor), LineEnd(e.text, e.cursor);
            var r, line := Step(e.(pending := Some('d')), 'd'), e.text[start..end] + "\n";
            if end < |e.text| then Changed(e, r, e.text[..start] + e.text[end + 1..], start, line, false)
            else if start > 0 then Changed(e, r, e.text[..start - 1], LineStart(e.text, start - 1), line, false)
            else Changed(e, r, "", 0, line, false)
  {
    hide LineStart, LineEnd, Step, WholeLine, Push;
    var start, end := LineStart(e.text, e.cursor), LineEnd(e.text, e.cursor);
    DeleteLineIsWholeLine(e);
    WholeLineIs(e);
    if end < |e.text| {
      NextLineStart(e.text, start, end);
    } else if start > 0 {
      LineAbove(e.text, start);
    } else {
      assert Cut(e.text, 0, |e.text|) == "";
    }
  }

  lemma DeleteLineIsWholeLine(e: Editor)
    requires Ready(e)
    ensures Step(e.(pending := Some('d')), 'd') == Some(WholeLine(e, 'd'))
  {
    hide WholeLine, Operate;
  }

  lemma {:induction false} WholeLineIs(e: Editor)
    requires Ready(e)
    ensures var start, end := LineStart(e.text, e.cursor), LineEnd(e.text, e.cursor);
            var last := end == |e.text|;
            var from := if last && start > 0 then start - 1 else start;
            var out := Cut(e.text, from, if last then end else end + 1);
            from <= |out| && Changed(e, Some(WholeLine(e, 'd')), out, LineStart(out, from), e.text[start..end] + "\n",
                                     false)
  {
    hide LineStart, LineEnd, Push;
  }

  lemma {:induction false} NextLineStart(text: string, start: nat, end: nat)
    requires start <= end < |text| && (start == 0 || text[start - 1] == '\n')
    ensures var out := Cut(text, start, end + 1); start <= |out| && LineStart(out, start) == start
  {
    hide LineStart;
    LineStartIs(Cut(text, start, end + 1), start, start);
  }

  lemma {:induction false} LineAbove(text: string, start: nat)
    requires 0 < start <= |text|
    ensures Cut(text, start - 1, |text|) == text[..start - 1]
    ensures LineStart(text[..start - 1], start - 1) == LineStart(text, start - 1)
  {
    hide LineStart;
    LineStartIs(text[..start - 1], start - 1, LineStart(text, start - 1));
  }

  /** P puts the register before the cursor and p after the character it is on, the cursor then on the last
      character put; a register that ends in a newline goes in as a line of its own, above the cursor's line or
      below it, the cursor at its start. An empty one does nothing. */
  lemma {:induction false} PutKeys(e: Editor)
    requires Ready(e)
    ensures var reg, c, start, end := e.register, e.cursor, LineStart(e.text, e.cursor), LineEnd(e.text, e.cursor);
            if reg == "" then Step(e, 'p') == Some(Edited(e, false)) && Step(e, 'P') == Some(Edited(e, false))
            else if reg[|reg| - 1] == '\n' then
              && Changed(e, Step(e, 'P'), e.text[..start] + reg + e.text[start..], start, reg, false)
              && Changed(e, Step(e, 'p'), e.text[..end] + ("\n" + reg[..|reg| - 1]) + e.text[end..], end + 1, reg,
                         false)
            else
              var after := if c < end then c + 1 else c;
              && Changed(e, Step(e, 'P'), e.text[..c] + reg + e.text[c..], c + |reg| - 1, reg, false)
              && Changed(e, Step(e, 'p'), e.text[..after] + reg + e.text[after..], after + |reg| - 1, reg, false)
  {
    hide LineStart, LineEnd, Put, Push, Step, Changed;
    PutIsPut(e, 'p');
    PutIsPut(e, 'P');
    PutIs(e, 'p');
    PutIs(e, 'P');
  }

  lemma PutIsPut(e: Editor, key: char)
    requires Ready(e) && (key == 'p' || key == 'P')
    ensures Step(e, key) == Some(Put(e, key))
  {
    hide Put;
  }

  lemma {:induction false} PutIs(e: Editor, key: char)
    requires Ready(e) && (key == 'p' || key == 'P')
    ensures var reg, c, start, end := e.register, e.cursor, LineStart(e.text, e.cursor), LineEnd(e.text, e.cursor);
            var r := Some(Put(e, key));
            if reg == "" then r == Some(Edited(e, false))
            else if reg[|reg| - 1] == '\n' then
              if key == 'P' then Changed(e, r, e.text[..start] + reg + e.text[start..], start, reg, false)
              else Changed(e, r, e.text[..end] + ("\n" + reg[..|reg| - 1]) + e.text[end..], end + 1, reg, false)
            else
              var after := if key == 'p' && c < end then c + 1 else c;
              Changed(e, r, e.text[..after] + reg + e.text[after..], after + |reg| - 1, reg, false)
  {
    hide LineStart, LineEnd, Push;
    assert LineEnd(e.text, e.cursor) > e.cursor <==> e.cursor < |e.text| && e.text[e.cursor] != '\n';
  }

  // ---- going back to typing ----

  /** i types where the cursor is, a one further on the line, I before the line's first character that is no
      blank, A at the line's end; none changes the text. */
  lemma {:induction false} TypingKeys(e: Editor)
    requires Ready(e)
    ensures var end := LineEnd(e.text, e.cursor);
            && Step(e, 'i') == Some(Edited(e, true))
            && Step(e, 'a') == Some(Edited(e.(cursor := if e.cursor < end then e.cursor + 1 else e.cursor), true))
            && Step(e, 'I') == Some(Edited(e.(cursor := Goes(e, '^')), true))
            && Step(e, 'A') == Some(Edited(e.(cursor := end), true))
  {
    hide LineStart, LineEnd, FirstNonBlank, Goes, OnlyMoves;
    MotionMoves(e, '^');
  }

  /** o and O type on an empty line of their own: o below the cursor's line, O above it; the rest stays. */
  lemma {:induction false} NewLineKeys(e: Editor)
    requires Ready(e)
    ensures var start, end := LineStart(e.text, e.cursor), LineEnd(e.text, e.cursor);
            var below, above := e.text[..end] + "\n" + e.text[end..], e.text[..start] + "\n" + e.text[start..];
            && Changed(e, Step(e, 'o'), below, end + 1, e.register, true)
            && LineStart(below, end + 1) == end + 1 == LineEnd(below, end + 1) && LineEnd(below, start) == end
            && Changed(e, Step(e, 'O'), above, start, e.register, true)
            && LineStart(above, start) == start == LineEnd(above, start)
  {
    hide LineStart, LineEnd, Step, Changed;
    var end := LineEnd(e.text, e.cursor);
    EmptyLineAt(e.text, end, e.text[..end] + "\n" + e.text[end..]);
    LinesAround(e.text, e.cursor);
    OpenBelow(e);
    OpenAbove(e);
  }

  lemma {:induction false} OpenBelow(e: Editor)
    requires Ready(e)
    ensures var end := LineEnd(e.text, e.cursor);
            Changed(e, Step(e, 'o'), e.text[..end] + "\n" + e.text[end..], end + 1, e.register, true)
  {
    hide LineStart, LineEnd, DeleteHere, DeleteBefore, DeleteRest, Put, Undo, Motion, FirstNonBlank;
  }

  lemma {:induction false} OpenAbove(e: Editor)
    requires Ready(e)
    ensures var start := LineStart(e.text, e.cursor);
            Changed(e, Step(e, 'O'), e.text[..start] + "\n" + e.text[start..], start, e.register, true)
  {
    hide LineStart, LineEnd, DeleteHere, DeleteBefore, DeleteRest, Put, Undo, Motion, FirstNonBlank;
  }

  lemma {:induction false} LinesAround(text: string, c: nat)
    requires c <= |text|
    ensures var start, end := LineStart(text, c), LineEnd(text, c);
            var below, above := text[..end] + "\n" + text[end..], text[..start] + "\n" + text[start..];
            LineEnd(below, start) == end && LineStart(above, start) == start == LineEnd(above, start)
  {
    hide LineStart, LineEnd;
    var start, end := LineStart(text, c), LineEnd(text, c);
    var below, above := text[..end] + "\n" + text[end..], text[..start] + "\n" + text[start..];
    assert forall i :: 0 <= i < end ==> below[i] == text[i];
    assert forall i :: 0 <= i < start ==> above[i] == text[i];
    LineStartIs(above, start, start);
    LineEndIs(above, start, start);
    LineEndIs(below, start, end);
  }

  lemma {:induction false} EmptyLineAt(text: string, end: nat, below: string)
    requires end <= |text| && (end == |text| || text[end] == '\n') && below == text[..end] + "\n" + text[end..]
    ensures LineStart(below, end + 1) == end + 1 == LineEnd(below, end + 1)
  {
    hide LineStart, LineEnd;
    assert below[end] == '\n';
    if end < |text| {
      assert below[end + 1] == text[end];
    }
    LineStartIs(below, end + 1, end + 1);
    LineEndIs(below, end + 1, end + 1);
  }

  // ---- single characters ----

  /** x takes the character under the cursor, but never a newline, and steps back when it was the line's last of
      several; X takes the one before the cursor on the line. */
  lemma {:induction false} CharacterKeys(e: Editor)
    requires Ready(e)
    ensures var start, end, c := LineStart(e.text, e.cursor), LineEnd(e.text, e.cursor), e.cursor;
            && (c == end ==> Step(e, 'x') == Some(Edited(e, false)))
            && (c < end ==> Changed(e, Step(e, 'x'), e.text[..c] + e.text[c + 1..],
                                    if c + 1 == end && c > start then c - 1 else c, [e.text[c]], false))
            && (c == start ==> Step(e, 'X') == Some(Edited(e, false)))
            && (c > start ==> Changed(e, Step(e, 'X'), e.text[..c - 1] + e.text[c..], c - 1, e.register, false))
  {
    hide LineStart, LineEnd;
    var start, end, c := LineStart(e.text, e.cursor), LineEnd(e.text, e.cursor), e.cursor;
    if c < end {
      OneGone(e.text, start, end, c);
    }
  }

  lemma {:induction false} OneGone(text: string, start: nat, end: nat, c: nat)
    requires c < |text| && LineStart(text, c) == start && LineEnd(text, c) == end && c < end
    ensures var out := Cut(text, c, c + 1);
            |out| == |text| - 1 && LineStart(out, c) == start && LineEnd(out, c) == end - 1
  {
    hide LineStart, LineEnd;
    var out := Cut(text, c, c + 1);
    assert forall i :: 0 <= i < c ==> out[i] == text[i];
    assert forall i :: c <= i < |out| ==> out[i] == text[i + 1];
    LineStartIs(out, c, start);
    LineEndIs(out, c, end - 1);
  }

  /** x then P, or at the end of a line x then p, gives the text back. */
  lemma {:induction false} TakeThenPut(e: Editor)
    requires Ready(e) && e.cursor < LineEnd(e.text, e.cursor)
    ensures var last := e.cursor + 1 == LineEnd(e.text, e.cursor) && e.cursor > LineStart(e.text, e.cursor);
            Plain(Step(e, 'x').value.after, if last then 'p' else 'P').after.text == e.text
  {
    hide LineStart, LineEnd, Step, Plain, Insert;
    var last := e.cursor + 1 == LineEnd(e.text, e.cursor) && e.cursor > LineStart(e.text, e.cursor);
    CharacterKeys(e);
    PutText(Step(e, 'x').value.after, if last then 'p' else 'P');
    OneBack(e.text, e.cursor);
  }

  lemma {:induction false} OneBack(text: string, c: nat)
    requires c < |text|
    ensures var out := text[..c] + text[c + 1..];
            && Insert(out, c, [text[c]]) == text
            && (c > 0 ==> out[c - 1] == text[c - 1])
  {
    var out := text[..c] + text[c + 1..];
    assert out[..c] == text[..c] && out[c..] == text[c + 1..];
    assert text == text[..c] + [text[c]] + text[c + 1..];
  }

  // ---- the rest of a line ----

  /** D cuts to the end of the line and keeps it; C goes on typing there. */
  lemma {:induction false} RestKeys(e: Editor)
    requires Ready(e)
    ensures var end, c := LineEnd(e.text, e.cursor), e.cursor;
            && Changed(e, Step(e, 'D'), e.text[..c] + e.text[end..], c, e.text[c..end], false)
            && Changed(e, Step(e, 'C'), e.text[..c] + e.text[end..], c, e.text[c..end], true)
  {
    hide LineEnd;
  }

  /** Any other key does nothing. */
  lemma {:induction false} OtherKeys(e: Editor, key: char)
    requires Ready(e) && !IsMotion(key) && key !in "iaIAoOxXDCdcygpPu"
    ensures Step(e, key) == Some(Edited(e, false))
  {
    hide LineStart, LineEnd, WordEnd, Past, Back, FirstNonBlank;
  }
}
