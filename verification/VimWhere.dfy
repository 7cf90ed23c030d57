/** Where each motion key takes the cursor, said of lines, columns and words. */
module VimWhere {
  import opened Text
  import opened Vim
  import opened VimMotion
  import opened VimRuns

  /** The cursor after a key. */
  function Goes(e: Editor, key: char): int { if Step(e, key).Some? then Step(e, key).value.after.cursor else e.cursor }

  /** The key moves the cursor within the text and does nothing else. */
  predicate OnlyMoves(e: Editor, key: char) {
    && 0 <= Goes(e, key) <= |e.text| && Step(e, key) == Some(Edited(e.(cursor := Goes(e, key)), false))
  }

  predicate IsMotion(key: char) { key in "hl0^$wbejkG" }

  lemma {:induction false} MotionMoves(e: Editor, key: char)
    requires Valid(e) && e.pending == None && IsMotion(key)
    ensures Motion(e.text, e.cursor, key).Some? && OnlyMoves(e, key)
    ensures Goes(e, key) == Motion(e.text, e.cursor, key).value
  {
    hide Motion, Plain;
    MotionKnown(e.text, e.cursor, key);
    MotionIsPlain(e, key);
  }

  lemma {:induction false} MotionKnown(text: string, cursor: nat, key: char)
    requires cursor <= |text| && IsMotion(key)
    ensures Motion(text, cursor, key).Some?
  {
    hide LineStart, LineEnd, WordEnd, Past, Back, FirstNonBlank;
  }

  lemma {:induction false} MotionIsPlain(e: Editor, key: char)
    requires 0 <= e.cursor <= |e.text| && IsMotion(key) && Motion(e.text, e.cursor, key).Some?
    ensures Plain(e, key) == Edited(e.(cursor := Motion(e.text, e.cursor, key).value), false)
  {
    hide Motion, OpenLine, DeleteHere, DeleteBefore, DeleteRest, Put, Undo;
  }

  // ---- along a line ----

  /** h and l go one column left and right and never leave the line: h stops at its first column, l at its last
      character. */
  lemma {:induction false} LeftAndRight(e: Editor)
    requires Valid(e) && e.pending == None
    ensures var start, end := LineStart(e.text, e.cursor), LineEnd(e.text, e.cursor);
            && OnlyMoves(e, 'h') && OnlyMoves(e, 'l')
            && Goes(e, 'h') == (if e.cursor > start then e.cursor - 1 else e.cursor)
            && Goes(e, 'l') == (if e.cursor + 1 < end then e.cursor + 1 else if start < end then end - 1 else start)
            && start <= Goes(e, 'h') <= end && start <= Goes(e, 'l') <= end
  {
    hide LineStart, LineEnd, Goes, OnlyMoves;
    MotionMoves(e, 'h');
    MotionMoves(e, 'l');
  }

  /** And each takes the other back, between two characters of one line. */
  lemma {:induction false} LeftRightUndo(e: Editor)
    requires Valid(e) && e.pending == None
    requires LineStart(e.text, e.cursor) < e.cursor < LineEnd(e.text, e.cursor)
    ensures Goes(e.(cursor := Goes(e, 'h')), 'l') == e.cursor
    ensures e.cursor + 1 < LineEnd(e.text, e.cursor) ==> Goes(e.(cursor := Goes(e, 'l')), 'h') == e.cursor
  {
    hide LineStart, LineEnd, Goes, OnlyMoves;
    LeftAndRight(e);
    var b := e.(cursor := e.cursor - 1);
    SameLine(e.text, e.cursor - 1, e.cursor);
    LeftAndRight(b);
    if e.cursor + 1 < LineEnd(e.text, e.cursor) {
      var c := e.(cursor := e.cursor + 1);
      SameLine(e.text, e.cursor, e.cursor + 1);
      LeftAndRight(c);
    }
  }

  /** Two places with no newline between them are on one line. */
  lemma {:induction false} SameLine(text: string, i: nat, j: nat)
    requires i <= j <= |text| && forall k :: i <= k < j ==> text[k] != '\n'
    ensures LineStart(text, i) == LineStart(text, j) && LineEnd(text, i) == LineEnd(text, j)
  {
    LineStartIs(text, j, LineStart(text, i));
    LineEndIs(text, i, LineEnd(text, j));
  }

  lemma {:induction false} LineStartIs(text: string, at: nat, r: nat)
    requires r <= at <= |text| && (r == 0 || text[r - 1] == '\n') && forall k :: r <= k < at ==> text[k] != '\n'
    ensures LineStart(text, at) == r
  {
    hide LineStart;
  }

  lemma {:induction false} LineEndIs(text: string, at: nat, r: nat)
    requires at <= r <= |text| && (r == |text| || text[r] == '\n') && forall k :: at <= k < r ==> text[k] != '\n'
    ensures LineEnd(text, at) == r
  {
    hide LineEnd;
  }

  /** 0, ^ and $ reach the first column, the first character that is no blank, and the last character. */
  lemma {:induction false} LineEnds(e: Editor)
    requires Valid(e) && e.pending == None
    ensures var start, end := LineStart(e.text, e.cursor), LineEnd(e.text, e.cursor);
            && OnlyMoves(e, '0') && OnlyMoves(e, '^') && OnlyMoves(e, '$')
            && Goes(e, '0') == start
            && Goes(e, '$') == (if start < end then end - 1 else start)
            && start <= Goes(e, '^') <= end
            && (forall i :: start <= i < Goes(e, '^') ==> e.text[i] == ' ' || e.text[i] == '\t')
            && (Goes(e, '^') < end ==> e.text[Goes(e, '^')] != ' ' && e.text[Goes(e, '^')] != '\t')
  {
    hide LineStart, LineEnd, Goes, OnlyMoves, Past;
    MotionMoves(e, '0');
    MotionMoves(e, '^');
    MotionMoves(e, '$');
  }

  // ---- words ----

  predicate WordStart(text: string, i: int) {
    0 <= i < |text| && !IsSpace(text[i]) && (i == 0 || IsSpace(text[i - 1]))
  }

  predicate WordLast(text: string, i: int) {
    0 <= i < |text| && !IsSpace(text[i]) && (i + 1 == |text| || IsSpace(text[i + 1]))
  }

  /** w reaches the start of the next word, the end of the text when there is none. */
  lemma {:induction false} NextWordStarts(e: Editor)
    requires Valid(e) && e.pending == None
    ensures OnlyMoves(e, 'w') && e.cursor <= Goes(e, 'w')
    ensures if Goes(e, 'w') < |e.text| then e.cursor < Goes(e, 'w')
              && WordStart(e.text, Goes(e, 'w')) else Goes(e, 'w') == |e.text|
    ensures forall i :: e.cursor < i < Goes(e, 'w') ==> !WordStart(e.text, i)
  {
    hide LineStart, LineEnd, Goes, OnlyMoves, Past, IsSpace;
    MotionMoves(e, 'w');
    var p := Past(e.text, e.cursor, |e.text|, NOT_SPACE);
    var q := Past(e.text, p, |e.text|, SPACE);
    assert Goes(e, 'w') == q;
    forall i | e.cursor < i < q
      ensures !WordStart(e.text, i)
    {
      if i < p {
        assert NOT_SPACE(e.text[i - 1]);
      } else {
        assert SPACE(e.text[i]);
      }
    }
    if p < |e.text| {
      assert !NOT_SPACE(e.text[p]);
    }
    if q < |e.text| {
      assert !SPACE(e.text[q]);
      assert SPACE(e.text[q - 1]);
    }
  }

  /** b reaches the start of this word or, from there, of the one before; the start of the text when no word
      starts earlier. */
  lemma {:induction false} WordStartsBefore(e: Editor)
    requires Valid(e) && e.pending == None
    ensures OnlyMoves(e, 'b') && Goes(e, 'b') <= e.cursor
    ensures forall i :: Goes(e, 'b') < i < e.cursor ==> !WordStart(e.text, i)
    ensures (exists i :: 0 <= i < e.cursor && WordStart(e.text, i)) ==>
            Goes(e, 'b') < e.cursor && WordStart(e.text, Goes(e, 'b'))
    ensures !(exists i :: 0 <= i < e.cursor && WordStart(e.text, i)) ==> Goes(e, 'b') == 0
  {
    hide LineStart, LineEnd, Goes, OnlyMoves, Back, IsSpace;
    MotionMoves(e, 'b');
    BackOverWord(e.text, e.cursor);
  }

  lemma {:induction false} BackOverWord(text: string, cursor: nat)
    requires cursor <= |text|
    ensures var q := Back(text, Back(text, cursor, SPACE), NOT_SPACE);
            && (forall i :: q < i < cursor ==> !WordStart(text, i))
            && (if q < cursor && WordStart(text, q) then true else q == 0 && forall i :: 0 <= i < cursor ==>
                                                                               !WordStart(text, i))
  {
    hide Back, IsSpace;
    var p := Back(text, cursor, SPACE);
    var q := Back(text, p, NOT_SPACE);
    forall i | q < i < cursor
      ensures !WordStart(text, i)
    {
      if i < p {
        assert NOT_SPACE(text[i - 1]);
      } else {
        assert SPACE(text[i]);
      }
    }
    if p > 0 {
      assert !SPACE(text[p - 1]);
    }
    if q > 0 {
      assert !NOT_SPACE(text[q - 1]);
    }
    if q < p {
      assert NOT_SPACE(text[q]);
    } else {
      assert q == 0;
      forall i | 0 <= i < cursor
        ensures !WordStart(text, i)
      {
        assert SPACE(text[i]);
      }
    }
  }

  /** e reaches the last character of this word or, from there, of the next; the last character of the text when
      no word ends later. */
  lemma {:induction false} WordEndsAfter(e: Editor)
    requires Valid(e) && e.pending == None
    ensures OnlyMoves(e, 'e')
    ensures forall i :: e.cursor < i < Goes(e, 'e') ==> !WordLast(e.text, i)
    ensures (exists i :: e.cursor < i && WordLast(e.text, i)) ==>
            e.cursor < Goes(e, 'e') && WordLast(e.text, Goes(e, 'e'))
    ensures !(exists i :: e.cursor < i && WordLast(e.text, i)) ==>
            Goes(e, 'e') == (if e.text == "" then 0 else |e.text| - 1)
  {
    hide LineStart, LineEnd, Goes, OnlyMoves, WordEnd, WordLast, IsSpace;
    MotionMoves(e, 'e');
    EndOfWord(e.text, e.cursor);
  }

  lemma {:induction false} EndOfWord(text: string, cursor: nat)
    requires cursor <= |text|
    ensures var c := WordEnd(text, cursor);
            && (forall i :: cursor < i < c ==> !WordLast(text, i))
            && (if cursor < c && WordLast(text, c) then true
                else c == (if text == "" then 0 else |text| - 1) && forall i :: cursor < i ==> !WordLast(text, i))
  {
    hide Past, LastOf, IsSpace;
    var p := Past(text, cursor + 1, |text|, SPACE);
    forall i | cursor < i < p
      ensures !WordLast(text, i)
    {
      if i < |text| {
        assert SPACE(text[i]);
      }
    }
    if p < |text| {
      assert !SPACE(text[p]);
      RunToLast(text, p);
    }
  }

  lemma {:induction false} RunToLast(text: string, i: nat)
    requires i < |text| && !IsSpace(text[i])
    ensures var r := LastOf(text, i); r < |text| && WordLast(text, r) && forall k :: i <= k < r ==> !WordLast(text, k)
    decreases |text| - i
  {
    hide IsSpace;
    if i + 1 < |text| && !IsSpace(text[i + 1]) {
      RunToLast(text, i + 1);
    }
  }

  // ---- from line to line ----

  function Column(text: string, cursor: nat): nat
    requires cursor <= |text|
  {
    cursor - LineStart(text, cursor)
  }

  /** k goes up one line, to the same column or, when that line is shorter, to its end; on the first line it
      stays. */
  lemma {:induction false} UpOneLine(e: Editor)
    requires Valid(e) && e.pending == None
    ensures OnlyMoves(e, 'k')
    ensures var start, to := LineStart(e.text, e.cursor), Goes(e, 'k');
            if start == 0 then to == e.cursor
            else
              && LineEnd(e.text, to) == start - 1
              && Column(e.text, to) <= Column(e.text, e.cursor)
              && (Column(e.text, to) < Column(e.text, e.cursor) ==> to == LineEnd(e.text, to))
  {
    hide LineStart, LineEnd, Goes, OnlyMoves;
    MotionMoves(e, 'k');
    var start := LineStart(e.text, e.cursor);
    if start > 0 {
      var p, to := LineStart(e.text, start - 1), Goes(e, 'k');
      LineStartIs(e.text, to, p);
      LineEndIs(e.text, to, start - 1);
    }
  }

  /** j goes down one line in the same way; on the last line it stays. */
  lemma {:induction false} DownOneLine(e: Editor)
    requires Valid(e) && e.pending == None
    ensures OnlyMoves(e, 'j')
    ensures var end, to := LineEnd(e.text, e.cursor), Goes(e, 'j');
            if end == |e.text| then to == e.cursor
            else
              && LineStart(e.text, to) == end + 1
              && Column(e.text, to) <= Column(e.text, e.cursor)
              && (Column(e.text, to) < Column(e.text, e.cursor) ==> to == LineEnd(e.text, to))
  {
    hide LineStart, LineEnd, Goes, OnlyMoves;
    MotionMoves(e, 'j');
    var end := LineEnd(e.text, e.cursor);
    if end < |e.text| {
      var q, to := LineEnd(e.text, end + 1), Goes(e, 'j');
      LineStartIs(e.text, to, end + 1);
      LineEndIs(e.text, to, q);
    }
  }

  /** Down and up again is where it began, when the line below is long enough. */
  lemma {:induction false} DownThenUp(e: Editor)
    requires Valid(e) && e.pending == None && LineEnd(e.text, e.cursor) < |e.text|
    requires Column(e.text, Goes(e, 'j')) == Column(e.text, e.cursor)
    ensures Goes(e.(cursor := Goes(e, 'j')), 'k') == e.cursor
  {
    hide LineStart, LineEnd, Goes, OnlyMoves, Step;
    DownOneLine(e);
    MovedWithin(e, 'j');
    var d := e.(cursor := Goes(e, 'j'));
    UpOneLine(d);
    MovedWithin(d, 'k');
    var end, to := LineEnd(e.text, e.cursor), Goes(d, 'k');
    LineStartUpTo(e.text, e.cursor, to, end);
  }

  lemma {:induction false} MovedWithin(e: Editor, key: char)
    requires OnlyMoves(e, key)
    ensures 0 <= Goes(e, key) <= |e.text|
  {
  }

  /** Two places whose line ends at the same place are on one line. */
  lemma {:induction false} LineStartUpTo(text: string, i: nat, j: nat, end: nat)
    requires i <= |text| && j <= |text| && LineEnd(text, i) == end && LineEnd(text, j) == end
    ensures LineStart(text, i) == LineStart(text, j)
  {
    hide LineStart, LineEnd;
    if i <= j {
      SameLine(text, i, j);
    } else {
      SameLine(text, j, i);
    }
  }

  /** G lands on the start of the last line, gg at the start of the text. */
  lemma {:induction false} FirstAndLast(e: Editor)
    requires Valid(e) && e.pending == None
    ensures OnlyMoves(e, 'G') && (Goes(e, 'G') == 0 || e.text[Goes(e, 'G') - 1] == '\n')
    ensures forall i :: Goes(e, 'G') <= i < |e.text| ==> e.text[i] != '\n'
    ensures Run(e, "gg") == Some(e.(cursor := 0))
  {
    hide LineStart, LineEnd, Goes, OnlyMoves;
    MotionMoves(e, 'G');
    TwoGs(e);
  }

  lemma {:induction false} TwoGs(e: Editor)
    requires Valid(e) && e.pending == None
    ensures Run(e, "gg") == Some(e.(cursor := 0))
  {
    hide Motion;
    assert "gg"[1..] == "g" && "g"[1..] == "";
    var g := e.(pending := Some('g'));
    assert Step(e, 'g') == Some(Edited(g, false));
    assert Step(g, 'g') == Some(Edited(e.(cursor := 0), false));
    assert Run(g, "g") == Run(e.(cursor := 0), "");
  }
}
