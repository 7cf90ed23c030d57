/** Lines and motions of the input's vim keys: where each motion takes the cursor, as loops over the
    text and as what they find. */
module VimMotion {
  import opened Text

  function Clamp(text: string, cursor: int): (c: nat)
    ensures c <= |text|
    ensures 0 <= cursor <= |text| ==> c == cursor
  {
    Max(0, Min(cursor, |text|))
  }

  /** The start of the line the cursor is on. */
  function LineStart(text: string, cursor: nat): (r: nat)
    requires cursor <= |text|
    ensures r <= cursor
    ensures r == 0 || text[r - 1] == '\n'
    ensures forall i :: r <= i < cursor ==> text[i] != '\n'
  {
    if cursor == 0 || text[cursor - 1] == '\n' then cursor else LineStart(text, cursor - 1)
  }

  method FindLineStart(text: string, cursor: nat) returns (r: nat)
    ensures r == LineStart(text, Min(cursor, |text|))
  {
    var i := Min(cursor, |text|) - 1;
    while i >= 0
      invariant -1 <= i < |text|
      invariant LineStart(text, i + 1) == LineStart(text, Min(cursor, |text|))
    {
      if text[i] == '\n' {
        return i + 1;
      }
      i := i - 1;
    }
    return 0;
  }

  method FindLineEnd(text: string, cursor: nat) returns (r: nat)
    requires cursor <= |text|
    ensures r == LineEnd(text, cursor)
  {
    var i := cursor;
    while i < |text|
      invariant cursor <= i <= |text|
      invariant LineEnd(text, i) == LineEnd(text, cursor)
    {
      if text[i] == '\n' {
        return i;
      }
      i := i + 1;
    }
    return |text|;
  }

  /** The first place from i on, up to end, where p does not hold. */
  function Past(text: string, i: nat, end: nat, p: char -> bool): (r: nat)
    requires end <= |text|
    ensures i <= r && (i <= end ==> r <= end)
    ensures forall k :: i <= k < r ==> k < end && p(text[k])
    ensures r < end ==> !p(text[r])
    decreases end - i
  {
    if i < end && p(text[i]) then Past(text, i + 1, end, p) else i
  }

  /** The last place back from i such that p does not hold just before it. */
  function Back(text: string, i: nat, p: char -> bool): (r: nat)
    requires i <= |text|
    ensures r <= i
    ensures forall k :: r <= k < i ==> p(text[k])
    ensures r > 0 ==> !p(text[r - 1])
  {
    if i > 0 && p(text[i - 1]) then Back(text, i - 1, p) else i
  }

  const SPACE: char -> bool := c => IsSpace(c)
  const NOT_SPACE: char -> bool := c => !IsSpace(c)
  const BLANK: char -> bool := c => c == ' ' || c == '\t'

  method SkipOver(text: string, at: nat, end: nat, p: char -> bool) returns (i: nat)
    requires end <= |text|
    ensures i == Past(text, at, end, p)
  {
    i := at;
    while i < end && p(text[i])
      invariant at <= i
      invariant Past(text, i, end, p) == Past(text, at, end, p)
    {
      i := i + 1;
    }
  }

  method SkipBack(text: string, at: nat, p: char -> bool) returns (i: nat)
    requires at <= |text|
    ensures i == Back(text, at, p)
  {
    i := at;
    while i > 0 && p(text[i - 1])
      invariant i <= at
      invariant Back(text, i, p) == Back(text, at, p)
    {
      i := i - 1;
    }
  }

  /** The last character of the word the cursor is on, or of the next one. */
  function WordEnd(text: string, cursor: nat): (r: nat)
    ensures text != "" ==> r < |text|
    ensures text == "" ==> r == 0
  {
    var i := Past(text, cursor + 1, |text|, SPACE);
    Min(LastOf(text, i), Max(|text| - 1, 0))
  }

  /** The last of the run of non-spaces that i is on. */
  function LastOf(text: string, i: nat): (r: nat)
    ensures r >= i
    decreases |text| - i
  {
    if i + 1 < |text| && !IsSpace(text[i + 1]) then LastOf(text, i + 1) else i
  }

  method FindWordEnd(text: string, cursor: nat) returns (r: nat)
    ensures r == WordEnd(text, cursor)
  {
    var i := SkipOver(text, cursor + 1, |text|, SPACE);
    ghost var start := i;
    while i + 1 < |text| && !IsSpace(text[i + 1])
      invariant LastOf(text, i) == LastOf(text, start)
    {
      i := i + 1;
    }
    return Min(i, Max(|text| - 1, 0));
  }

  function FirstNonBlank(text: string, cursor: nat): (r: nat)
    requires cursor <= |text|
    ensures LineStart(text, cursor) <= r <= LineEnd(text, cursor)
  {
    Past(text, LineStart(text, cursor), LineEnd(text, cursor), BLANK)
  }

  /** Where a motion key takes the cursor; None for a key that is no motion. */
  function Motion(text: string, cursor: nat, key: char): (to: Option<nat>)
    requires cursor <= |text|
    ensures to.Some? ==> to.value <= |text|
  {
    var start, end := LineStart(text, cursor), LineEnd(text, cursor);
    match key
    case 'h' => Some(Max(cursor - 1, start))
    case 'l' => Some(Min(cursor + 1, Max(end - 1, start)))
    case '0' => Some(start)
    case '^' => Some(FirstNonBlank(text, cursor))
    case '$' => Some(Max(end - 1, start))
    case 'w' => Some(Past(text, Past(text, cursor, |text|, NOT_SPACE), |text|, SPACE))
    case 'b' => Some(Back(text, Back(text, cursor, SPACE), NOT_SPACE))
    case 'e' => Some(WordEnd(text, cursor))
    case 'k' =>
      if start == 0 then Some(cursor)
      else Some(Min(LineStart(text, start - 1) + (cursor - start), start - 1))
    case 'j' =>
      if end >= |text| then Some(cursor)
      else Some(Min(end + 1 + (cursor - start), LineEnd(text, end + 1)))
    case 'G' => Some(LineStart(text, |text|))
    case _ => None
  }

  method FindMotion(text: string, cursor: nat, key: char) returns (to: Option<nat>)
    requires cursor <= |text|
    ensures to == Motion(text, cursor, key)
  {
    hide Past, Back, LineStart, LineEnd, LastOf, IsSpace;
    var start := FindLineStart(text, cursor);
    var end := FindLineEnd(text, cursor);
    match key
    case 'h' => to := Some(Max(cursor - 1, start));
    case 'l' => to := Some(Min(cursor + 1, Max(end - 1, start)));
    case '0' => to := Some(start);
    case '^' =>
      var i := SkipOver(text, start, end, BLANK);
      to := Some(i);
    case '$' => to := Some(Max(end - 1, start));
    case 'w' =>
      var i := SkipOver(text, cursor, |text|, NOT_SPACE);
      i := SkipOver(text, i, |text|, SPACE);
      to := Some(i);
    case 'b' =>
      var i := SkipBack(text, cursor, SPACE);
      i := SkipBack(text, i, NOT_SPACE);
      to := Some(i);
    case 'e' =>
      var i := FindWordEnd(text, cursor);
      to := Some(i);
    case 'k' =>
      if start == 0 {
        return Some(cursor);
      }
      var prev := FindLineStart(text, start - 1);
      to := Some(Min(prev + (cursor - start), start - 1));
    case 'j' =>
      if end >= |text| {
        return Some(cursor);
      }
      var nextEnd := FindLineEnd(text, end + 1);
      to := Some(Min(end + 1 + (cursor - start), nextEnd));
    case 'G' =>
      var last := FindLineStart(text, |text|);
      to := Some(last);
    case _ => to := None;
  }

  // ---- lines of an edited text ----

  /** A line's start is the same in any text that agrees up to it. */
  lemma {:induction false} SameLineStart(x: string, y: string, c: nat)
    requires c <= |x| && c <= |y| && x[..c] == y[..c]
    ensures LineStart(x, c) == LineStart(y, c)
  {
    if c > 0 {
      assert x[c - 1] == x[..c][c - 1] && y[c - 1] == y[..c][c - 1];
      assert x[..c - 1] == x[..c][..c - 1] && y[..c - 1] == y[..c][..c - 1];
      SameLineStart(x, y, c - 1);
    }
  }

  /** From the start of the last line, its end is the end of the text. */
  lemma {:induction false} LastLineEnds(text: string, c: nat)
    requires LineStart(text, |text|) <= c <= |text|
    ensures LineEnd(text, c) == |text|
    decreases |text| - c
  {
    if c < |text| {
      LastLineEnds(text, c + 1);
    }
  }
}
