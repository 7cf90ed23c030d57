/** Cutting a growing reply in two (settledSplit) and setting its two rendered parts one above the other
    (joinRendered). */
module Stream {
  import opened Text

  // ---- lines and fences ----

  predicate Blank(line: string) { forall i :: 0 <= i < |line| ==> IsSpace(line[i]) }

  function LeadingSpaces(line: string): (n: nat)
    ensures n <= |line|
  {
    if line == [] || line[0] != ' ' then 0 else 1 + LeadingSpaces(line[1..])
  }

  /** The code fence being in: none, or the one a marker opened. */
  datatype Fence = Outside | Inside(marker: string)

  predicate IsFence(line: string) {
    var n := LeadingSpaces(line);
    n <= 3 && ("```" <= line[n..] || "~~~" <= line[n..])
  }

  function FenceMarker(line: string): string
    requires IsFence(line)
  {
    line[LeadingSpaces(line)..][..3]
  }

  function AfterLine(fence: Fence, line: string): Fence {
    if !IsFence(line) then fence
    else
      var marker := FenceMarker(line);
      if fence.Outside? then Inside(marker) else if marker == fence.marker then Outside else fence
  }

  // ---- list items ----

  /** A list marker ends at i: a space or a tab follows it, or nothing does. */
  predicate MarkerEndsAt(s: string, i: nat) { i <= |s| && (i == |s| || s[i] == ' ' || s[i] == '\t') }

  /** A text starting with a list item: "- ", "* ", "+ ", "3. ", "3) ". */
  predicate ListItem(s: string) {
    || (s != [] && s[0] in "-*+" && MarkerEndsAt(s, 1))
    || (var n := DigitRun(s, 0); 1 <= n <= 9 && n < |s| && s[n] in ".)" && MarkerEndsAt(s, n + 1))
  }

  /** A text after a blank line that can be rendered apart from what is before it. */
  predicate Apart(rest: string) {
    rest != [] && rest[0] != ' ' && rest[0] != '\t' && rest[0] != '\n' && !ListItem(rest)
  }

  // ---- the split ----

  /** The last place to cut among the lines from pos on, fence being the one pos is in. */
  function SplitFrom(text: string, pos: nat, fence: Fence, split: nat): nat
    requires pos <= |text|
    decreases |text| - pos
  {
    var end := LineEnd(text, pos);
    if end == |text| then split
    else
      var after := AfterLine(fence, text[pos..end]);
      SplitFrom(text, end + 1, after,
        if after.Outside? && Blank(text[pos..end]) && Apart(text[end + 1..]) then end + 1 else split)
  }

  method SettledSplit(text: string) returns (split: nat)
    ensures split == SplitFrom(text, 0, Outside, 0)
  {
    hide LineEnd, IsFence, Blank, Apart, ListItem, LeadingSpaces, DigitRun, MarkerEndsAt;
    var pos := 0;
    var inFence, marker := false, "";
    split := 0;
    while pos < |text|
      invariant pos <= |text|
      invariant SplitFrom(text, 0, Outside, 0) ==
                SplitFrom(text, pos, if inFence then Inside(marker) else Outside, split)
    {
      var end := LineEnd(text, pos);
      if end == |text| {
        break;
      }
      var line, next := text[pos..end], end + 1;
      if IsFence(line) {
        var found := FenceMarker(line);
        if !inFence {
          inFence, marker := true, found;
        } else if found == marker {
          inFence := false;
        }
      }
      if !inFence && Blank(line) && Apart(text[next..]) {
        split := next;
      }
      pos := next;
    }
  }

  // ---- what a split is ----

  /** The fence the line starting at k is in, read from pos on. */
  function FenceAt(text: string, pos: nat, fence: Fence, k: nat): Fence
    requires pos <= |text|
    decreases |text| - pos
  {
    var end := LineEnd(text, pos);
    if k <= pos || end == |text| then fence
    else FenceAt(text, end + 1, AfterLine(fence, text[pos..end]), k)
  }

  /** k is where the line after some blank one starts, read from pos on. */
  predicate AfterBlank(text: string, pos: nat, k: nat)
    requires pos <= |text|
    decreases |text| - pos
  {
    var end := LineEnd(text, pos);
    end < |text| && (if k == end + 1 then Blank(text[pos..end]) else k > end && AfterBlank(text, end + 1, k))
  }

  /** A place to cut: right after a blank line, outside every fence, before text that stands apart. */
  predicate Cut(text: string, pos: nat, fence: Fence, k: nat)
    requires pos <= |text|
  {
    k <= |text| && AfterBlank(text, pos, k) && FenceAt(text, pos, fence, k).Outside? && Apart(text[k..])
  }

  lemma {:induction false} CutHere(text: string, pos: nat, fence: Fence, k: nat)
    requires pos <= |text|
    ensures var end := LineEnd(text, pos);
            end == |text| ==> !Cut(text, pos, fence, k)
    ensures var end := LineEnd(text, pos);
            end < |text| ==>
              (Cut(text, pos, fence, k) <==>
               if k == end + 1 then Blank(text[pos..end]) && AfterLine(fence, text[pos..end]).Outside?
                 && Apart(text[end + 1..])
               else Cut(text, end + 1, AfterLine(fence, text[pos..end]), k))
  {
    hide LineEnd, IsFence, Blank, Apart, AfterLine;
    var end := LineEnd(text, pos);
    if end < |text| {
      assert AfterBlank(text, end + 1, k) ==> k > end + 1;
      assert FenceAt(text, end + 1, AfterLine(fence, text[pos..end]), end + 1) == AfterLine(fence, text[pos..end]);
    }
  }

  lemma {:induction false} LastCut(text: string, pos: nat, fence: Fence, split: nat, k: nat)
    requires split <= pos <= |text|
    ensures var s := SplitFrom(text, pos, fence, split);
            && (s == split || (s > pos && Cut(text, pos, fence, s)))
            && (Cut(text, pos, fence, k) ==> k <= s)
    decreases |text| - pos
  {
    hide LineEnd, Cut, IsFence, Blank, Apart, AfterLine;
    var end := LineEnd(text, pos);
    CutHere(text, pos, fence, k);
    if end < |text| {
      var after := AfterLine(fence, text[pos..end]);
      var next := if after.Outside? && Blank(text[pos..end]) && Apart(text[end + 1..]) then end + 1 else split;
      LastCut(text, end + 1, after, next, k);
      CutHere(text, pos, fence, SplitFrom(text, end + 1, after, next));
    }
  }

  /** The split is the last place to cut; 0 when there is none. */
  lemma {:induction false} SplitIsLastCut(text: string)
    ensures var s := SplitFrom(text, 0, Outside, 0);
            && (s > 0 ==> Cut(text, 0, Outside, s))
            && forall k: nat :: Cut(text, 0, Outside, k) ==> k <= s
  {
    hide Cut, SplitFrom;
    LastCut(text, 0, Outside, 0, 0);
    forall k: nat
      ensures Cut(text, 0, Outside, k) ==> k <= SplitFrom(text, 0, Outside, 0)
    {
      LastCut(text, 0, Outside, 0, k);
    }
  }

  // ---- the split as the reply grows ----

  lemma {:induction false} LineEndGrows(text: string, more: string, pos: nat)
    requires pos <= |text| && LineEnd(text, pos) < |text|
    ensures LineEnd(text + more, pos) == LineEnd(text, pos)
    decreases |text| - pos
  {
    if text[pos] != '\n' {
      LineEndGrows(text, more, pos + 1);
    }
  }

  lemma {:induction false} CutGrows(text: string, more: string, pos: nat, fence: Fence, k: nat)
    requires pos <= |text| && k <= |text|
    requires Cut(text, pos, fence, k) && Apart(text[k..] + more)
    ensures Cut(text + more, pos, fence, k)
    decreases |text| - pos
  {
    hide LineEnd, Cut, Apart, Blank, AfterLine;
    CutHere(text, pos, fence, k);
    CutHere(text + more, pos, fence, k);
    var end := LineEnd(text, pos);
    LineEndGrows(text, more, pos);
    assert (text + more)[pos..end] == text[pos..end];
    if k == end + 1 {
      assert (text + more)[k..] == text[k..] + more;
    } else {
      CutGrows(text, more, end + 1, AfterLine(fence, text[pos..end]), k);
    }
  }

  /** Nothing but one to nine digits: with a point after them they would start a list item. */
  predicate BareNumber(rest: string) { 1 <= |rest| <= 9 && forall i :: 0 <= i < |rest| ==> IsDigit(rest[i]) }

  lemma {:induction false} DigitRunGrows(s: string, more: string, j: nat)
    requires j <= |s|
    ensures DigitRun(s, j) < |s| ==> DigitRun(s + more, j) == DigitRun(s, j)
    ensures DigitRun(s, j) == |s| ==> DigitRun(s + more, j) >= |s|
    decreases |s| - j
  {
    if j < |s| && IsDigit(s[j]) {
      DigitRunGrows(s, more, j + 1);
    }
  }

  lemma ApartGrows(rest: string, more: string)
    requires Apart(rest) && !BareNumber(rest)
    ensures Apart(rest + more)
  {
    DigitRunGrows(rest, more, 0);
  }

  lemma BareNumberBecomesItem(rest: string)
    requires BareNumber(rest)
    ensures !Apart(rest + ".")
  {
    DigitRunGrows(rest, ".", 0);
    var s := rest + ".";
    assert s[|rest|] == '.' && DigitRun(rest, 0) == |rest|;
    assert DigitRun(s, 0) == |rest| && s[|rest|] == '.' && MarkerEndsAt(s, |rest| + 1);
  }

  lemma {:induction false} CutsFollowNewlines(text: string, pos: nat, fence: Fence, k: nat)
    requires pos <= |text| && Cut(text, pos, fence, k)
    ensures pos < k <= |text| && text[k - 1] == '\n'
    decreases |text| - pos
  {
    hide Cut, Blank, Apart, AfterLine;
    CutHere(text, pos, fence, k);
    var end := LineEnd(text, pos);
    if k != end + 1 {
      CutsFollowNewlines(text, end + 1, AfterLine(fence, text[pos..end]), k);
    }
  }

  /** A settled part stays settled: whatever is written next, the split never moves back, exactly when
      what follows it is more than a bare number. */
  lemma {:induction false} SplitNeverMovesBack(text: string)
    ensures var s := SplitFrom(text, 0, Outside, 0);
            s > 0 ==>
              s <= |text| && ((forall more :: SplitFrom(text + more, 0, Outside, 0) >= s) <==> !BareNumber(text[s..]))
  {
    hide SplitFrom, Cut, Apart, BareNumber;
    var s := SplitFrom(text, 0, Outside, 0);
    SplitIsLastCut(text);
    if s > 0 {
      CutsFollowNewlines(text, 0, Outside, s);
      if BareNumber(text[s..]) {
        BareNumberMovesBack(text, s);
      } else {
        forall more
          ensures SplitFrom(text + more, 0, Outside, 0) >= s
        {
          SettledStays(text, more, s);
        }
      }
    }
  }

  lemma {:induction false} SettledStays(text: string, more: string, s: nat)
    requires 0 < s <= |text| && Cut(text, 0, Outside, s) && !BareNumber(text[s..])
    ensures SplitFrom(text + more, 0, Outside, 0) >= s
  {
    hide SplitFrom, AfterBlank, FenceAt, BareNumber;
    assert Apart(text[s..]);
    ApartGrows(text[s..], more);
    CutGrows(text, more, 0, Outside, s);
    SplitIsLastCut(text + more);
  }

  lemma {:induction false} BareNumberMovesBack(text: string, s: nat)
    requires 0 < s <= |text| && BareNumber(text[s..])
    ensures SplitFrom(text + ".", 0, Outside, 0) < s
  {
    hide SplitFrom, AfterBlank, FenceAt, Apart;
    var grown := text + ".";
    var t := SplitFrom(grown, 0, Outside, 0);
    SplitIsLastCut(grown);
    if t > 0 {
      CutsFollowNewlines(grown, 0, Outside, t);
      assert grown[s..] == text[s..] + ".";
      BareNumberBecomesItem(text[s..]);
      forall i | s <= i < |grown|
        ensures grown[i] != '\n'
      {
        assert grown[i] == grown[s..][i - s];
      }
    }
  }

  /** A "1" written on its own may become "1.", a list item: the split moves back to the start. */
  lemma SplitCanMoveBack()
    ensures SplitFrom("a\n\n1", 0, Outside, 0) == 3 && SplitFrom("a\n\n1.", 0, Outside, 0) < 3
  {
    hide SplitFrom, AfterLine, Blank, Apart;
    var text := "a\n\n1";
    assert text[0..1] == "a" && text[2..2] == "" && text[3..] == "1" && text + "." == "a\n\n1.";
    PlainLines();
    LastLine(text);
    SplitOneLine(text, 0, 1, 0);
    SplitOneLine(text, 2, 2, 0);
    BareNumberMovesBack(text, 3);
  }

  lemma PlainLines()
    ensures AfterLine(Outside, "a") == Outside && AfterLine(Outside, "") == Outside
    ensures !Blank("a") && Blank("") && Apart("1")
  {
    assert !IsSpace("a"[0]);
    assert DigitRun("1", 0) == 1;
  }

  lemma {:induction false} LastLine(text: string)
    requires text == "a\n\n1"
    ensures LineEnd(text, 0) == 1 && LineEnd(text, 2) == 2 && SplitFrom(text, 3, Outside, 3) == 3
  {
    assert text[0] == 'a' && text[1] == '\n' && text[2] == '\n' && text[3] == '1';
    assert LineEnd(text, 3) == 4;
  }

  lemma SplitOneLine(text: string, pos: nat, end: nat, split: nat)
    requires pos <= end < |text| && LineEnd(text, pos) == end && AfterLine(Outside, text[pos..end]) == Outside
    ensures SplitFrom(text, pos, Outside, split) ==
            SplitFrom(text, end + 1, Outside,
                      if Blank(text[pos..end]) && Apart(text[end + 1..]) then end + 1 else split)
  {
    hide AfterLine, Blank, Apart;
  }

  // ---- joining the rendered parts ----

  /** The rows of head with the blank ones at its end dropped; blank tells a row that shows nothing. */
  function DropBlankEnd(head: seq<string>, blank: string -> bool): (r: seq<string>)
    ensures r <= head && (r != [] ==> !blank(r[|r| - 1]))
    ensures forall i :: |r| <= i < |head| ==> blank(head[i])
  {
    if head != [] && blank(head[|head| - 1]) then DropBlankEnd(head[..|head| - 1], blank) else head
  }

  function DropBlankStart(tail: seq<string>, blank: string -> bool): (r: seq<string>)
    ensures |r| <= |tail| && r == tail[|tail| - |r|..] && (r != [] ==> !blank(r[0]))
    ensures forall i :: 0 <= i < |tail| - |r| ==> blank(tail[i])
  {
    if tail != [] && blank(tail[0]) then DropBlankStart(tail[1..], blank) else tail
  }

  /** head and tail one blank row apart, as wide as the widest row of head; the other part alone when
      one has nothing to show. */
  ghost predicate Joined(out: seq<string>, head: seq<string>, tail: seq<string>, blank: string -> bool,
                         width: string -> nat) {
    var h, t := DropBlankEnd(head, blank), DropBlankStart(tail, blank);
    if h == [] then out == t
    else if t == [] then out == h
    else
      && |out| == |h| + 1 + |t|
      && out[..|h|] == h && out[|h| + 1..] == t
      && (forall c :: c in out[|h|] ==> c == ' ')
      && (forall i :: 0 <= i < |h| ==> width(h[i]) <= |out[|h|]|)
      && (out[|h|] == [] || exists i :: 0 <= i < |h| && width(h[i]) == |out[|h|]|)
  }

  method WidestRow(rows: seq<string>, width: string -> nat) returns (w: nat)
    ensures forall i :: 0 <= i < |rows| ==> width(rows[i]) <= w
    ensures w == 0 || exists i :: 0 <= i < |rows| && width(rows[i]) == w
  {
    w := 0;
    for i := 0 to |rows|
      invariant forall j :: 0 <= j < i ==> width(rows[j]) <= w
      invariant w == 0 || exists j :: 0 <= j < i && width(rows[j]) == w
    {
      if width(rows[i]) > w {
        w := width(rows[i]);
      }
    }
  }

  method TrimEnd(head: seq<string>, blank: string -> bool) returns (h: seq<string>)
    ensures h == DropBlankEnd(head, blank)
  {
    h := head;
    while |h| > 0 && blank(h[|h| - 1])
      invariant DropBlankEnd(h, blank) == DropBlankEnd(head, blank)
      decreases |h|
    {
      h := h[..|h| - 1];
    }
  }

  method TrimStart(tail: seq<string>, blank: string -> bool) returns (t: seq<string>)
    ensures t == DropBlankStart(tail, blank)
  {
    t := tail;
    while |t| > 0 && blank(t[0])
      invariant DropBlankStart(t, blank) == DropBlankStart(tail, blank)
      decreases |t|
    {
      t := t[1..];
    }
  }

  method JoinRendered(head: seq<string>, tail: seq<string>, blank: string -> bool, width: string -> nat)
    returns (out: seq<string>)
    ensures Joined(out, head, tail, blank, width)
  {
    hide DropBlankEnd, DropBlankStart, Seamed;
    var h := TrimEnd(head, blank);
    var t := TrimStart(tail, blank);
    if h == [] {
      return t;
    }
    if t == [] {
      return h;
    }
    var w := WidestRow(h, width);
    var pad := seq(w, i => ' ');
    out := Seamed(h, pad, t);
  }

  function Seamed(h: seq<string>, pad: string, t: seq<string>): (out: seq<string>)
    ensures |out| == |h| + 1 + |t| && out[..|h|] == h && out[|h|] == pad && out[|h| + 1..] == t
  {
    h + [pad] + t
  }
}
