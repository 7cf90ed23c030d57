/** Numbering the changes of an edit by searching the resulting file for their new text (locateChanges). */
module Locate {
  import opened EditScript
  import opened Hunks
  import opened PatchReader
  import opened Text

  /** Where a change's new text is looked for and found: from where the one before was found to its
      end, else anywhere; None for one that has a line already, or no new text. */
  function Found(c: EditChange, written: string, from: nat): (r: Option<nat>)
    requires from <= |written|
    ensures r.Some? ==> r.value + |c.after| <= |written| && OccursAt(written, c.after, r.value)
  {
    if c.at > 0 || c.after == "" then None
    else
      var later := IndexFrom(written, c.after, from);
      if later.Some? then later else IndexFrom(written, c.after, 0)
  }

  /** How many lines end before a place. */
  function LinesBefore(written: string, k: nat): nat
    requires k <= |written|
  {
    Newlines(written[..k])
  }

  function Numbered(c: EditChange, written: string, k: Option<nat>): EditChange
    requires k.Some? ==> k.value <= |written|
  {
    if k.None? then c else c.(at := 1 + LinesBefore(written, k.value))
  }

  function Past(c: EditChange, from: nat, k: Option<nat>): nat { if k.None? then from else k.value + |c.after| }

  /** The changes from the i-th on, each with its line. */
  function Located(changes: seq<EditChange>, i: nat, written: string, from: nat): (r: seq<EditChange>)
    requires i <= |changes| && from <= |written|
    ensures |r| == |changes| - i
    decreases |changes| - i
  {
    if i == |changes| then []
    else
      var k := Found(changes[i], written, from);
      [Numbered(changes[i], written, k)] + Located(changes, i + 1, written, Past(changes[i], from, k))
  }

  /** One change's line, and where to look for the next. */
  method LocateOne(c: EditChange, written: string, from: nat) returns (d: EditChange, next: nat)
    requires from <= |written|
    ensures d == Numbered(c, written, Found(c, written, from))
    ensures next == Past(c, from, Found(c, written, from)) && next <= |written|
  {
    hide IndexFrom, OccursAt, Newlines;
    d, next := c, from;
    if c.at == 0 && c.after != "" {
      var found := Index(written, c.after, from);
      if found.None? {
        found := Index(written, c.after, 0);
      }
      if found.Some? {
        d, next := c.(at := 1 + LinesBefore(written, found.value)), found.value + |c.after|;
      }
    }
  }

  method LocateChanges(changes: array<EditChange>, written: string)
    modifies changes
    ensures changes[..] == Located(old(changes[..]), 0, written, 0)
  {
    hide Found, Numbered, Past;
    ghost var was := changes[..];
    var from: nat := 0;
    for i := 0 to changes.Length
      invariant from <= |written|
      invariant forall j :: i <= j < changes.Length ==> changes[j] == was[j]
      invariant changes[..i] + Located(was, i, written, from) == Located(was, 0, written, 0)
    {
      ghost var done := changes[..i];
      var c, next := LocateOne(changes[i], written, from);
      LocatedNext(was, i, written, from, done, c, next);
      changes[i], from := c, next;
      assert changes[..i + 1] == done + [c];
    }
    assert changes[..] == changes[..changes.Length] + [];
  }

  lemma LocatedNext(was: seq<EditChange>, i: nat, written: string, from: nat, done: seq<EditChange>, c: EditChange,
                    next: nat)
    requires i < |was| && from <= |written| && next <= |written|
    requires c == Numbered(was[i], written, Found(was[i], written, from))
             && next == Past(was[i], from, Found(was[i], written, from))
    ensures done + Located(was, i, written, from) == (done + [c]) + Located(was, i + 1, written, next)
  {
    hide Found, Numbered, Past;
  }

  // ---- what a located change says ----

  /** Only the line of a change is touched, and only of one that had none and has new text; it is the
      line of a place the new text stands at, and there is one exactly when the text holds it. */
  lemma {:induction false} LocatedLines(changes: seq<EditChange>, i: nat, written: string, from: nat, j: nat)
    requires i <= j < |changes| && from <= |written|
    ensures var c, d := changes[j], Located(changes, i, written, from)[j - i];
            && d.before == c.before && d.after == c.after
            && (c.at > 0 || c.after == "" ==> d.at == c.at)
            && (c.at == 0 && c.after != "" ==>
                  (d.at > 0 <==> IndexFrom(written, c.after, 0).Some?)
                  && (d.at > 0 ==>
                        exists k: nat :: k + |c.after| <= |written| && OccursAt(written, c.after, k)
                                         && d.at == 1 + LinesBefore(written, k)))
    decreases j - i
  {
    hide IndexFrom, OccursAt, Newlines;
    var k := Found(changes[i], written, from);
    if i < j {
      LocatedLines(changes, i + 1, written, Past(changes[i], from, k), j);
    } else if changes[i].at == 0 && changes[i].after != "" {
      FoundIfAnywhere(changes[i], written, from);
    }
  }

  lemma {:induction false} FoundIfAnywhere(c: EditChange, written: string, from: nat)
    requires from <= |written| && c.at == 0 && c.after != ""
    ensures Found(c, written, from).Some? <==> IndexFrom(written, c.after, 0).Some?
  {
    hide OccursAt;
    var later := IndexFrom(written, c.after, from);
    if later.Some? {
      assert OccursAt(written, c.after, later.value);
    }
  }

  // ---- changes of whole lines ----

  /** The new text with its last line closed. */
  function Closed(after: string): (r: string)
    ensures after <= r
    ensures r != [] && r[|r| - 1] == '\n'
  {
    if after != [] && after[|after| - 1] == '\n' then after else after + ['\n']
  }

  /** The file as written from keeps[i] on: unchanged lines with the new text between them. */
  function Written(keeps: seq<seq<Line>>, changes: seq<EditChange>, i: nat): string
    requires |keeps| == |changes| + 1 && i <= |changes|
    decreases |changes| - i
  {
    if i == |changes| then Unlines(keeps[i])
    else Unlines(keeps[i]) + (Closed(changes[i].after) + Written(keeps, changes, i + 1))
  }

  /** The text stands nowhere from one place up to another. */
  predicate NoneBetween(written: string, t: string, from: nat, to: nat) {
    forall k :: from <= k < to ==> !OccursAt(written, t, k)
  }

  /** A line starts at pos, and from there on the text is what is written from keeps[i] on. */
  predicate Reached(keeps: seq<seq<Line>>, changes: seq<EditChange>, i: nat, written: string, pos: nat): (r: bool)
    requires |keeps| == |changes| + 1 && i <= |changes|
    ensures r ==> pos <= |written|
  {
    pos <= |written| && written[pos..] == Written(keeps, changes, i) && (pos > 0 ==> written[pos - 1] == '\n')
  }

  /** No change from the i-th on has its new text anywhere between the end of the one before (from) and
      its own place; keeps[i] is written from pos on. */
  predicate FirstPlaced(keeps: seq<seq<Line>>, changes: seq<EditChange>, i: nat, written: string, from: nat, pos: nat)
    requires |keeps| == |changes| + 1 && i <= |changes|
    decreases |changes| - i
  {
    i < |changes| ==>
      var c, o := changes[i], pos + |Unlines(keeps[i])|;
      && NoneBetween(written, c.after, from, o)
      && FirstPlaced(keeps, changes, i + 1, written, o + |c.after|, o + |Closed(c.after)|)
  }

  lemma {:induction false} NewlinesOfUnlines(lines: seq<Line>)
    requires forall i :: 0 <= i < |lines| ==> '\n' !in lines[i]
    ensures Newlines(Unlines(lines)) == |lines|
  {
    if lines != [] {
      NewlinesConcat(lines[0] + ['\n'], Unlines(lines[1..]));
      NewlinesConcat(lines[0], ['\n']);
      NewlinesNone(lines[0]);
      assert Newlines(['\n']) == 1 + Newlines(['\n'][1..]);
      NewlinesOfUnlines(lines[1..]);
    }
  }

  lemma {:induction false} SplitCounts(s: string)
    ensures |Split(s, '\n')| == Newlines(s) + 1
  {
    if s != [] {
      SplitCounts(s[1..]);
    }
  }

  lemma NewlinesOfClosed(after: string)
    requires after != ""
    ensures Newlines(Closed(after)) == |SplitLines(after)|
  {
    var t := TrimSuffixNewline(after);
    SplitCounts(t);
    NewlinesConcat(t, ['\n']);
    assert Newlines(['\n']) == 1 + Newlines(['\n'][1..]);
    assert Closed(after) == t + ['\n'];
  }

  lemma NewlinesGrow(s: string, v: nat, o: nat)
    requires v < o <= |s| && s[o - 1] == '\n'
    ensures Newlines(s[..v]) < Newlines(s[..o])
  {
    assert s[..o] == s[..v] + s[v..o - 1] + ['\n'];
    NewlinesConcat(s[..v] + s[v..o - 1], ['\n']);
    NewlinesConcat(s[..v], s[v..o - 1]);
    assert Newlines(['\n']) == 1 + Newlines(['\n'][1..]);
  }

  /** A piece of the text written at pos. */
  lemma PieceAt(s: string, pos: nat, piece: string, rest: string)
    requires pos <= |s| && s[pos..] == piece + rest
    ensures pos + |piece| <= |s|
    ensures s[pos + |piece|..] == rest
    ensures s[..pos + |piece|] == s[..pos] + piece
    ensures piece != [] ==> s[pos + |piece| - 1] == piece[|piece| - 1]
  {
    var n := pos + |piece|;
    assert |s[pos..]| == |s| - pos;
    assert s[pos..][|piece|..] == rest && s[pos..][|piece|..] == s[n..];
    assert s[pos..][..|piece|] == piece && s[pos..][..|piece|] == s[pos..n];
    assert s[..n] == s[..pos] + s[pos..n];
  }

  lemma PrefixOccurs(s: string, pos: nat, t: string, piece: string, rest: string)
    requires pos <= |s| && s[pos..] == piece + rest && t <= piece
    ensures OccursAt(s, t, pos)
  {
    assert |s[pos..]| == |s| - pos;
    assert s[pos..][..|t|] == (piece + rest)[..|t|] == piece[..|t|] == t;
    assert s[pos..pos + |t|] == s[pos..][..|t|];
  }

  /** The unchanged lines before a change: where its new text stands, and on which line. */
  lemma {:induction false} UpToChange(keep: seq<Line>, c: EditChange, rest: string, written: string, pos: nat)
    requires forall i :: 0 <= i < |keep| ==> '\n' !in keep[i]
    requires c.after != ""
    requires pos <= |written| && written[pos..] == Unlines(keep) + (Closed(c.after) + rest)
    requires pos > 0 ==> written[pos - 1] == '\n'
    ensures var o := pos + |Unlines(keep)|;
            && o <= |written| && OccursAt(written, c.after, o)
            && LinesBefore(written, o) == LinesBefore(written, pos) + |keep|
            && (o > 0 ==> written[o - 1] == '\n')
            && written[o..] == Closed(c.after) + rest
  {
    hide Closed, OccursAt, Newlines, Unlines;
    PieceAt(written, pos, Unlines(keep), Closed(c.after) + rest);
    PrefixOccurs(written, pos + |Unlines(keep)|, c.after, Closed(c.after), rest);
    NewlinesConcat(written[..pos], Unlines(keep));
    NewlinesOfUnlines(keep);
    if keep != [] {
      var front := UnlinesEnd(keep);
    }
    EmptyUnlines(keep);
  }

  lemma {:induction false} EmptyUnlines(keep: seq<Line>)
    ensures keep == [] ==> Unlines(keep) == []
  {
  }

  lemma PastChange(c: EditChange, rest: string, written: string, o: nat)
    requires c.after != ""
    requires o <= |written| && written[o..] == Closed(c.after) + rest
    ensures var next := o + |Closed(c.after)|;
            && o + |c.after| <= next <= |written|
            && LinesBefore(written, next) == LinesBefore(written, o) + |SplitLines(c.after)|
            && written[next - 1] == '\n'
            && written[next..] == rest
  {
    hide OccursAt, Newlines, SplitLines;
    PieceAt(written, o, Closed(c.after), rest);
    NewlinesConcat(written[..o], Closed(c.after));
    NewlinesOfClosed(c.after);
  }

  /** The change is found at its place, or somewhere on an earlier line. */
  lemma FoundThere(c: EditChange, written: string, from: nat, o: nat)
    requires from <= o && OccursAt(written, c.after, o) && o <= |written|
    requires c.at == 0 && c.after != "" && (o > 0 ==> written[o - 1] == '\n')
    ensures var k := Found(c, written, from);
            && k.Some? && k.value <= o
            && (k.value == o <==> NoneBetween(written, c.after, from, o))
            && (k.value == o <==> LinesBefore(written, k.value) == LinesBefore(written, o))
  {
    hide OccursAt, Newlines;
    var later := IndexFrom(written, c.after, from);
    assert later.Some? && later.value <= o;
    if later.value < o {
      NewlinesGrow(written, later.value, o);
    }
  }

  lemma {:induction false} LocatedPlaced(keeps: seq<seq<Line>>, changes: seq<EditChange>, i: nat, written: string,
                                         from: nat, pos: nat, before: seq<EditChange>)
    requires |keeps| == |changes| + 1 && i <= |changes| && |before| == i
    requires forall n, m :: 0 <= n < |keeps| && 0 <= m < |keeps[n]| ==> '\n' !in keeps[n][m]
    requires forall n :: 0 <= n < |changes| ==> changes[n].at == 0 && changes[n].after != ""
    requires from <= pos && Reached(keeps, changes, i, written, pos)
    ensures Placed(keeps, before + Located(changes, i, written, from), i, LinesBefore(written, pos)) <==>
            FirstPlaced(keeps, changes, i, written, from, pos)
    decreases |changes| - i
  {
    hide Reached, LinesBefore, Newlines, OccursAt, Closed, Unlines, SplitLines, IndexFrom, Found, Placed, FirstPlaced,
         Located, Numbered, Past, Written;
    if i == |changes| {
      LastPlaced(keeps, changes, before + Located(changes, i, written, from), written, from, pos);
    } else {
      var c := changes[i];
      var o := pos + |Unlines(keeps[i])|;
      var k := Found(c, written, from);
      OneWritten(keeps, changes, i, written, from, pos);
      OnePlaced(keeps, changes, i, written, from, pos, before);
      OneFirstPlaced(keeps, changes, i, written, from, pos);
      if k.value == o {
        assert Past(c, from, k) == o + |c.after| by { PastFound(c, from, o); }
        LocatedPlaced(keeps, changes, i + 1, written, o + |c.after|, o + |Closed(c.after)|,
                      before + [Numbered(c, written, k)]);
      }
    }
  }

  /** One change in the text: where it is found, and what is left behind it. */
  lemma OneWritten(keeps: seq<seq<Line>>, changes: seq<EditChange>, i: nat, written: string, from: nat, pos: nat)
    requires |keeps| == |changes| + 1 && i < |changes|
    requires forall m :: 0 <= m < |keeps[i]| ==> '\n' !in keeps[i][m]
    requires changes[i].at == 0 && changes[i].after != ""
    requires from <= pos && Reached(keeps, changes, i, written, pos)
    ensures var c := changes[i];
            var o := pos + |Unlines(keeps[i])|;
            var k, next := Found(c, written, from), o + |Closed(c.after)|;
            && o + |c.after| <= next <= |written|
            && Reached(keeps, changes, i + 1, written, next)
            && LinesBefore(written, o) == LinesBefore(written, pos) + |keeps[i]|
            && LinesBefore(written, next) == LinesBefore(written, o) + |SplitLines(c.after)|
            && k.Some? && k.value <= o
            && (k.value == o <==> NoneBetween(written, c.after, from, o))
            && (k.value == o <==> LinesBefore(written, k.value) == LinesBefore(written, o))
  {
    hide NoneBetween, Newlines, OccursAt, Closed, Unlines, SplitLines, IndexFrom, Found, Written;
    var c := changes[i];
    var o := pos + |Unlines(keeps[i])|;
    var rest := Written(keeps, changes, i + 1);
    WrittenOne(keeps, changes, i);
    UpToChange(keeps[i], c, rest, written, pos);
    PastChange(c, rest, written, o);
    FoundThere(c, written, from, o);
  }

  lemma WrittenOne(keeps: seq<seq<Line>>, changes: seq<EditChange>, i: nat)
    requires |keeps| == |changes| + 1 && i < |changes|
    ensures Written(keeps, changes, i) ==
            Unlines(keeps[i]) + (Closed(changes[i].after) + Written(keeps, changes, i + 1))
  {
    hide Closed, Unlines;
  }

  /** One change is placed when it is found at its place and what follows is placed. */
  lemma {:induction false} OnePlaced(keeps: seq<seq<Line>>, changes: seq<EditChange>, i: nat, written: string,
                                     from: nat, pos: nat,
                  before: seq<EditChange>)
    requires |keeps| == |changes| + 1 && i < |changes| && |before| == i
    requires forall m :: 0 <= m < |keeps[i]| ==> '\n' !in keeps[i][m]
    requires changes[i].at == 0 && changes[i].after != ""
    requires from <= pos && Reached(keeps, changes, i, written, pos)
    ensures var c := changes[i];
            var o := pos + |Unlines(keeps[i])|;
            var k, next := Found(c, written, from), o + |Closed(c.after)|;
            && k.Some? && o + |c.after| <= next <= |written|
            && (Placed(keeps, before + Located(changes, i, written, from), i, LinesBefore(written, pos)) <==>
                k.value == o
                && Placed(keeps,
                          (before + [Numbered(c, written, k)]) + Located(changes, i + 1, written, Past(c, from, k)),
                          i + 1, LinesBefore(written, next)))
  {
    hide Reached, LinesBefore, NoneBetween, Newlines, OccursAt, Closed, Unlines, SplitLines, IndexFrom, Found, Placed,
         Located, Numbered, Written;
    var c := changes[i];
    var o := pos + |Unlines(keeps[i])|;
    OneWritten(keeps, changes, i, written, from, pos);
    LocatedOne(changes, i, written, from, before);
    var tail := Located(changes, i + 1, written, Past(c, from, Found(c, written, from)));
    PlacedThere(keeps, c, before, tail, i, written, pos, Found(c, written, from), o, o + |Closed(c.after)|);
  }

  /** One change is found first at its place when nothing stands before, and then what follows decides. */
  lemma OneFirstPlaced(keeps: seq<seq<Line>>, changes: seq<EditChange>, i: nat, written: string, from: nat, pos: nat)
    requires |keeps| == |changes| + 1 && i < |changes|
    requires forall m :: 0 <= m < |keeps[i]| ==> '\n' !in keeps[i][m]
    requires changes[i].at == 0 && changes[i].after != ""
    requires from <= pos && Reached(keeps, changes, i, written, pos)
    ensures var c := changes[i];
            var o := pos + |Unlines(keeps[i])|;
            var k := Found(c, written, from);
            && k.Some?
            && (FirstPlaced(keeps, changes, i, written, from, pos) <==>
                k.value == o && FirstPlaced(keeps, changes, i + 1, written, o + |c.after|, o + |Closed(c.after)|))
  {
    hide Reached, LinesBefore, NoneBetween, Newlines, OccursAt, Closed, Unlines, SplitLines, IndexFrom, Found,
         FirstPlaced, Written;
    OneWritten(keeps, changes, i, written, from, pos);
    FirstPlacedOne(keeps, changes, i, written, from, pos);
  }

  /** A change found at k is placed exactly when k is on the line of its own place. */
  lemma {:induction false} PlacedThere(keeps: seq<seq<Line>>, c: EditChange, before: seq<EditChange>,
                                       tail: seq<EditChange>, i: nat,
                    written: string, pos: nat,
                    k: Option<nat>, o: nat, next: nat)
    requires |before| == i && |keeps| == i + 1 + |tail| + 1
    requires c.at == 0 && c.after != ""
    requires k.Some? && k.value <= o <= next <= |written| && pos <= |written|
    requires k.value == o <==> LinesBefore(written, k.value) == LinesBefore(written, o)
    requires LinesBefore(written, o) == LinesBefore(written, pos) + |keeps[i]|
    requires LinesBefore(written, next) == LinesBefore(written, o) + |SplitLines(c.after)|
    ensures var all := (before + [Numbered(c, written, k)]) + tail;
            Placed(keeps, all, i, LinesBefore(written, pos)) <==>
            k.value == o && Placed(keeps, all, i + 1, LinesBefore(written, next))
  {
    hide LinesBefore, Newlines, SplitLines, Placed;
    var all := (before + [Numbered(c, written, k)]) + tail;
    assert all[i] == Numbered(c, written, k);
    PlacedOne(keeps, all, i, LinesBefore(written, pos));
  }

  lemma PastFound(c: EditChange, from: nat, o: nat)
    ensures Past(c, from, Some(o)) == o + |c.after|
  {
  }

  lemma {:induction false} LastPlaced(keeps: seq<seq<Line>>, changes: seq<EditChange>, located: seq<EditChange>,
                                      written: string,
                   from: nat, pos: nat)
    requires |keeps| == |changes| + 1 && |located| == |changes| && pos <= |written|
    ensures Placed(keeps, located, |changes|, LinesBefore(written, pos))
    ensures FirstPlaced(keeps, changes, |changes|, written, from, pos)
  {
  }

  lemma LocatedOne(changes: seq<EditChange>, i: nat, written: string, from: nat, before: seq<EditChange>)
    requires i < |changes| && from <= |written| && |before| == i
    ensures var k := Found(changes[i], written, from);
            before + Located(changes, i, written, from) ==
            (before + [Numbered(changes[i], written, k)]) + Located(changes, i + 1, written, Past(changes[i], from, k))
  {
    hide Found, Numbered, Past;
  }

  lemma PlacedOne(keeps: seq<seq<Line>>, changes: seq<EditChange>, i: nat, q: nat)
    requires |keeps| == |changes| + 1 && i < |changes|
    ensures var c := changes[i];
            Placed(keeps, changes, i, q) <==>
            c.at == q + |keeps[i]| + 1 && c.after != ""
              && Placed(keeps, changes, i + 1, q + |keeps[i]| + |SplitLines(c.after)|)
  {
  }

  lemma FirstPlacedOne(keeps: seq<seq<Line>>, changes: seq<EditChange>, i: nat, written: string, from: nat, pos: nat)
    requires |keeps| == |changes| + 1 && i < |changes|
    ensures var c, o := changes[i], pos + |Unlines(keeps[i])|;
            FirstPlaced(keeps, changes, i, written, from, pos) <==>
            NoneBetween(written, c.after, from, o)
            && FirstPlaced(keeps, changes, i + 1, written, o + |c.after|, o + |Closed(c.after)|)
  {
    hide NoneBetween, OccursAt, Closed, Unlines;
  }

  /** Changes of whole lines, in the order of the file, are each given the line they start on exactly
      when none has its new text anywhere between the end of the one before and its own place. */
  lemma {:induction false} LocatedWherePlaced(keeps: seq<seq<Line>>, changes: seq<EditChange>)
    requires |keeps| == |changes| + 1
    requires forall n, m :: 0 <= n < |keeps| && 0 <= m < |keeps[n]| ==> '\n' !in keeps[n][m]
    requires forall n :: 0 <= n < |changes| ==> changes[n].at == 0 && changes[n].after != ""
    ensures var written := Written(keeps, changes, 0);
            Placed(keeps, Located(changes, 0, written, 0), 0, 0) <==> FirstPlaced(keeps, changes, 0, written, 0, 0)
  {
    hide Placed, FirstPlaced, Located, Written;
    var written := Written(keeps, changes, 0);
    assert written[0..] == written && written[..0] == "";
    LocatedPlaced(keeps, changes, 0, written, 0, 0, []);
    assert [] + Located(changes, 0, written, 0) == Located(changes, 0, written, 0);
  }

  /** An "x" already on the first line takes the number of the "x" written on the second. */
  lemma LocatedCanBeEarlier()
    ensures var keeps, changes := [["x"], []], [EditChange("a", "x", 0)];
            var located := Located(changes, 0, Written(keeps, changes, 0), 0);
            located[0].at == 1 && !Placed(keeps, located, 0, 0)
  {
    hide Written, Found, OccursAt;
    var keeps, changes := [["x"], []], [EditChange("a", "x", 0)];
    var written := Written(keeps, changes, 0);
    TwoLines(keeps, changes);
    FoundAtOnce(changes[0], written);
  }

  lemma {:induction false} TwoLines(keeps: seq<seq<Line>>, changes: seq<EditChange>)
    requires keeps == [["x"], []] && changes == [EditChange("a", "x", 0)]
    ensures Written(keeps, changes, 0) == "x\nx\n"
  {
    assert Unlines(["x"]) == "x\n" + Unlines(["x"][1..]);
    assert Written(keeps, changes, 1) == "";
  }

  lemma FoundAtOnce(c: EditChange, written: string)
    requires c.at == 0 && c.after != "" && OccursAt(written, c.after, 0)
    ensures Found(c, written, 0) == Some(0)
  {
  }

  // ---- from changes without lines to the patch ----

  ghost predicate SameTexts(x: seq<EditChange>, y: seq<EditChange>) {
    |x| == |y| && forall j :: 0 <= j < |x| ==> x[j].before == y[j].before && x[j].after == y[j].after
  }

  lemma {:induction false} SameFiles(keeps: seq<seq<Line>>, x: seq<EditChange>, y: seq<EditChange>, i: nat, p: nat)
    requires SameTexts(x, y) && |keeps| == |x| + 1 && i <= |x|
    ensures OldFile(keeps, x, i) == OldFile(keeps, y, i) && NewFile(keeps, x, i) == NewFile(keeps, y, i)
    ensures Replaces(keeps, x, i, p) == Replaces(keeps, y, i, p)
    decreases |x| - i
  {
    hide SplitLines;
    if i < |x| {
      SameFiles(keeps, x, y, i + 1, p + |keeps[i]| + |SplitLines(x[i].before)|);
    }
  }

  lemma {:induction false} LocatedTexts(changes: seq<EditChange>, written: string)
    ensures SameTexts(changes, Located(changes, 0, written, 0))
  {
    forall j | 0 <= j < |changes|
      ensures var d := Located(changes, 0, written, 0)[j]; changes[j].before == d.before && changes[j].after == d.after
    {
      LocatedLines(changes, 0, written, 0, j);
    }
  }

  /** Located in the file as written, then patched: reading the patch turns the old file into the new
      one, for replaced lines whose new text does not stand earlier too. */
  lemma {:induction false} LocatedPatchTurns(keeps: seq<seq<Line>>, changes: seq<EditChange>)
    requires |keeps| == |changes| + 1
    requires forall n, m :: 0 <= n < |keeps| && 0 <= m < |keeps[n]| ==> '\n' !in keeps[n][m]
    requires forall n :: 0 <= n < |changes| ==> changes[n].at == 0 && changes[n].after != ""
    requires var written := Written(keeps, changes, 0); FirstPlaced(keeps, changes, 0, written, 0, 0)
    requires Replaces(keeps, changes, 0, 0)
    ensures var located := Located(changes, 0, Written(keeps, changes, 0), 0);
            Patched(PatchFrom(located, 0, 0), OldFile(keeps, changes, 0)) == Some(NewFile(keeps, changes, 0))
  {
    hide Placed, FirstPlaced, Located, Written, PatchFrom, Patched, OldFile, NewFile, Replaces, SameTexts;
    var located := Located(changes, 0, Written(keeps, changes, 0), 0);
    LocatedWherePlaced(keeps, changes);
    LocatedTexts(changes, Written(keeps, changes, 0));
    SameFiles(keeps, changes, located, 0, 0);
    PatchTurnsOldIntoNew(keeps, located);
  }
}
