/** Which cells the box of a zone holds, counted on the text that is drawn. */
module ZoneBoxes {
  import opened Text
  import opened ZoneFrames
  import opened Zones

  // ---- where a text ends ----

  /** The row a text ends on, as far as it has come. */
  function LastRow(s: string): (r: string)
    ensures '\n' !in r && |r| <= |s| && r == s[|s| - |r|..]
    ensures |r| < |s| ==> s[|s| - |r| - 1] == '\n'
  {
    if s == "" || s[|s| - 1] == '\n' then "" else LastRow(s[..|s| - 1]) + [s[|s| - 1]]
  }

  /** The cursor after s is drawn is on the row after its newlines, as far right as its last row is wide. */
  lemma {:induction false} DrawnTo(s: string, cell: char -> nat)
    ensures DrawAll(Cursor(0, 0), s, cell) == Cursor(Newlines(s), Width(LastRow(s), cell))
    decreases |s|
  {
    if s != "" {
      var n := |s| - 1;
      var front, c := s[..n], s[n];
      assert s == front + [c];
      DrawnTo(front, cell);
      DrawAllConcat(Cursor(0, 0), front, [c], cell);
      OneDrawn(DrawAll(Cursor(0, 0), front, cell), c, cell);
      NewlinesConcat(front, [c]);
      OneNewline(c);
      WidthConcat(LastRow(front), [c], cell);
      OneWide(c, cell);
    }
  }

  lemma {:induction false} OneDrawn(at: Cursor, c: char, cell: char -> nat)
    ensures DrawAll(at, [c], cell) == if c == '\n' then Cursor(at.row + 1, 0) else Cursor(at.row, at.x + cell(c))
  {
    assert [c][1..] == "";
  }

  lemma {:induction false} OneNewline(c: char)
    ensures Newlines([c]) == if c == '\n' then 1 else 0
  {
    assert [c][1..] == "";
  }

  lemma {:induction false} OneWide(c: char, cell: char -> nat)
    ensures Width([c], cell) == cell(c) && Width("", cell) == 0
  {
    assert [c][1..] == "";
  }

  // ---- where a zone stands ----

  /** A zone's text, and all the text drawn before it, markers left out. */
  datatype Standing = Standing(before: string, text: string)

  function Standings(f: Frame, before: string, ids: map<string, string>): map<string, Standing> {
    match f
    case Plain(_) => map[]
    case Beside(l, r) => Standings(l, before, ids) + Standings(r, before + Erased(l), ids)
    case Zone(id, g) =>
      var inner := Standings(g, before, ids);
      if id == "" || Drawn(g, ids) == "" then inner else inner[id := Standing(before, Erased(g))]
    case Foreign(_, g) => Standings(g, before, ids)
  }

  /** The text before a zone and its own begin what is drawn. */
  lemma {:induction false} StandsInText(f: Frame, before: string, ids: map<string, string>, id: string)
    requires id in Standings(f, before, ids)
    ensures var z := Standings(f, before, ids)[id]; before <= z.before && z.before + z.text <= before + Erased(f)
    decreases f
  {
    match f
    case Plain(_) =>
    case Beside(l, r) =>
      assert before + Erased(f) == (before + Erased(l)) + Erased(r);
      if id in Standings(r, before + Erased(l), ids) {
        StandsInText(r, before + Erased(l), ids, id);
      } else {
        StandsInText(l, before, ids, id);
      }
    case Zone(i, g) =>
      if id in Standings(g, before, ids) {
        StandsInText(g, before, ids, id);
      }
    case Foreign(_, g) => StandsInText(g, before, ids, id);
  }

  /** The box begins where the text before ends, and holds the last cell of the zone's own. */
  ghost predicate Holds(box: Box, z: Standing, cell: char -> nat, dx: int, dy: int) {
    && box.startX == dx + Width(LastRow(z.before), cell)
    && box.startY == dy + Newlines(z.before)
    && box.endX == dx + Width(LastRow(z.before + z.text), cell) - 1
    && box.endY == dy + Newlines(z.before + z.text)
  }

  lemma {:induction false} BoxHolds(before: string, text: string, cell: char -> nat, dx: int, dy: int)
    ensures var at := DrawAll(Cursor(0, 0), before, cell);
            Holds(BoxOf(at, DrawAll(at, text, cell), dx, dy), Standing(before, text), cell, dx, dy)
  {
    hide DrawAll, BoxOf, Holds;
    DrawnTo(before, cell);
    DrawnTo(before + text, cell);
    DrawAllConcat(Cursor(0, 0), before, text, cell);
    BoxFrom(before, text, cell, dx, dy);
  }

  lemma {:induction false} BoxFrom(before: string, text: string, cell: char -> nat, dx: int, dy: int)
    ensures var all := before + text;
            var at, end := Cursor(Newlines(before), Width(LastRow(before), cell)),
              Cursor(Newlines(all), Width(LastRow(all), cell));
            Holds(BoxOf(at, end, dx, dy), Standing(before, text), cell, dx, dy)
  {
    hide LastRow, Newlines, Width;
  }

  ghost predicate AllHold(boxes: map<string, Box>, zones: map<string, Standing>, cell: char -> nat, dx: int, dy: int) {
    boxes.Keys == zones.Keys && forall id :: id in boxes ==> Holds(boxes[id], zones[id], cell, dx, dy)
  }

  lemma {:induction false} BoxesHold(f: Frame, before: string, ids: map<string, string>, cell: char -> nat, dx: int,
                                     dy: int)
    ensures AllHold(Boxes(f, DrawAll(Cursor(0, 0), before, cell), ids, cell, dx, dy), Standings(f, before, ids), cell,
                    dx, dy)
    decreases f
  {
    hide DrawAll, Holds, BoxOf;
    match f
    case Plain(_) =>
    case Beside(l, r) =>
      BoxesHold(l, before, ids, cell, dx, dy);
      BoxesHold(r, before + Erased(l), ids, cell, dx, dy);
      DrawAllConcat(Cursor(0, 0), before, Erased(l), cell);
    case Zone(id, g) =>
      BoxesHold(g, before, ids, cell, dx, dy);
      BoxHolds(before, Erased(g), cell, dx, dy);
    case Foreign(_, g) => BoxesHold(g, before, ids, cell, dx, dy);
  }

  /** Scanning a drawn frame records a box for each zone drawn, and it holds the cells of that zone's text:
      from the column and row where the text before it ends, to its own last cell. */
  lemma {:induction false} ScannedBoxesHold(f: Frame, ids: map<string, string>, rids: map<string, string>,
                                            cell: char -> nat, dx: int, dy: int)
    requires KnownMarkers(ids, rids) && WellDrawn(f, ids, rids)
    ensures AllHold(Scan(Drawn(f, ids), 0, NOTHING_SCANNED, rids, cell, dx, dy).zones, Standings(f, "", ids), cell, dx,
                    dy)
  {
    hide Scan, Boxes, Erased, Drawn, WellDrawn, KnownMarkers, AllHold, Standings;
    FrameScanned(f, ids, rids, cell, dx, dy);
    assert DrawAll(Cursor(0, 0), "", cell) == Cursor(0, 0);
    BoxesHold(f, "", ids, cell, dx, dy);
  }

  // ---- the size of a box ----

  /** What follows a text with no newline goes on its last row; a newline starts the count again. */
  lemma {:induction false} LastRowConcat(s: string, t: string)
    ensures LastRow(s + t) == if '\n' in t then LastRow(t) else LastRow(s) + t
    decreases |t|
  {
    hide LastRow;
    if t == "" {
      assert s + t == s && LastRow(s) + t == LastRow(s);
    } else {
      var n := |t| - 1;
      var front, c := t[..n], t[n];
      assert t == front + [c];
      Regrouped(s, front, c);
      LastRowConcat(s, front);
      LastRowNext(s + front, c);
      LastRowNext(front, c);
      Regrouped(LastRow(s), front, c);
      assert '\n' in t <==> '\n' in front || c == '\n';
    }
  }

  lemma Regrouped(a: string, b: string, c: char)
    ensures a + (b + [c]) == (a + b) + [c]
  {
  }

  lemma {:induction false} LastRowNext(s: string, c: char)
    ensures LastRow(s + [c]) == if c == '\n' then "" else LastRow(s) + [c]
  {
    assert (s + [c])[..|s|] == s;
  }

  /** On one row, a box is as wide as the zone's text; over several it ends as many rows further down as the
      text has newlines, on a last row as wide as the text's. */
  lemma {:induction false} BoxSize(box: Box, z: Standing, cell: char -> nat, dx: int, dy: int)
    requires Holds(box, z, cell, dx, dy)
    ensures '\n' !in z.text ==> box.endY == box.startY && box.endX - box.startX + 1 == Width(z.text, cell)
    ensures '\n' in z.text ==>
              box.endY == box.startY + Newlines(z.text) && box.endX - dx + 1 == Width(LastRow(z.text), cell)
  {
    hide LastRow, Width, Newlines;
    LastRowConcat(z.before, z.text);
    NewlinesConcat(z.before, z.text);
    if '\n' !in z.text {
      WidthConcat(LastRow(z.before), z.text, cell);
      NewlinesNone(z.text);
    }
  }

  // ---- clicks ----

  predicate InBounds(z: Option<Box>, x: int, y: int) {
    && z.Some? && z.value.startX <= z.value.endX && z.value.startY <= z.value.endY
    && z.value.startX <= x <= z.value.endX && z.value.startY <= y <= z.value.endY
  }

  /** Where a click is in a zone, (-1, -1) outside. */
  function Pos(z: Option<Box>, x: int, y: int): (int, int) {
    if InBounds(z, x, y) then (x - z.value.startX, y - z.value.startY) else (-1, -1)
  }

  /** A click hits a zone of one row if and only if it is on one of the cells its text takes, and its position
      is then how far into the text it is; a zone not drawn, or of no width, is never hit. */
  lemma {:induction false} ClickHitsText(box: Box, z: Standing, cell: char -> nat, dx: int, dy: int, x: int, y: int)
    requires Holds(box, z, cell, dx, dy) && '\n' !in z.text
    ensures var left, row := dx + Width(LastRow(z.before), cell), dy + Newlines(z.before);
            && (InBounds(Some(box), x, y) <==> y == row && left <= x < left + Width(z.text, cell))
            && Pos(Some(box), x, y) ==
               (if y == row && left <= x < left + Width(z.text, cell) then (x - left, 0) else (-1, -1))
    ensures !InBounds(None, x, y)
  {
    hide InBounds, Pos, Holds, Width, LastRow, Newlines;
    BoxSize(box, z, cell, dx, dy);
    BoxStart(box, z, cell, dx, dy);
    ClickInRow(box, Width(z.text, cell), x, y);
  }

  lemma {:induction false} BoxStart(box: Box, z: Standing, cell: char -> nat, dx: int, dy: int)
    requires Holds(box, z, cell, dx, dy)
    ensures box.startX == dx + Width(LastRow(z.before), cell) && box.startY == dy + Newlines(z.before)
  {
    hide LastRow, Width, Newlines;
  }

  lemma {:induction false} ClickInRow(box: Box, width: nat, x: int, y: int)
    requires box.endY == box.startY && box.endX - box.startX + 1 == width
    ensures InBounds(Some(box), x, y) <==> y == box.startY && box.startX <= x < box.startX + width
    ensures Pos(Some(box), x, y) ==
            if y == box.startY && box.startX <= x < box.startX + width then (x - box.startX, 0) else (-1, -1)
    ensures !InBounds(None, x, y)
  {
  }
}
