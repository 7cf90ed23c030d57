/** Click targets: a marker (ESC [ digits z) at either end of a zone's text, and one scan of the frame that
    drops the markers and notes the boxes between them. cell is the width of a character in cells; a
    string's width is the sum of its characters'. */
module Zones {
  import opened Text

  const ESC: char := '\U{1B}'

  function Width(s: string, cell: char -> nat): nat {
    if s == "" then 0 else cell(s[0]) + Width(s[1..], cell)
  }

  lemma {:induction false} WidthConcat(s: string, t: string, cell: char -> nat)
    ensures Width(s + t, cell) == Width(s, cell) + Width(t, cell)
  {
    if s == "" {
      assert s + t == t;
    } else {
      assert (s + t)[1..] == s[1..] + t;
      WidthConcat(s[1..], t, cell);
    }
  }

  // ---- markers ----

  function Marker(n: nat): (m: string)
    ensures |m| > 3 && m[0] == ESC
  {
    [ESC, '['] + Decimal(n) + ['z']
  }

  /** Where the marker that starts at i ends, if one does. */
  function MarkerEnd(text: string, i: nat): (end: Option<nat>)
    requires i < |text|
    ensures end.Some? ==> i + 3 < end.value <= |text|
  {
    if i + 2 > |text| || text[i + 1] != '[' then None
    else
      var k := DigitRun(text, i + 2);
      if k == i + 2 || k >= |text| || text[k] != 'z' then None else Some(k + 1)
  }

  method FindMarkerEnd(text: string, i: nat) returns (end: Option<nat>)
    requires i < |text|
    ensures end == MarkerEnd(text, i)
  {
    var j := i + 2;
    if j > |text| || text[i + 1] != '[' {
      return None;
    }
    var digits := j;
    while j < |text| && '0' <= text[j] <= '9'
      invariant digits <= j <= |text|
      invariant DigitRun(text, j) == DigitRun(text, digits)
    {
      j := j + 1;
    }
    if j == digits || j >= |text| || text[j] != 'z' {
      return None;
    }
    return Some(j + 1);
  }

  // ---- the scan, character by character ----

  /** Both corners are inside the box. */
  datatype Box = Box(startX: int, startY: int, endX: int, endY: int)

  datatype Cursor = Cursor(row: nat, x: nat)

  /** What the scan has written, where the next character goes, the zones begun and those done. */
  datatype Scanned = Scanned(out: string, at: Cursor, open: map<string, Cursor>, zones: map<string, Box>)

  /** The cursor after a character is drawn: a newline starts the next row. */
  function Draw(at: Cursor, c: char, cell: char -> nat): Cursor {
    if c == '\n' then Cursor(at.row + 1, 0) else Cursor(at.row, at.x + cell(c))
  }

  function DrawAll(at: Cursor, s: string, cell: char -> nat): Cursor
    decreases s
  {
    if s == "" then at else DrawAll(Draw(at, s[0], cell), s[1..], cell)
  }

  function BoxOf(from: Cursor, upto: Cursor, dx: int, dy: int): Box {
    Box(from.x + dx, from.row + dy, upto.x - 1 + dx, upto.row + dy)
  }

  /** A known marker begins its zone the first time and ends it the second. */
  function Touch(st: Scanned, marker: string, rids: map<string, string>, dx: int, dy: int): Scanned {
    if marker !in rids then st
    else
      var id := rids[marker];
      if id in st.open then
        st.(zones := st.zones[id := BoxOf(st.open[id], st.at, dx, dy)], open := st.open - {id})
      else st.(open := st.open[id := st.at])
  }

  /** The scan of text[i..]. */
  function Scan(text: string, i: nat, st: Scanned, rids: map<string, string>, cell: char -> nat, dx: int,
                dy: int): Scanned
    requires i <= |text|
    decreases |text| - i
  {
    if i == |text| then st
    else if text[i] == ESC && MarkerEnd(text, i).Some? then
      var end := MarkerEnd(text, i).value;
      Scan(text, end, Touch(st, text[i..end], rids, dx, dy), rids, cell, dx, dy)
    else
      Scan(text, i + 1, OneMore(text, i, st, cell), rids, cell, dx, dy)
  }

  const NOTHING_SCANNED := Scanned("", Cursor(0, 0), map[], map[])

  // ---- the manager ----

  /** Numbers markers across every manager. */
  class MarkerCounter {
    var n: nat
  }

  class ZoneManager {
    var ids: map<string, string>   // id to marker
    var rids: map<string, string>  // marker to id
    var zones: map<string, Box>
    var open: map<string, Cursor>

    constructor ()
      ensures ids == map[] && rids == map[] && zones == map[] && open == map[]
    {
      ids, rids, zones, open := map[], map[], map[], map[];
    }

    /** The two maps are each other's inverse, and hold markers handed out so far. */
    ghost predicate Valid(counter: MarkerCounter)
      reads this, counter
    {
      Inverse(ids, rids) && forall m :: m in rids ==> exists n: nat :: n <= counter.n && m == Marker(n)
    }

    method Mark(counter: MarkerCounter, id: string, text: string) returns (r: string)
      requires Valid(counter)
      modifies this`ids, this`rids, counter
      ensures Valid(counter)
      ensures id == "" || text == "" ==>
              r == text && ids == old(ids) && rids == old(rids) && counter.n == old(counter.n)
      ensures id != "" && text != "" ==> id in ids && r == ids[id] + text + ids[id]
      ensures forall i :: i in old(ids) ==> i in ids && ids[i] == old(ids)[i]
      ensures forall i :: i in ids ==> i in old(ids) || i == id
      ensures counter.n >= old(counter.n)
    {
      if id == "" || text == "" {
        return text;
      }
      if id !in ids {
        counter.n := counter.n + 1;
        var marker := Marker(counter.n);
        if marker in rids {
          ghost var n: nat :| n <= old(counter.n) && marker == Marker(n);
          MarkerInjective(n, counter.n);
          assert false;
        }
        ids, rids := ids[id := marker], rids[marker := id];
      }
      var marker := ids[id];
      return marker + text + marker;
    }

    /** A known marker seen with the cursor at (x, row). */
    method TouchZone(id: string, x: nat, row: nat, dx: int, dy: int)
      modifies this`zones, this`open
      ensures zones ==
              if id in old(open) then old(zones)[id := BoxOf(old(open)[id], Cursor(row, x), dx, dy)] else old(zones)
      ensures open == if id in old(open) then old(open) - {id} else old(open)[id := Cursor(row, x)]
    {
      if id in open {
        zones := zones[id := Box(open[id].x + dx, open[id].row + dy, x - 1 + dx, row + dy)];
        open := open - {id};
      } else {
        open := open[id := Cursor(row, x)];
      }
    }

    /** In one pass; a row is measured only up to the last known marker on it. */
    method ScanOffset(text: string, dx: int, dy: int, cell: char -> nat) returns (out: string)
      modifies this`zones, this`open
      ensures out == Scan(text, 0, NOTHING_SCANNED, rids, cell, dx, dy).out
      ensures zones == Scan(text, 0, NOTHING_SCANNED, rids, cell, dx, dy).zones
    {
      hide Scan, Width, MarkerEnd;
      if ESC !in text {
        zones := map[];
        NoEscapes(text, 0, NOTHING_SCANNED, rids, cell, dx, dy);
        assert text[0..] == text;
        return text;
      }
      zones, open := map[], map[];
      out := "";
      var row: nat, measured: nat, width: nat, copied: nat, i: nat := 0, 0, 0, 0, 0;
      // what the scan by single characters has come to at i
      ghost var st := NOTHING_SCANNED;
      NoWidth(cell);
      while i < |text|
        invariant copied <= i <= |text|
        invariant Scan(text, 0, NOTHING_SCANNED, rids, cell, dx, dy) == Scan(text, i, st, rids, cell, dx, dy)
        invariant st.out == out + text[copied..i]
        invariant Measured(st, row, measured, width, cell)
        invariant zones == st.zones && open == st.open
      {
        ScanStep(text, i, st, rids, cell, dx, dy);
        if text[i] == '\n' {
          row := row + 1;
          measured, width := |out| + (i - copied) + 1, 0;
          st := OneMore(text, i, st, cell);
          assert st.out == out + text[copied..i + 1];
          assert st.out[measured..] == "";
          NoWidth(cell);
          i := i + 1;
        } else if text[i] == ESC {
          var end := FindMarkerEnd(text, i);
          if end.None? {
            MeasureOne(text, i, st, row, measured, width, cell);
            st := OneMore(text, i, st, cell);
            assert st.out == out + text[copied..i + 1];
            i := i + 1;
            continue;
          }
          out := out + text[copied..i];
          copied := end.value;
          var marker := text[i..end.value];
          if marker in rids {
            width := width + Width(out[measured..], cell);
            measured := |out|;
            assert out[measured..] == "";
            NoWidth(cell);
            TouchZone(rids[marker], width, row, dx, dy);
          }
          st := Touch(st, marker, rids, dx, dy);
          i := end.value;
          assert text[i..i] == "";
        } else {
          MeasureOne(text, i, st, row, measured, width, cell);
          st := OneMore(text, i, st, cell);
          assert st.out == out + text[copied..i + 1];
          i := i + 1;
        }
      }
      ScanStep(text, i, st, rids, cell, dx, dy);
      out := out + text[copied..];
    }
  }

  /** The scan with one more character written. */
  function OneMore(text: string, i: nat, st: Scanned, cell: char -> nat): Scanned
    requires i < |text|
  {
    st.(out := st.out + [text[i]], at := Draw(st.at, text[i], cell))
  }

  /** The cursor's column is width and what out takes from measured on. */
  ghost predicate Measured(st: Scanned, row: nat, measured: nat, width: nat, cell: char -> nat) {
    row == st.at.row && measured <= |st.out| && st.at.x == width + Width(st.out[measured..], cell)
  }

  lemma NoWidth(cell: char -> nat)
    ensures Width("", cell) == 0
  {
  }

  lemma MeasureOne(text: string, i: nat, st: Scanned, row: nat, measured: nat, width: nat, cell: char -> nat)
    requires i < |text| && text[i] != '\n' && Measured(st, row, measured, width, cell)
    ensures Measured(OneMore(text, i, st, cell), row, measured, width, cell)
  {
    var r := OneMore(text, i, st, cell);
    assert r.out[measured..] == st.out[measured..] + [text[i]];
    WidthConcat(st.out[measured..], [text[i]], cell);
    assert Width([text[i]], cell) == cell(text[i]) + Width([text[i]][1..], cell);
  }

  lemma ScanStep(text: string, i: nat, st: Scanned, rids: map<string, string>, cell: char -> nat, dx: int, dy: int)
    requires i <= |text|
    ensures Scan(text, i, st, rids, cell, dx, dy) ==
            if i == |text| then st
            else if text[i] == ESC && MarkerEnd(text, i).Some? then
              var end := MarkerEnd(text, i).value;
              Scan(text, end, Touch(st, text[i..end], rids, dx, dy), rids, cell, dx, dy)
            else Scan(text, i + 1, OneMore(text, i, st, cell), rids, cell, dx, dy)
  {
  }

  ghost predicate Inverse(ids: map<string, string>, rids: map<string, string>) {
    && (forall id :: id in ids ==> ids[id] in rids && rids[ids[id]] == id)
    && (forall m :: m in rids ==> rids[m] in ids && ids[rids[m]] == m)
  }

  lemma MarkerInjective(m: nat, n: nat)
    requires Marker(m) == Marker(n)
    ensures m == n
  {
    assert Marker(m)[2..|Marker(m)| - 1] == Decimal(m);
    assert Marker(n)[2..|Marker(n)| - 1] == Decimal(n);
    DecimalInjective(m, n);
  }

  /** A text with no escape character is its own scan. */
  lemma {:induction false} NoEscapes(text: string, i: nat, st: Scanned, rids: map<string, string>, cell: char -> nat,
                                     dx: int, dy: int)
    requires i <= |text| && ESC !in text
    ensures var r := Scan(text, i, st, rids, cell, dx, dy);
            r.out == st.out + text[i..] && r.zones == st.zones
    decreases |text| - i
  {
    if i < |text| {
      NoEscapes(text, i + 1, OneMore(text, i, st, cell), rids, cell, dx, dy);
      assert text[i..] == [text[i]] + text[i + 1..];
    }
  }
}
