/** What a scan is for: a frame is drawn as text, side by side parts and nested zones, and scanning
    what was drawn gives the text back and each zone the box a layout of the frame gives it. */
module ZoneFrames {
  import opened Text
  import opened Zones

  /** Foreign is a zone of another manager, whose marker this one does not know. */
  datatype Frame = Plain(text: string) | Beside(left: Frame, right: Frame) | Zone(id: string, inner: Frame)
    | Foreign(n: nat, inner: Frame)

  /** The frame as drawn, each zone wrapped by Mark in its id's marker. */
  function Drawn(f: Frame, ids: map<string, string>): string {
    match f
    case Plain(text) => text
    case Beside(l, r) => Drawn(l, ids) + Drawn(r, ids)
    case Zone(id, g) =>
      var text := Drawn(g, ids);
      if id == "" || text == "" || id !in ids then text else ids[id] + text + ids[id]
    case Foreign(n, g) =>
      var text := Drawn(g, ids);
      if text == "" then text else Marker(n) + text + Marker(n)
  }

  /** The frame with every marker erased. */
  function Erased(f: Frame): string {
    match f
    case Plain(text) => text
    case Beside(l, r) => Erased(l) + Erased(r)
    case Zone(_, g) => Erased(g)
    case Foreign(_, g) => Erased(g)
  }

  /** The zones of a frame drawn from at: each spans from where its inner frame begins to where it
      ends; one drawn as nothing has none. */
  function Boxes(f: Frame, at: Cursor, ids: map<string, string>, cell: char -> nat, dx: int,
                 dy: int): map<string, Box> {
    match f
    case Plain(_) => map[]
    case Beside(l, r) => Boxes(l, at, ids, cell, dx, dy) + Boxes(r, DrawAll(at, Erased(l), cell), ids, cell, dx, dy)
    case Zone(id, g) =>
      var inner := Boxes(g, at, ids, cell, dx, dy);
      if id == "" || Drawn(g, ids) == "" then inner
      else inner[id := BoxOf(at, DrawAll(at, Erased(g), cell), dx, dy)]
    case Foreign(_, g) => Boxes(g, at, ids, cell, dx, dy)
  }

  function ZoneIds(f: Frame): set<string> {
    match f
    case Plain(_) => {}
    case Beside(l, r) => ZoneIds(l) + ZoneIds(r)
    case Zone(id, g) => if id == "" then ZoneIds(g) else {id} + ZoneIds(g)
    case Foreign(_, g) => ZoneIds(g)
  }

  /** Whatever text starts s, no marker does, whatever is drawn after it. */
  predicate Settled(s: string)
    requires s != ""
  {
    s[0] == ESC ==>
      && |s| > 1
      && (s[1] != '[' || (var k := DigitRun(s, 2); k < |s| && (k == 2 || s[k] != 'z')))
  }

  /** No marker in s, and none begun at its end. */
  predicate MarkerFree(s: string) {
    s == "" || (Settled(s) && MarkerFree(s[1..]))
  }

  /** Text is free of markers, every zone's id is known and appears once, and the markers of other
      managers are not ours. */
  predicate WellDrawn(f: Frame, ids: map<string, string>, rids: map<string, string>) {
    match f
    case Plain(text) => MarkerFree(text)
    case Beside(l, r) => WellDrawn(l, ids, rids) && WellDrawn(r, ids, rids) && ZoneIds(l) !! ZoneIds(r)
    case Zone(id, g) => WellDrawn(g, ids, rids) && (id == "" || (id in ids && id !in ZoneIds(g)))
    case Foreign(n, g) => WellDrawn(g, ids, rids) && Marker(n) !in rids
  }

  ghost predicate KnownMarkers(ids: map<string, string>, rids: map<string, string>) {
    && Inverse(ids, rids)
    && forall m :: m in rids ==> exists n: nat :: m == Marker(n)
  }

  // ---- where markers end ----

  lemma {:induction false} DigitRunOf(pre: string, digits: string, post: string, j: nat)
    requires |pre| <= j <= |pre| + |digits|
    requires forall i :: 0 <= i < |digits| ==> IsDigit(digits[i])
    requires post != "" && !IsDigit(post[0])
    ensures DigitRun(pre + digits + post, j) == |pre| + |digits|
    decreases |pre| + |digits| - j
  {
    var s := pre + digits + post;
    if j < |pre| + |digits| {
      assert s[j] == digits[j - |pre|];
      DigitRunOf(pre, digits, post, j + 1);
    } else {
      assert s[j] == post[0];
    }
  }

  lemma MarkerEnds(pre: string, n: nat, post: string)
    ensures MarkerEnd(pre + Marker(n) + post, |pre|) == Some(|pre| + |Marker(n)|)
  {
    hide Decimal;
    var s, d := pre + Marker(n) + post, Decimal(n);
    assert s == (pre + [ESC, '[']) + d + (['z'] + post);
    DigitRunOf(pre + [ESC, '['], d, ['z'] + post, |pre| + 2);
    assert s[|pre| + 2 + |d|] == 'z';
  }

  lemma {:induction false} SameRun(s: string, pre: string, post: string, j: nat)
    requires j <= |s|
    ensures DigitRun(s, j) < |s| ==> DigitRun(pre + s + post, |pre| + j) == |pre| + DigitRun(s, j)
    decreases |s| - j
  {
    if j < |s| {
      assert (pre + s + post)[|pre| + j] == s[j];
      if IsDigit(s[j]) {
        SameRun(s, pre, post, j + 1);
      }
    }
  }

  lemma SettledNoMarker(pre: string, s: string, post: string)
    requires s != "" && Settled(s)
    ensures var t := pre + s + post;
            t[|pre|] == s[0] && (t[|pre|] == ESC ==> MarkerEnd(t, |pre|) == None)
  {
    var t := pre + s + post;
    if s[0] == ESC {
      assert t[|pre| + 1] == s[1];
      if s[1] == '[' {
        SameRun(s, pre, post, 2);
        var k := DigitRun(s, 2);
        assert t[|pre| + k] == s[k];
      }
    }
  }

  // ---- scanning a drawn part ----

  lemma {:induction false} DrawAllConcat(at: Cursor, s: string, t: string, cell: char -> nat)
    ensures DrawAll(at, s + t, cell) == DrawAll(DrawAll(at, s, cell), t, cell)
    decreases s
  {
    if s == "" {
      assert s + t == t;
    } else {
      assert (s + t)[1..] == s[1..] + t;
      DrawAllConcat(Draw(at, s[0], cell), s[1..], t, cell);
    }
  }

  /** Text between what is scanned and what is to come is written as it is. */
  lemma {:induction false} ScanPlain(pre: string, s: string, post: string, st: Scanned, rids: map<string, string>,
                                     cell: char -> nat, dx: int, dy: int)
    requires MarkerFree(s)
    ensures var t := pre + s + post;
            Scan(t, |pre|, st, rids, cell, dx, dy) ==
            Scan(t, |pre| + |s|, st.(out := st.out + s, at := DrawAll(st.at, s, cell)), rids, cell, dx, dy)
    decreases s
  {
    hide Scan, MarkerEnd, Settled;
    var t := pre + s + post;
    if s == "" {
      assert st.out + s == st.out;
    } else {
      SettledNoMarker(pre, s, post);
      ScanStep(t, |pre|, st, rids, cell, dx, dy);
      var st' := OneMore(t, |pre|, st, cell);
      assert t == (pre + [s[0]]) + s[1..] + post;
      ScanPlain(pre + [s[0]], s[1..], post, st', rids, cell, dx, dy);
      assert st'.out + s[1..] == st.out + s;
    }
  }

  lemma {:induction false} ScanMarker(pre: string, n: nat, post: string, st: Scanned, rids: map<string, string>,
                                      cell: char -> nat,
                   dx: int, dy: int)
    ensures var t := pre + Marker(n) + post;
            Scan(t, |pre|, st, rids, cell, dx, dy) ==
            Scan(t, |pre| + |Marker(n)|, Touch(st, Marker(n), rids, dx, dy), rids, cell, dx, dy)
  {
    hide Scan, MarkerEnd, Marker, Touch;
    var t := pre + Marker(n) + post;
    MarkerEnds(pre, n, post);
    ScanStep(t, |pre|, st, rids, cell, dx, dy);
    assert t[|pre|] == Marker(n)[0];
    assert t[|pre|..|pre| + |Marker(n)|] == Marker(n);
  }

  /** What scanning a frame adds to a scan. */
  function After(st: Scanned, f: Frame, ids: map<string, string>, cell: char -> nat, dx: int, dy: int): Scanned {
    st.(out := st.out + Erased(f), at := DrawAll(st.at, Erased(f), cell),
        zones := st.zones + Boxes(f, st.at, ids, cell, dx, dy))
  }

  lemma {:induction false} ScanFrame(pre: string, f: Frame, post: string, st: Scanned, ids: map<string, string>,
                                     rids: map<string, string>, cell: char -> nat, dx: int, dy: int)
    requires KnownMarkers(ids, rids) && WellDrawn(f, ids, rids)
    requires ZoneIds(f) !! st.open.Keys
    ensures var t := pre + Drawn(f, ids) + post;
            Scan(t, |pre|, st, rids, cell, dx, dy) ==
            Scan(t, |pre| + |Drawn(f, ids)|, After(st, f, ids, cell, dx, dy), rids, cell, dx, dy)
    decreases f, 0
  {
    hide Scan, DrawAll;
    var t := pre + Drawn(f, ids) + post;
    match f
    case Plain(s) =>
      ScanPlain(pre, s, post, st, rids, cell, dx, dy);
      assert st.zones + map[] == st.zones;
    case Beside(l, r) => ScanBeside(pre, l, r, post, st, ids, rids, cell, dx, dy);
    case Zone(id, g) =>
      if id == "" || Drawn(g, ids) == "" {
        ScanFrame(pre, g, post, st, ids, rids, cell, dx, dy);
      } else {
        ScanZone(pre, id, g, post, st, ids, rids, cell, dx, dy);
      }
    case Foreign(n, g) =>
      if Drawn(g, ids) == "" {
        ScanFrame(pre, g, post, st, ids, rids, cell, dx, dy);
      } else {
        ScanForeign(pre, n, g, post, st, ids, rids, cell, dx, dy);
      }
  }

  lemma {:induction false} ScanBeside(pre: string, l: Frame, r: Frame, post: string, st: Scanned,
                                      ids: map<string, string>, rids: map<string, string>, cell: char -> nat, dx: int,
                                      dy: int)
    requires KnownMarkers(ids, rids) && WellDrawn(Beside(l, r), ids, rids)
    requires ZoneIds(Beside(l, r)) !! st.open.Keys
    ensures var f := Beside(l, r);
            var t := pre + Drawn(f, ids) + post;
            Scan(t, |pre|, st, rids, cell, dx, dy) ==
            Scan(t, |pre| + |Drawn(f, ids)|, After(st, f, ids, cell, dx, dy), rids, cell, dx, dy)
    decreases Beside(l, r), 0, 0
  {
    hide Scan, DrawAll, KnownMarkers, Erased, Boxes;
    var dl, dr := Drawn(l, ids), Drawn(r, ids);
    var st' := After(st, l, ids, cell, dx, dy);
    var t := pre + Drawn(Beside(l, r), ids) + post;
    assert t == pre + dl + (dr + post) && t == (pre + dl) + dr + post;
    ScanFrame(pre, l, dr + post, st, ids, rids, cell, dx, dy);
    ScanFrame(pre + dl, r, post, st', ids, rids, cell, dx, dy);
    AfterBeside(st, l, r, ids, cell, dx, dy);
  }

  lemma AfterBeside(st: Scanned, l: Frame, r: Frame, ids: map<string, string>, cell: char -> nat, dx: int, dy: int)
    ensures After(After(st, l, ids, cell, dx, dy), r, ids, cell, dx, dy) == After(st, Beside(l, r), ids, cell, dx, dy)
  {
    hide DrawAll;
    DrawAllConcat(st.at, Erased(l), Erased(r), cell);
    assert (st.out + Erased(l)) + Erased(r) == st.out + Erased(Beside(l, r));
    var bl := Boxes(l, st.at, ids, cell, dx, dy);
    var br := Boxes(r, DrawAll(st.at, Erased(l), cell), ids, cell, dx, dy);
    MergeAssociates(st.zones, bl, br);
  }

  lemma MergeAssociates(x: map<string, Box>, y: map<string, Box>, z: map<string, Box>)
    ensures (x + y) + z == x + (y + z)
  {
  }

  lemma {:induction false} ScanZone(pre: string, id: string, g: Frame, post: string, st: Scanned,
                                    ids: map<string, string>, rids: map<string, string>, cell: char -> nat, dx: int,
                                    dy: int)
    requires KnownMarkers(ids, rids) && WellDrawn(Zone(id, g), ids, rids)
    requires ZoneIds(Zone(id, g)) !! st.open.Keys
    requires id != "" && Drawn(g, ids) != ""
    ensures var d := Drawn(Zone(id, g), ids); var t := pre + d + post;
            Scan(t, |pre|, st, rids, cell, dx, dy) ==
            Scan(t, |pre| + |d|, After(st, Zone(id, g), ids, cell, dx, dy), rids, cell, dx, dy)
    decreases g, 1
  {
    hide Scan, DrawAll, Marker, Boxes;
    var m, dg := ids[id], Drawn(g, ids);
    var n: nat :| m == Marker(n);
    var t := pre + (m + dg + m) + post;
    var begun := st.(open := st.open[id := st.at]);
    assert t == pre + m + (dg + m + post) == (pre + m) + dg + (m + post) == (pre + m + dg) + m + post;
    ScanMarker(pre, n, dg + m + post, st, rids, cell, dx, dy);
    ScanFrame(pre + m, g, m + post, begun, ids, rids, cell, dx, dy);
    var inner := After(begun, g, ids, cell, dx, dy);
    ScanMarker(pre + m + dg, n, post, inner, rids, cell, dx, dy);
    CloseZone(st, id, g, m, ids, rids, cell, dx, dy);
  }

  lemma {:induction false} CloseZone(st: Scanned, id: string, g: Frame, m: string, ids: map<string, string>,
                                     rids: map<string, string>,
                  cell: char -> nat, dx: int, dy: int)
    requires id != "" && Drawn(g, ids) != "" && id !in st.open && m in rids && rids[m] == id
    ensures Touch(After(st.(open := st.open[id := st.at]), g, ids, cell, dx, dy), m, rids, dx, dy) ==
            After(st, Zone(id, g), ids, cell, dx, dy)
  {
    hide DrawAll;
    var box := BoxOf(st.at, DrawAll(st.at, Erased(g), cell), dx, dy);
    OpenThenClose(st.open, id, st.at);
    PutLast(st.zones, Boxes(g, st.at, ids, cell, dx, dy), id, box);
    assert Erased(Zone(id, g)) == Erased(g);
  }

  lemma OpenThenClose(open: map<string, Cursor>, id: string, at: Cursor)
    requires id !in open
    ensures open[id := at] - {id} == open
  {
  }

  lemma PutLast(x: map<string, Box>, y: map<string, Box>, id: string, box: Box)
    ensures (x + y)[id := box] == x + y[id := box]
  {
  }

  lemma {:induction false} ScanForeign(pre: string, n: nat, g: Frame, post: string, st: Scanned,
                                       ids: map<string, string>, rids: map<string, string>, cell: char -> nat, dx: int,
                                       dy: int)
    requires KnownMarkers(ids, rids) && WellDrawn(Foreign(n, g), ids, rids)
    requires ZoneIds(g) !! st.open.Keys && Drawn(g, ids) != ""
    ensures var d := Drawn(Foreign(n, g), ids); var t := pre + d + post;
            Scan(t, |pre|, st, rids, cell, dx, dy) ==
            Scan(t, |pre| + |d|, After(st, g, ids, cell, dx, dy), rids, cell, dx, dy)
    decreases g, 1
  {
    hide Scan, DrawAll, Marker, Boxes, After;
    var m, dg := Marker(n), Drawn(g, ids);
    var t := pre + (m + dg + m) + post;
    assert t == pre + m + (dg + m + post) == (pre + m) + dg + (m + post) == (pre + m + dg) + m + post;
    ScanMarker(pre, n, dg + m + post, st, rids, cell, dx, dy);
    ScanFrame(pre + m, g, m + post, st, ids, rids, cell, dx, dy);
    ScanMarker(pre + m + dg, n, post, After(st, g, ids, cell, dx, dy), rids, cell, dx, dy);
  }

  /** Scanning a whole drawn frame gives the frame with its markers erased, and exactly the zones its
      layout gives, moved to (dx, dy). */
  lemma {:induction false} FrameScanned(f: Frame, ids: map<string, string>, rids: map<string, string>,
                                        cell: char -> nat, dx: int, dy: int)
    requires KnownMarkers(ids, rids) && WellDrawn(f, ids, rids)
    ensures var r := Scan(Drawn(f, ids), 0, NOTHING_SCANNED, rids, cell, dx, dy);
            && r.out == Erased(f)
            && r.zones == Boxes(f, Cursor(0, 0), ids, cell, dx, dy)
            && r.open == map[]
  {
    hide Scan, Boxes, Erased, Drawn, WellDrawn, KnownMarkers, DrawAll;
    var d := Drawn(f, ids);
    assert "" + d + "" == d;
    ScanFrame("", f, "", NOTHING_SCANNED, ids, rids, cell, dx, dy);
    ScanStep(d, |d|, After(NOTHING_SCANNED, f, ids, cell, dx, dy), rids, cell, dx, dy);
    assert "" + Erased(f) == Erased(f);
    var b: map<string, Box> := map[];
    assert b + Boxes(f, Cursor(0, 0), ids, cell, dx, dy) == Boxes(f, Cursor(0, 0), ids, cell, dx, dy);
  }
}
