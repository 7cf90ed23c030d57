/** What a reader of the unified format (GNU diffutils manual, section 2.2.2) makes of a patch:
    applying the hunks of several changes to the old file gives the new one. */
module PatchReader {
  import opened EditScript
  import opened Hunks
  import opened Text

  /** How many lines of a version come before a hunk; a side with no lines names the line above. */
  function LinesAbove(start: nat, count: nat): int { if count == 0 then start else start - 1 }

  /** The hunk stands past the first o lines of the old file and what the new file has so far: the
      lines between agree in number, and its body is what the old file has there. */
  predicate Fits(h: Hunk, file: seq<Line>, o: nat, out: seq<Line>) {
    var at := LinesAbove(h.oldStart, h.oldCount);
    && o <= at && at + h.oldCount <= |file|
    && LinesAbove(h.newStart, h.newCount) - |out| == at - o
    && OldOf(h.body) == file[at..at + h.oldCount]
    && |NewOf(h.body)| == h.newCount
  }

  /** Reading hunks with o lines of the old file behind: the old lines read and the new ones so far. */
  function Read(hunks: seq<Hunk>, file: seq<Line>, o: nat, out: seq<Line>): (r: Option<(nat, seq<Line>)>)
    requires o <= |file|
    ensures r.Some? ==> o <= r.value.0 <= |file|
  {
    if hunks == [] then Some((o, out))
    else if !Fits(hunks[0], file, o, out) then None
    else
      var at := LinesAbove(hunks[0].oldStart, hunks[0].oldCount);
      Read(hunks[1..], file, at + hunks[0].oldCount, out + file[o..at] + NewOf(hunks[0].body))
  }

  /** The new file, or None when some hunk does not fit. */
  function Patched(hunks: seq<Hunk>, file: seq<Line>): Option<seq<Line>> {
    match Read(hunks, file, 0, [])
    case None => None
    case Some(r) => Some(r.1 + file[r.0..])
  }

  lemma {:induction false} ReadConcat(x: seq<Hunk>, y: seq<Hunk>, file: seq<Line>, o: nat, out: seq<Line>)
    requires o <= |file|
    ensures Read(x + y, file, o, out) ==
            match Read(x, file, o, out) case None => None case Some(r) => Read(y, file, r.0, r.1)
  {
    if x == [] {
      assert x + y == y;
    } else {
      assert (x + y)[0] == x[0] && (x + y)[1..] == x[1..] + y;
      if Fits(x[0], file, o, out) {
        var at := LinesAbove(x[0].oldStart, x[0].oldCount);
        ReadConcat(x[1..], y, file, at + x[0].oldCount, out + file[o..at] + NewOf(x[0].body));
      }
    }
  }

  // ---- a run of shown ops ----

  /** A run shown whole that has no line of a side is the whole script, and that side is empty. */
  lemma {:induction false} RunTouchesSide(ops: seq<LineOp>, i: nat, end: nat, kind: Kind)
    requires kind != Keep
    requires i < end <= |ops|
    requires i > 0 ==> !Shown(ops, i - 1)
    requires end < |ops| ==> !Shown(ops, end)
    ensures Without(ops[i..end], kind) == [] ==> Without(ops, kind) == []
  {
    if Without(ops[i..end], kind) == [] {
      AllOfKind(ops[i..end], kind);
      assert ops[i] == ops[i..end][0] && ops[end - 1] == ops[i..end][end - 1 - i];
      assert i == 0 && end == |ops|;
      assert ops[i..end] == ops;
    }
  }

  lemma {:induction false} AllOfKind(ops: seq<LineOp>, kind: Kind)
    requires Without(ops, kind) == []
    ensures forall k :: 0 <= k < |ops| ==> ops[k].kind == kind
  {
    if ops != [] {
      AllOfKind(ops[1..], kind);
    }
  }

  // ---- one change ----

  /** The old side of ops[i..] is what the file has from line p on. */
  ghost predicate Stands(file: seq<Line>, p: nat, ops: seq<LineOp>, i: nat)
    requires i <= |ops|
  {
    p + |OldOf(ops[i..])| <= |file| && OldOf(ops[i..]) == file[p..p + |OldOf(ops[i..])|]
  }

  /** Reading went from (o, out), with the old file copied up to line p, to r, with it copied up to
      p', and wrote text in between. */
  ghost predicate Wrote(file: seq<Line>, o: nat, out: seq<Line>, p: nat, text: seq<Line>, p': nat,
                        r: Option<(nat, seq<Line>)>)
    requires o <= p <= |file| && p' <= |file|
  {
    r.Some? && r.value.0 <= p' && r.value.1 + file[r.value.0..p'] == out + file[o..p] + text
  }

  /** Reading the hunks of ops[i..], each numbered by where it stands, replaces the old side of the
      ops by the new one, the lines not shown taken from the file. */
  lemma {:induction false} ReadHunks(ops: seq<LineOp>, i: nat, file: seq<Line>, o: nat, out: seq<Line>, p: nat)
    requires i <= |ops|
    requires i > 0 ==> RunEndsBefore(ops, i)
    requires OldOf(ops) != [] && NewOf(ops) != []
    requires Stands(file, p, ops, i) && o <= p
    ensures Wrote(file, o, out, p, NewOf(ops[i..]), p + |OldOf(ops[i..])|,
                  Read(HunksFrom(ops, i, p + 1, |out| + p - o + 1), file, o, out))
    decreases |ops| - i
  {
    hide Shown, Without, Read, HunksFrom, Fits, Wrote;
    var q := |out| + p - o;
    if i == |ops| {
      Nothing(ops, file, o, out, p);
    } else if !Shown(ops, i) {
      SkipKept(ops, i, file, p);
      ReadHunks(ops, i + 1, file, o, out, p + 1);
      SkipHunks(ops, i, p + 1, q + 1);
      CopyOne(file, o, out, p, ops[i].text, NewOf(ops[i + 1..]), p + |OldOf(ops[i..])|,
              Read(HunksFrom(ops, i + 1, p + 2, q + 2), file, o, out));
    } else {
      var end := RunEnd(ops, i);
      var h := HunkOf(ops[i..end], p + 1, q + 1);
      FirstHunk(ops, i, p + 1, q + 1);
      SplitRun(ops, i, end, file, p);
      RunTouchesSide(ops, i, end, Add);
      RunTouchesSide(ops, i, end, Remove);
      var rest := HunksFrom(ops, end, p + 1 + h.oldCount, q + 1 + h.newCount);
      ReadRun(ops[i..end], rest, file, o, out, p);
      var out' := out + file[o..p] + NewOf(h.body);
      ReadHunks(ops, end, file, p + h.oldCount, out', p + h.oldCount);
      WriteRun(file, o, out, p, NewOf(h.body), p + h.oldCount, NewOf(ops[end..]), p + |OldOf(ops[i..])|,
               Read(rest, file, p + h.oldCount, out'));
    }
  }

  lemma Nothing(ops: seq<LineOp>, file: seq<Line>, o: nat, out: seq<Line>, p: nat)
    requires o <= p <= |file|
    ensures OldOf(ops[|ops|..]) == [] && NewOf(ops[|ops|..]) == []
    ensures Wrote(file, o, out, p, [], p, Read(HunksFrom(ops, |ops|, p + 1, |out| + p - o + 1), file, o, out))
  {
  }

  lemma SkipHunks(ops: seq<LineOp>, i: nat, oldLine: nat, newLine: nat)
    requires i < |ops| && !Shown(ops, i) && oldLine > 0 && newLine > 0
    ensures HunksFrom(ops, i, oldLine, newLine) == HunksFrom(ops, i + 1, oldLine + 1, newLine + 1)
  {
  }

  lemma FirstHunk(ops: seq<LineOp>, i: nat, oldLine: nat, newLine: nat)
    requires i < |ops| && Shown(ops, i) && oldLine > 0 && newLine > 0
    ensures var h := HunkOf(ops[i..RunEnd(ops, i)], oldLine, newLine);
            HunksFrom(ops, i, oldLine, newLine) ==
              [h] + HunksFrom(ops, RunEnd(ops, i), oldLine + h.oldCount, newLine + h.newCount)
    ensures i < RunEnd(ops, i)
  {
  }

  /** One more line copied before the text written. */
  lemma CopyOne(file: seq<Line>, o: nat, out: seq<Line>, p: nat, x: Line, text: seq<Line>, p': nat,
                r: Option<(nat, seq<Line>)>)
    requires o <= p < |file| && p' <= |file| && file[p] == x
    requires Wrote(file, o, out, p + 1, text, p', r)
    ensures Wrote(file, o, out, p, [x] + text, p', r)
  {
    assert file[o..p + 1] == file[o..p] + [x];
    assert out + file[o..p + 1] + text == out + file[o..p] + ([x] + text);
  }

  /** One run, and what follows it. */
  lemma WriteRun(file: seq<Line>, o: nat, out: seq<Line>, p: nat, run: seq<Line>, p1: nat, text: seq<Line>, p': nat,
                 r: Option<(nat, seq<Line>)>)
    requires o <= p <= |file| && p1 <= |file| && p' <= |file|
    requires Wrote(file, p1, out + file[o..p] + run, p1, text, p', r)
    ensures Wrote(file, o, out, p, run + text, p', r)
  {
    assert out + file[o..p] + run + file[p1..p1] + text == out + file[o..p] + (run + text);
  }

  /** A run with lines of both sides fits where it stands. */
  lemma ReadRun(body: seq<LineOp>, rest: seq<Hunk>, file: seq<Line>, o: nat, out: seq<Line>, p: nat)
    requires OldOf(body) != [] && NewOf(body) != []
    requires o <= p && p + |OldOf(body)| <= |file| && OldOf(body) == file[p..p + |OldOf(body)|]
    ensures var h := HunkOf(body, p + 1, |out| + p - o + 1);
            Read([h] + rest, file, o, out) == Read(rest, file, p + h.oldCount, out + file[o..p] + NewOf(body))
  {
    var h := HunkOf(body, p + 1, |out| + p - o + 1);
    assert ([h] + rest)[0] == h && ([h] + rest)[1..] == rest;
    assert Fits(h, file, o, out);
  }

  /** What lies before op i was shown to its end, or not shown. */
  ghost predicate RunEndsBefore(ops: seq<LineOp>, i: nat)
    requires 0 < i <= |ops|
  {
    i < |ops| && Shown(ops, i) ==> !Shown(ops, i - 1)
  }

  lemma SkipKept(ops: seq<LineOp>, i: nat, file: seq<Line>, p: nat)
    requires i < |ops| && !Shown(ops, i)
    requires p + |OldOf(ops[i..])| <= |file|
    requires OldOf(ops[i..]) == file[p..p + |OldOf(ops[i..])|]
    ensures ops[i].kind == Keep && file[p] == ops[i].text
    ensures OldOf(ops[i..]) == [ops[i].text] + OldOf(ops[i + 1..])
    ensures NewOf(ops[i..]) == [ops[i].text] + NewOf(ops[i + 1..])
    ensures OldOf(ops[i + 1..]) == file[p + 1..p + 1 + |OldOf(ops[i + 1..])|]
  {
    assert ops[i..][1..] == ops[i + 1..];
    var a := OldOf(ops[i..]);
    assert a[0] == file[p];
    assert a[1..] == OldOf(ops[i + 1..]);
  }

  lemma SplitRun(ops: seq<LineOp>, i: nat, end: nat, file: seq<Line>, p: nat)
    requires i <= end <= |ops|
    requires p + |OldOf(ops[i..])| <= |file|
    requires OldOf(ops[i..]) == file[p..p + |OldOf(ops[i..])|]
    ensures OldOf(ops[i..]) == OldOf(ops[i..end]) + OldOf(ops[end..])
    ensures NewOf(ops[i..]) == NewOf(ops[i..end]) + NewOf(ops[end..])
    ensures var n := |OldOf(ops[i..end])|;
            && OldOf(ops[i..end]) == file[p..p + n]
            && OldOf(ops[end..]) == file[p + n..p + n + |OldOf(ops[end..])|]
  {
    assert ops[i..] == ops[i..end] + ops[end..];
    OpsConcat(ops[i..end], ops[end..]);
    var a, n := OldOf(ops[i..]), |OldOf(ops[i..end])|;
    assert a[..n] == OldOf(ops[i..end]) && a[n..] == OldOf(ops[end..]);
  }

  // ---- several changes to one file ----

  /** The old file from keeps[i] on: unchanged stretches with the replaced lines between them. */
  function OldFile(keeps: seq<seq<Line>>, changes: seq<EditChange>, i: nat): seq<Line>
    requires |keeps| == |changes| + 1 && i <= |changes|
    decreases |changes| - i
  {
    if i == |changes| then keeps[i]
    else keeps[i] + (SplitLines(changes[i].before) + OldFile(keeps, changes, i + 1))
  }

  /** The same of the new file. */
  function NewFile(keeps: seq<seq<Line>>, changes: seq<EditChange>, i: nat): seq<Line>
    requires |keeps| == |changes| + 1 && i <= |changes|
    decreases |changes| - i
  {
    if i == |changes| then keeps[i]
    else keeps[i] + (SplitLines(changes[i].after) + NewFile(keeps, changes, i + 1))
  }

  /** From the i-th change on, at is the number of the change's first line in NewFile, of which q lines
      precede keeps[i]; a change with no new text is never placed. */
  predicate Placed(keeps: seq<seq<Line>>, changes: seq<EditChange>, i: nat, q: nat)
    requires |keeps| == |changes| + 1 && i <= |changes|
    decreases |changes| - i
  {
    i < |changes| ==>
      var c := changes[i];
      && c.at == q + |keeps[i]| + 1
      && c.after != ""
      && Placed(keeps, changes, i + 1, q + |keeps[i]| + |SplitLines(c.after)|)
  }

  /** No change from the i-th on inserts below a line of the old file, p of which come before
      keeps[i]: it replaces something, or nothing of the old file is above it. */
  predicate Replaces(keeps: seq<seq<Line>>, changes: seq<EditChange>, i: nat, p: nat)
    requires |keeps| == |changes| + 1 && i <= |changes|
    decreases |changes| - i
  {
    i < |changes| ==>
      var c := changes[i];
      && (c.before != "" || p + |keeps[i]| == 0)
      && Replaces(keeps, changes, i + 1, p + |keeps[i]| + |SplitLines(c.before)|)
  }

  /** A pure insertion is one hunk that names no old line. */
  lemma {:induction false} InsertionHunk(b: seq<Line>, at: nat)
    requires b != []
    ensures HunksFrom(Script([], b), 0, 0, at) == [Hunk(0, 0, at, |b|, Script([], b))]
  {
    var ops := Script([], b);
    ScriptTurns([], b);
    AllOfKind(ops, Add);
    assert ops != [];
    forall k | 0 <= k < |ops|
      ensures Shown(ops, k)
    {
      assert ops[k].kind != Keep;
    }
    assert RunEnd(ops, 0) == |ops|;
    assert ops[0..|ops|] == ops;
  }

  /** A change that replaces lines, read where it stands. */
  lemma {:induction false} ReadReplacement(c: EditChange, shift: int, file: seq<Line>, o: nat, out: seq<Line>, p: nat)
    requires c.before != "" && c.after != ""
    requires c.at == |out| + p - o + 1 && c.at - shift == p + 1
    requires var a := SplitLines(c.before); o <= p && p + |a| <= |file| && a == file[p..p + |a|]
    ensures Wrote(file, o, out, p, SplitLines(c.after), p + |SplitLines(c.before)|,
                  Read(ChangeHunks(c, shift), file, o, out))
  {
    hide HunksFrom, Script, Without, Read, Wrote;
    var ops := Script(SplitLines(c.before), SplitLines(c.after));
    ScriptTurns(SplitLines(c.before), SplitLines(c.after));
    assert ops[0..] == ops;
    ReadHunks(ops, 0, file, o, out, p);
  }

  /** A change that inserts lines reads as its author meant exactly when it is at the top. */
  lemma {:induction false} ReadInsertion(c: EditChange, shift: int, file: seq<Line>, o: nat, out: seq<Line>, p: nat)
    requires c.before == "" && c.after != ""
    requires o <= p <= |file| && c.at == |out| + p - o + 1
    ensures p == 0 ==> Wrote(file, o, out, p, SplitLines(c.after), p, Read(ChangeHunks(c, shift), file, o, out))
    ensures p > 0 ==> Read(ChangeHunks(c, shift), file, o, out) == None
  {
    hide HunksFrom, Script, Without, SplitLines;
    var b := SplitLines(c.after);
    InsertionHunk(b, c.at);
    ScriptTurns([], b);
    var h := Hunk(0, 0, c.at, |b|, Script([], b));
    assert ChangeHunks(c, shift) == [h];
    ReadOne(h, file, o, out);
    if p == 0 {
      assert out + file[0..0] + b + file[0..0] == out + file[0..0] + b;
    }
  }

  lemma {:induction false} ReadOne(h: Hunk, file: seq<Line>, o: nat, out: seq<Line>)
    requires o <= |file|
    ensures Read([h], file, o, out) ==
            if !Fits(h, file, o, out) then None
            else
              var at := LinesAbove(h.oldStart, h.oldCount);
              Some((at + h.oldCount, out + file[o..at] + NewOf(h.body)))
  {
    assert [h][1..] == [];
  }

  lemma {:induction false} ReadChange(c: EditChange, shift: int, file: seq<Line>, o: nat, out: seq<Line>, p: nat)
    requires c.after != "" && c.at == |out| + p - o + 1 && c.at - shift == p + 1
    requires var a := SplitLines(c.before); o <= p && p + |a| <= |file| && a == file[p..p + |a|]
    ensures c.before != "" || p == 0 ==>
              Wrote(file, o, out, p, SplitLines(c.after), p + |SplitLines(c.before)|,
                    Read(ChangeHunks(c, shift), file, o, out))
    ensures c.before == "" && p > 0 ==> Read(ChangeHunks(c, shift), file, o, out) == None
  {
    if c.before != "" {
      ReadReplacement(c, shift, file, o, out, p);
    } else {
      ReadInsertion(c, shift, file, o, out, p);
    }
  }

  /** What one change wrote, then the rest of the file. */
  lemma WroteThen(file: seq<Line>, o: nat, out: seq<Line>, p: nat, keep: seq<Line>, a: seq<Line>, p2: nat,
                  r: Option<(nat, seq<Line>)>, b: seq<Line>, end: Option<(nat, seq<Line>)>)
    requires o <= p && p + |keep| <= p2 <= |file| && keep == file[p..p + |keep|]
    requires Wrote(file, o, out, p + |keep|, a, p2, r)
    requires r.value.0 <= |file| && Wrote(file, r.value.0, r.value.1, p2, b, |file|, end)
    ensures Wrote(file, o, out, p, keep + (a + b), |file|, end)
  {
    assert file[o..p + |keep|] == file[o..p] + keep;
    assert out + file[o..p + |keep|] + a + b == out + file[o..p] + (keep + (a + b));
  }

  lemma {:induction false} ReadPatch(keeps: seq<seq<Line>>, changes: seq<EditChange>, i: nat, file: seq<Line>, o: nat,
                                     out: seq<Line>, p: nat)
    requires |keeps| == |changes| + 1 && i <= |changes|
    requires o <= p <= |file| && file[p..] == OldFile(keeps, changes, i)
    requires Placed(keeps, changes, i, |out| + p - o)
    ensures Replaces(keeps, changes, i, p) ==>
              Wrote(file, o, out, p, NewFile(keeps, changes, i), |file|,
                    Read(PatchFrom(changes, i, |out| - o), file, o, out))
    ensures !Replaces(keeps, changes, i, p) ==> Read(PatchFrom(changes, i, |out| - o), file, o, out) == None
    decreases |changes| - i
  {
    hide ChangeHunks, Wrote, Read, SplitLines;
    var shift := |out| - o;
    if i == |changes| {
      NoHunksRead(file, o, out, p);
    } else {
      var c, keep, p1 := changes[i], keeps[i], p + |keeps[i]|;
      var a, b := SplitLines(c.before), SplitLines(c.after);
      var rest := OldFile(keeps, changes, i + 1);
      Pieces(file, p, keep, a, rest);
      ReadChange(c, shift, file, o, out, p1);
      var hunks, tail := ChangeHunks(c, shift), PatchFrom(changes, i + 1, shift + |b| - |a|);
      ReadConcat(hunks, tail, file, o, out);
      if c.before != "" || p1 == 0 {
        var r := Read(hunks, file, o, out);
        WroteLength(file, o, out, p1, b, p1 + |a|, r);
        ReadPatch(keeps, changes, i + 1, file, r.value.0, r.value.1, p1 + |a|);
        if Replaces(keeps, changes, i, p) {
          WroteThen(file, o, out, p, keep, b, p1 + |a|, r, NewFile(keeps, changes, i + 1),
                    Read(tail, file, r.value.0, r.value.1));
        }
      }
    }
  }

  lemma {:induction false} NoHunksRead(file: seq<Line>, o: nat, out: seq<Line>, p: nat)
    requires o <= p <= |file|
    ensures Wrote(file, o, out, p, file[p..], |file|, Read([], file, o, out))
  {
    assert file[o..] == file[o..p] + file[p..];
    assert file[o..|file|] == file[o..];
    assert out + file[o..p] + file[p..] == out + (file[o..p] + file[p..]);
  }

  lemma Pieces(file: seq<Line>, p: nat, keep: seq<Line>, a: seq<Line>, rest: seq<Line>)
    requires p <= |file| && file[p..] == keep + (a + rest)
    ensures var p1 := p + |keep|; var p2 := p1 + |a|;
            p2 <= |file| && keep == file[p..p1] && a == file[p1..p2] && rest == file[p2..]
  {
    var s := keep + (a + rest);
    assert s[..|keep|] == keep && s[|keep|..|keep| + |a|] == a && s[|keep| + |a|..] == rest;
    assert |s| == |file| - p;
    assert file[p..][..|keep|] == file[p..p + |keep|];
    assert file[p..][|keep|..|keep| + |a|] == file[p + |keep|..p + |keep| + |a|];
    assert file[p..][|keep| + |a|..] == file[p + |keep| + |a|..];
  }

  lemma WroteLength(file: seq<Line>, o: nat, out: seq<Line>, p: nat, text: seq<Line>, p': nat,
                    r: Option<(nat, seq<Line>)>)
    requires o <= p <= |file| && p' <= |file| && Wrote(file, o, out, p, text, p', r)
    ensures r.Some? && r.value.0 <= p' && |r.value.1| + p' - r.value.0 == |out| + p - o + |text|
  {
    var r' := r.value;
    assert |r'.1 + file[r'.0..p']| == |out + file[o..p] + text|;
  }

  /** Reading the patch of placed changes gives NewFile from OldFile if and only if no change inserts below a
      line of OldFile; otherwise some hunk fits nowhere. */
  lemma {:induction false} PatchTurnsOldIntoNew(keeps: seq<seq<Line>>, changes: seq<EditChange>)
    requires |keeps| == |changes| + 1
    requires Placed(keeps, changes, 0, 0)
    ensures Patched(PatchFrom(changes, 0, 0), OldFile(keeps, changes, 0)) ==
            if Replaces(keeps, changes, 0, 0) then Some(NewFile(keeps, changes, 0)) else None
  {
    hide OldFile, NewFile, PatchFrom, Placed, Replaces, Read, Wrote;
    var file := OldFile(keeps, changes, 0);
    assert file[0..] == file;
    ReadPatch(keeps, changes, 0, file, 0, [], 0);
    if Replaces(keeps, changes, 0, 0) {
      WroteAll(file, NewFile(keeps, changes, 0), Read(PatchFrom(changes, 0, 0), file, 0, []));
    }
  }

  lemma WroteAll(file: seq<Line>, text: seq<Line>, r: Option<(nat, seq<Line>)>)
    requires Wrote(file, 0, [], 0, text, |file|, r)
    ensures r.Some? && r.value.0 <= |file| && r.value.1 + file[r.value.0..] == text
  {
    assert file[r.value.0..|file|] == file[r.value.0..];
    assert [] + file[0..0] + text == text;
  }
}
