/** Which lines of the two files the refs of an edit's patch point at, and exactly when they are the lines
    the refs show. */
module DiffFiles {
  import opened DiffRead
  import opened EditScript
  import opened Hunks
  import opened PatchReader
  import opened Text

  // ---- numbers of one hunk ----

  /** The refs of a hunk with every line counted, those that print as file headers too: what the files
      themselves say. */
  function FileRefs(body: seq<LineOp>, o: int, n: int): seq<LineRef> {
    if body == [] then []
    else
      var op := body[0];
      (if HeaderLike(op) then [] else [Ref(if op.kind == Remove then o else n, op.kind, ExpandTabs(op.text))])
      + FileRefs(body[1..], if op.kind == Add then o else o + 1, if op.kind == Remove then n else n + 1)
  }

  /** Once a line has been passed over, its side has no ref any more. */
  predicate Clears(x: LineOp, y: LineOp) {
    HeaderLike(x) && !HeaderLike(y) ==> (if x.kind == Remove then y.kind != Remove else y.kind == Remove)
  }

  /** No removed line that prints as a file header stands before a removed one that keeps its ref, and no
      added one before a kept line or an added one that keeps its ref. */
  ghost predicate Numbered(body: seq<LineOp>) { forall i, j :: 0 <= i < j < |body| ==> Clears(body[i], body[j]) }

  ghost predicate NoOldRefs(body: seq<LineOp>) { forall op :: op in body && op.kind == Remove ==> HeaderLike(op) }

  ghost predicate NoNewRefs(body: seq<LineOp>) { forall op :: op in body && op.kind != Remove ==> HeaderLike(op) }

  lemma NumberedFirst(body: seq<LineOp>)
    requires body != []
    ensures var x, rest := body[0], body[1..];
            Numbered(body) <==>
              Numbered(rest)
              && (HeaderLike(x) && x.kind == Remove ==> NoOldRefs(rest))
              && (HeaderLike(x) && x.kind != Remove ==> NoNewRefs(rest))
  {
    hide HeaderLike;
    var x, rest := body[0], body[1..];
    forall i, j | 0 <= i < j < |rest|
      ensures rest[i] == body[i + 1] && rest[j] == body[j + 1]
    {
    }
    if Numbered(body) {
      forall op | op in rest
        ensures Clears(x, op)
      {
        var k :| 0 <= k < |rest| && rest[k] == op;
        assert Clears(body[0], body[k + 1]);
      }
      forall i, j | 0 <= i < j < |rest|
        ensures Clears(rest[i], rest[j])
      {
        assert Clears(body[i + 1], body[j + 1]);
      }
    }
  }

  lemma RefsFirst(body: seq<LineOp>, o: int, n: int)
    requires body != []
    ensures var op, rest := body[0], body[1..];
            && (BodyRefs(body, o, n) ==
                if HeaderLike(op) then BodyRefs(rest, o, n)
                else
                  [Ref(if op.kind == Remove then o else n, op.kind, ExpandTabs(op.text))]
                  + BodyRefs(rest, if op.kind == Add then o else o + 1, if op.kind == Remove then n else n + 1))
            && (FileRefs(body, o, n) ==
                if HeaderLike(op) then
                  FileRefs(rest, if op.kind == Add then o else o + 1, if op.kind == Remove then n else n + 1)
                else
                  [Ref(if op.kind == Remove then o else n, op.kind, ExpandTabs(op.text))]
                  + FileRefs(rest, if op.kind == Add then o else o + 1, if op.kind == Remove then n else n + 1))
  {
    hide HeaderLike, ExpandTabs;
    assert forall r: seq<LineRef> :: [] + r == r;
  }

  lemma HeaderLikeKind(op: LineOp)
    ensures HeaderLike(op) ==> op.kind != Keep
  {
  }

  /** i removed and j added lines have been passed over so far. */
  lemma {:induction false} RefsAgree(body: seq<LineOp>, o: int, n: int, i: nat, j: nat)
    ensures BodyRefs(body, o, n) == FileRefs(body, o + i, n + j) <==>
            Numbered(body) && (i > 0 ==> NoOldRefs(body)) && (j > 0 ==> NoNewRefs(body))
    decreases |body|
  {
    hide HeaderLike, ExpandTabs, BodyRefs, FileRefs, Numbered;
    if body == [] {
      NothingAgrees(o, n, o + i, n + j);
    } else {
      var op, rest := body[0], body[1..];
      RefsFirst(body, o, n);
      RefsFirst(body, o + i, n + j);
      NumberedFirst(body);
      HeaderLikeKind(op);
      SidesFirst(body);
      if HeaderLike(op) {
        RefsAgree(rest, o, n, if op.kind == Add then i else i + 1, if op.kind == Remove then j else j + 1);
      } else {
        var o', n' := if op.kind == Add then o else o + 1, if op.kind == Remove then n else n + 1;
        RefsAgree(rest, o', n', i, j);
        SameTail(BodyRefs(body, o, n)[0], BodyRefs(rest, o', n'), FileRefs(body, o + i, n + j)[0],
                 FileRefs(rest, o' + i, n' + j));
      }
    }
  }

  lemma {:induction false} NothingAgrees(o: int, n: int, o': int, n': int)
    ensures BodyRefs([], o, n) == FileRefs([], o', n') && Numbered([])
  {
  }

  lemma SidesFirst(body: seq<LineOp>)
    requires body != []
    ensures var op, rest := body[0], body[1..];
            && (NoOldRefs(body) <==> (op.kind == Remove ==> HeaderLike(op)) && NoOldRefs(rest))
            && (NoNewRefs(body) <==> (op.kind != Remove ==> HeaderLike(op)) && NoNewRefs(rest))
  {
    hide HeaderLike;
    assert body == [body[0]] + body[1..];
  }

  lemma SameTail(x: LineRef, xs: seq<LineRef>, y: LineRef, ys: seq<LineRef>)
    ensures [x] + xs == [y] + ys <==> x == y && xs == ys
  {
    if [x] + xs == [y] + ys {
      assert ([x] + xs)[0] == ([y] + ys)[0];
      assert ([x] + xs)[1..] == xs && ([y] + ys)[1..] == ys;
    }
  }

  /** The refs of a hunk are numbered as the files are if and only if no line it passes over is followed by
      one of the same side that keeps its ref. */
  lemma {:induction false} RefsNumberedAsFiles(body: seq<LineOp>, o: int, n: int)
    ensures BodyRefs(body, o, n) == FileRefs(body, o, n) <==> Numbered(body)
  {
    hide BodyRefs, FileRefs, Numbered;
    RefsAgree(body, o, n, 0, 0);
  }

  /** One passed-over line shifts every later ref of its side: y is the second line of the old file, and its
      ref says the first. */
  lemma PassedOverLineShifts()
    ensures var body := [LineOp(Remove, "-- x"), LineOp(Remove, "y"), LineOp(Add, "z")];
            && BodyRefs(body, 1, 1) == [Ref(1, Remove, "y"), Ref(1, Add, "z")]
            && FileRefs(body, 1, 1) == [Ref(2, Remove, "y"), Ref(1, Add, "z")]
            && !PointsInto(BodyRefs(body, 1, 1)[0], ["-- x", "y"], ["z"])
  {
    hide HeaderLike, ExpandTabs, BodyRefs, FileRefs;
    var x, y, z := LineOp(Remove, "-- x"), LineOp(Remove, "y"), LineOp(Add, "z");
    assert [x, y, z][1..] == [y, z] && [y, z][1..] == [z] && [z][1..] == [];
    NoTabs("y");
    NoTabs("z");
    OneHeaderLike();
    RefsFirst([x, y, z], 1, 1);
    RefsFirst([y, z], 1, 1);
    RefsFirst([y, z], 2, 1);
    RefsFirst([z], 2, 1);
    RefsFirst([z], 3, 1);
    NothingAgrees(2, 2, 3, 2);
    NoRefs(2, 2);
  }

  lemma OneHeaderLike()
    ensures HeaderLike(LineOp(Remove, "-- x")) && !HeaderLike(LineOp(Remove, "y")) && !HeaderLike(LineOp(Add, "z"))
  {
    NoTabs("-- x");
    NoTabs("y");
    NoTabs("z");
  }

  lemma {:induction false} NoRefs(o: int, n: int)
    ensures BodyRefs([], o, n) == []
  {
  }

  // ---- numbers of a patch ----

  function PatchFileRefs(hunks: seq<Hunk>): seq<LineRef> {
    if hunks == [] then []
    else [NoRef] + FileRefs(hunks[0].body, hunks[0].oldStart, hunks[0].newStart) + PatchFileRefs(hunks[1..])
  }

  ghost predicate AllNumbered(hunks: seq<Hunk>) { forall h :: h in hunks ==> Numbered(h.body) }

  lemma {:induction false} RefsAsMany(body: seq<LineOp>, o: int, n: int, o': int, n': int)
    ensures |BodyRefs(body, o, n)| == |FileRefs(body, o', n')|
    decreases |body|
  {
    hide HeaderLike, ExpandTabs, BodyRefs, FileRefs;
    if body == [] {
      NothingAgrees(o, n, o', n');
    } else {
      var op := body[0];
      RefsFirst(body, o, n);
      RefsFirst(body, o', n');
      var p, q := if op.kind == Add then o' else o' + 1, if op.kind == Remove then n' else n' + 1;
      RefsAsMany(body[1..], o, n, p, q);
      RefsAsMany(body[1..], if op.kind == Add then o else o + 1, if op.kind == Remove then n else n + 1, p, q);
    }
  }

  lemma SameParts(x: seq<LineRef>, xs: seq<LineRef>, y: seq<LineRef>, ys: seq<LineRef>)
    requires |x| == |y|
    ensures [NoRef] + x + xs == [NoRef] + y + ys <==> x == y && xs == ys
  {
    var a, b := [NoRef] + x + xs, [NoRef] + y + ys;
    assert a[1..][..|x|] == x && b[1..][..|y|] == y;
    assert a[1..][|x|..] == xs && b[1..][|y|..] == ys;
  }

  lemma {:induction false} PatchNumberedAsFiles(hunks: seq<Hunk>)
    ensures PatchRefs(hunks) == PatchFileRefs(hunks) <==> AllNumbered(hunks)
  {
    hide BodyRefs, FileRefs, Numbered;
    if hunks != [] {
      var h := hunks[0];
      var x, y := BodyRefs(h.body, h.oldStart, h.newStart), FileRefs(h.body, h.oldStart, h.newStart);
      RefsAsMany(h.body, h.oldStart, h.newStart, h.oldStart, h.newStart);
      RefsNumberedAsFiles(h.body, h.oldStart, h.newStart);
      PatchNumberedAsFiles(hunks[1..]);
      SameParts(x, PatchRefs(hunks[1..]), y, PatchFileRefs(hunks[1..]));
      assert hunks == [h] + hunks[1..];
    }
  }

  // ---- the lines the numbers name ----

  /** A ref's code is the line at its number: of the new file, or of the old one for a removed line. */
  predicate PointsInto(ref: LineRef, a: seq<Line>, b: seq<Line>) {
    ref.Ref? ==>
      var file := if ref.side == Remove then a else b;
      1 <= ref.line <= |file| && ref.code == ExpandTabs(file[ref.line - 1])
  }

  /** The lines stand in the file, the first with number k; none need stand at 0. */
  ghost predicate StandsFrom(lines: seq<Line>, k: nat, file: seq<Line>) {
    && (lines != [] ==> k > 0)
    && (k > 0 ==> k - 1 + |lines| <= |file| && lines == file[k - 1..k - 1 + |lines|])
  }

  /** The two sides of a body, in the two files. */
  ghost predicate BodyStands(body: seq<LineOp>, o: nat, n: nat, a: seq<Line>, b: seq<Line>) {
    StandsFrom(OldOf(body), o, a) && StandsFrom(NewOf(body), n, b)
  }

  lemma {:induction false} BodyPointsInto(body: seq<LineOp>, o: nat, n: nat, a: seq<Line>, b: seq<Line>)
    requires BodyStands(body, o, n, a, b)
    ensures forall r :: r in FileRefs(body, o, n) ==> PointsInto(r, a, b)
    decreases |body|
  {
    hide HeaderLike, ExpandTabs, FileRefs, BodyStands;
    if body == [] {
      NothingAgrees(o, n, o, n);
    } else {
      RefsFirst(body, o, n);
      FirstPointsInto(body, o, n, a, b);
      RestStands(body, o, n, a, b);
      BodyPointsInto(body[1..], if body[0].kind == Add then o else o + 1,
                     if body[0].kind == Remove then n else n + 1, a, b);
    }
  }

  lemma NextStands(lines: seq<Line>, k: nat, file: seq<Line>)
    requires lines != [] && StandsFrom(lines, k, file)
    ensures 1 <= k <= |file| && lines[0] == file[k - 1]
    ensures StandsFrom(lines[1..], k + 1, file)
  {
    assert lines[0] == file[k - 1..k - 1 + |lines|][0];
    assert lines[1..] == file[k - 1..k - 1 + |lines|][1..];
    assert lines[1..] == file[k..k + |lines[1..]|];
  }

  /** The first op of a body, on the side it is not left out of. */
  lemma {:induction false} WithoutNext(body: seq<LineOp>, kind: Kind)
    requires body != []
    ensures var lines := Without(body, kind);
            if body[0].kind == kind then lines == Without(body[1..], kind)
            else lines != [] && lines[0] == body[0].text && lines[1..] == Without(body[1..], kind)
  {
    var rest := Without(body[1..], kind);
    assert ([body[0].text] + rest)[1..] == rest;
  }

  lemma FirstPointsInto(body: seq<LineOp>, o: nat, n: nat, a: seq<Line>, b: seq<Line>)
    requires body != [] && BodyStands(body, o, n, a, b)
    ensures PointsInto(Ref(if body[0].kind == Remove then o else n, body[0].kind, ExpandTabs(body[0].text)), a, b)
  {
    hide ExpandTabs, StandsFrom, Without;
    WithoutNext(body, Add);
    WithoutNext(body, Remove);
    if body[0].kind == Remove {
      NextStands(OldOf(body), o, a);
    } else {
      NextStands(NewOf(body), n, b);
    }
  }

  lemma RestStands(body: seq<LineOp>, o: nat, n: nat, a: seq<Line>, b: seq<Line>)
    requires body != [] && BodyStands(body, o, n, a, b)
    ensures BodyStands(body[1..], if body[0].kind == Add then o else o + 1,
                       if body[0].kind == Remove then n else n + 1, a, b)
  {
    hide StandsFrom, Without;
    WithoutNext(body, Add);
    WithoutNext(body, Remove);
    if body[0].kind != Add {
      NextStands(OldOf(body), o, a);
    }
    if body[0].kind != Remove {
      NextStands(NewOf(body), n, b);
    }
  }

  lemma {:induction false} HunksPointInto(hunks: seq<Hunk>, file: seq<Line>, o: nat, out: seq<Line>, b: seq<Line>)
    requires o <= |file|
    requires var r := Read(hunks, file, o, out); r.Some? && b == r.value.1 + file[r.value.0..]
    ensures forall r :: r in PatchFileRefs(hunks) ==> PointsInto(r, file, b)
    ensures forall h :: h in hunks ==> h.oldStart <= |file| && h.newStart <= |b|
    ensures out <= b
  {
    hide FileRefs, Without, ExpandTabs;
    if hunks != [] {
      var h := hunks[0];
      var at := LinesAbove(h.oldStart, h.oldCount);
      var out' := out + file[o..at] + NewOf(h.body);
      HunksPointInto(hunks[1..], file, at + h.oldCount, out', b);
      HunkPointsInto(h, file, o, out, b);
      assert hunks == [h] + hunks[1..];
    }
  }

  lemma HunkPointsInto(h: Hunk, file: seq<Line>, o: nat, out: seq<Line>, b: seq<Line>)
    requires Fits(h, file, o, out)
    requires out + file[o..LinesAbove(h.oldStart, h.oldCount)] + NewOf(h.body) <= b
    ensures forall r :: r in FileRefs(h.body, h.oldStart, h.newStart) ==> PointsInto(r, file, b)
    ensures h.oldStart <= |file| && h.newStart <= |b|
    ensures out <= b
  {
    hide FileRefs, PointsInto, Without;
    var at := LinesAbove(h.oldStart, h.oldCount);
    var n := |out| + at - o;
    var out' := out + file[o..at] + NewOf(h.body);
    assert out'[n..] == NewOf(h.body);
    assert b[n..n + h.newCount] == b[..|out'|][n..];
    assert out == b[..|out'|][..|out|];
    BodyPointsInto(h.body, h.oldStart, h.newStart, file, b);
  }

  // ---- the patch of an edit ----

  /** The characters an edit's lines and the headers are made of, and a strip that leaves them alone. */
  ghost predicate LeavesAlone(strip: string -> string, plain: char -> bool) {
    && (forall c :: IsDigit(c) || c in "@ -+," ==> plain(c))
    && (forall s: string :: (forall c :: c in s ==> plain(c)) ==> strip(s) == s)
  }

  ghost predicate PlainText(s: string, plain: char -> bool) { forall c :: c in s ==> c == '\n' || plain(c) }

  /** A line without a newline, of plain characters. */
  ghost predicate PlainLine(line: Line, plain: char -> bool) { '\n' !in line && forall c :: c in line ==> plain(c) }

  lemma {:induction false} SplitKeepsChars(s: string, sep: char)
    ensures forall line, c :: line in Split(s, sep) && c in line ==> c in s
  {
    if s != [] {
      SplitKeepsChars(s[1..], sep);
      var rest := Split(s[1..], sep);
      assert forall line :: line in rest[1..] ==> line in rest;
      assert rest[0] in rest;
    }
  }

  lemma LinesArePlain(s: string, plain: char -> bool)
    requires PlainText(s, plain)
    ensures forall line :: line in SplitLines(s) ==> PlainLine(line, plain)
  {
    hide Split;
    if s != "" {
      SplitLinesHaveNoNewline(s);
      SplitKeepsChars(TrimSuffixNewline(s), '\n');
    }
  }

  lemma {:induction false} TextIn(ops: seq<LineOp>, kind: Kind, op: LineOp)
    requires op in ops && op.kind != kind
    ensures op.text in Without(ops, kind)
  {
    if op == ops[0] {
      assert Without(ops, kind)[0] == op.text;
    } else {
      TextIn(ops[1..], kind, op);
    }
  }

  /** Every op of a script is a line of one of its versions. */
  lemma ScriptTexts(a: seq<Line>, b: seq<Line>, op: LineOp)
    requires op in Script(a, b)
    ensures op.text in a || op.text in b
  {
    hide Script, Without;
    ScriptTurns(a, b);
    TextIn(Script(a, b), if op.kind == Add then Remove else Add, op);
  }

  lemma {:induction false} HunkOps(ops: seq<LineOp>, i: nat, oldLine: nat, newLine: nat, h: Hunk)
    requires i <= |ops| && h in HunksFrom(ops, i, oldLine, newLine)
    ensures forall op :: op in h.body ==> op in ops
    decreases |ops| - i
  {
    hide Shown;
    if !Shown(ops, i) {
      HunkOps(ops, i + 1, Advance(oldLine), Advance(newLine), h);
    } else {
      var end := RunEnd(ops, i);
      var g := HunkOf(ops[i..end], oldLine, newLine);
      if h != g {
        HunkOps(ops, end, AdvanceBy(oldLine, g.oldCount), AdvanceBy(newLine, g.newCount), h);
      }
    }
  }

  ghost predicate PlainChanges(changes: seq<EditChange>, plain: char -> bool) {
    forall c :: c in changes ==> PlainText(c.before, plain) && PlainText(c.after, plain)
  }

  lemma {:induction false} PatchIsPlain(changes: seq<EditChange>, i: nat, shift: int, plain: char -> bool, h: Hunk,
                                        op: LineOp)
    requires i <= |changes| && PlainChanges(changes, plain)
    requires h in PatchFrom(changes, i, shift) && op in h.body
    ensures PlainLine(op.text, plain)
    decreases |changes| - i
  {
    hide HunksFrom, Script, SplitLines, PlainText, PlainLine;
    var c := changes[i];
    var a, b := SplitLines(c.before), SplitLines(c.after);
    if h in ChangeHunks(c, shift) {
      var oldAt: nat := if c.at == 0 || a == [] then 0 else Max(c.at - shift, 1);
      HunkOps(Script(a, b), 0, oldAt, c.at, h);
      ScriptTexts(a, b, op);
      LinesArePlain(c.before, plain);
      LinesArePlain(c.after, plain);
    } else {
      PatchIsPlain(changes, i + 1, shift + |b| - |a|, plain, h, op);
    }
  }

  lemma HeaderIsPlain(h: Hunk, plain: char -> bool)
    requires forall c :: IsDigit(c) || c in "@ -+," ==> plain(c)
    ensures forall c :: c in HeaderLine(h) ==> plain(c)
  {
    hide Decimal, IsDigit;
  }

  lemma SignedIsPlain(op: LineOp, plain: char -> bool)
    requires (forall c :: IsDigit(c) || c in "@ -+," ==> plain(c)) && PlainLine(op.text, plain)
    ensures forall c :: c in [Sign(op.kind)] + op.text ==> plain(c)
  {
    hide IsDigit;
    assert ' ' in "@ -+," && '-' in "@ -+," && '+' in "@ -+,";
  }

  /** The files' sizes and characters make the patch readable. */
  lemma {:induction false} EditIsReadable(changes: seq<EditChange>, strip: string -> string, plain: char -> bool)
    requires LeavesAlone(strip, plain) && PlainChanges(changes, plain)
    requires forall h :: h in PatchFrom(changes, 0, 0) ==> h.oldStart <= MAX_INT && h.newStart <= MAX_INT
    ensures Readable(PatchFrom(changes, 0, 0), strip)
  {
    hide HeaderLine, PatchFrom, PlainChanges, IsDigit, Sign;
    var hunks := PatchFrom(changes, 0, 0);
    forall h | h in hunks
      ensures strip(HeaderLine(h)) == HeaderLine(h)
    {
      HeaderIsPlain(h, plain);
    }
    forall h, op | h in hunks && op in h.body
      ensures '\n' !in op.text && strip([Sign(op.kind)] + op.text) == [Sign(op.kind)] + op.text
    {
      PatchIsPlain(changes, 0, 0, plain, h, op);
      SignedIsPlain(op, plain);
    }
  }

  /** Reading the printed patch of an edit of whole lines gives refs numbered as the two files are if and
      only if no line it passes over is followed, in its hunk, by one of the same side that keeps its ref;
      and those numbers are true: of the old file for a removed line, of the new one for the others. */
  lemma {:induction false} EditRefsPointIntoFiles(keeps: seq<seq<Line>>, changes: seq<EditChange>,
                                                  strip: string -> string,
                               plain: char -> bool)
    requires |keeps| == |changes| + 1
    requires Placed(keeps, changes, 0, 0) && Replaces(keeps, changes, 0, 0)
    requires |OldFile(keeps, changes, 0)| <= MAX_INT && |NewFile(keeps, changes, 0)| <= MAX_INT
    requires LeavesAlone(strip, plain) && PlainChanges(changes, plain)
    requires PatchFrom(changes, 0, 0) != []
    ensures var hunks := PatchFrom(changes, 0, 0);
            && (Refs(Unlines(PatchLines(hunks)), strip) == PatchFileRefs(hunks) <==> AllNumbered(hunks))
            && forall r :: r in PatchFileRefs(hunks) ==>
                 PointsInto(r, OldFile(keeps, changes, 0), NewFile(keeps, changes, 0))
  {
    hide PatchFrom, OldFile, NewFile, Readable, Placed, Replaces, Refs, Unlines, PatchLines, PointsInto, PatchRefs,
         PatchFileRefs,
         AllNumbered, LeavesAlone, PlainChanges;
    var hunks := PatchFrom(changes, 0, 0);
    PatchTurnsOldIntoNew(keeps, changes);
    HunksPointInto(hunks, OldFile(keeps, changes, 0), 0, [], NewFile(keeps, changes, 0));
    EditIsReadable(changes, strip, plain);
    PatchRoundTrip(hunks, strip);
    PatchNumberedAsFiles(hunks);
  }
}
