/** The numbers a patch shows and the reader counts: of every hunk printed, of an edit that was not located,
    and of the lines of a git diff that belong to no file. */
module DiffNumbers {
  import opened DiffRead
  import opened EditScript
  import opened Hunks
  import opened Text

  // ---- the numbers printed ----

  /** The hunk holds ops[j..k] and is numbered by the lines of each version before them, from where the first
      op stands; a side whose first line is not known has no number at all. */
  ghost predicate StandsAt(h: Hunk, ops: seq<LineOp>, i: nat, j: nat, k: nat, oldLine: nat, newLine: nat) {
    && i <= j < k <= |ops| && h.body == ops[j..k]
    && h.oldStart == (if oldLine == 0 then 0 else oldLine + |OldOf(ops[i..j])|) && h.oldCount == |OldOf(h.body)|
    && h.newStart == (if newLine == 0 then 0 else newLine + |NewOf(ops[i..j])|) && h.newCount == |NewOf(h.body)|
  }

  lemma {:induction false} HunkStands(ops: seq<LineOp>, i: nat, oldLine: nat, newLine: nat, h: Hunk)
    returns (j: nat, k: nat)
    requires i <= |ops| && h in HunksFrom(ops, i, oldLine, newLine)
    ensures StandsAt(h, ops, i, j, k, oldLine, newLine)
    decreases |ops| - i
  {
    hide StandsAt, Shown, OldOf, NewOf;
    if !Shown(ops, i) {
      j, k := HunkStands(ops, i + 1, Advance(oldLine), Advance(newLine), h);
      StandsPastKept(h, ops, i, j, k, oldLine, newLine);
    } else {
      var end := RunEnd(ops, i);
      var g := HunkOf(ops[i..end], oldLine, newLine);
      if h == g {
        j, k := i, end;
        StandsHere(ops, i, end, oldLine, newLine);
      } else {
        j, k := HunkStands(ops, end, AdvanceBy(oldLine, g.oldCount), AdvanceBy(newLine, g.newCount), h);
        StandsPastRun(h, ops, i, end, j, k, oldLine, newLine);
      }
    }
  }

  lemma StandsHere(ops: seq<LineOp>, i: nat, end: nat, oldLine: nat, newLine: nat)
    requires i < end <= |ops|
    ensures StandsAt(HunkOf(ops[i..end], oldLine, newLine), ops, i, i, end, oldLine, newLine)
  {
    assert ops[i..i] == [];
  }

  lemma StandsPastKept(h: Hunk, ops: seq<LineOp>, i: nat, j: nat, k: nat, oldLine: nat, newLine: nat)
    requires i < |ops| && !Shown(ops, i)
    requires StandsAt(h, ops, i + 1, j, k, Advance(oldLine), Advance(newLine))
    ensures StandsAt(h, ops, i, j, k, oldLine, newLine)
  {
    hide OldOf, NewOf;
    assert ops[i].kind == Keep;
    assert ops[i..j] == [ops[i]] + ops[i + 1..j];
    OpsConcat([ops[i]], ops[i + 1..j]);
    OneOp(ops[i]);
  }

  lemma StandsPastRun(h: Hunk, ops: seq<LineOp>, i: nat, end: nat, j: nat, k: nat, oldLine: nat, newLine: nat)
    requires i <= end <= |ops|
    requires var run := ops[i..end];
             StandsAt(h, ops, end, j, k, AdvanceBy(oldLine, |OldOf(run)|), AdvanceBy(newLine, |NewOf(run)|))
    ensures StandsAt(h, ops, i, j, k, oldLine, newLine)
  {
    hide OldOf, NewOf;
    assert ops[i..j] == ops[i..end] + ops[end..j];
    OpsConcat(ops[i..end], ops[end..j]);
  }

  /** How many lines the changes above one add, less those they remove. */
  function Grown(changes: seq<EditChange>): int {
    if changes == [] then 0
    else |SplitLines(changes[0].after)| - |SplitLines(changes[0].before)| + Grown(changes[1..])
  }

  /** A hunk of one change: unnumbered when the change was not located; else the new number counts from the
      change's line, and the old one from as far above it as the changes before have grown, no earlier than
      the first line, and not at all for an insertion. */
  ghost predicate Numbers(h: Hunk, c: EditChange, grown: int) {
    var a, b := SplitLines(c.before), SplitLines(c.after);
    exists j: nat, k: nat :: j < k <= |Script(a, b)| && h.body == Script(a, b)[j..k]
      && (c.at == 0 ==> h.oldStart == 0 && h.newStart == 0)
      && (c.at > 0 ==>
            && h.newStart == c.at + |NewOf(Script(a, b)[..j])|
            && (a == [] ==> h.oldStart == 0)
            && (a != [] ==>
                  h.oldStart == (if c.at - grown < 1 then 1 else c.at - grown) + |OldOf(Script(a, b)[..j])|))
  }

  lemma ChangeNumbers(c: EditChange, shift: int, h: Hunk)
    requires h in ChangeHunks(c, shift)
    ensures Numbers(h, c, shift)
  {
    hide Script, SplitLines, OldOf, NewOf, HunksFrom;
    var a, b := SplitLines(c.before), SplitLines(c.after);
    var oldAt: nat := if c.at == 0 || a == [] then 0 else Max(c.at - shift, 1);
    var j, k := HunkStands(Script(a, b), 0, oldAt, c.at, h);
    assert Script(a, b)[0..j] == Script(a, b)[..j];
  }

  /** Every hunk of a patch is numbered by its own change and the growth of those above it. */
  lemma {:induction false} PatchNumbers(changes: seq<EditChange>, i: nat, shift: int, h: Hunk) returns (n: nat)
    requires i <= |changes| && h in PatchFrom(changes, i, shift)
    ensures i <= n < |changes| && Numbers(h, changes[n], shift + Grown(changes[i..n]))
    decreases |changes| - i
  {
    hide Numbers, ChangeHunks, SplitLines;
    var c := changes[i];
    if h in ChangeHunks(c, shift) {
      n := i;
      ChangeNumbers(c, shift, h);
      assert changes[i..i] == [];
    } else {
      n := PatchNumbers(changes, i + 1, shift + |SplitLines(c.after)| - |SplitLines(c.before)|, h);
      assert changes[i..n][0] == c && changes[i..n][1..] == changes[i + 1..n];
    }
  }

  /** A hunk of a whole edit, by the change it belongs to. */
  lemma EditNumbers(changes: seq<EditChange>, h: Hunk) returns (n: nat)
    requires h in PatchFrom(changes, 0, 0)
    ensures n < |changes| && Numbers(h, changes[n], Grown(changes[..n]))
  {
    hide Numbers, PatchFrom;
    n := PatchNumbers(changes, 0, 0, h);
    assert changes[0..n] == changes[..n];
  }

  // ---- the numbers drawn ----

  /** The row of one op when the next lines are o and n, and the next after it; 0 is no number, and stays so. */
  function OpRows(op: LineOp, o: nat, n: nat): (seq<Row>, nat, nat) {
    var code := ExpandTabs(op.text);
    var o', n' := if o == 0 then 0 else o + 1, if n == 0 then 0 else n + 1;
    if HeaderLike(op) then ([], o, n)
    else match op.kind
      case Keep => ([Code(o, n, " " + code)], o', n')
      case Remove => ([Code(o, 0, "-" + code)], o', n)
      case Add => ([Code(0, n, "+" + code)], o, n')
  }

  function BodyRows(body: seq<LineOp>, o: nat, n: nat): seq<Row> {
    if body == [] then []
    else
      var s := OpRows(body[0], o, n);
      s.0 + BodyRows(body[1..], s.1, s.2)
  }

  function PatchRows(hunks: seq<Hunk>): seq<Row> {
    if hunks == [] then []
    else
      var h := hunks[0];
      [Rule(h.newStart)] + BodyRows(h.body, h.oldStart, h.newStart) + PatchRows(hunks[1..])
  }

  lemma HeaderRow(h: Hunk, strip: string -> string, o: int, n: int)
    requires h.oldStart <= MAX_INT && h.newStart <= MAX_INT && strip(HeaderLine(h)) == HeaderLine(h)
    ensures RowStep(Clean(HeaderLine(h), strip), o, n) == ([Rule(h.newStart)], h.oldStart, h.newStart)
  {
    hide Starts, HeaderLine, ExpandTabs;
    HeaderChars(h);
    NoTabs(HeaderLine(h));
    HeaderRoundTrip(h);
  }

  lemma OpRow(op: LineOp, strip: string -> string, o: nat, n: nat)
    requires strip([Sign(op.kind)] + op.text) == [Sign(op.kind)] + op.text
    ensures RowStep(Clean([Sign(op.kind)] + op.text, strip), o, n) == OpRows(op, o, n)
  {
    hide RefClass, RowClass;
    var code := ExpandTabs(op.text);
    var line := [Sign(op.kind)] + code;
    assert ([Sign(op.kind)] + op.text)[1..] == op.text;
    assert Clean([Sign(op.kind)] + op.text, strip) == line;
    ClassOfOp(op.kind, code);
    SameClass(line);
  }

  lemma {:induction false} FirstRow(line: string, rest: seq<string>, strip: string -> string, o: int, n: int)
    ensures var s := RowStep(Clean(line, strip), o, n);
            RowsFrom([line] + rest, strip, o, n) == s.0 + RowsFrom(rest, strip, s.1, s.2)
  {
    assert ([line] + rest)[0] == line && ([line] + rest)[1..] == rest;
  }

  lemma NoRows(s: seq<Row>)
    ensures [] + s == s
  {
  }

  lemma {:induction false} ReadBodyRows(body: seq<LineOp>, more: seq<string>, strip: string -> string, o: nat, n: nat)
    returns (o': nat, n': nat)
    requires forall op :: op in body ==> strip([Sign(op.kind)] + op.text) == [Sign(op.kind)] + op.text
    ensures RowsFrom(OpLines(body) + more, strip, o, n) == BodyRows(body, o, n) + RowsFrom(more, strip, o', n')
    decreases |body|
  {
    hide RowStep, Clean, OpRows, RowsFrom;
    if body == [] {
      assert OpLines(body) + more == more;
      NoRows(RowsFrom(more, strip, o, n));
      o', n' := o, n;
    } else {
      var op := body[0];
      var line, s := [Sign(op.kind)] + op.text, OpRows(op, o, n);
      assert OpLines(body) + more == [line] + (OpLines(body[1..]) + more);
      FirstRow(line, OpLines(body[1..]) + more, strip, o, n);
      OpRow(op, strip, o, n);
      o', n' := ReadBodyRows(body[1..], more, strip, s.1, s.2);
    }
  }

  lemma {:induction false} ReadPatchRows(hunks: seq<Hunk>, strip: string -> string, o: int, n: int)
    requires Readable(hunks, strip)
    ensures RowsFrom(PatchLines(hunks), strip, o, n) == PatchRows(hunks)
    decreases |hunks|
  {
    hide RowStep, Clean, HeaderLine, BodyRows, OpLines, Readable, RowsFrom;
    if hunks == [] {
      NoLinesNoRows(strip, o, n);
    } else {
      var h, more := hunks[0], PatchLines(hunks[1..]);
      FirstReadable(hunks, strip);
      HeaderRow(h, strip, o, n);
      assert PatchLines(hunks) == [HeaderLine(h)] + (OpLines(h.body) + more);
      FirstRow(HeaderLine(h), OpLines(h.body) + more, strip, o, n);
      var o', n' := ReadBodyRows(h.body, more, strip, h.oldStart, h.newStart);
      ReadPatchRows(hunks[1..], strip, o', n');
    }
  }

  lemma {:induction false} NoLinesNoRows(strip: string -> string, o: int, n: int)
    ensures RowsFrom([], strip, o, n) == []
  {
  }

  /** Drawing a printed patch gives each line of each hunk the numbers counted from the hunk's header. */
  lemma {:induction false} RowsRoundTrip(hunks: seq<Hunk>, strip: string -> string)
    requires hunks != [] && Readable(hunks, strip)
    ensures Rows(Unlines(PatchLines(hunks)), strip) == PatchRows(hunks)
  {
    hide Unlines, HeaderLine, PatchRows;
    PatchLinesReadable(hunks, strip);
    LinesRoundTrip(PatchLines(hunks));
    ReadPatchRows(hunks, strip, 0, 0);
  }

  // ---- an edit that was not located ----

  predicate Unnumbered(rows: seq<Row>) {
    forall i :: 0 <= i < |rows| ==>
      match rows[i]
      case Code(o, n, _) => o == 0 && n == 0
      case Rule(n) => n == 0
      case Quiet(_) => true
  }

  lemma {:induction false} BodyUnnumbered(body: seq<LineOp>)
    ensures Unnumbered(BodyRows(body, 0, 0))
  {
    hide HeaderLike, ExpandTabs;
    if body != [] {
      BodyUnnumbered(body[1..]);
    }
  }

  lemma {:induction false} PatchUnnumbered(hunks: seq<Hunk>)
    requires forall h :: h in hunks ==> h.oldStart == 0 && h.newStart == 0
    ensures Unnumbered(PatchRows(hunks))
  {
    hide BodyRows;
    if hunks != [] {
      BodyUnnumbered(hunks[0].body);
      PatchUnnumbered(hunks[1..]);
    }
  }

  /** No change of the edit was located: every hunk stands at 0, and no row shows a number. */
  lemma {:induction false} UnlocatedShowsNoNumber(changes: seq<EditChange>, strip: string -> string)
    requires forall i :: 0 <= i < |changes| ==> changes[i].at == 0
    ensures forall h :: h in PatchFrom(changes, 0, 0) ==> h.oldStart == 0 && h.newStart == 0
    ensures var hunks := PatchFrom(changes, 0, 0);
            (if hunks == [] then strip("") == "" else Readable(hunks, strip)) ==>
              Unnumbered(Rows(Unlines(PatchLines(hunks)), strip))
  {
    hide PatchFrom, Readable, Rows, Unlines, PatchLines, PatchRows, Unnumbered;
    var hunks := PatchFrom(changes, 0, 0);
    forall h | h in hunks
      ensures h.oldStart == 0 && h.newStart == 0
    {
      var n := EditNumbers(changes, h);
    }
    PatchUnnumbered(hunks);
    if hunks == [] {
      NothingUnnumbered(strip);
    } else if Readable(hunks, strip) {
      RowsRoundTrip(hunks, strip);
    }
  }

  lemma NothingUnnumbered(strip: string -> string)
    ensures strip("") == "" ==> Unnumbered(Rows(Unlines(PatchLines([])), strip))
  {
    if strip("") == "" {
      assert Clean("", strip) == "";
      assert RowStep("", 0, 0) == ([Code(0, 0, "")], 0, 0);
      assert RowsFrom([""], strip, 0, 0) == [Code(0, 0, "")] + RowsFrom([""][1..], strip, 0, 0);
    }
  }

  // ---- what a header's numbers are ----

  /** The number of the last of the fields that is this sign and a number, up to a comma. */
  function LastSigned(fields: seq<string>, sign: char): Option<int> {
    if fields == [] then None
    else
      var f, last := fields[|fields| - 1], fields[..|fields| - 1];
      if |f| >= 2 && f[0] == sign && Atoi(Before(f[1..], ',')).Some? then Atoi(Before(f[1..], ','))
      else LastSigned(last, sign)
  }

  lemma {:induction false} StartsInTwo(x: seq<string>, y: seq<string>, o: int, n: int)
    ensures var s := StartsFrom(x, o, n); StartsFrom(x + y, o, n) == StartsFrom(y, s.0, s.1)
    decreases |x|
  {
    hide Atoi, Before, StartsFrom;
    if x == [] {
      assert x + y == y && [] + y == y;
      NoStarts(o, n);
    } else {
      assert x + y == [x[0]] + (x[1..] + y) && x == [x[0]] + x[1..];
      OneStart(x[0], x[1..] + y, o, n);
      OneStart(x[0], x[1..], o, n);
      var s := StartsFrom([x[0]], o, n);
      StartsInTwo(x[1..], y, s.0, s.1);
    }
  }

  lemma {:induction false} NoStarts(o: int, n: int)
    ensures StartsFrom([], o, n) == (o, n)
  {
  }

  lemma {:induction false} OneStart(field: string, rest: seq<string>, o: int, n: int)
    ensures var s := StartsFrom([field], o, n); StartsFrom([field] + rest, o, n) == StartsFrom(rest, s.0, s.1)
    ensures StartsFrom([field], o, n) ==
            if |field| < 2 || Atoi(Before(field[1..], ',')).None? then (o, n)
            else if field[0] == '-' then (Atoi(Before(field[1..], ',')).value, n)
            else if field[0] == '+' then (o, Atoi(Before(field[1..], ',')).value)
            else (o, n)
  {
    hide Atoi, Before;
    assert ([field] + rest)[0] == field && ([field] + rest)[1..] == rest;
    assert [field][1..] == [];
  }

  /** A header's numbers are its last signed ones. */
  lemma {:induction false} StartsAreLast(fields: seq<string>, o: int, n: int)
    ensures var a, b := LastSigned(fields, '-'), LastSigned(fields, '+');
            StartsFrom(fields, o, n) == (if a.Some? then a.value else o, if b.Some? then b.value else n)
    decreases |fields|
  {
    hide Atoi, Before, StartsFrom;
    if fields == [] {
      NoStarts(o, n);
    } else {
      var f, last := fields[|fields| - 1], fields[..|fields| - 1];
      assert fields == last + [f];
      StartsAreLast(last, o, n);
      StartsInTwo(last, [f], o, n);
      OneStart(f, [], StartsFrom(last, o, n).0, StartsFrom(last, o, n).1);
    }
  }

  lemma {:induction false} HeaderWithText(h: Hunk, text: string)
    ensures Fields(HeaderLine(h) + " " + text) ==
            ["@@", Side('-', h.oldStart, h.oldCount), Side('+', h.newStart, h.newCount), "@@"] + Fields(text)
  {
    hide Side, HeaderLine, Fields, IsSpace;
    var a, b := Side('-', h.oldStart, h.oldCount), Side('+', h.newStart, h.newCount);
    HeaderSides(h);
    SideIsWord('-', h.oldStart, h.oldCount);
    SideIsWord('+', h.newStart, h.newCount);
    AtsAreWord();
    OneField("@@", text);
    OneField(b, "@@" + " " + text);
    OneField(a, b + " " + ("@@" + " " + text));
    OneField("@@", a + " " + (b + " " + ("@@" + " " + text)));
    assert HeaderLine(h) + " " + text == "@@" + " " + (a + " " + (b + " " + ("@@" + " " + text)));
  }

  /** git can write text behind a header. The numbers are still read right if and only if the last word of
      that text which is a minus sign and a number, if there is one, has the old one, and so with a plus sign
      and the new one. */
  lemma {:induction false} TextBehindHeader(h: Hunk, text: string)
    requires h.oldStart <= MAX_INT && h.newStart <= MAX_INT
    ensures var a, b := LastSigned(Fields(text), '-'), LastSigned(Fields(text), '+');
            Starts(HeaderLine(h) + " " + text) == (h.oldStart, h.newStart) <==>
            (a.None? || a.value == h.oldStart) && (b.None? || b.value == h.newStart)
  {
    hide StartsFrom, Fields, HeaderLine, LastSigned, Side;
    HeaderWithText(h, text);
    HeaderFields(h);
    HeaderRoundTrip(h);
    StartsInTwo(Fields(HeaderLine(h)), Fields(text), 0, 0);
    StartsAreLast(Fields(text), h.oldStart, h.newStart);
  }

  /** A function's line with a "-5" in it: the hunk at 1 is read as one at 5. */
  lemma TextCanRenumber()
    ensures Starts(HeaderLine(Hunk(1, 1, 1, 1, [])) + " " + "x -5") == (5, 1)
  {
    hide StartsFrom, Fields, HeaderLine, Side, Atoi, Before;
    var h := Hunk(1, 1, 1, 1, []);
    HeaderWithText(h, "x -5");
    HeaderFields(h);
    HeaderRoundTrip(h);
    StartsInTwo(Fields(HeaderLine(h)), Fields("x -5"), 0, 0);
    MinusFive();
    assert ["x", "-5"] == ["x"] + ["-5"];
    OneStart("x", ["-5"], 1, 1);
    OneStart("-5", [], 1, 1);
  }

  lemma MinusFive()
    ensures Fields("x -5") == ["x", "-5"] && Atoi(Before("-5"[1..], ',')) == Some(5)
  {
    hide IsSpace, Atoi, IsWord;
    Words();
    OneField("x", "-5");
    FieldsFirst("-5", "");
    assert "-5" + "" == "-5" && "x" + " " + "-5" == "x -5" && "-5"[1..] == "5";
    assert Fields("") == [];
    SplitOne("5", ',');
    FiveReads();
  }

  lemma Words()
    ensures IsWord("x") && IsWord("-5")
  {
  }

  lemma FiveReads()
    ensures Atoi("5") == Some(5)
  {
    assert Decimal(5) == [Digit(5)];
    AtoiOfDecimal(5);
  }

  // ---- lines that belong to no file ----

  /** Where the counters stand after lines. */
  function RefsEnd(lines: seq<string>, strip: string -> string, o: int, n: int): (int, int) {
    if lines == [] then (o, n)
    else
      var s := RefStep(Clean(lines[0], strip), o, n);
      RefsEnd(lines[1..], strip, s.1, s.2)
  }

  function RowsEnd(lines: seq<string>, strip: string -> string, o: int, n: int): (int, int) {
    if lines == [] then (o, n)
    else
      var s := RowStep(Clean(lines[0], strip), o, n);
      RowsEnd(lines[1..], strip, s.1, s.2)
  }

  lemma {:induction false} RefsInTwo(x: seq<string>, y: seq<string>, strip: string -> string, o: int, n: int)
    ensures var e := RefsEnd(x, strip, o, n);
            RefsFrom(x + y, strip, o, n) == RefsFrom(x, strip, o, n) + RefsFrom(y, strip, e.0, e.1)
    decreases |x|
  {
    hide RefStep, Clean;
    if x == [] {
      assert x + y == y;
    } else {
      assert (x + y)[0] == x[0] && (x + y)[1..] == x[1..] + y;
      var s := RefStep(Clean(x[0], strip), o, n);
      RefsInTwo(x[1..], y, strip, s.1, s.2);
    }
  }

  lemma {:induction false} RowsInTwo(x: seq<string>, y: seq<string>, strip: string -> string, o: int, n: int)
    ensures var e := RowsEnd(x, strip, o, n);
            RowsFrom(x + y, strip, o, n) == RowsFrom(x, strip, o, n) + RowsFrom(y, strip, e.0, e.1)
    decreases |x|
  {
    hide RowStep, Clean;
    if x == [] {
      assert x + y == y;
    } else {
      assert (x + y)[0] == x[0] && (x + y)[1..] == x[1..] + y;
      var s := RowStep(Clean(x[0], strip), o, n);
      RowsInTwo(x[1..], y, strip, s.1, s.2);
    }
  }

  /** What stands between x and y, as refs and as rows. */
  lemma {:induction false} LineBetween(x: seq<string>, line: string, y: seq<string>, strip: string -> string)
    ensures var e := RefsEnd(x, strip, 0, 0);
            var s := RefStep(Clean(line, strip), e.0, e.1);
            Refs3(x, line, y, strip) == RefsFrom(x, strip, 0, 0) + (s.0 + RefsFrom(y, strip, s.1, s.2))
    ensures var e := RowsEnd(x, strip, 0, 0);
            var s := RowStep(Clean(line, strip), e.0, e.1);
            Rows3(x, line, y, strip) == RowsFrom(x, strip, 0, 0) + (s.0 + RowsFrom(y, strip, s.1, s.2))
  {
    hide RefStep, RowStep, Clean;
    var e, f := RefsEnd(x, strip, 0, 0), RowsEnd(x, strip, 0, 0);
    RefsInTwo(x, [line] + y, strip, 0, 0);
    RowsInTwo(x, [line] + y, strip, 0, 0);
    FirstLine(line, y, strip, e.0, e.1);
    FirstRow(line, y, strip, f.0, f.1);
  }

  function Refs3(x: seq<string>, line: string, y: seq<string>, strip: string -> string): seq<LineRef> {
    RefsFrom(x + ([line] + y), strip, 0, 0)
  }

  function Rows3(x: seq<string>, line: string, y: seq<string>, strip: string -> string): seq<Row> {
    RowsFrom(x + ([line] + y), strip, 0, 0)
  }

  /** The lines git writes about a file rather than of it; the first is of "\ No newline at end of file". */
  const NOTES: seq<string> := ["\\", "new file mode", "deleted file mode", "rename from", "rename to", "Binary files",
                               "old mode", "new mode"]

  /** And those that only name the file again. */
  const NAMES: seq<string> := ["diff --git", "index ", "--- ", "+++ ", "similarity index"]

  lemma NoteClass(line: string, p: string)
    requires p in NOTES && p <= line
    ensures RefClass(line) == Note && RowClass(line) == Note
  {
    FirstLetters(line, p);
    if p == "\\" {
      assert line[0] == '\\';
    }
  }

  lemma FirstLetters(line: string, p: string)
    requires p in NOTES && p <= line
    ensures !IsHeader(line)
  {
    assert line[0] == p[0];
    if p == "deleted file mode" {
      assert line[1] == 'e';
    }
  }

  lemma NameClass(line: string, p: string)
    requires p in NAMES && p <= line
    ensures RefClass(line) == Header && RowClass(line) == Header
  {
  }

  /** A line about the file put anywhere into a diff: one ref that points nowhere, one quiet row, and every
      other ref, row and number as before. */
  lemma {:induction false} NoteTakesNoNumber(x: seq<string>, line: string, y: seq<string>, strip: string -> string,
                                             p: string)
    requires p in NOTES && p <= Clean(line, strip)
    ensures var refs, at := RefsFrom(x + y, strip, 0, 0), |RefsFrom(x, strip, 0, 0)|;
            at <= |refs| && Refs3(x, line, y, strip) == refs[..at] + [NoRef] + refs[at..]
    ensures var rows, at := RowsFrom(x + y, strip, 0, 0), |RowsFrom(x, strip, 0, 0)|;
            at <= |rows| && Rows3(x, line, y, strip) == rows[..at] + [Quiet("  " + Clean(line, strip))] + rows[at..]
  {
    hide RefClass, RowClass, Clean, RefsFrom, RowsFrom;
    NoteClass(Clean(line, strip), p);
    LineBetween(x, line, y, strip);
    RefsInTwo(x, y, strip, 0, 0);
    RowsInTwo(x, y, strip, 0, 0);
  }

  /** A line that names the file: no ref and no row, and nothing else moves. */
  lemma {:induction false} NameTakesNoRow(x: seq<string>, line: string, y: seq<string>, strip: string -> string,
                                          p: string)
    requires p in NAMES && p <= Clean(line, strip)
    ensures Refs3(x, line, y, strip) == RefsFrom(x + y, strip, 0, 0)
    ensures Rows3(x, line, y, strip) == RowsFrom(x + y, strip, 0, 0)
  {
    hide RefClass, RowClass, Clean, RefsFrom, RowsFrom;
    NameClass(Clean(line, strip), p);
    LineBetween(x, line, y, strip);
    RefsInTwo(x, y, strip, 0, 0);
    RowsInTwo(x, y, strip, 0, 0);
  }

  /** git's mark for a last line without a newline, between the two: each is line 1 of its file. */
  lemma NoNewlineIsNoLine(note: string, strip: string -> string)
    requires "\\" <= note && '\t' !in note
    requires forall s: string :: strip(s) == s
    ensures RefsFrom([HeaderLine(Hunk(1, 1, 1, 1, [])), "-a", note, "+b"], strip, 0, 0) ==
            [NoRef, Ref(1, Remove, "a"), NoRef, Ref(1, Add, "b")]
  {
    hide HeaderLine, RefStep, Clean, RefsFrom, RowsFrom, PatchLines, PatchRefs, Readable, Refs3, Rows3;
    var h := Hunk(1, 1, 1, 1, [LineOp(Remove, "a"), LineOp(Add, "b")]);
    var header := HeaderLine(h);
    SameHeader(h);
    OneReadable(h, strip);
    ReadPatchLines([h], strip, 0, 0);
    OneHunk(h);
    NoTabs(note);
    CleanIs(note, strip);
    NoteTakesNoNumber([header, "-a"], note, ["+b"], strip, "\\");
    TwoRefs(header, strip, h);
    Regrouped(header, note, strip);
    RefBetween(Ref(1, Remove, "a"), Ref(1, Add, "b"));
  }

  lemma RefBetween(x: LineRef, y: LineRef)
    ensures var refs := [NoRef, x, y]; refs[..2] + [NoRef] + refs[2..] == [NoRef, x, NoRef, y]
  {
  }

  lemma Regrouped(header: string, note: string, strip: string -> string)
    ensures [header, "-a"] + ["+b"] == [header, "-a", "+b"]
    ensures Refs3([header, "-a"], note, ["+b"], strip) == RefsFrom([header, "-a", note, "+b"], strip, 0, 0)
  {
    hide RefsFrom;
    assert [header, "-a"] + ([note] + ["+b"]) == [header, "-a", note, "+b"];
  }

  lemma OneReadable(h: Hunk, strip: string -> string)
    requires h == Hunk(1, 1, 1, 1, [LineOp(Remove, "a"), LineOp(Add, "b")])
    requires forall s: string :: strip(s) == s
    ensures Readable([h], strip)
  {
    hide HeaderLine, Sign;
  }

  lemma SameHeader(h: Hunk)
    ensures HeaderLine(h) == HeaderLine(h.(body := []))
  {
  }

  lemma {:induction false} CleanIs(line: string, strip: string -> string)
    requires strip(line) == line
    ensures Clean(line, strip) == ExpandTabs(line)
  {
  }

  lemma OneHunk(h: Hunk)
    requires h == Hunk(1, 1, 1, 1, [LineOp(Remove, "a"), LineOp(Add, "b")])
    ensures PatchLines([h]) == [HeaderLine(h), "-a", "+b"]
    ensures PatchRefs([h]) == [NoRef, Ref(1, Remove, "a"), Ref(1, Add, "b")]
  {
    hide HeaderLine;
    assert [Sign(Remove)] + "a" == "-a" && [Sign(Add)] + "b" == "+b";
    assert OpLines(h.body) == ["-a", "+b"];
    assert PatchLines([h][1..]) == [];
    NoTabs("a");
    NoTabs("b");
    assert h.body[1..] == [LineOp(Add, "b")] && h.body[1..][1..] == [];
    assert PatchRefs([h][1..]) == [];
  }

  lemma TwoRefs(header: string, strip: string -> string, h: Hunk)
    requires h == Hunk(1, 1, 1, 1, [LineOp(Remove, "a"), LineOp(Add, "b")]) && header == HeaderLine(h)
    requires forall s: string :: strip(s) == s
    ensures |RefsFrom([header, "-a"], strip, 0, 0)| == 2
  {
    hide HeaderLine, RefStep, Clean;
    HeaderStep(h, strip, 0, 0);
    NoTabs("a");
    OpStep(LineOp(Remove, "a"), strip, 1, 1);
    assert [Sign(Remove)] + "a" == "-a";
    assert [header, "-a"][1..] == ["-a"] && ["-a"][1..] == [];
    assert !HeaderLike(LineOp(Remove, "a"));
  }

  /** A tab is shown as four spaces, and any other character as itself. */
  lemma {:induction false} TabsAreFour(c: char, rest: string)
    ensures ExpandTabs([c] + rest) == (if c == '\t' then [' ', ' ', ' ', ' '] else [c]) + ExpandTabs(rest)
  {
    assert ([c] + rest)[1..] == rest && "    " == [' ', ' ', ' ', ' '];
  }
}
