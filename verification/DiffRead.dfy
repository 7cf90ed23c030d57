/** Reading a unified diff back: the line of a file each drawn row points at (diffLineRefs), and the
    numbers drawn beside the rows (diffRows). strip stands for the terminal library's removal of
    escape sequences. */
module DiffRead {
  import opened EditScript
  import opened Hunks
  import opened Text

  /** A line by number and text; side says in which file the number counts: the old one for Remove. */
  datatype LineRef = NoRef | Ref(line: int, side: Kind, code: string)

  /** A row as drawn, without its styling: a quiet line, a hunk's rule, or code with the numbers of
      its gutter (blank when not positive). */
  datatype Row = Quiet(text: string) | Rule(line: int) | Code(oldNo: int, newNo: int, text: string)

  datatype LineClass = Header | Note | HunkRule | Plus | Minus | Context

  function ExpandTabs(s: string): string {
    if s == "" then "" else (if s[0] == '\t' then "    " else [s[0]]) + ExpandTabs(s[1..])
  }

  predicate IsHeader(line: string) {
    "diff --git" <= line || "index " <= line || "--- " <= line || "+++ " <= line || "similarity index" <= line
  }

  predicate IsModeChange(line: string) {
    || "new file mode" <= line || "deleted file mode" <= line || "rename from" <= line || "rename to" <= line
    || "Binary files" <= line || "old mode" <= line || "new mode" <= line
  }

  function RefClass(line: string): LineClass {
    if IsHeader(line) then Header
    else if IsModeChange(line) || "\\" <= line then Note
    else if "@@" <= line then HunkRule
    else if "+" <= line then Plus
    else if "-" <= line then Minus
    else Context
  }

  /** The drawing tests the same prefixes, the backslash later. */
  function RowClass(line: string): LineClass {
    if IsHeader(line) then Header
    else if IsModeChange(line) then Note
    else if "@@" <= line then HunkRule
    else if "+" <= line then Plus
    else if "-" <= line then Minus
    else if "\\" <= line then Note
    else Context
  }

  // ---- a hunk's header ----

  function StartsFrom(fields: seq<string>, o: int, n: int): (int, int) {
    if fields == [] then (o, n)
    else if |fields[0]| < 2 then StartsFrom(fields[1..], o, n)
    else match Atoi(Before(fields[0][1..], ','))
      case None => StartsFrom(fields[1..], o, n)
      case Some(v) =>
        if fields[0][0] == '-' then StartsFrom(fields[1..], v, n)
        else if fields[0][0] == '+' then StartsFrom(fields[1..], o, v)
        else StartsFrom(fields[1..], o, n)
  }

  function Starts(header: string): (int, int) { StartsFrom(Fields(header), 0, 0) }

  method HunkStart(header: string) returns (oldStart: int, newStart: int)
    ensures (oldStart, newStart) == Starts(header)
  {
    oldStart, newStart := 0, 0;
    var fields := Fields(header);
    for i := 0 to |fields|
      invariant StartsFrom(fields[i..], oldStart, newStart) == Starts(header)
    {
      var field := fields[i];
      assert fields[i..][1..] == fields[i + 1..];
      if |field| < 2 {
        continue;
      }
      var number := Atoi(Before(field[1..], ','));
      if number.None? {
        continue;
      }
      match field[0]
      case '-' => oldStart := number.value;
      case '+' => newStart := number.value;
      case _ =>
    }
  }

  /** The text of one side of a header: "-12,5". */
  function Side(sign: char, start: nat, count: nat): string { [sign] + (Decimal(start) + ([','] + Decimal(count))) }

  lemma HeaderSides(h: Hunk)
    ensures HeaderLine(h) == "@@" + " "
            + (Side('-', h.oldStart, h.oldCount) + " " + (Side('+', h.newStart, h.newCount) + " " + "@@"))
  {
    hide Decimal;
  }

  lemma SideIsWord(sign: char, start: nat, count: nat)
    requires sign == '-' || sign == '+'
    ensures IsWord(Side(sign, start, count))
  {
    hide Decimal;
    assert forall c: char :: IsDigit(c) ==> !IsSpace(c);
    assert forall i :: 0 <= i < |Decimal(start)| ==> !IsSpace(Decimal(start)[i]);
    assert forall i :: 0 <= i < |Decimal(count)| ==> !IsSpace(Decimal(count)[i]);
  }

  lemma HeaderFields(h: Hunk)
    ensures Fields(HeaderLine(h)) == ["@@", Side('-', h.oldStart, h.oldCount), Side('+', h.newStart, h.newCount), "@@"]
  {
    hide Side, HeaderLine, Fields, IsSpace;
    var a, b := Side('-', h.oldStart, h.oldCount), Side('+', h.newStart, h.newCount);
    HeaderSides(h);
    SideIsWord('-', h.oldStart, h.oldCount);
    SideIsWord('+', h.newStart, h.newCount);
    AtsAreWord();
    OneField(b, "@@");
    OneField(a, b + " " + "@@");
    OneField("@@", a + " " + (b + " " + "@@"));
  }

  lemma AtsAreWord()
    ensures IsWord("@@") && Fields("@@") == ["@@"]
  {
    FieldsFirst("@@", "");
    assert "@@" + "" == "@@";
  }

  lemma {:induction false} OneField(w: string, rest: string)
    requires IsWord(w)
    ensures Fields(w + " " + rest) == [w] + Fields(rest)
  {
    FieldsFirst(w, " " + rest);
    assert w + " " + rest == w + (" " + rest);
    assert (" " + rest)[1..] == rest;
  }

  /** The reader takes from a header the two numbers the writer put there. */
  lemma HeaderRoundTrip(h: Hunk)
    requires h.oldStart <= MAX_INT && h.newStart <= MAX_INT
    ensures Starts(HeaderLine(h)) == (h.oldStart, h.newStart)
  {
    hide Fields, HeaderLine, Side, Atoi, Before;
    HeaderFields(h);
    var at, a, b := "@@", Side('-', h.oldStart, h.oldCount), Side('+', h.newStart, h.newCount);
    NoNumber();
    SignedField('-', h.oldStart, h.oldCount);
    SignedField('+', h.newStart, h.newCount);
    FirstField(at, [a, b, at], 0, 0);
    FirstField(a, [b, at], 0, 0);
    FirstField(b, [at], h.oldStart, 0);
    FirstField(at, [], h.oldStart, h.newStart);
    assert [at] + [a, b, at] == [at, a, b, at] && [a] + [b, at] == [a, b, at] && [b] + [at] == [b, at]
      && [at] + [] == [at];
  }

  lemma {:induction false} FirstField(field: string, rest: seq<string>, o: int, n: int)
    requires |field| >= 2
    ensures StartsFrom([field] + rest, o, n) ==
            match Atoi(Before(field[1..], ','))
            case None => StartsFrom(rest, o, n)
            case Some(v) =>
              if field[0] == '-' then StartsFrom(rest, v, n)
              else if field[0] == '+' then StartsFrom(rest, o, v)
              else StartsFrom(rest, o, n)
  {
    assert ([field] + rest)[0] == field && ([field] + rest)[1..] == rest;
  }

  lemma NoNumber()
    ensures Atoi(Before("@@"[1..], ',')) == None
  {
    assert "@@"[1..] == "@";
    SplitOne("@", ',');
  }

  lemma SignedField(sign: char, n: nat, m: nat)
    requires n <= MAX_INT
    ensures var f := Side(sign, n, m);
            |f| >= 2 && f[0] == sign && Atoi(Before(f[1..], ',')) == Some(n)
  {
    hide Decimal, Split, Before, Atoi;
    assert Side(sign, n, m)[1..] == Decimal(n) + [','] + Decimal(m);
    BeforeFirst(Decimal(n), ',', Decimal(m));
    AtoiOfDecimal(n);
  }

  // ---- refs and rows of a text ----

  /** The ref of one line, and the numbers of the next old and new lines after it. */
  function RefStep(line: string, o: int, n: int): (seq<LineRef>, int, int) {
    match RefClass(line)
    case Header => ([], o, n)
    case Note => ([NoRef], o, n)
    case HunkRule => ([NoRef], Starts(line).0, Starts(line).1)
    case Plus => ([Ref(n, Add, line[1..])], o, n + 1)
    case Minus => ([Ref(o, Remove, line[1..])], o + 1, n)
    case Context => ([Ref(n, Keep, if " " <= line then line[1..] else line)], o + 1, n + 1)
  }

  function RowStep(line: string, o: int, n: int): (seq<Row>, int, int) {
    match RowClass(line)
    case Header => ([], o, n)
    case Note => ([Quiet("  " + line)], o, n)
    case HunkRule => ([Rule(Starts(line).1)], Starts(line).0, Starts(line).1)
    case Plus => ([Code(0, n, line)], o, Advance(n))
    case Minus => ([Code(o, 0, line)], Advance(o), n)
    case Context => ([Code(o, n, line)], Advance(o), Advance(n))
  }

  function Clean(line: string, strip: string -> string): string { ExpandTabs(strip(line)) }

  function RefsFrom(lines: seq<string>, strip: string -> string, o: int, n: int): seq<LineRef> {
    if lines == [] then []
    else
      var s := RefStep(Clean(lines[0], strip), o, n);
      s.0 + RefsFrom(lines[1..], strip, s.1, s.2)
  }

  function RowsFrom(lines: seq<string>, strip: string -> string, o: int, n: int): seq<Row> {
    if lines == [] then []
    else
      var s := RowStep(Clean(lines[0], strip), o, n);
      s.0 + RowsFrom(lines[1..], strip, s.1, s.2)
  }

  function LinesOf(text: string): seq<string> { Split(TrimRightNewlines(text), '\n') }

  function Refs(text: string, strip: string -> string): seq<LineRef> { RefsFrom(LinesOf(text), strip, 0, 0) }

  function Rows(text: string, strip: string -> string): seq<Row> { RowsFrom(LinesOf(text), strip, 0, 0) }

  /** One pass of the loop over the lines, as a step. */
  method ReadLine(line: string, refs: seq<LineRef>, oldLine: int, newLine: int)
    returns (r: seq<LineRef>, o: int, n: int)
    ensures r == refs + RefStep(line, oldLine, newLine).0
    ensures (o, n) == (RefStep(line, oldLine, newLine).1, RefStep(line, oldLine, newLine).2)
  {
    hide IsHeader, IsModeChange, Starts;
    r, o, n := refs, oldLine, newLine;
    match RefClass(line)
    case Header =>
    case Note => r := r + [NoRef];
    case HunkRule =>
      o, n := HunkStart(line);
      r := r + [NoRef];
    case Plus =>
      r := r + [Ref(newLine, Add, line[1..])];
      n := n + 1;
    case Minus =>
      r := r + [Ref(oldLine, Remove, line[1..])];
      o := o + 1;
    case Context =>
      r := r + [Ref(newLine, Keep, if " " <= line then line[1..] else line)];
      o, n := o + 1, n + 1;
  }

  method DiffLineRefs(text: string, strip: string -> string) returns (refs: seq<LineRef>)
    ensures refs == Refs(text, strip)
  {
    hide RefStep, Clean, LinesOf;
    refs := [];
    var oldLine, newLine := 0, 0;
    var lines := LinesOf(text);
    for i := 0 to |lines|
      invariant refs + RefsFrom(lines[i..], strip, oldLine, newLine) == Refs(text, strip)
    {
      ghost var was, s := refs, RefStep(Clean(lines[i], strip), oldLine, newLine);
      assert lines[i..][1..] == lines[i + 1..];
      refs, oldLine, newLine := ReadLine(Clean(lines[i], strip), refs, oldLine, newLine);
      ghost var rest := RefsFrom(lines[i + 1..], strip, oldLine, newLine);
      assert (was + s.0) + rest == was + (s.0 + rest);
    }
    assert refs + [] == refs;
  }

  method DrawLine(line: string, rows: seq<Row>, oldLine: int, newLine: int) returns (r: seq<Row>, o: int, n: int)
    ensures r == rows + RowStep(line, oldLine, newLine).0
    ensures (o, n) == (RowStep(line, oldLine, newLine).1, RowStep(line, oldLine, newLine).2)
  {
    hide IsHeader, IsModeChange, Starts;
    r, o, n := rows, oldLine, newLine;
    match RowClass(line)
    case Header =>
    case Note => r := r + [Quiet("  " + line)];
    case HunkRule =>
      o, n := HunkStart(line);
      r := r + [Rule(n)];
    case Plus =>
      r := r + [Code(0, newLine, line)];
      n := Advance(n);
    case Minus =>
      r := r + [Code(oldLine, 0, line)];
      o := Advance(o);
    case Context =>
      r := r + [Code(oldLine, newLine, line)];
      o, n := Advance(o), Advance(n);
  }

  method DiffRows(text: string, strip: string -> string) returns (rows: seq<Row>)
    ensures rows == Rows(text, strip)
  {
    hide RowStep, Clean, LinesOf;
    rows := [];
    var oldLine, newLine := 0, 0;
    var lines := LinesOf(text);
    for i := 0 to |lines|
      invariant rows + RowsFrom(lines[i..], strip, oldLine, newLine) == Rows(text, strip)
    {
      ghost var was, s := rows, RowStep(Clean(lines[i], strip), oldLine, newLine);
      assert lines[i..][1..] == lines[i + 1..];
      rows, oldLine, newLine := DrawLine(Clean(lines[i], strip), rows, oldLine, newLine);
      ghost var rest := RowsFrom(lines[i + 1..], strip, oldLine, newLine);
      assert (was + s.0) + rest == was + (s.0 + rest);
    }
    assert rows + [] == rows;
  }

  // ---- refs and rows agree ----

  /** A ref belongs to a row: code to code, with its text and on the number drawn when one is drawn. */
  predicate Belongs(ref: LineRef, row: Row) {
    match row
    case Code(o, n, text) =>
      && ref.Ref?
      && (match ref.side
          case Remove => n == 0 && (o > 0 ==> ref.line == o) && text == "-" + ref.code
          case Add => o == 0 && (n > 0 ==> ref.line == n) && text == "+" + ref.code
          case Keep => (n > 0 ==> ref.line == n) && (text == " " + ref.code || text == ref.code))
    case _ => ref.NoRef?
  }

  lemma SameClass(line: string)
    ensures RefClass(line) == RowClass(line)
  {
    if "\\" <= line {
      assert line[0] == '\\';
    }
  }

  /** The two readers take a line the same way, from numbers that agree where they are known. */
  lemma SameStep(line: string, o: int, n: int, o': int, n': int)
    requires (o' > 0 ==> o == o') && (n' > 0 ==> n == n')
    ensures var s, t := RefStep(line, o, n), RowStep(line, o', n');
            && |s.0| == |t.0| && (forall i :: 0 <= i < |s.0| ==> Belongs(s.0[i], t.0[i]))
            && (t.1 > 0 ==> s.1 == t.1) && (t.2 > 0 ==> s.2 == t.2)
  {
    hide IsHeader, IsModeChange, Starts;
    SameClass(line);
    if line != "" {
      assert line == [line[0]] + line[1..];
    }
  }

  /** For any text there is one ref per row, each belonging to its row. */
  lemma {:induction false} RefsMatchRows(lines: seq<string>, strip: string -> string, o: int, n: int, o': int, n': int)
    requires (o' > 0 ==> o == o') && (n' > 0 ==> n == n')
    ensures var refs, rows := RefsFrom(lines, strip, o, n), RowsFrom(lines, strip, o', n');
            |refs| == |rows| && forall i :: 0 <= i < |refs| ==> Belongs(refs[i], rows[i])
  {
    hide RefStep, RowStep, Clean, Belongs;
    if lines != [] {
      var line := Clean(lines[0], strip);
      SameStep(line, o, n, o', n');
      var s, t := RefStep(line, o, n), RowStep(line, o', n');
      RefsMatchRows(lines[1..], strip, s.1, s.2, t.1, t.2);
    }
  }

  // ---- a printed patch, read back ----

  /** A removed line that starts "-- " prints as a file header, and so does an added "++ ". */
  predicate HeaderLike(op: LineOp) {
    || (op.kind == Remove && "-- " <= ExpandTabs(op.text))
    || (op.kind == Add && "++ " <= ExpandTabs(op.text))
  }

  function BodyRefs(body: seq<LineOp>, o: int, n: int): seq<LineRef> {
    if body == [] then []
    else if HeaderLike(body[0]) then BodyRefs(body[1..], o, n)
    else
      var code := ExpandTabs(body[0].text);
      match body[0].kind
      case Keep => [Ref(n, Keep, code)] + BodyRefs(body[1..], o + 1, n + 1)
      case Remove => [Ref(o, Remove, code)] + BodyRefs(body[1..], o + 1, n)
      case Add => [Ref(n, Add, code)] + BodyRefs(body[1..], o, n + 1)
  }

  function PatchRefs(hunks: seq<Hunk>): seq<LineRef> {
    if hunks == [] then []
    else [NoRef] + BodyRefs(hunks[0].body, hunks[0].oldStart, hunks[0].newStart) + PatchRefs(hunks[1..])
  }

  /** What reading back asks of a patch: no line of it holds a newline or is changed by strip, and its
      numbers fit the machine's. */
  ghost predicate Readable(hunks: seq<Hunk>, strip: string -> string) {
    forall h :: h in hunks ==>
      && h.oldStart <= MAX_INT && h.newStart <= MAX_INT
      && strip(HeaderLine(h)) == HeaderLine(h)
      && forall op :: op in h.body ==> '\n' !in op.text && strip([Sign(op.kind)] + op.text) == [Sign(op.kind)] + op.text
  }

  lemma {:induction false} NoTabs(s: string)
    requires '\t' !in s
    ensures ExpandTabs(s) == s
  {
    if s != "" {
      NoTabs(s[1..]);
      assert s == [s[0]] + s[1..];
    }
  }

  lemma HeaderChars(h: Hunk)
    ensures '\t' !in HeaderLine(h) && '\n' !in HeaderLine(h)
    ensures |HeaderLine(h)| >= 2 && HeaderLine(h)[0] == '@' && HeaderLine(h)[1] == '@'
  {
    hide Decimal;
  }

  lemma HeaderStep(h: Hunk, strip: string -> string, o: int, n: int)
    requires h.oldStart <= MAX_INT && h.newStart <= MAX_INT && strip(HeaderLine(h)) == HeaderLine(h)
    ensures RefStep(Clean(HeaderLine(h), strip), o, n) == ([NoRef], h.oldStart, h.newStart)
  {
    hide Starts, HeaderLine, ExpandTabs;
    HeaderChars(h);
    NoTabs(HeaderLine(h));
    HeaderRoundTrip(h);
  }

  lemma OpStep(op: LineOp, strip: string -> string, o: int, n: int)
    requires strip([Sign(op.kind)] + op.text) == [Sign(op.kind)] + op.text
    ensures RefStep(Clean([Sign(op.kind)] + op.text, strip), o, n) ==
            if HeaderLike(op) then ([], o, n)
            else
              var code := ExpandTabs(op.text);
              match op.kind
              case Keep => ([Ref(n, Keep, code)], o + 1, n + 1)
              case Remove => ([Ref(o, Remove, code)], o + 1, n)
              case Add => ([Ref(n, Add, code)], o, n + 1)
  {
    var code := ExpandTabs(op.text);
    var line := [Sign(op.kind)] + code;
    assert ([Sign(op.kind)] + op.text)[1..] == op.text;
    assert Clean([Sign(op.kind)] + op.text, strip) == line;
    assert line[1..] == code;
    ClassOfOp(op.kind, code);
  }

  lemma ClassOfOp(kind: Kind, code: string)
    ensures RefClass([Sign(kind)] + code) ==
            match kind
            case Keep => Context
            case Remove => if "-- " <= code then Header else Minus
            case Add => if "++ " <= code then Header else Plus
  {
    var line := [Sign(kind)] + code;
    assert line[0] == Sign(kind);
    assert "--- " <= line <==> kind == Remove && "-- " <= code by { PrefixAfter('-', "-- ", Sign(kind), code); }
    assert "+++ " <= line <==> kind == Add && "++ " <= code by { PrefixAfter('+', "++ ", Sign(kind), code); }
  }

  lemma PrefixAfter(c: char, p: string, d: char, s: string)
    ensures [c] + p <= [d] + s <==> c == d && p <= s
  {
    if c == d && p <= s {
      assert ([d] + s)[..|p| + 1] == [c] + p;
    }
    if [c] + p <= [d] + s {
      assert ([d] + s)[0] == ([c] + p)[0];
      assert s[..|p|] == ([d] + s)[1..|p| + 1] == ([c] + p)[1..];
    }
  }

  lemma {:induction false} ReadBody(body: seq<LineOp>, more: seq<string>, strip: string -> string, o: int, n: int)
    returns (o': int, n': int)
    requires forall op :: op in body ==> strip([Sign(op.kind)] + op.text) == [Sign(op.kind)] + op.text
    ensures RefsFrom(OpLines(body) + more, strip, o, n) == BodyRefs(body, o, n) + RefsFrom(more, strip, o', n')
  {
    hide RefStep, Clean, HeaderLike;
    if body == [] {
      assert OpLines(body) + more == more;
      o', n' := o, n;
    } else {
      var line := [Sign(body[0].kind)] + body[0].text;
      var lines := OpLines(body) + more;
      assert lines[0] == line && lines[1..] == OpLines(body[1..]) + more;
      OpStep(body[0], strip, o, n);
      var s := RefStep(Clean(line, strip), o, n);
      o', n' := ReadBody(body[1..], more, strip, s.1, s.2);
    }
  }

  lemma {:induction false} ReadPatchLines(hunks: seq<Hunk>, strip: string -> string, o: int, n: int)
    requires Readable(hunks, strip)
    ensures RefsFrom(PatchLines(hunks), strip, o, n) == PatchRefs(hunks)
  {
    hide RefStep, Clean, HeaderLine, BodyRefs, OpLines, Readable, PatchLines, PatchRefs;
    if hunks == [] {
      NoLines(hunks, strip, o, n);
    } else {
      var h, more := hunks[0], PatchLines(hunks[1..]);
      FirstHunkOf(hunks);
      FirstReadable(hunks, strip);
      HeaderStep(h, strip, o, n);
      FirstLine(HeaderLine(h), OpLines(h.body) + more, strip, o, n);
      var o', n' := ReadBody(h.body, more, strip, h.oldStart, h.newStart);
      ReadPatchLines(hunks[1..], strip, o', n');
    }
  }

  lemma {:induction false} NoLines(hunks: seq<Hunk>, strip: string -> string, o: int, n: int)
    requires hunks == []
    ensures RefsFrom(PatchLines(hunks), strip, o, n) == PatchRefs(hunks)
  {
  }

  lemma {:induction false} FirstHunkOf(hunks: seq<Hunk>)
    requires hunks != []
    ensures var h := hunks[0];
            && PatchLines(hunks) == [HeaderLine(h)] + (OpLines(h.body) + PatchLines(hunks[1..]))
            && PatchRefs(hunks) == [NoRef] + (BodyRefs(h.body, h.oldStart, h.newStart) + PatchRefs(hunks[1..]))
  {
    hide HeaderLine, BodyRefs, OpLines;
  }

  lemma FirstReadable(hunks: seq<Hunk>, strip: string -> string)
    requires hunks != [] && Readable(hunks, strip)
    ensures var h := hunks[0];
            && Readable(hunks[1..], strip)
            && h.oldStart <= MAX_INT && h.newStart <= MAX_INT && strip(HeaderLine(h)) == HeaderLine(h)
            && (forall op :: op in h.body ==> strip([Sign(op.kind)] + op.text) == [Sign(op.kind)] + op.text)
  {
    hide HeaderLine, Sign;
    assert hunks[0] in hunks;
    assert forall h :: h in hunks[1..] ==> h in hunks;
  }

  lemma {:induction false} FirstLine(line: string, rest: seq<string>, strip: string -> string, o: int, n: int)
    ensures var s := RefStep(Clean(line, strip), o, n);
            RefsFrom([line] + rest, strip, o, n) == s.0 + RefsFrom(rest, strip, s.1, s.2)
  {
    assert ([line] + rest)[0] == line && ([line] + rest)[1..] == rest;
  }

  lemma {:induction false} PatchLinesReadable(hunks: seq<Hunk>, strip: string -> string)
    requires Readable(hunks, strip)
    ensures forall i :: 0 <= i < |PatchLines(hunks)| ==> PatchLines(hunks)[i] != "" && '\n' !in PatchLines(hunks)[i]
  {
    if hunks != [] {
      HeaderChars(hunks[0]);
      PatchLinesReadable(hunks[1..], strip);
      assert HeaderLine(hunks[0]) != "";
    }
  }

  /** Reading a printed patch gives a ref for every line of every hunk, on the line's number counted
      from its hunk's header, but for the lines that print as file headers. */
  lemma {:induction false} PatchRoundTrip(hunks: seq<Hunk>, strip: string -> string)
    requires hunks != [] && Readable(hunks, strip)
    ensures Refs(Unlines(PatchLines(hunks)), strip) == PatchRefs(hunks)
  {
    hide Unlines, HeaderLine, PatchRefs;
    PatchLinesReadable(hunks, strip);
    LinesRoundTrip(PatchLines(hunks));
    ReadPatchLines(hunks, strip, 0, 0);
  }

  ghost predicate NoHeaderLike(hunks: seq<Hunk>) {
    forall h :: h in hunks ==> forall op :: op in h.body ==> !HeaderLike(op)
  }

  lemma {:induction false} BodyRefCount(body: seq<LineOp>, o: int, n: int)
    ensures |BodyRefs(body, o, n)| <= |body|
    ensures |BodyRefs(body, o, n)| == |body| <==> forall op :: op in body ==> !HeaderLike(op)
  {
    hide HeaderLike;
    if body != [] {
      BodyRefCount(body[1..], o, n);
      BodyRefCount(body[1..], o + 1, n);
      BodyRefCount(body[1..], o, n + 1);
      BodyRefCount(body[1..], o + 1, n + 1);
    }
  }

  /** Every printed line has its ref exactly when none prints as a file header. */
  lemma {:induction false} EveryLineHasItsRef(hunks: seq<Hunk>)
    ensures |PatchRefs(hunks)| <= |PatchLines(hunks)|
    ensures |PatchRefs(hunks)| == |PatchLines(hunks)| <==> NoHeaderLike(hunks)
  {
    hide HeaderLike, BodyRefs, HeaderLine;
    if hunks != [] {
      BodyRefCount(hunks[0].body, hunks[0].oldStart, hunks[0].newStart);
      EveryLineHasItsRef(hunks[1..]);
    }
  }
}
