/** Printing a script as unified-diff hunks (writeHunks), numbering the hunks of several changes to
    one file (editPatch), and what a reader of the format makes of them. */
module Hunks {
  import opened EditScript
  import opened Text

  const EDIT_CONTEXT := 3

  /** Past one line; 0 stands for a number not known. */
  function Advance(n: int): (m: int)
    ensures m >= 0
  {
    if n <= 0 then 0 else n + 1
  }

  function AdvanceBy(n: nat, k: nat): nat { if n == 0 then 0 else n + k }

  /** Past k lines, one by one. */
  function Advanced(n: int, k: nat): int
    decreases k
  {
    if k == 0 then n else Advanced(Advance(n), k - 1)
  }

  /** However many lines are passed, a known number is that much further and an unknown one is unknown. */
  lemma {:induction false} AdvancedIsFurther(n: nat, k: nat)
    ensures Advanced(n, k) == AdvanceBy(n, k)
    ensures Advanced(n, k) > 0 <==> n > 0
    decreases k
  {
    if k > 0 {
      AdvancedIsFurther(Advance(n), k - 1);
    }
  }

  datatype Hunk = Hunk(oldStart: nat, oldCount: nat, newStart: nat, newCount: nat, body: seq<LineOp>)

  // ---- grouping ----

  /** An op is shown when a change lies within EDIT_CONTEXT ops of it. */
  predicate Shown(ops: seq<LineOp>, k: int) {
    exists i :: 0 <= i < |ops| && ops[i].kind != Keep && i - EDIT_CONTEXT <= k <= i + EDIT_CONTEXT
  }

  function RunEnd(ops: seq<LineOp>, i: nat): (end: nat)
    requires i <= |ops|
    ensures i <= end <= |ops|
    ensures forall k :: i <= k < end ==> Shown(ops, k)
    ensures end < |ops| ==> !Shown(ops, end)
    decreases |ops| - i
  {
    if i < |ops| && Shown(ops, i) then RunEnd(ops, i + 1) else i
  }

  /** The hunks of ops[i..], whose first op stands at oldLine and newLine. */
  function HunksFrom(ops: seq<LineOp>, i: nat, oldLine: nat, newLine: nat): seq<Hunk>
    requires i <= |ops|
    decreases |ops| - i
  {
    if i == |ops| then []
    else if !Shown(ops, i) then HunksFrom(ops, i + 1, Advance(oldLine), Advance(newLine))
    else
      var end := RunEnd(ops, i);
      var h := HunkOf(ops[i..end], oldLine, newLine);
      [h] + HunksFrom(ops, end, AdvanceBy(oldLine, h.oldCount), AdvanceBy(newLine, h.newCount))
  }

  // ---- printing ----

  function Sign(kind: Kind): char {
    match kind case Keep => ' ' case Remove => '-' case Add => '+'
  }

  function HeaderLine(h: Hunk): string {
    "@@ -" + Decimal(h.oldStart) + "," + Decimal(h.oldCount) + " +" + Decimal(h.newStart) + "," + Decimal(h.newCount)
      + " @@"
  }

  function OpLines(ops: seq<LineOp>): seq<string> {
    seq(|ops|, i requires 0 <= i < |ops| => [Sign(ops[i].kind)] + ops[i].text)
  }

  function PatchLines(hunks: seq<Hunk>): seq<string> {
    if hunks == [] then []
    else [HeaderLine(hunks[0])] + OpLines(hunks[0].body) + PatchLines(hunks[1..])
  }

  lemma {:induction false} PatchLinesConcat(x: seq<Hunk>, y: seq<Hunk>)
    ensures PatchLines(x + y) == PatchLines(x) + PatchLines(y)
  {
    if x == [] {
      assert x + y == y;
    } else {
      assert (x + y)[1..] == x[1..] + y;
      PatchLinesConcat(x[1..], y);
    }
  }

  // ---- writing hunks ----

  /** The mask of shown ops, set a window at a time around each change. */
  method MarkShown(ops: seq<LineOp>) returns (changed: array<bool>, found: bool)
    ensures fresh(changed) && changed.Length == |ops|
    ensures forall k :: 0 <= k < |ops| ==> changed[k] == Shown(ops, k)
    ensures found <==> exists k :: 0 <= k < |ops| && ops[k].kind != Keep
  {
    changed := new bool[|ops|](_ => false);
    found := false;
    for i := 0 to |ops|
      invariant forall k :: 0 <= k < |ops| ==> changed[k] == Shown(ops[..i], k)
      invariant found <==> exists k :: 0 <= k < i && ops[k].kind != Keep
    {
      var lo := if i < EDIT_CONTEXT then 0 else i - EDIT_CONTEXT;
      var hi := if i + EDIT_CONTEXT < |ops| then i + EDIT_CONTEXT else |ops| - 1;
      ShownGrows(ops, i);
      if ops[i].kind != Keep {
        var k := lo;
        while k <= hi
          invariant lo <= k <= hi + 1
          invariant forall l :: 0 <= l < |ops| ==> changed[l] == (Shown(ops[..i], l) || lo <= l < k)
        {
          changed[k] := true;
          k := k + 1;
        }
        found := true;
      }
    }
    assert ops[..|ops|] == ops;
  }

  lemma ShownGrows(ops: seq<LineOp>, i: nat)
    requires i < |ops|
    ensures forall k :: Shown(ops[..i + 1], k) <==>
                        Shown(ops[..i], k) || (ops[i].kind != Keep && i - EDIT_CONTEXT <= k <= i + EDIT_CONTEXT)
  {
    var next, now := ops[..i + 1], ops[..i];
    assert next[i] == ops[i];
    forall k
      ensures Shown(next, k) <==> Shown(now, k) || (ops[i].kind != Keep && i - EDIT_CONTEXT <= k <= i + EDIT_CONTEXT)
    {
      if Shown(now, k) {
        var j :| 0 <= j < i && now[j].kind != Keep && j - EDIT_CONTEXT <= k <= j + EDIT_CONTEXT;
        assert next[j] == now[j];
      }
      if Shown(next, k) {
        var j :| 0 <= j < i + 1 && next[j].kind != Keep && j - EDIT_CONTEXT <= k <= j + EDIT_CONTEXT;
        assert j < i ==> now[j] == next[j];
      }
    }
  }

  lemma OneMoreOp(ops: seq<LineOp>, op: LineOp)
    ensures |OldOf(ops + [op])| == |OldOf(ops)| + if op.kind == Add then 0 else 1
    ensures |NewOf(ops + [op])| == |NewOf(ops)| + if op.kind == Remove then 0 else 1
  {
    OpsConcat(ops, [op]);
    OneOp(op);
  }

  method CountLines(ops: seq<LineOp>) returns (oldCount: nat, newCount: nat)
    ensures oldCount == |OldOf(ops)| && newCount == |NewOf(ops)|
  {
    oldCount, newCount := 0, 0;
    for k := 0 to |ops|
      invariant oldCount == |OldOf(ops[..k])| && newCount == |NewOf(ops[..k])|
    {
      assert ops[..k + 1] == ops[..k] + [ops[k]];
      OneMoreOp(ops[..k], ops[k]);
      if ops[k].kind != Add {
        oldCount := oldCount + 1;
      }
      if ops[k].kind != Remove {
        newCount := newCount + 1;
      }
    }
    assert ops[..|ops|] == ops;
  }

  /** The hunk whose ops are body, standing at the two line numbers. */
  function HunkOf(body: seq<LineOp>, oldLine: nat, newLine: nat): Hunk {
    Hunk(oldLine, |OldOf(body)|, newLine, |NewOf(body)|, body)
  }

  /** One hunk's lines after its header, its numbers moved on as they are written. */
  method WriteBody(b: string, body: seq<LineOp>, oldAt: nat, newAt: nat) returns (r: string, oldLine: nat, newLine: nat)
    ensures r == b + Unlines(OpLines(body))
    ensures oldLine == AdvanceBy(oldAt, |OldOf(body)|) && newLine == AdvanceBy(newAt, |NewOf(body)|)
  {
    r, oldLine, newLine := b, oldAt, newAt;
    for k := 0 to |body|
      invariant r == b + Unlines(OpLines(body[..k]))
      invariant oldLine == AdvanceBy(oldAt, |OldOf(body[..k])|) && newLine == AdvanceBy(newAt, |NewOf(body[..k])|)
    {
      var op := body[k];
      assert body[..k + 1] == body[..k] + [op];
      OneMoreOp(body[..k], op);
      OneMoreLine(body[..k], op);
      r := r + [Sign(op.kind)];
      r := r + op.text;
      r := r + "\n";
      if op.kind != Add {
        oldLine := Advance(oldLine);
      }
      if op.kind != Remove {
        newLine := Advance(newLine);
      }
    }
    assert body[..|body|] == body;
  }

  lemma OneMoreLine(ops: seq<LineOp>, op: LineOp)
    ensures Unlines(OpLines(ops + [op])) == Unlines(OpLines(ops)) + [Sign(op.kind)] + op.text + "\n"
  {
    assert OpLines(ops + [op]) == OpLines(ops) + [[Sign(op.kind)] + op.text];
    UnlinesConcat(OpLines(ops), [[Sign(op.kind)] + op.text]);
    assert Unlines([[Sign(op.kind)] + op.text]) == [Sign(op.kind)] + op.text + "\n";
  }

  /** One hunk, header and lines. */
  method WriteHunk(b: string, body: seq<LineOp>, oldAt: nat, newAt: nat) returns (r: string, oldLine: nat, newLine: nat)
    ensures r == b + Unlines(PatchLines([HunkOf(body, oldAt, newAt)]))
    ensures oldLine == AdvanceBy(oldAt, |OldOf(body)|) && newLine == AdvanceBy(newAt, |NewOf(body)|)
  {
    ghost var h := HunkOf(body, oldAt, newAt);
    var oldCount, newCount := CountLines(body);
    var header := "@@ -" + Decimal(oldAt) + "," + Decimal(oldCount) + " +" + Decimal(newAt) + "," + Decimal(newCount)
      + " @@";
    assert header == HeaderLine(h);
    r, oldLine, newLine := WriteBody(b + (header + "\n"), body, oldAt, newAt);
    OneHunkText(h);
    assert r == b + (HeaderLine(h) + "\n" + Unlines(OpLines(body)));
  }

  lemma NoHunkText()
    ensures Unlines(PatchLines([])) == []
  {
  }

  lemma OneHunkText(h: Hunk)
    ensures Unlines(PatchLines([h])) == HeaderLine(h) + "\n" + Unlines(OpLines(h.body))
  {
    assert PatchLines([h][1..]) == [];
    assert PatchLines([h]) == [HeaderLine(h)] + OpLines(h.body);
    assert ([HeaderLine(h)] + OpLines(h.body))[1..] == OpLines(h.body);
  }

  lemma {:induction false} OneMoreHunk(done: seq<Hunk>, h: Hunk)
    ensures Unlines(PatchLines(done + [h])) == Unlines(PatchLines(done)) + Unlines(PatchLines([h]))
  {
    PatchLinesConcat(done, [h]);
    UnlinesConcat(PatchLines(done), PatchLines([h]));
  }

  lemma {:induction false} NothingShown(ops: seq<LineOp>, i: nat, oldLine: nat, newLine: nat)
    requires i <= |ops|
    requires forall k :: 0 <= k < |ops| ==> ops[k].kind == Keep
    ensures HunksFrom(ops, i, oldLine, newLine) == []
    decreases |ops| - i
  {
    if i < |ops| {
      NothingShown(ops, i + 1, Advance(oldLine), Advance(newLine));
    }
  }

  /** Writes ops as hunks after what b holds. */
  method WriteHunks(b: string, ops: seq<LineOp>, oldAt: nat, newAt: nat) returns (r: string)
    ensures r == b + Unlines(PatchLines(HunksFrom(ops, 0, oldAt, newAt)))
  {
    hide PatchLines, Shown, Unlines;
    NoHunkText();
    r := b;
    var changed, found := MarkShown(ops);
    if !found {
      NothingShown(ops, 0, oldAt, newAt);
      assert b + [] == b;
      return;
    }
    var oldLine: nat, newLine: nat, i := oldAt, newAt, 0;
    ghost var all := HunksFrom(ops, 0, oldAt, newAt);
    ghost var done: seq<Hunk> := [];
    while i < |ops|
      invariant 0 <= i <= |ops|
      invariant forall k :: 0 <= k < |ops| ==> changed[k] == Shown(ops, k)
      invariant all == done + HunksFrom(ops, i, oldLine, newLine)
      invariant r == b + Unlines(PatchLines(done))
    {
      if !changed[i] {
        oldLine, newLine := Advance(oldLine), Advance(newLine);
        i := i + 1;
        continue;
      }
      var end := i;
      while end < |ops| && changed[end]
        invariant i <= end <= |ops|
        invariant RunEnd(ops, end) == RunEnd(ops, i)
        invariant forall k :: 0 <= k < |ops| ==> changed[k] == Shown(ops, k)
      {
        end := end + 1;
      }
      ghost var h := HunkOf(ops[i..end], oldLine, newLine);
      ghost var rest := HunksFrom(ops, end, AdvanceBy(oldLine, h.oldCount), AdvanceBy(newLine, h.newCount));
      r, oldLine, newLine := WriteHunk(r, ops[i..end], oldLine, newLine);
      OneMoreHunk(done, h);
      assert done + ([h] + rest) == (done + [h]) + rest;
      done := done + [h];
      i := end;
    }
    assert done + [] == done;
  }

  // ---- the patch of several changes to one file ----

  /** before is replaced by after, whose first line is line at of the file that results; at is 0 until it
      is located. */
  datatype EditChange = EditChange(before: string, after: string, at: nat)

  /** The hunks of one change when the changes above it added shift lines in all. */
  function ChangeHunks(c: EditChange, shift: int): seq<Hunk> {
    var a, b := SplitLines(c.before), SplitLines(c.after);
    var oldAt: nat := if c.at == 0 || a == [] then 0 else Max(c.at - shift, 1);
    HunksFrom(Script(a, b), 0, oldAt, c.at)
  }

  /** The hunks of changes from the i-th on. */
  function PatchFrom(changes: seq<EditChange>, i: nat, shift: int): seq<Hunk>
    requires i <= |changes|
    decreases |changes| - i
  {
    if i == |changes| then []
    else
      var c := changes[i];
      ChangeHunks(c, shift) + PatchFrom(changes, i + 1, shift + |SplitLines(c.after)| - |SplitLines(c.before)|)
  }

  /** How many ops of a kind one change's script has. */
  function OpsOfKind(c: EditChange, kind: Kind): nat {
    Count(Script(SplitLines(c.before), SplitLines(c.after)), kind)
  }

  /** How many ops of a kind the changes' scripts have before the i-th. */
  function Tally(changes: seq<EditChange>, i: nat, kind: Kind): nat
    requires i <= |changes|
  {
    if i == 0 then 0
    else Tally(changes, i - 1, kind) + OpsOfKind(changes[i - 1], kind)
  }

  method CountKinds(ops: seq<LineOp>) returns (added: nat, removed: nat)
    ensures added == Count(ops, Add) && removed == Count(ops, Remove)
  {
    added, removed := 0, 0;
    for k := 0 to |ops|
      invariant added == Count(ops[..k], Add) && removed == Count(ops[..k], Remove)
    {
      assert ops[..k + 1] == ops[..k] + [ops[k]];
      CountOneMore(ops[..k], ops[k], Add);
      CountOneMore(ops[..k], ops[k], Remove);
      match ops[k].kind
      case Add => added := added + 1;
      case Remove => removed := removed + 1;
      case Keep =>
    }
    assert ops[..|ops|] == ops;
  }

  lemma {:induction false} CountOneMore(ops: seq<LineOp>, op: LineOp, kind: Kind)
    ensures Count(ops + [op], kind) == Count(ops, kind) + if op.kind == kind then 1 else 0
  {
    CountConcat(ops, [op], kind);
    assert Count([op], kind) == (if op.kind == kind then 1 else 0) + Count([op][1..], kind);
  }

  /** One change's hunks after what b holds, and what it adds and removes. */
  method PatchChange(b: string, c: EditChange, shift: int) returns (r: string, plus: nat, minus: nat)
    ensures r == b + Unlines(PatchLines(ChangeHunks(c, shift)))
    ensures plus == OpsOfKind(c, Add) && minus == OpsOfKind(c, Remove)
  {
    hide PatchLines, Unlines, Script, HunksFrom, Count;
    var oldLines, newLines := SplitLines(c.before), SplitLines(c.after);
    var oldAt: nat, newAt: nat := 0, c.at;
    if c.at > 0 {
      oldAt := Max(c.at - shift, 1);
      if |oldLines| == 0 {
        oldAt := 0;
      }
    }
    var ops := LineOps(oldLines, newLines);
    plus, minus := CountKinds(ops);
    r := WriteHunks(b, ops, oldAt, newAt);
  }

  method EditPatch(changes: seq<EditChange>) returns (text: string, added: nat, removed: nat)
    ensures text == Unlines(PatchLines(PatchFrom(changes, 0, 0)))
    ensures added == Tally(changes, |changes|, Add) && removed == Tally(changes, |changes|, Remove)
  {
    hide PatchLines, Unlines, ChangeHunks, OpsOfKind, SplitLines;
    NoHunkText();
    text, added, removed := "", 0, 0;
    var shift := 0;
    ghost var done: seq<Hunk> := [];
    for i := 0 to |changes|
      invariant PatchFrom(changes, 0, 0) == done + PatchFrom(changes, i, shift)
      invariant text == Unlines(PatchLines(done))
      invariant added == Tally(changes, i, Add) && removed == Tally(changes, i, Remove)
    {
      var c := changes[i];
      ghost var hunks := ChangeHunks(c, shift);
      var plus, minus;
      text, plus, minus := PatchChange(text, c, shift);
      added, removed := added + plus, removed + minus;
      MoreHunks(done, hunks);
      shift := shift + |SplitLines(c.after)| - |SplitLines(c.before)|;
      ghost var rest := PatchFrom(changes, i + 1, shift);
      assert done + (hunks + rest) == (done + hunks) + rest;
      done := done + hunks;
    }
    assert done + [] == done;
  }

  lemma {:induction false} MoreHunks(done: seq<Hunk>, more: seq<Hunk>)
    ensures Unlines(PatchLines(done + more)) == Unlines(PatchLines(done)) + Unlines(PatchLines(more))
  {
    PatchLinesConcat(done, more);
    UnlinesConcat(PatchLines(done), PatchLines(more));
  }
}
