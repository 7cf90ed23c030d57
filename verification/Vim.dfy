/** The input's vim normal mode: one key applied to text at a cursor, with a pending operator, one
    register and a bounded undo stack. */
module Vim {
  import opened Text
  import opened VimMotion

  const MAX_UNDO := 100

  datatype Snapshot = Snapshot(text: string, cursor: nat)

  /** Everything a key reads and changes. */
  datatype Editor = Editor(text: string, cursor: int, pending: Option<char>, register: string, undo: seq<Snapshot>)

  /** What a key leaves, and whether insert mode follows. */
  datatype Edited = Edited(after: Editor, insert: bool)

  function Push(undo: seq<Snapshot>, s: Snapshot): seq<Snapshot> {
    var u := undo + [s];
    if |u| > MAX_UNDO then u[1..] else u
  }

  /** The editor with its cursor within the text, as every key first puts it. */
  function Settled(e: Editor): (r: Editor)
    ensures 0 <= r.cursor <= |r.text|
  {
    e.(cursor := Clamp(e.text, e.cursor))
  }

  /** The editor with its text and cursor saved for undo. */
  function Save(e: Editor): Editor
    requires 0 <= e.cursor
  {
    e.(undo := Push(e.undo, Snapshot(e.text, e.cursor)))
  }

  function Cut(text: string, from: nat, upto: nat): string
    requires from <= upto <= |text|
  {
    text[..from] + text[upto..]
  }

  function Insert(text: string, at: nat, s: string): string
    requires at <= |text|
  {
    text[..at] + s + text[at..]
  }

  predicate IsOperator(op: char) { op == 'd' || op == 'c' || op == 'y' }

  /** dd, cc, yy. */
  function WholeLine(e: Editor, op: char): (r: Edited)
    requires 0 <= e.cursor <= |e.text|
    ensures 0 <= r.after.cursor <= |r.after.text|
  {
    var start, end := LineStart(e.text, e.cursor), LineEnd(e.text, e.cursor);
    var line := e.text[start..end] + "\n";
    if op == 'y' then Edited(e.(register := line), false)
    else if op == 'c' then Edited(Save(e).(register := line, text := Cut(e.text, start, end), cursor := start), true)
    else
      var cut := if end < |e.text| then end + 1 else end;
      var from := if end == |e.text| && start > 0 then start - 1 else start;
      var out := Cut(e.text, from, cut);
      Edited(Save(e).(register := line, text := out, cursor := LineStart(out, Min(from, |out|))), false)
  }

  /** What an operator covers when its motion goes to: from the first place up to the second, which
      lies past the text for cw on an empty one. */
  function Span(text: string, cursor: nat, op: char, key: char, to: nat): (s: (nat, nat))
    requires cursor <= |text| && Motion(text, cursor, key) == Some(to)
    ensures s.0 <= s.1
    ensures s.1 <= |text| <==> !(op == 'c' && key == 'w' && text == "")
  {
    var to := if op == 'c' && key == 'w' then WordEnd(text, cursor) + 1 else to;
    var from, upto := Min(cursor, to), Max(cursor, to);
    if key == '$' then (from, LineEnd(text, cursor))
    else if key == 'e' then (from, Min(upto + 1, |text|))
    else (from, upto)
  }

  /** d, c or y with a motion. */
  function Operate(e: Editor, op: char, key: char): Option<Edited>
    requires 0 <= e.cursor <= |e.text|
  {
    match Motion(e.text, e.cursor, key)
    case None => Some(Edited(e, false))
    case Some(to) =>
      var s := Span(e.text, e.cursor, op, key, to);
      if s.1 > |e.text| then None
      else if op == 'y' then Some(Edited(e.(register := e.text[s.0..s.1]), false))
      else
        var out := Cut(e.text, s.0, s.1);
        Some(Edited(Save(e).(register := e.text[s.0..s.1], text := out, cursor := Clamp(out, s.0)), op == 'c'))
  }

  function OpenLine(e: Editor, key: char): (r: Edited)
    requires 0 <= e.cursor <= |e.text|
    ensures 0 <= r.after.cursor <= |r.after.text|
  {
    var at := if key == 'O' then LineStart(e.text, e.cursor) else LineEnd(e.text, e.cursor);
    Edited(Save(e).(text := Insert(e.text, at, "\n"), cursor := if key == 'o' then at + 1 else at), true)
  }

  function DeleteHere(e: Editor): (r: Edited)
    requires 0 <= e.cursor <= |e.text|
    ensures 0 <= r.after.cursor <= |r.after.text|
  {
    if e.cursor >= LineEnd(e.text, e.cursor) then Edited(e, false)
    else
      var out := Cut(e.text, e.cursor, e.cursor + 1);
      var c :=
        if e.cursor == LineEnd(out, e.cursor) && e.cursor > LineStart(out, e.cursor) then e.cursor - 1 else e.cursor;
      Edited(Save(e).(register := [e.text[e.cursor]], text := out, cursor := c), false)
  }

  function DeleteBefore(e: Editor): (r: Edited)
    requires 0 <= e.cursor <= |e.text|
    ensures 0 <= r.after.cursor <= |r.after.text|
  {
    if e.cursor <= LineStart(e.text, e.cursor) then Edited(e, false)
    else Edited(Save(e).(text := Cut(e.text, e.cursor - 1, e.cursor), cursor := e.cursor - 1), false)
  }

  function DeleteRest(e: Editor, key: char): (r: Edited)
    requires 0 <= e.cursor <= |e.text|
    ensures 0 <= r.after.cursor <= |r.after.text|
  {
    var end := LineEnd(e.text, e.cursor);
    Edited(Save(e).(register := e.text[e.cursor..end], text := Cut(e.text, e.cursor, end)), key == 'C')
  }

  /** p and P: a register that ends in a newline goes in as a line, any other at the cursor. */
  function Put(e: Editor, key: char): (r: Edited)
    requires 0 <= e.cursor <= |e.text|
    ensures 0 <= r.after.cursor <= |r.after.text|
  {
    var reg := e.register;
    if reg == "" then Edited(e, false)
    else if reg[|reg| - 1] == '\n' then
      if key == 'p' then
        var at := LineEnd(e.text, e.cursor);
        Edited(Save(e).(text := Insert(e.text, at, "\n" + reg[..|reg| - 1]), cursor := at + 1), false)
      else
        var at := LineStart(e.text, e.cursor);
        Edited(Save(e).(text := Insert(e.text, at, reg), cursor := at), false)
    else
      var at: nat := if key == 'p' && e.cursor < |e.text| && e.text[e.cursor] != '\n' then e.cursor + 1 else e.cursor;
      Edited(Save(e).(text := Insert(e.text, at, reg), cursor := at + |reg| - 1), false)
  }

  function Undo(e: Editor): Editor {
    if e.undo == [] then e
    else
      var s := e.undo[|e.undo| - 1];
      e.(text := s.text, cursor := s.cursor, undo := e.undo[..|e.undo| - 1])
  }

  /** A key with no operator pending. */
  function Plain(e: Editor, key: char): Edited
    requires 0 <= e.cursor <= |e.text|
  {
    match key
    case 'i' => Edited(e, true)
    case 'a' => Edited(e.(cursor := if e.cursor < LineEnd(e.text, e.cursor) then e.cursor + 1 else e.cursor), true)
    case 'I' => Edited(e.(cursor := FirstNonBlank(e.text, e.cursor)), true)
    case 'A' => Edited(e.(cursor := LineEnd(e.text, e.cursor)), true)
    case 'o' => OpenLine(e, key)
    case 'O' => OpenLine(e, key)
    case 'x' => DeleteHere(e)
    case 'X' => DeleteBefore(e)
    case 'D' => DeleteRest(e, key)
    case 'C' => DeleteRest(e, key)
    case 'd' => Edited(e.(pending := Some(key)), false)
    case 'c' => Edited(e.(pending := Some(key)), false)
    case 'y' => Edited(e.(pending := Some(key)), false)
    case 'g' => Edited(e.(pending := Some(key)), false)
    case 'p' => Put(e, key)
    case 'P' => Put(e, key)
    case 'u' => Edited(Undo(e), false)
    case _ =>
      match Motion(e.text, e.cursor, key)
      case Some(to) => Edited(e.(cursor := Clamp(e.text, to)), false)
      case None => Edited(e, false)
  }

  /** A key that answers a pending operator or prefix. */
  function Answer(e: Editor, op: char, key: char): Option<Edited>
    requires 0 <= e.cursor <= |e.text|
  {
    if op == 'g' && key == 'g' then Some(Edited(e.(cursor := 0), false))
    else if IsOperator(op) && key == op then Some(WholeLine(e, op))
    else if IsOperator(op) then Operate(e, op, key)
    else Some(Edited(e, false))
  }

  /** One normal-mode key; None when it slices past the text. */
  function Step(e: Editor, key: char): Option<Edited> {
    var s := Settled(e);
    match e.pending
    case Some(op) => Answer(s.(pending := None), op, key)
    case None => Some(Plain(s, key))
  }

  /** cw on an empty text. */
  predicate ChangesNothing(e: Editor, key: char) {
    e.pending == Some('c') && key == 'w' && e.text == ""
  }

  /** The one key that slices past the text. */
  lemma StepFailsOnlyOnEmptyChange(e: Editor, key: char)
    ensures Step(e, key) == None <==> ChangesNothing(e, key)
  {
    hide LineStart, LineEnd, WordEnd, Past, Back;
  }

  // ---- the state as the interface keeps it ----

  class VimState {
    var pending: Option<char>
    var register: string
    var undo: seq<Snapshot>

    constructor ()
      ensures pending == None && register == "" && undo == []
    {
      pending, register, undo := None, "", [];
    }

    ghost function With(text: string, cursor: int): Editor
      reads this
    {
      Editor(text, cursor, pending, register, undo)
    }

    method SaveText(text: string, cursor: nat)
      modifies this`undo
      ensures With(text, cursor) == Save(old(With(text, cursor)))
    {
      undo := undo + [Snapshot(text, cursor)];
      if |undo| > MAX_UNDO {
        undo := undo[1..];
      }
    }

    method EditLine(text: string, cursor: nat, op: char) returns (out: string, at: int, insert: bool)
      requires cursor <= |text|
      modifies this`register, this`undo
      ensures Edited(With(out, at), insert) == WholeLine(old(With(text, cursor)), op)
    {
      hide LineStart, LineEnd;
      var start := FindLineStart(text, cursor);
      var end := FindLineEnd(text, cursor);
      if op == 'y' {
        register := text[start..end] + "\n";
        return text, cursor, false;
      }
      SaveText(text, cursor);
      register := text[start..end] + "\n";
      if op == 'c' {
        return text[..start] + text[end..], start, true;
      }
      var cut := end;
      if cut < |text| {
        cut := cut + 1;
      } else if start > 0 {
        start := start - 1;
      }
      out := text[..start] + text[cut..];
      at := FindLineStart(out, Min(start, |out|));
      insert := false;
    }

    method EditMotion(text: string, cursor: nat, op: char, key: char) returns (out: string, at: int, insert: bool)
      requires cursor <= |text|
      requires IsOperator(op) && !(op == 'c' && key == 'w' && text == "")
      modifies this`register, this`undo
      ensures Some(Edited(With(out, at), insert)) == Operate(old(With(text, cursor)), op, key)
    {
      hide LineStart, LineEnd, WordEnd, Motion;
      var motion := FindMotion(text, cursor, key);
      if motion.None? {
        return text, cursor, false;
      }
      var to := motion.value;
      if op == 'c' && key == 'w' {
        var last := FindWordEnd(text, cursor);
        to := last + 1;
      }
      var from, upto := Min(cursor, to), Max(cursor, to);
      if key == 'e' || key == '$' {
        upto := Min(upto + 1, |text|);
        if key == '$' {
          upto := FindLineEnd(text, cursor);
        }
      }
      register := text[from..upto];
      if op == 'y' {
        return text, cursor, false;
      }
      SaveText(text, cursor);
      out := text[..from] + text[upto..];
      at := Clamp(out, from);
      insert := op == 'c';
    }

    method PutRegister(text: string, cursor: nat, key: char) returns (out: string, at: int)
      requires cursor <= |text|
      modifies this`undo
      ensures Edited(With(out, at), false) == Put(old(With(text, cursor)), key)
    {
      hide LineStart, LineEnd;
      if register == "" {
        return text, cursor;
      }
      SaveText(text, cursor);
      if register[|register| - 1] == '\n' {
        if key == 'p' {
          var end := FindLineEnd(text, cursor);
          return text[..end] + ("\n" + register[..|register| - 1]) + text[end..], end + 1;
        }
        var start := FindLineStart(text, cursor);
        return text[..start] + register + text[start..], start;
      }
      var place := cursor;
      if key == 'p' && cursor < |text| && text[cursor] != '\n' {
        place := place + 1;
      }
      out := text[..place] + register + text[place..];
      at := place + |register| - 1;
    }

    method EditPlain(text: string, cursor: nat, key: char) returns (out: string, at: int, insert: bool)
      requires cursor <= |text| && pending == None
      modifies this
      ensures Edited(With(out, at), insert) == Plain(old(With(text, cursor)), key)
    {
      hide LineStart, LineEnd, WordEnd, Motion, Put, FirstNonBlank;
      out, at, insert := text, cursor, false;
      var start := FindLineStart(text, cursor);
      var end := FindLineEnd(text, cursor);
      match key
      case 'i' => insert := true;
      case 'a' =>
        if cursor < end {
          at := cursor + 1;
        }
        insert := true;
      case 'I' =>
        at, insert := FirstNonBlank(text, cursor), true;
      case 'A' => at, insert := end, true;
      case 'o' =>
        SaveText(text, cursor);
        out, at, insert := text[..end] + "\n" + text[end..], end + 1, true;
      case 'O' =>
        SaveText(text, cursor);
        out, at, insert := text[..start] + "\n" + text[start..], start, true;
      case 'x' => out, at := EditHere(text, cursor);
      case 'X' =>
        if cursor > start {
          SaveText(text, cursor);
          out, at := text[..cursor - 1] + text[cursor..], cursor - 1;
        }
      case 'D' => out, insert := EditRest(text, cursor, key);
      case 'C' => out, insert := EditRest(text, cursor, key);
      case 'd' => pending := Some(key);
      case 'c' => pending := Some(key);
      case 'y' => pending := Some(key);
      case 'g' => pending := Some(key);
      case 'p' => out, at := PutRegister(text, cursor, key);
      case 'P' => out, at := PutRegister(text, cursor, key);
      case 'u' =>
        var n := |undo|;
        if n > 0 {
          var s := undo[n - 1];
          undo := undo[..n - 1];
          out, at := s.text, s.cursor;
        }
      case _ =>
        var to := FindMotion(text, cursor, key);
        if to.Some? {
          at := Clamp(text, to.value);
        }
    }

    method EditHere(text: string, cursor: nat) returns (out: string, at: int)
      requires cursor <= |text|
      modifies this`register, this`undo
      ensures Edited(With(out, at), false) == DeleteHere(old(With(text, cursor)))
    {
      hide LineStart, LineEnd;
      var end := FindLineEnd(text, cursor);
      if cursor >= end {
        return text, cursor;
      }
      SaveText(text, cursor);
      register := [text[cursor]];
      out, at := text[..cursor] + text[cursor + 1..], cursor;
      var newEnd := FindLineEnd(out, cursor);
      var newStart := FindLineStart(out, cursor);
      if cursor == newEnd && cursor > newStart {
        at := cursor - 1;
      }
    }

    method EditRest(text: string, cursor: nat, key: char) returns (out: string, insert: bool)
      requires cursor <= |text|
      modifies this`register, this`undo
      ensures Edited(With(out, cursor), insert) == DeleteRest(old(With(text, cursor)), key)
    {
      hide LineEnd;
      SaveText(text, cursor);
      var end := FindLineEnd(text, cursor);
      register := text[cursor..end];
      out, insert := text[..cursor] + text[end..], key == 'C';
    }

    /** One normal-mode key at the cursor. */
    method VimEdit(text: string, cursor: int, key: char) returns (out: string, at: int, insert: bool)
      requires !(pending == Some('c') && key == 'w' && text == "")
      modifies this
      ensures Step(old(With(text, cursor)), key) == Some(Edited(With(out, at), insert))
    {
      hide Plain, WholeLine, Operate;
      var c := Clamp(text, cursor);
      if pending.Some? {
        var op := pending.value;
        pending := None;
        if op == 'g' && key == 'g' {
          return text, 0, false;
        } else if IsOperator(op) && key == op {
          out, at, insert := EditLine(text, c, op);
        } else if IsOperator(op) {
          out, at, insert := EditMotion(text, c, op, key);
        } else {
          return text, c, false;
        }
      } else {
        out, at, insert := EditPlain(text, c, key);
      }
    }
  }
}
