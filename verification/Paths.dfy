/** Quoting a path for the shell (shellQuote) and splitting typed text into paths (pathTokens). */
module Paths {
  import opened Text

  function Escaped(s: string): string {
    if s == [] then [] else (if s[0] == '\'' then "'\\''" else [s[0]]) + Escaped(s[1..])
  }

  function ShellQuote(s: string): string { "'" + Escaped(s) + "'" }

  /** The tokenizer between two characters: the words found, the one being read, the quote being in and
      whether a backslash came just before. */
  datatype Lexer = Lexer(words: seq<string>, cur: string, quote: Option<char>, escaped: bool)

  const START := Lexer([], "", None, false)

  function Flushed(x: Lexer): Lexer {
    if x.cur == "" then x else x.(words := x.words + [x.cur], cur := "")
  }

  function Step(x: Lexer, c: char): Lexer {
    if x.escaped then x.(cur := x.cur + [c], escaped := false)
    else if c == '\\' && x.quote.None? then x.(escaped := true)
    else if x.quote == Some(c) then x.(quote := None)
    else if x.quote.None? && (c == '"' || c == '\'') then x.(quote := Some(c))
    else if x.quote.None? && (c == ' ' || c == '\n' || c == '\t') then Flushed(x)
    else x.(cur := x.cur + [c])
  }

  function Run(x: Lexer, text: string): Lexer
    decreases |text|
  {
    if text == [] then x else Run(Step(x, text[0]), text[1..])
  }

  function Tokens(text: string): seq<string> { Flushed(Run(START, text)).words }

  method PathTokens(text: string) returns (out: seq<string>)
    ensures out == Tokens(text)
  {
    hide Step;
    var x := START;
    for i := 0 to |text|
      invariant Run(x, text[i..]) == Run(START, text)
    {
      x := NextRune(x, text[i]);
      assert text[i..][1..] == text[i + 1..];
    }
    assert text[|text|..] == [];
    out := Flushed(x).words;
  }

  method NextRune(x: Lexer, r: char) returns (y: Lexer)
    ensures y == Step(x, r)
  {
    var out, cur, quote, escaped := x.words, x.cur, x.quote, x.escaped;
    if escaped {
      cur, escaped := cur + [r], false;
    } else if r == '\\' && quote.None? {
      escaped := true;
    } else if quote.Some? && r == quote.value {
      quote := None;
    } else if quote.None? && (r == '"' || r == '\'') {
      quote := Some(r);
    } else if quote.None? && (r == ' ' || r == '\n' || r == '\t') {
      if cur != "" {
        out, cur := out + [cur], "";
      }
    } else {
      cur := cur + [r];
    }
    y := Lexer(out, cur, quote, escaped);
  }

  // ---- a quoted path reads back as itself ----

  lemma {:induction false} RunConcat(x: Lexer, a: string, b: string)
    ensures Run(x, a + b) == Run(Run(x, a), b)
    decreases |a|
  {
    hide Step;
    if a == [] {
      assert a + b == b;
    } else {
      assert (a + b)[1..] == a[1..] + b;
      RunConcat(Step(x, a[0]), a[1..], b);
    }
  }

  lemma {:induction false} RunOne(x: Lexer, c: char)
    ensures Run(x, [c]) == Step(x, c)
  {
    assert Run(Step(x, c), []) == Step(x, c);
  }

  /** A quote inside a quoted path leaves the quotes, adds an escaped one, and enters them again. */
  lemma InnerQuote(words: seq<string>, cur: string)
    ensures Run(Lexer(words, cur, Some('\''), false), "'\\''") == Lexer(words, cur + "'", Some('\''), false)
  {
    var x := Lexer(words, cur, Some('\''), false);
    RunConcat(x, "'", "\\''");
    RunConcat(x.(quote := None), "\\", "''");
    RunConcat(Lexer(words, cur, None, true), "'", "'");
    RunOne(x, '\'');
    RunOne(x.(quote := None), '\\');
    RunOne(Lexer(words, cur, None, true), '\'');
    RunOne(Lexer(words, cur + "'", None, false), '\'');
    assert "'" + "\\''" == "'\\''" && "\\" + "''" == "\\''" && "'" + "'" == "''";
  }

  lemma {:induction false} InsideReads(words: seq<string>, cur: string, s: string)
    ensures Run(Lexer(words, cur, Some('\''), false), Escaped(s)) == Lexer(words, cur + s, Some('\''), false)
    decreases |s|
  {
    var x := Lexer(words, cur, Some('\''), false);
    if s == [] {
      assert cur + s == cur;
    } else {
      var first := if s[0] == '\'' then "'\\''" else [s[0]];
      RunConcat(x, first, Escaped(s[1..]));
      if s[0] == '\'' {
        InnerQuote(words, cur);
      } else {
        RunOne(x, s[0]);
      }
      assert Run(x, first) == Lexer(words, cur + [s[0]], Some('\''), false);
      InsideReads(words, cur + [s[0]], s[1..]);
      assert cur + [s[0]] + s[1..] == cur + s;
    }
  }

  lemma QuotedReads(words: seq<string>, cur: string, s: string)
    ensures Run(Lexer(words, cur, None, false), ShellQuote(s)) == Lexer(words, cur + s, None, false)
  {
    hide Run, Escaped;
    var x := Lexer(words, cur, None, false);
    assert ShellQuote(s) == "'" + (Escaped(s) + "'");
    RunConcat(x, "'", Escaped(s) + "'");
    RunOne(x, '\'');
    RunConcat(Lexer(words, cur, Some('\''), false), Escaped(s), "'");
    InsideReads(words, cur, s);
    RunOne(Lexer(words, cur + s, Some('\''), false), '\'');
  }

  /** The words quoted, one space between two. */
  function Quoted(words: seq<string>): string {
    if words == [] then ""
    else if |words| == 1 then ShellQuote(words[0])
    else ShellQuote(words[0]) + " " + Quoted(words[1..])
  }

  function NonEmpty(words: seq<string>): (r: seq<string>)
    ensures |r| <= |words|
  {
    if words == [] then [] else (if words[0] == "" then [] else [words[0]]) + NonEmpty(words[1..])
  }

  lemma {:induction false} AllKept(words: seq<string>)
    ensures NonEmpty(words) == words <==> forall i :: 0 <= i < |words| ==> words[i] != ""
  {
    if words != [] {
      var rest := words[1..];
      AllKept(rest);
      assert words == [words[0]] + rest;
      assert forall i :: 0 <= i < |rest| ==> rest[i] == words[i + 1];
      if words[0] != "" && NonEmpty(words) == words {
        assert ([words[0]] + NonEmpty(rest))[1..] == NonEmpty(rest);
      }
    }
  }

  lemma {:induction false} QuotedWordsRead(before: seq<string>, words: seq<string>)
    ensures Flushed(Run(Lexer(before, "", None, false), Quoted(words))).words == before + NonEmpty(words)
    decreases |words|
  {
    hide Run, ShellQuote, NonEmpty;
    var x := Lexer(before, "", None, false);
    if words == [] {
      RunNothing(x);
      NothingKept(before);
    } else {
      var w := words[0];
      QuotedReads(before, "", w);
      assert "" + w == w;
      var y := Lexer(before, w, None, false);
      NonEmptyFirst(before, words);
      if |words| == 1 {
        assert before + [] == before && before + [w] + [] == before + [w];
      } else {
        assert Quoted(words) == ShellQuote(w) + (" " + Quoted(words[1..]));
        RunConcat(x, ShellQuote(w), " " + Quoted(words[1..]));
        RunConcat(y, " ", Quoted(words[1..]));
        RunOne(y, ' ');
        QuotedWordsRead(Flushed(y).words, words[1..]);
      }
    }
  }

  lemma {:induction false} NonEmptyFirst(before: seq<string>, words: seq<string>)
    requires words != []
    ensures before + NonEmpty(words) == (if words[0] == "" then before else before + [words[0]]) + NonEmpty(words[1..])
    ensures |words| == 1 ==> NonEmpty(words[1..]) == []
  {
    hide NonEmpty;
    NonEmptyParts(words);
    Regrouped(before, words[0], NonEmpty(words[1..]));
  }

  lemma NothingKept(before: seq<string>)
    ensures before + NonEmpty([]) == before
  {
  }

  lemma {:induction false} NonEmptyParts(words: seq<string>)
    requires words != []
    ensures NonEmpty(words) == (if words[0] == "" then [] else [words[0]]) + NonEmpty(words[1..])
  {
  }

  lemma Regrouped(before: seq<string>, w: string, rest: seq<string>)
    ensures before + ([] + rest) == before + rest
    ensures before + ([w] + rest) == (before + [w]) + rest
  {
    assert [] + rest == rest;
  }

  lemma {:induction false} RunNothing(x: Lexer)
    ensures Run(x, "") == x
  {
  }

  /** Splitting quoted paths gives the paths back, whatever characters they hold, but for empty ones. */
  lemma {:induction false} TokensOfQuoted(words: seq<string>)
    ensures Tokens(Quoted(words)) == NonEmpty(words)
    ensures Tokens(Quoted(words)) == words <==> forall i :: 0 <= i < |words| ==> words[i] != ""
  {
    hide Run, Quoted, NonEmpty;
    QuotedWordsRead([], words);
    assert [] + NonEmpty(words) == NonEmpty(words);
    AllKept(words);
  }
}
