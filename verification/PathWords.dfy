/** How text typed or dropped is read as paths, however its words are quoted. */
module PathWords {
  import opened Paths
  import opened Text

  /** A stretch of typed text: characters that mean themselves, one after a backslash, some between quotes of
      either kind, or a blank. */
  datatype Stretch = Plain(s: string) | Slashed(c: char) | Double(s: string) | Single(s: string) | Blank(c: char)

  predicate WellFormed(x: Stretch) {
    match x
    case Plain(s) => s != "" && forall c <- s :: c !in " \n\t\\\"\'"
    case Double(s) => '"' !in s
    case Single(s) => '\'' !in s
    case Blank(c) => c in " \n\t"
    case Slashed(_) => true
  }

  /** As typed. */
  function Typed(x: Stretch): string {
    match x
    case Plain(s) => s
    case Slashed(c) => ['\\', c]
    case Double(s) => ['"'] + s + ['"']
    case Single(s) => ['\''] + s + ['\'']
    case Blank(c) => [c]
  }

  /** What it adds to the word it is in. */
  function Meant(x: Stretch): string {
    match x
    case Slashed(c) => [c]
    case Blank(_) => ""
    case _ => x.s
  }

  function AllTyped(xs: seq<Stretch>): string {
    if xs == [] then "" else Typed(xs[0]) + AllTyped(xs[1..])
  }

  function Word(cur: string): seq<string> { if cur == "" then [] else [cur] }

  /** The words, when cur of the first is read: what stands between two blanks, when that is anything. */
  function WordsOf(cur: string, xs: seq<Stretch>): seq<string>
    decreases |xs|
  {
    if xs == [] then Word(cur)
    else if xs[0].Blank? then Word(cur) + WordsOf("", xs[1..])
    else WordsOf(cur + Meant(xs[0]), xs[1..])
  }

  /** A stretch of characters that each extend the word. */
  lemma {:induction false} AllTaken(x: Lexer, s: string)
    requires !x.escaped
    requires match x.quote case None => (forall c <- s :: c !in " \n\t\\\"\'") case Some(q) => q !in s
    ensures Run(x, s) == x.(cur := x.cur + s)
    decreases |s|
  {
    if s == "" {
      assert x.cur + s == x.cur;
    } else {
      assert s[0] in s && forall c <- s[1..] :: c in s;
      AllTaken(Step(x, s[0]), s[1..]);
      assert x.cur + [s[0]] + s[1..] == x.cur + s;
    }
  }

  lemma {:induction false} BetweenQuotes(x: Lexer, q: char, s: string)
    requires !x.escaped && x.quote.None? && (q == '"' || q == '\'') && q !in s
    ensures Run(x, [q] + s + [q]) == x.(cur := x.cur + s)
  {
    hide Run;
    RunConcat(x, [q] + s, [q]);
    RunConcat(x, [q], s);
    RunOne(x, q);
    var y := x.(quote := Some(q));
    AllTaken(y, s);
    RunOne(y.(cur := x.cur + s), q);
  }

  lemma {:induction false} OneTaken(x: Lexer, p: Stretch)
    requires !x.escaped && x.quote.None? && WellFormed(p)
    ensures Run(x, Typed(p)) == if p.Blank? then Flushed(x) else x.(cur := x.cur + Meant(p))
  {
    hide Run;
    match p
    case Plain(s) => AllTaken(x, s);
    case Slashed(c) =>
      RunConcat(x, ['\\'], [c]);
      assert ['\\'] + [c] == ['\\', c];
      RunOne(x, '\\');
      RunOne(x.(escaped := true), c);
    case Double(s) => BetweenQuotes(x, '"', s);
    case Single(s) => BetweenQuotes(x, '\'', s);
    case Blank(c) => RunOne(x, c);
  }

  /** A backslash with nothing after it, or a quote that is never closed. */
  predicate Open(text: string) {
    text != "" && ((text[0] == '\\' && |text| == 1) || (text[0] in "\"\'" && text[0] !in text[1..]))
  }

  /** What stands open at the end of a text is read as if it were closed there. */
  function Tail(open: string): seq<Stretch> { if open == "" then [] else [Single(open[1..])] }

  lemma {:induction false} TailTaken(before: seq<string>, cur: string, open: string)
    requires open == "" || Open(open)
    ensures Flushed(Run(Lexer(before, cur, None, false), open)).words == before + WordsOf(cur, Tail(open))
  {
    hide Run;
    var x := Lexer(before, cur, None, false);
    if open == "" {
      RunNothing(x);
      assert before + [] == before;
    } else {
      RunConcat(x, [open[0]], open[1..]);
      assert [open[0]] + open[1..] == open;
      RunOne(x, open[0]);
      if open[0] == '\\' {
        RunNothing(x.(escaped := true));
        assert cur + [] == cur;
      } else {
        AllTaken(x.(quote := Some(open[0])), open[1..]);
      }
      assert WordsOf(cur, Tail(open)) == Word(cur + open[1..]) by {
        assert Tail(open)[1..] == [];
      }
      assert before + [] == before;
    }
  }

  lemma {:induction false} AllRead(before: seq<string>, cur: string, xs: seq<Stretch>, open: string)
    requires (forall p <- xs :: WellFormed(p)) && (open == "" || Open(open))
    ensures Flushed(Run(Lexer(before, cur, None, false), AllTyped(xs) + open)).words ==
            before + WordsOf(cur, xs + Tail(open))
    decreases |xs|
  {
    hide Run, WellFormed, Typed, Meant, Open, Tail, WordsOf, Word;
    var x := Lexer(before, cur, None, false);
    if xs == [] {
      TailTaken(before, cur, open);
      assert AllTyped(xs) + open == open && xs + Tail(open) == Tail(open);
    } else {
      var rest, more := AllTyped(xs[1..]) + open, xs[1..] + Tail(open);
      assert AllTyped(xs) + open == Typed(xs[0]) + rest;
      assert (xs + Tail(open))[1..] == more && (xs + Tail(open))[0] == xs[0];
      RunConcat(x, Typed(xs[0]), rest);
      OneTaken(x, xs[0]);
      FirstWord(before, cur, xs + Tail(open));
      if xs[0].Blank? {
        AllRead(before + Word(cur), "", xs[1..], open);
      } else {
        AllRead(before, cur + Meant(xs[0]), xs[1..], open);
      }
    }
  }

  /** The words from a stretch on, and what a blank leaves of the word being read. */
  lemma {:induction false} FirstWord(before: seq<string>, cur: string, xs: seq<Stretch>)
    requires xs != []
    ensures before + WordsOf(cur, xs) ==
            if xs[0].Blank? then before + Word(cur) + WordsOf("", xs[1..])
            else before + WordsOf(cur + Meant(xs[0]), xs[1..])
    ensures Flushed(Lexer(before, cur, None, false)) == Lexer(before + Word(cur), "", None, false)
  {
    hide Meant;
    assert before + [] == before;
    if xs[0].Blank? {
      assert before + (Word(cur) + WordsOf("", xs[1..])) == before + Word(cur) + WordsOf("", xs[1..]);
    }
  }

  lemma {:induction false} FirstAt(s: string, c: char) returns (n: nat)
    requires c in s
    ensures n < |s| && s[n] == c && c !in s[..n]
  {
    if s[0] == c {
      n := 0;
    } else {
      n := FirstAt(s[1..], c);
      n := n + 1;
    }
  }

  lemma FirstStretch(text: string) returns (p: Stretch, n: nat)
    requires text != "" && !Open(text)
    ensures WellFormed(p) && 0 < n <= |text| && Typed(p) == text[..n]
  {
    var c := text[0];
    if c == '\\' {
      return Slashed(text[1]), 2;
    } else if c in "\"\'" {
      var k := FirstAt(text[1..], c);
      var s := text[1..][..k];
      assert text[..k + 2] == [c] + s + [c];
      return if c == '"' then Double(s) else Single(s), k + 2;
    } else if c in " \n\t" {
      return Blank(c), 1;
    } else {
      return Plain([c]), 1;
    }
  }

  /** Every text is made of such stretches, but for what may stand open at its end. */
  lemma {:induction false} TypedOrOpen(text: string) returns (xs: seq<Stretch>, open: string)
    ensures text == AllTyped(xs) + open && (open == "" || Open(open))
    ensures forall p <- xs :: WellFormed(p)
    decreases |text|
  {
    hide WellFormed, Open, Typed;
    if text == "" || Open(text) {
      xs, open := [], text;
    } else {
      var p, n := FirstStretch(text);
      var rest;
      rest, open := TypedOrOpen(text[n..]);
      xs := [p] + rest;
      assert xs[1..] == rest;
      assert text == text[..n] + text[n..];
    }
  }

  /** Any text splits into the words its stretches make, the last one closed by its end. */
  lemma {:induction false} TokensOfTyped(text: string, xs: seq<Stretch>, open: string)
    requires text == AllTyped(xs) + open && (open == "" || Open(open))
    requires forall p <- xs :: WellFormed(p)
    ensures Tokens(text) == WordsOf("", xs + Tail(open))
  {
    hide Run, WordsOf, AllTyped, WellFormed, Open, Tail;
    AllRead([], "", xs, open);
    assert [] + WordsOf("", xs + Tail(open)) == WordsOf("", xs + Tail(open));
  }
}
