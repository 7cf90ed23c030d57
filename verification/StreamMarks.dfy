/** The marks a reply is cut by: what opens and closes a code fence, and what starts a list item. */
module StreamMarks {
  import opened Stream
  import opened Text

  function Indented(n: nat, rest: string): string { seq(n, _ => ' ') + rest }

  lemma {:induction false} IndentIs(n: nat, rest: string)
    requires rest == "" || rest[0] != ' '
    ensures LeadingSpaces(Indented(n, rest)) == n && Indented(n, rest)[n..] == rest
    decreases n
  {
    if n == 0 {
      assert Indented(0, rest) == rest;
    } else {
      assert Indented(n, rest)[1..] == Indented(n - 1, rest);
      IndentIs(n - 1, rest);
    }
  }

  /** A line after its indent starts with three backquotes or three tildes. */
  predicate Marked(rest: string) { |rest| >= 3 && rest[0] in "`~" && rest[1] == rest[0] && rest[2] == rest[0] }

  /** A fence opens at a line indented by at most three spaces that starts with three backquotes or tildes, and
      closes at the next such line of its own kind; no other line changes what is inside. */
  lemma FenceLines(n: nat, rest: string, fence: Fence)
    requires rest == "" || rest[0] != ' '
    ensures var after := AfterLine(fence, Indented(n, rest));
            if n > 3 || !Marked(rest) then after == fence
            else if fence.Outside? then after == Inside(rest[..3])
            else after == if fence.marker == rest[..3] then Outside else fence
  {
    hide LeadingSpaces;
    var line := Indented(n, rest);
    IndentIs(n, rest);
    MarkedIs(rest);
    assert IsFence(line) <==> n <= 3 && Marked(rest);
    assert IsFence(line) ==> FenceMarker(line) == rest[..3];
  }

  lemma MarkedIs(rest: string)
    ensures "```" <= rest || "~~~" <= rest <==> Marked(rest)
  {
    assert |"```"| == 3 && |"~~~"| == 3;
    if Marked(rest) {
      assert rest[..3] == [rest[0], rest[0], rest[0]];
      assert rest[0] == '`' || rest[0] == '~';
    }
  }

  /** Every line is its indent and what stands after it. */
  lemma {:induction false} EveryLineIsIndented(line: string) returns (n: nat, rest: string)
    ensures line == Indented(n, rest) && (rest == "" || rest[0] != ' ')
  {
    if line == "" || line[0] != ' ' {
      n, rest := 0, line;
    } else {
      n, rest := EveryLineIsIndented(line[1..]);
      assert line == [' '] + line[1..];
      n := n + 1;
    }
  }

  predicate NothingOrBlank(s: string) { s == "" || s[0] == ' ' || s[0] == '\t' }

  /** A list item: a dash, a star, a plus, or one to nine digits and a point or a parenthesis, with a blank or
      nothing after it. */
  ghost predicate Item(s: string) {
    || (exists c: char, rest :: s == [c] + rest && c in "-*+" && NothingOrBlank(rest))
    || (exists d: string, c: char, rest :: s == d + [c] + rest && 1 <= |d| <= 9 && (forall x <- d :: '0' <= x <= '9')
          && c in ".)" && NothingOrBlank(rest))
  }

  lemma ListItemIsItem(s: string)
    ensures ListItem(s) <==> Item(s)
  {
    hide Item, ListItem;
    if ListItem(s) {
      ItemFound(s);
    }
    if Item(s) {
      ItemSeen(s);
    }
  }

  /** What stands apart after a blank line begins with no blank, no empty line and no list item. */
  lemma ApartBegins(rest: string)
    ensures Apart(rest) <==> rest != "" && rest[0] !in " \t\n" && !Item(rest)
  {
    hide Item, ListItem;
    ListItemIsItem(rest);
    assert " \t\n" == [' ', '\t', '\n'];
  }

  lemma ItemFound(s: string)
    requires ListItem(s)
    ensures Item(s)
  {
    if s != [] && s[0] in "-*+" && MarkerEndsAt(s, 1) {
      assert s == [s[0]] + s[1..] && NothingOrBlank(s[1..]);
    } else {
      var n := DigitRun(s, 0);
      assert s == s[..n] + [s[n]] + s[n + 1..] && NothingOrBlank(s[n + 1..]);
    }
  }

  lemma ItemSeen(s: string)
    requires Item(s)
    ensures ListItem(s)
  {
    hide DigitRun;
    if c: char, rest :| s == [c] + rest && c in "-*+" && NothingOrBlank(rest) {
      assert s[0] == c && s[1..] == rest;
    } else {
      var d, c: char, rest :| s == d + [c] + rest && 1 <= |d| <= 9 && (forall x <- d :: '0' <= x <= '9')
        && c in ".)" && NothingOrBlank(rest);
      RunIs(s, d, c, rest);
      assert s[|d| + 1..] == rest && s[|d|] == c;
    }
  }

  lemma {:induction false} RunIs(s: string, d: string, c: char, rest: string)
    requires s == d + [c] + rest && (forall x <- d :: IsDigit(x)) && !IsDigit(c)
    ensures DigitRun(s, 0) == |d|
  {
    hide DigitRun;
    var n := DigitRun(s, 0);
    assert s[|d|] == c;
    assert forall i :: 0 <= i < |d| ==> s[i] == d[i] && d[i] in d;
  }
}
