/** Strings as the interface's code handles them: splitting at a character, decimal numbers both
    ways, and fields between blanks. */
module Text {

  datatype Option<+T> = None | Some(value: T)

  const MAX_INT := 0x7fff_ffff_ffff_ffff

  function Max(x: int, y: int): int { if x >= y then x else y }

  function Min(x: int, y: int): int { if x <= y then x else y }

  // ---- splitting and joining ----

  /** The pieces of s between occurrences of sep; one piece when there is none. */
  function Split(s: string, sep: char): (r: seq<string>)
    ensures |r| > 0
  {
    if s == [] then [[]]
    else
      var rest := Split(s[1..], sep);
      if s[0] == sep then [[]] + rest else [[s[0]] + rest[0]] + rest[1..]
  }

  /** Each line closed by a newline, one after the other. */
  function Unlines(lines: seq<string>): string {
    if lines == [] then [] else lines[0] + ['\n'] + Unlines(lines[1..])
  }

  lemma {:induction false} UnlinesConcat(x: seq<string>, y: seq<string>)
    ensures Unlines(x + y) == Unlines(x) + Unlines(y)
  {
    if x == [] {
      assert x + y == y;
    } else {
      assert (x + y)[1..] == x[1..] + y;
      UnlinesConcat(x[1..], y);
    }
  }

  lemma {:induction false} SplitOne(s: string, sep: char)
    requires sep !in s
    ensures Split(s, sep) == [s]
  {
    if s != [] {
      SplitOne(s[1..], sep);
      assert s == [s[0]] + s[1..];
    }
  }

  lemma {:induction false} SplitFirst(s: string, sep: char, rest: string)
    requires sep !in s
    ensures Split(s + [sep] + rest, sep) == [s] + Split(rest, sep)
  {
    if s == [] {
      assert s + [sep] + rest == [sep] + rest;
    } else {
      assert (s + [sep] + rest)[1..] == s[1..] + [sep] + rest;
      SplitFirst(s[1..], sep, rest);
      assert s == [s[0]] + s[1..];
    }
  }

  /** No piece holds the separator. */
  lemma {:induction false} SplitPieces(s: string, sep: char)
    ensures forall i :: 0 <= i < |Split(s, sep)| ==> sep !in Split(s, sep)[i]
  {
    if s != [] {
      SplitPieces(s[1..], sep);
    }
  }

  /** Where the line at pos ends: at its newline, or at the end of the text. */
  function LineEnd(text: string, pos: nat): (end: nat)
    requires pos <= |text|
    ensures pos <= end <= |text|
    ensures forall i :: pos <= i < end ==> text[i] != '\n'
    ensures end < |text| ==> text[end] == '\n'
    decreases |text| - pos
  {
    if pos == |text| || text[pos] == '\n' then pos else LineEnd(text, pos + 1)
  }

  function TrimSuffixNewline(s: string): string {
    if |s| > 0 && s[|s| - 1] == '\n' then s[..|s| - 1] else s
  }

  function TrimRightNewlines(s: string): string {
    if |s| > 0 && s[|s| - 1] == '\n' then TrimRightNewlines(s[..|s| - 1]) else s
  }

  /** The pieces between newlines, one closing newline not counted as a separator; none for "". */
  function SplitLines(s: string): (lines: seq<string>)
    ensures s != "" <==> lines != []
  {
    if s == "" then [] else Split(TrimSuffixNewline(s), '\n')
  }

  lemma SplitLinesHaveNoNewline(s: string)
    ensures forall i :: 0 <= i < |SplitLines(s)| ==> '\n' !in SplitLines(s)[i]
  {
    if s != "" {
      SplitPieces(TrimSuffixNewline(s), '\n');
    }
  }

  lemma {:induction false} SplitUnlines(lines: seq<string>)
    requires lines != []
    requires forall i :: 0 <= i < |lines| ==> '\n' !in lines[i]
    ensures Unlines(lines) != [] && Unlines(lines)[|Unlines(lines)| - 1] == '\n'
    ensures Split(Unlines(lines)[..|Unlines(lines)| - 1], '\n') == lines
  {
    var u := Unlines(lines);
    if |lines| == 1 {
      assert u == lines[0] + ['\n'];
      assert u[..|u| - 1] == lines[0];
      SplitOne(lines[0], '\n');
    } else {
      var v := Unlines(lines[1..]);
      SplitUnlines(lines[1..]);
      assert u == lines[0] + ['\n'] + v;
      assert u[..|u| - 1] == lines[0] + ['\n'] + v[..|v| - 1];
      SplitFirst(lines[0], '\n', v[..|v| - 1]);
    }
  }

  lemma {:induction false} UnlinesEnd(lines: seq<string>) returns (front: string)
    requires lines != []
    ensures Unlines(lines) == front + lines[|lines| - 1] + ['\n']
  {
    if |lines| == 1 {
      front := [];
    } else {
      var rest := UnlinesEnd(lines[1..]);
      front := lines[0] + ['\n'] + rest;
    }
  }

  /** Only the last newline is trimmed from a text whose last line is not empty. */
  lemma {:induction false} TrimOneNewline(front: string, last: string)
    requires last != [] && '\n' !in last
    ensures TrimRightNewlines(front + last + ['\n']) == front + last
  {
    var s, cut := front + last + ['\n'], front + last;
    assert s[..|s| - 1] == cut;
    assert cut[|cut| - 1] == last[|last| - 1];
  }

  /** Reading back text written line by line, the last line not empty. */
  lemma {:induction false} LinesRoundTrip(lines: seq<string>)
    requires lines != [] && lines[|lines| - 1] != ""
    requires forall i :: 0 <= i < |lines| ==> '\n' !in lines[i]
    ensures Split(TrimRightNewlines(Unlines(lines)), '\n') == lines
  {
    SplitUnlines(lines);
    var front := UnlinesEnd(lines);
    TrimOneNewline(front, lines[|lines| - 1]);
    assert Unlines(lines)[..|Unlines(lines)| - 1] == front + lines[|lines| - 1];
  }

  function Newlines(s: string): (n: nat)
    ensures n <= |s|
  {
    if s == [] then 0 else (if s[0] == '\n' then 1 else 0) + Newlines(s[1..])
  }

  lemma {:induction false} NewlinesConcat(a: string, b: string)
    ensures Newlines(a + b) == Newlines(a) + Newlines(b)
  {
    if a == [] {
      assert a + b == b;
    } else {
      assert (a + b)[1..] == a[1..] + b;
      NewlinesConcat(a[1..], b);
    }
  }

  lemma {:induction false} NewlinesNone(s: string)
    requires '\n' !in s
    ensures Newlines(s) == 0
  {
    if s != [] {
      NewlinesNone(s[1..]);
    }
  }

  // ---- decimal numbers ----

  function Digit(d: nat): (c: char)
    requires d < 10
    ensures IsDigit(c) && DigitValue(c) == d
  {
    '0' + d as char
  }

  predicate IsDigit(c: char) { '0' <= c <= '9' }

  /** Where the digits from j on end. */
  function DigitRun(text: string, j: nat): (k: nat)
    requires j <= |text|
    ensures j <= k <= |text|
    ensures forall l :: j <= l < k ==> IsDigit(text[l])
    ensures k < |text| ==> !IsDigit(text[k])
    decreases |text| - j
  {
    if j < |text| && IsDigit(text[j]) then DigitRun(text, j + 1) else j
  }

  function DigitValue(c: char): (d: nat)
    requires IsDigit(c)
    ensures d < 10
  {
    c as int - '0' as int
  }

  function Decimal(n: nat): (s: string)
    ensures s != []
    ensures forall i :: 0 <= i < |s| ==> IsDigit(s[i])
  {
    if n < 10 then [Digit(n)] else Decimal(n / 10) + [Digit(n % 10)]
  }

  /** The number a run of digits writes; nothing for an empty run or another character. */
  function Digits(s: string): Option<nat> {
    if |s| == 0 then None
    else if !IsDigit(s[|s| - 1]) then None
    else if |s| == 1 then Some(DigitValue(s[0]))
    else match Digits(s[..|s| - 1])
      case None => None
      case Some(n) => Some(10 * n + DigitValue(s[|s| - 1]))
  }

  function Signed(magnitude: Option<nat>, negative: bool): Option<int> {
    match magnitude
    case None => None
    case Some(n) =>
      var m: int := n;
      var v := if negative then -m else m;
      if -MAX_INT - 1 <= v <= MAX_INT then Some(v) else None
  }

  /** strconv.Atoi: digits with an optional sign, within 64 bits; None is its error. */
  function Atoi(s: string): Option<int> {
    if |s| > 0 && (s[0] == '-' || s[0] == '+') then Signed(Digits(s[1..]), s[0] == '-')
    else Signed(Digits(s), false)
  }

  lemma {:induction false} DigitsOfDecimal(n: nat)
    ensures Digits(Decimal(n)) == Some(n)
  {
    if n >= 10 {
      DigitsOfDecimal(n / 10);
      var s := Decimal(n);
      assert s[..|s| - 1] == Decimal(n / 10);
    }
  }

  lemma {:induction false} AtoiOfDecimal(n: nat)
    requires n <= MAX_INT
    ensures Atoi(Decimal(n)) == Some(n)
  {
    DigitsOfDecimal(n);
    assert IsDigit(Decimal(n)[0]);
  }

  lemma {:induction false} DecimalInjective(m: nat, n: nat)
    requires Decimal(m) == Decimal(n)
    ensures m == n
  {
    DigitsOfDecimal(m);
    DigitsOfDecimal(n);
  }

  // ---- blanks and fields ----

  /** unicode.IsSpace. */
  predicate IsSpace(c: char) {
    var n := c as int;
    || 9 <= n <= 13 || n == 0x20 || n == 0x85 || n == 0xa0 || n == 0x1680
    || 0x2000 <= n <= 0x200a || n == 0x2028 || n == 0x2029 || n == 0x202f || n == 0x205f || n == 0x3000
  }

  /** The end of the run of non-blanks that starts s. */
  function WordLength(s: string): (n: nat)
    ensures n <= |s|
    ensures n < |s| ==> IsSpace(s[n])
  {
    if s == [] || IsSpace(s[0]) then 0 else 1 + WordLength(s[1..])
  }

  /** strings.Fields: the runs of non-blanks. */
  function Fields(s: string): seq<string>
    decreases |s|
  {
    if s == [] then []
    else if IsSpace(s[0]) then Fields(s[1..])
    else
      var n := WordLength(s);
      [s[..n]] + Fields(s[n..])
  }

  predicate IsWord(s: string) {
    s != [] && forall i :: 0 <= i < |s| ==> !IsSpace(s[i])
  }

  lemma {:induction false} WordLengthOf(w: string, rest: string)
    requires forall i :: 0 <= i < |w| ==> !IsSpace(w[i])
    requires rest == [] || IsSpace(rest[0])
    ensures WordLength(w + rest) == |w|
  {
    if w == [] {
      assert w + rest == rest;
    } else {
      assert (w + rest)[1..] == w[1..] + rest;
      WordLengthOf(w[1..], rest);
    }
  }

  lemma {:induction false} FieldsFirst(w: string, rest: string)
    requires IsWord(w)
    requires rest == [] || IsSpace(rest[0])
    ensures Fields(w + rest) == [w] + Fields(rest)
  {
    WordLengthOf(w, rest);
    assert (w + rest)[..|w|] == w && (w + rest)[|w|..] == rest;
    assert (w + rest)[0] == w[0];
  }

  /** The part of s before sep, all of it when there is none. */
  function Before(s: string, sep: char): string { Split(s, sep)[0] }

  lemma BeforeFirst(s: string, sep: char, rest: string)
    requires sep !in s
    ensures Before(s + [sep] + rest, sep) == s
  {
    SplitFirst(s, sep, rest);
  }

  // ---- searching ----

  predicate OccursAt(s: string, t: string, k: nat) { k + |t| <= |s| && s[k..k + |t|] == t }

  /** The first place at or after k where t occurs. */
  function IndexFrom(s: string, t: string, k: nat): (r: Option<nat>)
    requires k <= |s|
    ensures r.Some? ==> k <= r.value && r.value + |t| <= |s| && OccursAt(s, t, r.value)
    ensures forall j :: k <= j < (if r.Some? then r.value else |s| + 1) ==> !OccursAt(s, t, j)
    decreases |s| - k
  {
    if OccursAt(s, t, k) then Some(k) else if k == |s| then None else IndexFrom(s, t, k + 1)
  }

  method Index(s: string, t: string, start: nat) returns (r: Option<nat>)
    requires start <= |s|
    ensures r == IndexFrom(s, t, start)
  {
    var k := start;
    while k <= |s|
      invariant start <= k <= |s| + 1
      invariant k <= |s| ==> IndexFrom(s, t, k) == IndexFrom(s, t, start)
      invariant k == |s| + 1 ==> IndexFrom(s, t, start) == None
    {
      if k + |t| <= |s| && s[k..k + |t|] == t {
        return Some(k);
      }
      k := k + 1;
    }
    r := None;
  }

  predicate Contains(s: string, t: string) { IndexFrom(s, t, 0).Some? }
}
