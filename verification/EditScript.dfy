/** Matching two versions of a text line by line (lineOps, middleOps): the common ends first, then a
    longest common subsequence of the middle, read off a table filled from its far corner. */
module EditScript {
  import opened Text

  type Line = string

  /** What becomes of a line on the way from the old version to the new one. */
  datatype Kind = Keep | Remove | Add

  datatype LineOp = LineOp(kind: Kind, text: Line)

  /** The table's cells are 32 bits wide. */
  newtype int32 = x: int | -0x8000_0000 <= x < 0x8000_0000

  const MAX_DIFF_CELLS := 250_000

  /** The lines of the ops that are not of one kind. */
  function Without(ops: seq<LineOp>, kind: Kind): seq<Line> {
    if ops == [] then []
    else if ops[0].kind == kind then Without(ops[1..], kind)
    else [ops[0].text] + Without(ops[1..], kind)
  }

  /** The lines a script reads from the old version. */
  function OldOf(ops: seq<LineOp>): seq<Line> { Without(ops, Add) }

  /** The lines a script leaves in the new version. */
  function NewOf(ops: seq<LineOp>): seq<Line> { Without(ops, Remove) }

  /** How many ops of one kind a script has. */
  function Count(ops: seq<LineOp>, kind: Kind): nat {
    if ops == [] then 0
    else (if ops[0].kind == kind then 1 else 0) + Count(ops[1..], kind)
  }

  /** What an edit script is for: it turns a into b. */
  ghost predicate Turns(ops: seq<LineOp>, a: seq<Line>, b: seq<Line>) {
    OldOf(ops) == a && NewOf(ops) == b
  }

  function All(kind: Kind, lines: seq<Line>): (ops: seq<LineOp>)
    ensures |ops| == |lines|
    ensures forall i :: 0 <= i < |ops| ==> ops[i] == LineOp(kind, lines[i])
  {
    seq(|lines|, i requires 0 <= i < |lines| => LineOp(kind, lines[i]))
  }

  lemma {:induction false} WithoutConcat(x: seq<LineOp>, y: seq<LineOp>, kind: Kind)
    ensures Without(x + y, kind) == Without(x, kind) + Without(y, kind)
  {
    if x == [] {
      assert x + y == y;
    } else {
      assert (x + y)[1..] == x[1..] + y;
      WithoutConcat(x[1..], y, kind);
    }
  }

  lemma OpsConcat(x: seq<LineOp>, y: seq<LineOp>)
    ensures OldOf(x + y) == OldOf(x) + OldOf(y)
    ensures NewOf(x + y) == NewOf(x) + NewOf(y)
  {
    WithoutConcat(x, y, Add);
    WithoutConcat(x, y, Remove);
  }

  lemma OneOp(op: LineOp)
    ensures OldOf([op]) == if op.kind == Add then [] else [op.text]
    ensures NewOf([op]) == if op.kind == Remove then [] else [op.text]
  {
    assert [op][1..] == [];
    assert Without([op], Add) == if op.kind == Add then Without([], Add) else [op.text] + Without([], Add);
    assert Without([op], Remove) == if op.kind == Remove then Without([], Remove) else [op.text] + Without([], Remove);
  }

  lemma {:induction false} CountConcat(x: seq<LineOp>, y: seq<LineOp>, kind: Kind)
    ensures Count(x + y, kind) == Count(x, kind) + Count(y, kind)
  {
    if x == [] {
      assert x + y == y;
    } else {
      assert (x + y)[1..] == x[1..] + y;
      CountConcat(x[1..], y, kind);
    }
  }

  lemma {:induction false} AllOps(kind: Kind, lines: seq<Line>)
    ensures OldOf(All(kind, lines)) == if kind == Add then [] else lines
    ensures NewOf(All(kind, lines)) == if kind == Remove then [] else lines
    ensures forall k :: Count(All(kind, lines), k) == if k == kind then |lines| else 0
  {
    if lines != [] {
      assert All(kind, lines) == [LineOp(kind, lines[0])] + All(kind, lines[1..]);
      AllOps(kind, lines[1..]);
    }
  }

  // ---- the longest common subsequence ----

  /** How many lines a and b have in common, at most: the value the table holds. */
  function Lcs(a: seq<Line>, b: seq<Line>): (n: nat)
    ensures n <= |a| && n <= |b|
    decreases |a| + |b|
  {
    if a == [] || b == [] then 0
    else if a[0] == b[0] then 1 + Lcs(a[1..], b[1..])
    else Max(Lcs(a[1..], b), Lcs(a, b[1..]))
  }

  /** One more line in front of either version changes the value by none or one. */
  lemma {:induction false} LcsStep(x: Line, a: seq<Line>, b: seq<Line>)
    ensures Lcs(a, b) <= Lcs([x] + a, b) <= Lcs(a, b) + 1
    ensures Lcs(b, a) <= Lcs(b, [x] + a) <= Lcs(b, a) + 1
    decreases |a| + |b|
  {
    var xa := [x] + a;
    assert xa[1..] == a;
    if b != [] {
      LcsStep(x, a, b[1..]);
      assert b == [b[0]] + b[1..];
      LcsStep(b[0], b[1..], a);
    }
  }

  /** No script turning one version into the other keeps more lines than the value. */
  lemma {:induction false} KeptAtMostLcs(ops: seq<LineOp>)
    ensures Count(ops, Keep) <= Lcs(OldOf(ops), NewOf(ops))
  {
    if ops != [] {
      var x, o, n := ops[0].text, OldOf(ops[1..]), NewOf(ops[1..]);
      KeptAtMostLcs(ops[1..]);
      match ops[0].kind
      case Keep =>
        assert ([x] + o)[1..] == o && ([x] + n)[1..] == n;
      case Remove =>
        LcsStep(x, o, n);
        assert [] + n == n;
      case Add =>
        LcsStep(x, n, o);
        assert [] + o == o;
    }
  }

  /** A common first part adds its length. */
  lemma {:induction false} LcsHead(h: seq<Line>, a: seq<Line>, b: seq<Line>)
    ensures Lcs(h + a, h + b) == |h| + Lcs(a, b)
  {
    if h == [] {
      assert h + a == a && h + b == b;
    } else {
      assert (h + a)[1..] == h[1..] + a && (h + b)[1..] == h[1..] + b;
      LcsHead(h[1..], a, b);
    }
  }

  /** A common last line adds one. */
  lemma {:induction false} LcsLast(a: seq<Line>, b: seq<Line>, x: Line)
    ensures Lcs(a + [x], b + [x]) == Lcs(a, b) + 1
    decreases |a| + |b|
  {
    var ax, bx := a + [x], b + [x];
    if a != [] {
      assert ax[1..] == a[1..] + [x];
      LcsLast(a[1..], b, x);
    } else {
      assert ax[1..] == [];
    }
    if b != [] {
      assert bx[1..] == b[1..] + [x];
      LcsLast(a, b[1..], x);
    } else {
      assert bx[1..] == [];
    }
    if a != [] && b != [] {
      LcsLast(a[1..], b[1..], x);
    }
  }

  /** A common last part adds its length: trimming the ends costs nothing. */
  lemma {:induction false} LcsTail(a: seq<Line>, b: seq<Line>, t: seq<Line>)
    ensures Lcs(a + t, b + t) == Lcs(a, b) + |t|
    decreases |t|
  {
    if t == [] {
      assert a + t == a && b + t == b;
    } else {
      var n := |t| - 1;
      assert a + t == (a + t[..n]) + [t[n]] && b + t == (b + t[..n]) + [t[n]];
      LcsTail(a, b, t[..n]);
      LcsLast(a + t[..n], b + t[..n], t[n]);
    }
  }

  // ---- the script of the middle ----

  /** The greedy walk: keep where the lines agree, else take the side that loses nothing, the old
      one when neither does. */
  function Walk(a: seq<Line>, b: seq<Line>): (ops: seq<LineOp>)
    decreases |a| + |b|
  {
    if a == [] || b == [] then All(Remove, a) + All(Add, b)
    else if a[0] == b[0] then [LineOp(Keep, a[0])] + Walk(a[1..], b[1..])
    else if Lcs(a[1..], b) >= Lcs(a, b[1..]) then [LineOp(Remove, a[0])] + Walk(a[1..], b)
    else [LineOp(Add, b[0])] + Walk(a, b[1..])
  }

  /** The script of the middle; past MAX_DIFF_CELLS all of it removed, then all of it added. */
  function Middle(a: seq<Line>, b: seq<Line>): seq<LineOp> {
    if |a| * |b| > MAX_DIFF_CELLS then All(Remove, a) + All(Add, b) else Walk(a, b)
  }

  lemma {:induction false} WalkTurns(a: seq<Line>, b: seq<Line>)
    ensures Turns(Walk(a, b), a, b)
    decreases |a| + |b|
  {
    if a == [] || b == [] {
      OneThenOther(a, b);
    } else if a[0] == b[0] {
      WalkTurns(a[1..], b[1..]);
    } else if Lcs(a[1..], b) >= Lcs(a, b[1..]) {
      WalkTurns(a[1..], b);
    } else {
      WalkTurns(a, b[1..]);
    }
  }

  /** The greedy walk achieves the table's value. */
  lemma {:induction false} WalkKeeps(a: seq<Line>, b: seq<Line>)
    ensures Count(Walk(a, b), Keep) == Lcs(a, b)
    decreases |a| + |b|
  {
    if a == [] || b == [] {
      OneThenOther(a, b);
    } else if a[0] == b[0] {
      WalkKeeps(a[1..], b[1..]);
    } else if Lcs(a[1..], b) >= Lcs(a, b[1..]) {
      WalkKeeps(a[1..], b);
    } else {
      WalkKeeps(a, b[1..]);
    }
  }

  /** Everything removed, then everything added. */
  lemma OneThenOther(a: seq<Line>, b: seq<Line>)
    ensures Turns(All(Remove, a) + All(Add, b), a, b)
    ensures Count(All(Remove, a) + All(Add, b), Keep) == 0
  {
    AllOps(Remove, a);
    AllOps(Add, b);
    OpsConcat(All(Remove, a), All(Add, b));
    CountConcat(All(Remove, a), All(Add, b), Keep);
  }

  lemma MiddleTurns(a: seq<Line>, b: seq<Line>)
    ensures Turns(Middle(a, b), a, b)
  {
    WalkTurns(a, b);
    OneThenOther(a, b);
  }

  lemma {:induction false} MiddleKeeps(a: seq<Line>, b: seq<Line>)
    requires |a| * |b| <= MAX_DIFF_CELLS
    ensures Count(Middle(a, b), Keep) == Lcs(a, b)
  {
    WalkKeeps(a, b);
  }

  /** A table cell fits its type: a value is at most the cells there are. */
  lemma CellFits(a: seq<Line>, b: seq<Line>, i: nat, j: nat)
    requires i <= |a| && j <= |b| && 0 < |a| * |b| <= MAX_DIFF_CELLS
    ensures Lcs(a[i..], b[j..]) <= MAX_DIFF_CELLS
  {
    AtMostProduct(|a|, |b|);
  }

  lemma AtMostProduct(n: nat, m: nat)
    requires n * m > 0
    ensures n <= n * m
  {
    if m > 0 {
      assert n * m == n + n * (m - 1);
    }
  }

  lemma CellAtEdge(a: seq<Line>, b: seq<Line>, i: nat, j: nat)
    requires i <= |a| && j <= |b| && (i == |a| || j == |b|)
    ensures Lcs(a[i..], b[j..]) == 0
  {
  }

  /** A cell is read off three of its neighbours. */
  lemma CellFromNeighbours(a: seq<Line>, b: seq<Line>, i: nat, j: nat)
    requires i < |a| && j < |b|
    ensures Lcs(a[i..], b[j..]) ==
            if a[i] == b[j] then 1 + Lcs(a[i + 1..], b[j + 1..])
            else Max(Lcs(a[i + 1..], b[j..]), Lcs(a[i..], b[j + 1..]))
  {
    assert a[i..][1..] == a[i + 1..] && b[j..][1..] == b[j + 1..];
  }

  method FillTable(a: seq<Line>, b: seq<Line>) returns (lcs: array2<int32>)
    requires 0 < |a| * |b| <= MAX_DIFF_CELLS
    ensures lcs.Length0 == |a| + 1 && lcs.Length1 == |b| + 1
    ensures forall i, j :: 0 <= i <= |a| && 0 <= j <= |b| ==> lcs[i, j] as int == Lcs(a[i..], b[j..])
  {
    hide Lcs;
    forall k | 0 <= k <= |a| {
      CellAtEdge(a, b, k, |b|);
    }
    forall l | 0 <= l <= |b| {
      CellAtEdge(a, b, |a|, l);
    }
    lcs := new int32[|a| + 1, |b| + 1]((_, _) => 0);
    var i := |a|;
    while i > 0
      invariant 0 <= i <= |a|
      invariant forall k, l :: i <= k <= |a| && 0 <= l <= |b| ==> lcs[k, l] as int == Lcs(a[k..], b[l..])
      invariant forall k :: 0 <= k < i ==> lcs[k, |b|] == 0
    {
      i := i - 1;
      var j := |b|;
      while j > 0
        invariant 0 <= j <= |b|
        invariant forall k, l :: i < k <= |a| && 0 <= l <= |b| ==> lcs[k, l] as int == Lcs(a[k..], b[l..])
        invariant forall l :: j <= l <= |b| ==> lcs[i, l] as int == Lcs(a[i..], b[l..])
        invariant forall k :: 0 <= k < i ==> lcs[k, |b|] == 0
      {
        j := j - 1;
        CellFits(a, b, i, j);
        CellFromNeighbours(a, b, i, j);
        if a[i] == b[j] {
          lcs[i, j] := lcs[i + 1, j + 1] + 1;
        } else {
          lcs[i, j] := if lcs[i + 1, j] >= lcs[i, j + 1] then lcs[i + 1, j] else lcs[i, j + 1];
        }
      }
    }
  }

  /** Appends a line op for each of lines. */
  method Append(ops: seq<LineOp>, kind: Kind, lines: seq<Line>) returns (r: seq<LineOp>)
    ensures r == ops + All(kind, lines)
  {
    r := ops;
    for k := 0 to |lines|
      invariant r == ops + All(kind, lines[..k])
    {
      assert All(kind, lines[..k + 1]) == All(kind, lines[..k]) + [LineOp(kind, lines[k])];
      r := r + [LineOp(kind, lines[k])];
    }
    assert lines[..|lines|] == lines;
  }

  /** One step of the walk, read off two neighbouring cells. */
  lemma WalkUnfolds(a: seq<Line>, b: seq<Line>, i: nat, j: nat)
    requires i < |a| && j < |b|
    ensures Walk(a[i..], b[j..]) ==
            if a[i] == b[j] then [LineOp(Keep, a[i])] + Walk(a[i + 1..], b[j + 1..])
            else if Lcs(a[i + 1..], b[j..]) >= Lcs(a[i..], b[j + 1..]) then
              [LineOp(Remove, a[i])] + Walk(a[i + 1..], b[j..])
            else [LineOp(Add, b[j])] + Walk(a[i..], b[j + 1..])
  {
    assert a[i..][1..] == a[i + 1..] && b[j..][1..] == b[j + 1..];
  }

  lemma Shift(was: seq<LineOp>, rest: seq<LineOp>)
    requires rest != []
    ensures (was + [rest[0]]) + rest[1..] == was + rest
  {
  }

  /** One op of the walk, and where it goes on. */
  method WalkStep(a: seq<Line>, b: seq<Line>, lcs: array2<int32>, i: nat, j: nat) returns (op: LineOp, p: nat, q: nat)
    requires i < |a| && j < |b|
    requires lcs.Length0 == |a| + 1 && lcs.Length1 == |b| + 1
    requires forall i, j :: 0 <= i <= |a| && 0 <= j <= |b| ==> lcs[i, j] as int == Lcs(a[i..], b[j..])
    ensures i <= p <= |a| && j <= q <= |b| && i + j < p + q
    ensures Walk(a[i..], b[j..]) == [op] + Walk(a[p..], b[q..])
  {
    hide Walk, Lcs;
    WalkUnfolds(a, b, i, j);
    if a[i] == b[j] {
      return LineOp(Keep, a[i]), i + 1, j + 1;
    }
    if lcs[i + 1, j] >= lcs[i, j + 1] {
      return LineOp(Remove, a[i]), i + 1, j;
    }
    return LineOp(Add, b[j]), i, j + 1;
  }

  /** The walk of the filled table, from its near corner. */
  method WalkTable(a: seq<Line>, b: seq<Line>, lcs: array2<int32>) returns (ops: seq<LineOp>)
    requires lcs.Length0 == |a| + 1 && lcs.Length1 == |b| + 1
    requires forall i, j :: 0 <= i <= |a| && 0 <= j <= |b| ==> lcs[i, j] as int == Lcs(a[i..], b[j..])
    ensures ops == Walk(a, b)
  {
    hide Walk, Lcs, All;
    ops := [];
    var i, j := 0, 0;
    assert a[0..] == a && b[0..] == b && [] + Walk(a, b) == Walk(a, b);
    while i < |a| && j < |b|
      invariant 0 <= i <= |a| && 0 <= j <= |b|
      invariant ops + Walk(a[i..], b[j..]) == Walk(a, b)
      decreases |a| - i + |b| - j
    {
      ghost var was, rest := ops, Walk(a[i..], b[j..]);
      var op: LineOp;
      op, i, j := WalkStep(a, b, lcs, i, j);
      ops := ops + [op];
      Shift(was, rest);
    }
    WalkEnds(a[i..], b[j..]);
    ghost var was := ops;
    ops := Append(ops, Remove, a[i..]);
    ops := Append(ops, Add, b[j..]);
    assert ops == was + (All(Remove, a[i..]) + All(Add, b[j..]));
  }

  lemma {:induction false} WalkEnds(a: seq<Line>, b: seq<Line>)
    requires a == [] || b == []
    ensures Walk(a, b) == All(Remove, a) + All(Add, b)
  {
  }

  method MiddleOps(a: seq<Line>, b: seq<Line>) returns (ops: seq<LineOp>)
    ensures ops == Middle(a, b)
  {
    if |a| * |b| == 0 || |a| * |b| > MAX_DIFF_CELLS {
      ops := Append([], Remove, a);
      ops := Append(ops, Add, b);
      assert |a| * |b| == 0 ==> |a| == 0 || |b| == 0;
    } else {
      var lcs := FillTable(a, b);
      ops := WalkTable(a, b, lcs);
    }
  }

  // ---- the whole script ----

  /** How many lines the versions share at the front, when the first n are known to agree. */
  function HeadFrom(a: seq<Line>, b: seq<Line>, n: nat): (h: nat)
    requires n <= |a| && n <= |b|
    ensures n <= h <= |a| && h <= |b|
    decreases |a| - n
  {
    if n < |a| && n < |b| && a[n] == b[n] then HeadFrom(a, b, n + 1) else n
  }

  /** The same at the back, past the first h lines of each. */
  function TailFrom(a: seq<Line>, b: seq<Line>, h: nat, n: nat): (t: nat)
    requires h + n <= |a| && h + n <= |b|
    ensures n <= t && h + t <= |a| && h + t <= |b|
    decreases |a| - n
  {
    if n < |a| - h && n < |b| - h && a[|a| - 1 - n] == b[|b| - 1 - n] then TailFrom(a, b, h, n + 1) else n
  }

  lemma {:induction false} HeadAgrees(a: seq<Line>, b: seq<Line>, n: nat)
    requires n <= |a| && n <= |b|
    ensures var h := HeadFrom(a, b, n); a[n..h] == b[n..h]
    decreases |a| - n
  {
    if n < |a| && n < |b| && a[n] == b[n] {
      HeadAgrees(a, b, n + 1);
      var h := HeadFrom(a, b, n + 1);
      assert a[n..h] == [a[n]] + a[n + 1..h] && b[n..h] == [b[n]] + b[n + 1..h];
    }
  }

  lemma {:induction false} TailLine(a: seq<Line>, b: seq<Line>, h: nat, n: nat, k: nat)
    requires h + n <= |a| && h + n <= |b| && n <= k < TailFrom(a, b, h, n)
    ensures a[|a| - 1 - k] == b[|b| - 1 - k]
    decreases k - n
  {
    if n < k {
      TailLine(a, b, h, n + 1, k);
    }
  }

  lemma {:induction false} TailAgrees(a: seq<Line>, b: seq<Line>, h: nat, n: nat)
    requires h + n <= |a| && h + n <= |b|
    ensures var t := TailFrom(a, b, h, n); a[|a| - t..|a| - n] == b[|b| - t..|b| - n]
  {
    hide TailFrom;
    var t := TailFrom(a, b, h, n);
    var x, y := a[|a| - t..|a| - n], b[|b| - t..|b| - n];
    forall j | 0 <= j < |x|
      ensures x[j] == y[j]
    {
      TailLine(a, b, h, n, t - 1 - j);
    }
  }

  /** The script: common ends kept, the middle matched. */
  function Script(a: seq<Line>, b: seq<Line>): seq<LineOp> {
    var h := HeadFrom(a, b, 0);
    var t := TailFrom(a, b, h, 0);
    All(Keep, a[..h]) + Middle(a[h..|a| - t], b[h..|b| - t]) + All(Keep, a[|a| - t..])
  }

  /** What lies between the common ends is small enough for the table. */
  predicate Tabled(a: seq<Line>, b: seq<Line>) {
    var h := HeadFrom(a, b, 0);
    var t := TailFrom(a, b, h, 0);
    (|a| - t - h) * (|b| - t - h) <= MAX_DIFF_CELLS
  }

  method CommonHead(a: seq<Line>, b: seq<Line>) returns (head: nat)
    ensures head == HeadFrom(a, b, 0)
  {
    head := 0;
    while head < |a| && head < |b| && a[head] == b[head]
      invariant head <= |a| && head <= |b|
      invariant HeadFrom(a, b, head) == HeadFrom(a, b, 0)
    {
      head := head + 1;
    }
  }

  method CommonTail(a: seq<Line>, b: seq<Line>, head: nat) returns (tail: nat)
    requires head <= |a| && head <= |b|
    ensures tail == TailFrom(a, b, head, 0)
  {
    tail := 0;
    while tail < |a| - head && tail < |b| - head && a[|a| - 1 - tail] == b[|b| - 1 - tail]
      invariant tail <= |a| - head && tail <= |b| - head
      invariant TailFrom(a, b, head, tail) == TailFrom(a, b, head, 0)
    {
      tail := tail + 1;
    }
  }

  method LineOps(a: seq<Line>, b: seq<Line>) returns (ops: seq<LineOp>)
    ensures ops == Script(a, b)
  {
    hide Middle, All, HeadFrom, TailFrom;
    var head := CommonHead(a, b);
    var tail := CommonTail(a, b, head);
    ops := Append([], Keep, a[..head]);
    assert ops == All(Keep, a[..head]);
    var middle := MiddleOps(a[head..|a| - tail], b[head..|b| - tail]);
    ops := Append(ops + middle, Keep, a[|a| - tail..]);
  }

  /** Three parts in a row. */
  lemma {:induction false} ThreeParts(x: seq<LineOp>, y: seq<LineOp>, z: seq<LineOp>)
    ensures OldOf(x + y + z) == OldOf(x) + OldOf(y) + OldOf(z)
    ensures NewOf(x + y + z) == NewOf(x) + NewOf(y) + NewOf(z)
    ensures Count(x + y + z, Keep) == Count(x, Keep) + Count(y, Keep) + Count(z, Keep)
  {
    OpsConcat(x, y);
    OpsConcat(x + y, z);
    CountConcat(x, y, Keep);
    CountConcat(x + y, z, Keep);
  }

  /** Trimming the common ends first costs nothing. */
  lemma {:induction false} LcsOfTrimmed(h: seq<Line>, a: seq<Line>, b: seq<Line>, t: seq<Line>)
    ensures Lcs(h + a + t, h + b + t) == |h| + Lcs(a, b) + |t|
  {
    LcsTail(h + a, h + b, t);
    LcsHead(h, a, b);
  }

  lemma SplitInThree(a: seq<Line>, i: nat, j: nat)
    requires i <= j <= |a|
    ensures a == a[0..i] + a[i..j] + a[j..|a|]
  {
  }

  /** Both versions are their common ends with a middle of their own between. */
  lemma CommonEnds(a: seq<Line>, b: seq<Line>) returns (f: seq<Line>, ma: seq<Line>, mb: seq<Line>, k: seq<Line>)
    ensures a == f + ma + k && b == f + mb + k
    ensures Script(a, b) == All(Keep, f) + Middle(ma, mb) + All(Keep, k)
    ensures Tabled(a, b) <==> |ma| * |mb| <= MAX_DIFF_CELLS
  {
    hide HeadFrom, TailFrom, Middle, All;
    var h := HeadFrom(a, b, 0);
    var t := TailFrom(a, b, h, 0);
    f, ma, mb, k := a[..h], a[h..|a| - t], b[h..|b| - t], a[|a| - t..];
    HeadAgrees(a, b, 0);
    TailAgrees(a, b, h, 0);
    assert f == a[0..h] == b[0..h] && k == a[|a| - t..|a| - 0] == b[|b| - t..|b| - 0];
    SplitInThree(a, h, |a| - t);
    SplitInThree(b, h, |b| - t);
  }

  /** The script projects back to both versions, whatever their size. */
  lemma ScriptTurns(a: seq<Line>, b: seq<Line>)
    ensures Turns(Script(a, b), a, b)
  {
    hide Middle, All, Script, Without;
    var f, ma, mb, k := CommonEnds(a, b);
    AllOps(Keep, f);
    AllOps(Keep, k);
    MiddleTurns(ma, mb);
    ThreeParts(All(Keep, f), Middle(ma, mb), All(Keep, k));
  }

  /** And it keeps as many lines as the two have in common, when the middle fits the table. */
  lemma {:induction false} ScriptKeeps(a: seq<Line>, b: seq<Line>)
    requires Tabled(a, b)
    ensures Count(Script(a, b), Keep) == Lcs(a, b)
  {
    hide Middle, All, Script, Without, Lcs, Count, Tabled;
    var f, ma, mb, k := CommonEnds(a, b);
    LcsOfTrimmed(f, ma, mb, k);
    AllOps(Keep, f);
    AllOps(Keep, k);
    MiddleKeeps(ma, mb);
    ThreeParts(All(Keep, f), Middle(ma, mb), All(Keep, k));
  }

  lemma {:induction false} ScriptSize(ops: seq<LineOp>)
    ensures |OldOf(ops)| == Count(ops, Keep) + Count(ops, Remove)
    ensures |NewOf(ops)| == Count(ops, Keep) + Count(ops, Add)
    ensures |ops| == Count(ops, Keep) + Count(ops, Remove) + Count(ops, Add)
  {
    if ops != [] {
      ScriptSize(ops[1..]);
    }
  }

  /** No script that does the same work changes fewer lines. */
  lemma {:induction false} ScriptIsShortest(a: seq<Line>, b: seq<Line>, other: seq<LineOp>)
    requires Tabled(a, b)
    requires Turns(other, a, b)
    ensures Count(Script(a, b), Keep) >= Count(other, Keep)
    ensures |Script(a, b)| <= |other|
    ensures Count(Script(a, b), Remove) + Count(Script(a, b), Add) <= Count(other, Remove) + Count(other, Add)
  {
    ScriptTurns(a, b);
    ScriptKeeps(a, b);
    KeptAtMostLcs(other);
    ScriptSize(other);
    ScriptSize(Script(a, b));
  }
}
