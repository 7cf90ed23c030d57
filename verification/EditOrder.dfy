/** How a script orders what it removes and adds, where it keeps, and what it does past the table. */
module EditOrder {
  import opened EditScript

  /** Nothing is removed right after something was added: where lines are replaced the old ones
      come first. */
  ghost predicate RemovedFirst(ops: seq<LineOp>) {
    forall i :: 0 <= i && i + 1 < |ops| && ops[i].kind.Add? ==> !ops[i + 1].kind.Remove?
  }

  lemma {:induction false} AllAre(kind: Kind, lines: seq<Line>)
    ensures |All(kind, lines)| == |lines|
    ensures forall i :: 0 <= i < |lines| ==> All(kind, lines)[i] == LineOp(kind, lines[i])
  {
  }

  lemma {:induction false} OneThenOtherOrdered(a: seq<Line>, b: seq<Line>)
    ensures RemovedFirst(All(Remove, a) + All(Add, b))
  {
    AllAre(Remove, a);
    AllAre(Add, b);
  }

  /** The walk adds only where removing would cost a common line, so it does not remove next. */
  lemma {:induction false} WalkOrdered(a: seq<Line>, b: seq<Line>)
    ensures RemovedFirst(Walk(a, b))
    decreases |a| + |b|
  {
    hide All;
    if a == [] || b == [] {
      OneThenOtherOrdered(a, b);
    } else {
      NextOrdered(a, b);
    }
  }

  lemma {:induction false} NextOrdered(a: seq<Line>, b: seq<Line>)
    requires a != [] && b != []
    ensures RemovedFirst(Walk(a, b))
    decreases |a| + |b|, 0
  {
    hide All, Lcs;
    if a[0] == b[0] {
      WalkOrdered(a[1..], b[1..]);
    } else if Lcs(a[1..], b) >= Lcs(a, b[1..]) {
      WalkOrdered(a[1..], b);
    } else {
      WalkOrdered(a, b[1..]);
      AddedBeforeNoRemoval(a, b);
    }
  }

  lemma {:induction false} AddedBeforeNoRemoval(a: seq<Line>, b: seq<Line>)
    requires a != [] && b != [] && a[0] != b[0] && Lcs(a[1..], b) < Lcs(a, b[1..])
    ensures var w := Walk(a, b[1..]); w == [] || !w[0].kind.Remove?
  {
    assert b == [b[0]] + b[1..];
    LcsStep(b[0], b[1..], a[1..]);
  }

  /** In every script. */
  lemma {:induction false} ScriptRemovesFirst(a: seq<Line>, b: seq<Line>)
    ensures RemovedFirst(Script(a, b))
  {
    hide Middle, All, Script;
    var f, x, y, k := CommonEnds(a, b);
    MiddleOrdered(x, y);
    AllAre(Keep, f);
    AllAre(Keep, k);
  }

  lemma {:induction false} MiddleOrdered(a: seq<Line>, b: seq<Line>)
    ensures RemovedFirst(Middle(a, b))
  {
    OneThenOtherOrdered(a, b);
    WalkOrdered(a, b);
  }

  // ---- how far the common ends go ----

  lemma {:induction false} HeadAtLeast(f: seq<Line>, a: seq<Line>, b: seq<Line>, n: nat)
    requires n <= |f|
    ensures |f| <= HeadFrom(f + a, f + b, n)
    decreases |f| - n
  {
    if n < |f| {
      HeadAtLeast(f, a, b, n + 1);
    }
  }

  lemma {:induction false} HeadExactly(f: seq<Line>, a: seq<Line>, b: seq<Line>, n: nat)
    requires n <= |f| && (a == [] || b == [] || a[0] != b[0])
    ensures |f| == HeadFrom(f + a, f + b, n)
    decreases |f| - n
  {
    if n < |f| {
      HeadExactly(f, a, b, n + 1);
    }
  }

  /** Past h lines the tails agree for the |k| lines at the end, or until a version runs out. */
  lemma {:induction false} TailAtLeast(a: seq<Line>, b: seq<Line>, k: seq<Line>, h: nat, n: nat)
    requires h + n <= |a + k| && h + n <= |b + k|
    ensures var t := TailFrom(a + k, b + k, h, n); |k| <= t || h + t == |a + k| || h + t == |b + k|
    decreases |a + k| - n
  {
    var s, u := a + k, b + k;
    if n < |s| - h && n < |u| - h && s[|s| - 1 - n] == u[|u| - 1 - n] {
      TailAtLeast(a, b, k, h, n + 1);
    }
  }

  lemma {:induction false} TailExactly(a: seq<Line>, b: seq<Line>, k: seq<Line>, h: nat, n: nat)
    requires h <= |a| && h <= |b| && n <= |k|
    requires h < |a| && h < |b| ==> a[|a| - 1] != b[|b| - 1]
    ensures |k| == TailFrom(a + k, b + k, h, n)
    decreases |k| - n
  {
    var s, u := a + k, b + k;
    if n < |k| {
      assert s[|s| - 1 - n] == k[|k| - 1 - n] == u[|u| - 1 - n];
      TailExactly(a, b, k, h, n + 1);
    }
  }

  lemma {:induction false} SmallerProduct(m: nat, n: nat, p: nat, q: nat)
    requires m == 0 || n == 0 || (m <= p && n <= q)
    ensures m * n <= p * q
  {
    if m > 0 && n > 0 {
      assert m * n <= p * n;
      assert p * n <= p * q;
    }
  }

  /** However two versions are cut into common ends and middles: with no more than 250 000 pairs of
      lines between the ends, the script keeps all the lines they have in common. */
  lemma {:induction false} KeepsAllWhenSmall(f: seq<Line>, a: seq<Line>, b: seq<Line>, k: seq<Line>)
    requires |a| * |b| <= 250_000
    ensures Count(Script(f + a + k, f + b + k), Keep) == |f| + Lcs(a, b) + |k|
  {
    hide Script, Lcs, Count;
    CutIsTabled(f, a, b, k);
    ScriptKeeps(f + a + k, f + b + k);
    LcsOfTrimmed(f, a, b, k);
  }

  lemma {:induction false} CutIsTabled(f: seq<Line>, a: seq<Line>, b: seq<Line>, k: seq<Line>)
    requires |a| * |b| <= 250_000
    ensures Tabled(f + a + k, f + b + k)
  {
    hide HeadFrom, TailFrom;
    var s, u := f + a + k, f + b + k;
    var h := HeadFrom(s, u, 0);
    var t := TailFrom(s, u, h, 0);
    assert s == f + (a + k) && u == f + (b + k);
    HeadAtLeast(f, a + k, b + k, 0);
    TailAtLeast(f + a, f + b, k, h, 0);
    SmallerProduct(|s| - t - h, |u| - t - h, |a|, |b|);
  }

  /** Past that, all that stands between the common ends is removed, and then all of the other
      added. */
  lemma {:induction false} ReplacesAllWhenLarge(f: seq<Line>, a: seq<Line>, b: seq<Line>, k: seq<Line>)
    requires |a| * |b| > 250_000 && a[0] != b[0] && a[|a| - 1] != b[|b| - 1]
    ensures Script(f + a + k, f + b + k) == All(Keep, f) + (All(Remove, a) + All(Add, b)) + All(Keep, k)
  {
    hide HeadFrom, TailFrom, All;
    var s, u := f + a + k, f + b + k;
    assert s == f + (a + k) && u == f + (b + k);
    HeadExactly(f, a + k, b + k, 0);
    TailExactly(f + a, f + b, k, |f|, 0);
    assert s[..|f|] == f && s[|f|..|s| - |k|] == a && u[|f|..|u| - |k|] == b && s[|s| - |k|..] == k;
  }
}
