/** Which lines a patch shows, how it groups them, and how many it says were added and removed. */
module HunkShape {
  import opened EditScript
  import opened Hunks
  import opened Text

  import opened DiffNumbers

  /** A change stands at most three lines from the k-th. */
  ghost predicate Near(ops: seq<LineOp>, k: int) {
    exists i :: 0 <= i < |ops| && ops[i].kind != Keep && -3 <= i - k <= 3
  }

  /** The hunk is the ops from at on, and each of them is near a change. */
  ghost predicate HoldsAt(h: Hunk, ops: seq<LineOp>, at: nat) {
    && at < at + |h.body| <= |ops| && h.body == ops[at..at + |h.body|]
    && forall k :: at <= k < at + |h.body| ==> Near(ops, k)
  }

  /** Each hunk is the ops from its place on, all of them near a change, and at least one op stands
      between it and the next. */
  ghost predicate StandAt(hunks: seq<Hunk>, ops: seq<LineOp>, at: seq<nat>, from: nat) {
    && |at| == |hunks|
    && (forall j :: 0 <= j < |at| ==> from <= at[j] && HoldsAt(hunks[j], ops, at[j]))
    && (forall j :: 0 <= j && j + 1 < |at| ==> at[j] + |hunks[j].body| < at[j + 1])
  }

  /** The k-th op is in some hunk. */
  ghost predicate InSome(hunks: seq<Hunk>, at: seq<nat>, k: int)
    requires |at| == |hunks|
  {
    exists j :: 0 <= j < |at| && at[j] <= k < at[j] + |hunks[j].body|
  }

  /** Every op near a change is in a hunk. */
  ghost predicate ShowAll(hunks: seq<Hunk>, ops: seq<LineOp>, at: seq<nat>, from: nat)
    requires |at| == |hunks|
  {
    forall k :: from <= k < |ops| && Near(ops, k) ==> InSome(hunks, at, k)
  }

  lemma {:induction false} NearIsShown(ops: seq<LineOp>, k: int)
    ensures Near(ops, k) <==> Shown(ops, k)
  {
  }

  /** The hunks show exactly the lines that stand within three of a change, and join what is shown
      without a gap in one hunk. */
  lemma {:induction false} HunksShow(ops: seq<LineOp>, i: nat, oldLine: nat, newLine: nat) returns (at: seq<nat>)
    requires i <= |ops|
    ensures |at| == |HunksFrom(ops, i, oldLine, newLine)|
    ensures StandAt(HunksFrom(ops, i, oldLine, newLine), ops, at, i)
    ensures ShowAll(HunksFrom(ops, i, oldLine, newLine), ops, at, i)
    decreases |ops| - i
  {
    hide Shown, Near, InSome, StandAt, ShowAll;
    if i == |ops| {
      at := [];
      NothingLeft(ops, i);
    } else if !Shown(ops, i) {
      at := HunksShow(ops, i + 1, Advance(oldLine), Advance(newLine));
      NearIsShown(ops, i);
      OneHidden(HunksFrom(ops, i, oldLine, newLine), ops, at, i);
    } else {
      var end := RunEnd(ops, i);
      var h := HunkOf(ops[i..end], oldLine, newLine);
      var more := HunksFrom(ops, end, AdvanceBy(oldLine, h.oldCount), AdvanceBy(newLine, h.newCount));
      var rest := HunksShow(ops, end, AdvanceBy(oldLine, h.oldCount), AdvanceBy(newLine, h.newCount));
      at := [i] + rest;
      forall k | i <= k < end
        ensures Near(ops, k)
      {
        NearIsShown(ops, k);
      }
      NearIsShown(ops, end);
      FirstStands(h, more, ops, i, end, rest);
      FirstShows(h, more, ops, i, end, rest);
    }
  }

  lemma NothingLeft(ops: seq<LineOp>, i: nat)
    requires i == |ops|
    ensures StandAt([], ops, [], i) && ShowAll([], ops, [], i)
  {
  }

  lemma OneHidden(hunks: seq<Hunk>, ops: seq<LineOp>, at: seq<nat>, i: nat)
    requires i < |ops| && !Near(ops, i)
    requires StandAt(hunks, ops, at, i + 1) && ShowAll(hunks, ops, at, i + 1)
    ensures StandAt(hunks, ops, at, i) && ShowAll(hunks, ops, at, i)
  {
    hide Near, InSome;
  }

  lemma FirstStands(h: Hunk, more: seq<Hunk>, ops: seq<LineOp>, i: nat, end: nat, rest: seq<nat>)
    requires i < end <= |ops| && h.body == ops[i..end] && !(end < |ops| && Near(ops, end))
    requires forall k :: i <= k < end ==> Near(ops, k)
    requires StandAt(more, ops, rest, end)
    ensures StandAt([h] + more, ops, [i] + rest, i)
  {
    assert HoldsAt(h, ops, i);
    if rest != [] {
      NotTouching(more[0], ops, rest[0], end);
    }
    hide Near, HoldsAt;
    var hunks, at := [h] + more, [i] + rest;
    forall j | 0 <= j < |at|
      ensures i <= at[j] && HoldsAt(hunks[j], ops, at[j])
    {
      if j > 0 {
        assert at[j] == rest[j - 1] && hunks[j] == more[j - 1];
      }
    }
    forall j | 0 <= j && j + 1 < |at|
      ensures at[j] + |hunks[j].body| < at[j + 1]
    {
      if j > 0 {
        assert at[j] == rest[j - 1] && at[j + 1] == rest[j] && hunks[j] == more[j - 1];
      }
    }
  }

  lemma NotTouching(h: Hunk, ops: seq<LineOp>, at: nat, end: nat)
    requires HoldsAt(h, ops, at) && end <= at && !(end < |ops| && Near(ops, end))
    ensures end < at
  {
    hide Near;
    assert Near(ops, at);
  }

  lemma FirstShows(h: Hunk, more: seq<Hunk>, ops: seq<LineOp>, i: nat, end: nat, rest: seq<nat>)
    requires i < end <= |ops| && |h.body| == end - i && |rest| == |more|
    requires ShowAll(more, ops, rest, end)
    ensures ShowAll([h] + more, ops, [i] + rest, i)
  {
    hide Near;
    var hunks, at := [h] + more, [i] + rest;
    forall k | i <= k < |ops| && Near(ops, k)
      ensures InSome(hunks, at, k)
    {
      if k < end {
        assert at[0] <= k < at[0] + |hunks[0].body|;
      } else {
        assert InSome(more, rest, k);
        var j :| 0 <= j < |rest| && rest[j] <= k < rest[j] + |more[j].body|;
        assert at[j + 1] == rest[j] && hunks[j + 1] == more[j];
      }
    }
  }

  // ---- what the patch says was added and removed ----

  /** Each change adds the lines of its new text that its script does not keep, and removes those of its
      old text. */
  lemma {:induction false} AddedAndRemoved(c: EditChange)
    ensures var kept := Count(Script(SplitLines(c.before), SplitLines(c.after)), Keep);
            && OpsOfKind(c, Add) + kept == |SplitLines(c.after)|
            && OpsOfKind(c, Remove) + kept == |SplitLines(c.before)|
  {
    hide Script, Count;
    var a, b := SplitLines(c.before), SplitLines(c.after);
    ScriptTurns(a, b);
    ScriptSize(Script(a, b));
  }

  lemma {:induction false} GrownByOne(changes: seq<EditChange>, c: EditChange)
    ensures Grown(changes + [c]) == Grown(changes) + |SplitLines(c.after)| - |SplitLines(c.before)|
  {
    hide SplitLines;
    if changes == [] {
      assert [] + [c] == [c];
    } else {
      assert (changes + [c])[1..] == changes[1..] + [c];
      GrownByOne(changes[1..], c);
    }
  }

  /** What a patch says was added, less what it says was removed, is what its changes grew by. */
  lemma {:induction false} TalliesBalance(changes: seq<EditChange>, i: nat)
    requires i <= |changes|
    ensures Tally(changes, i, Add) - Tally(changes, i, Remove) == Grown(changes[..i])
  {
    hide OpsOfKind, SplitLines, Script, Count, Grown;
    if i == 0 {
      NothingGrown();
      assert changes[..0] == [];
    } else {
      TalliesBalance(changes, i - 1);
      AddedAndRemoved(changes[i - 1]);
      GrownByOne(changes[..i - 1], changes[i - 1]);
      assert changes[..i] == changes[..i - 1] + [changes[i - 1]];
      TallyNext(changes, i, Add);
      TallyNext(changes, i, Remove);
    }
  }

  lemma {:induction false} NothingGrown()
    ensures Grown([]) == 0
  {
  }

  lemma {:induction false} TallyNext(changes: seq<EditChange>, i: nat, kind: Kind)
    requires 0 < i <= |changes|
    ensures Tally(changes, i, kind) == Tally(changes, i - 1, kind) + OpsOfKind(changes[i - 1], kind)
  {
    hide OpsOfKind;
  }
}
